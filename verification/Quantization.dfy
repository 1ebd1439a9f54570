// What int8 storage costs and what it does not: the code clamp never acts, each component moves
// by at most half a step, and searching codes is searching the dequantized vectors.
module Quantization {
  import opened Cosine
  import IdGenerator
  import opened Shortlist
  import opened VectorIndex

  lemma RoundWithinHalf(x: real)
    ensures Abs(x - Round(x) as real) <= 0.5
    ensures -127.0 <= x <= 127.0 ==> -127 <= Round(x) <= 127
  {
  }

  lemma {:induction false} MaxAbsBounds(v: Vector)
    ensures MaxAbs(v) >= 0.0
    ensures forall i :: 0 <= i < |v| ==> Abs(v[i]) <= MaxAbs(v)
  {
    if v != [] {
      MaxAbsBounds(v[..|v| - 1]);
      assert forall i :: 0 <= i < |v| - 1 ==> v[i] == v[..|v| - 1][i];
    }
  }

  // Divided by the scale, every component lies in the range of the codes.
  lemma ComponentInRange(v: Vector, s: real, i: nat)
    requires i < |v| && s == ScaleOf(v)
    ensures -127.0 <= v[i] / s <= 127.0
  {
    MaxAbsBounds(v);
    if MaxAbs(v) > 0.0 {
      ScaledRange(v[i], MaxAbs(v), s, v[i] / s);
    }
  }

  lemma ScaledRange(x: real, m: real, s: real, q: real)
    requires -m <= x <= m && s > 0.0 && s * 127.0 == m && q == x / s
    ensures -127.0 <= q <= 127.0
  {
    QuotientTimes(x, s, q);
    QuotientBound(q, s);
  }

  lemma QuotientBound(q: real, s: real)
    requires s > 0.0 && -(s * 127.0) <= q * s <= s * 127.0
    ensures -127.0 <= q <= 127.0
  {
    if q > 127.0 {
      PositiveProduct(q - 127.0, s, (q - 127.0) * s);
    } else if q < -127.0 {
      PositiveProduct(-127.0 - q, s, (-127.0 - q) * s);
    }
  }

  // Quantizing one component: the clamp is idle and the error is at most half the scale.
  lemma StoredComponent(x: Vector, i: nat, s: real)
    requires i < |x| && s == ScaleOf(x)
    ensures CodesOf(x)[i] == Round(x[i] / s)
    ensures -(s / 2.0) <= x[i] - Stored(x)[i] <= s / 2.0
  {
    ComponentInRange(x, s, i);
    StoredIsScaledCode(x, i, s);
    CodeErrorAt(x[i], s, x[i] / s, CodesOf(x)[i], Stored(x)[i]);
  }

  lemma StoredIsScaledCode(x: Vector, i: nat, s: real)
    requires i < |x| && s == ScaleOf(x)
    ensures CodesOf(x)[i] == ClampCode(Round(x[i] / s))
    ensures Stored(x)[i] == s * CodesOf(x)[i] as real
  {
  }

  lemma CodeErrorAt(x: real, s: real, q: real, c: int, y: real)
    requires s > 0.0 && q == x / s && -127.0 <= q <= 127.0 && c == ClampCode(Round(q)) && y == s * c as real
    ensures c == Round(q)
    ensures -(s / 2.0) <= x - y <= s / 2.0
  {
    RoundWithinHalf(q);
    QuotientTimes(x, s, q);
    HalfStep(q, c as real, s, x);
  }

  lemma QuotientTimes(x: real, s: real, q: real)
    requires s > 0.0 && q == x / s
    ensures q * s == x
  {
  }

  lemma HalfStep(q: real, c: real, s: real, x: real)
    requires s > 0.0 && x == q * s && -0.5 <= q - c <= 0.5
    ensures Abs(x - s * c) <= s / 2.0
  {
    var d := q - c;
    assert x - s * c == d * s;
    NonNegativeProduct(0.5 - d, s, (0.5 - d) * s);
    NonNegativeProduct(d + 0.5, s, (d + 0.5) * s);
  }

  function SumAbs(v: Vector): real {
    if v == [] then 0.0 else SumAbs(v[..|v| - 1]) + Abs(v[|v| - 1])
  }

  // A perturbation of every component by at most e moves a dot product by at most e * ||q||_1.
  lemma {:induction false} DotPerturbed(q: Vector, x: Vector, y: Vector, e: real)
    requires |q| == |x| == |y|
    requires forall i :: 0 <= i < |x| ==> -e <= x[i] - y[i] <= e
    ensures Dot(q, x) - Dot(q, y) <= e * SumAbs(q)
  {
    if |q| > 0 {
      var n := |q| - 1;
      DotPerturbed(q[..n], x[..n], y[..n], e);
      TermPerturbed(q[n], x[n], y[n], e);
      Distribute(e, SumAbs(q[..n]), Abs(q[n]));
    }
  }

  lemma Distribute(e: real, m: real, n: real)
    ensures e * (m + n) == e * m + e * n
  {
  }

  lemma TermPerturbed(q: real, x: real, y: real, e: real)
    requires -e <= x - y <= e
    ensures q * x - q * y <= e * Abs(q)
  {
    var d := x - y;
    assert q * x - q * y == q * d;
    if q >= 0.0 {
      NonNegativeProduct(q, e - d, q * (e - d));
    } else {
      NonNegativeProduct(-q, e + d, -q * (e + d));
    }
  }

  function Stored(x: Vector): (y: Vector)
    ensures |y| == |x|
  {
    Scaled(ScaleOf(x), Reals(CodesOf(x)))
  }

  ghost predicate Close(x: Vector, y: Vector, e: real) {
    |x| == |y| && forall i :: 0 <= i < |x| ==> -e <= x[i] - y[i] <= e
  }

  // Each component is stored to within half a step.
  lemma StoredClose(x: Vector)
    ensures Close(x, Stored(x), ScaleOf(x) / 2.0)
  {
    forall i | 0 <= i < |x| ensures -(ScaleOf(x) / 2.0) <= x[i] - Stored(x)[i] <= ScaleOf(x) / 2.0 {
      StoredComponent(x, i, ScaleOf(x));
    }
  }

  // ---- The scale, said without it

  // No component of v is larger than the one in place i.
  ghost predicate Largest(v: Vector, i: nat) {
    i < |v| && forall j :: 0 <= j < |v| ==> Abs(v[j]) <= Abs(v[i])
  }

  lemma MaxAbsAttained(v: Vector, i: nat)
    requires Largest(v, i)
    ensures MaxAbs(v) == Abs(v[i])
  {
    MaxAbsBounds(v);
    MaxAbsWithin(v, Abs(v[i]));
  }

  lemma {:induction false} MaxAbsWithin(v: Vector, m: real)
    requires m >= 0.0 && forall j :: 0 <= j < |v| ==> Abs(v[j]) <= m
    ensures MaxAbs(v) <= m
  {
    if v != [] {
      MaxAbsWithin(v[..|v| - 1], m);
    }
  }

  lemma WholeQuotient(x: real, s: real)
    requires s > 0.0 && (x == 127.0 * s || x == -127.0 * s)
    ensures x / s == if x > 0.0 then 127.0 else -127.0
  {
  }

  // The largest component of a non-zero vector takes the largest code, with its sign.
  lemma LargestCode(v: Vector, i: nat)
    requires Largest(v, i) && v[i] != 0.0
    ensures CodesOf(v)[i] == if v[i] > 0.0 then 127 else -127
  {
    MaxAbsAttained(v, i);
    StoredIsScaledCode(v, i, ScaleOf(v));
    WholeQuotient(v[i], ScaleOf(v));
  }

  // Every component is stored to within a 254th of the largest.
  lemma StoredWithin(v: Vector, i: nat, j: nat)
    requires Largest(v, i) && j < |v|
    ensures 254.0 * Abs(v[j] - Stored(v)[j]) <= Abs(v[i])
  {
    MaxAbsAttained(v, i);
    StoredComponent(v, j, ScaleOf(v));
    if v[i] == 0.0 {
      ZeroStored(v, j);
    }
  }

  lemma ZeroStored(v: Vector, j: nat)
    requires j < |v| && v[j] == 0.0
    ensures Stored(v)[j] == 0.0
  {
    StoredIsScaledCode(v, j, ScaleOf(v));
  }

  // Halves round away from zero.
  lemma HalvesAway(n: nat)
    ensures Round(n as real + 0.5) == n + 1 && Round(-(n as real) - 0.5) + n == -1
  {
  }

  // The dot product with the original vector and with its stored form differ by at most
  // (scale / 2) * ||q||_1, however long the vectors are.
  lemma StoredDotError(q: Vector, x: Vector)
    requires |q| == |x|
    ensures DotClose(q, x, Stored(x), ScaleOf(x) / 2.0)
  {
    StoredClose(x);
    DotBounds(q, x, Stored(x), ScaleOf(x) / 2.0);
  }

  // The stored form's dot product is the one taken straight from the codes, rescaled.
  lemma StoredDotFromCodes(q: Vector, x: Vector)
    requires |q| == |x|
    ensures Dot(q, Stored(x)) == ScaleOf(x) * Dot(q, Reals(CodesOf(x)))
  {
    DotScaled(ScaleOf(x), q, Reals(CodesOf(x)));
  }

  ghost predicate DotClose(q: Vector, x: Vector, y: Vector, e: real) {
    |q| == |x| == |y| && Abs(Dot(q, x) - Dot(q, y)) <= e * SumAbs(q)
  }

  lemma DotBounds(q: Vector, x: Vector, y: Vector, e: real)
    requires |q| == |x| && Close(x, y, e)
    ensures DotClose(q, x, y, e)
  {
    DotPerturbed(q, x, y, e);
    DotPerturbed(q, y, x, e);
  }

  lemma {:induction false} DotScaled(s: real, q: Vector, v: Vector)
    requires |q| == |v|
    ensures Dot(q, Scaled(s, v)) == s * Dot(q, v)
  {
    if |q| > 0 {
      var n := |q| - 1;
      ScaledPrefix(s, v, n);
      DotScaled(s, q[..n], v[..n]);
      Factor(s, Dot(q[..n], v[..n]), q[n], v[n]);
    }
  }

  lemma ScaledPrefix(s: real, v: Vector, n: nat)
    requires n <= |v|
    ensures Scaled(s, v)[..n] == Scaled(s, v[..n])
  {
    var a, b := Scaled(s, v)[..n], Scaled(s, v[..n]);
    forall i | 0 <= i < n ensures a[i] == b[i] {
      assert v[..n][i] == v[i];
    }
  }

  lemma Factor(s: real, d: real, x: real, y: real)
    ensures s * d + x * (s * y) == s * (d + x * y)
  {
  }

  lemma DotCommutes(a: Vector, b: Vector)
    requires |a| == |b|
    ensures Dot(a, b) == Dot(b, a)
  {
  }

  lemma NormScaled(s: real, v: Vector)
    ensures NormSquared(Scaled(s, v)) == (s * s) * NormSquared(v)
  {
    DotScaled(s, Scaled(s, v), v);
    DotCommutes(Scaled(s, v), v);
    DotScaled(s, v, v);
  }

  // The scale cancels in the cosine.
  lemma ScaleCancels(d: real, p: real, q: real, s: real, sd: real, ssq: real)
    requires s > 0.0 && p > 0.0 && sd == s * d && ssq == (s * s) * q
    ensures CosineOf(sd, p, ssq) == CosineOf(d, p, q)
  {
    var ss := s * s;
    PositiveProduct(s, s, ss);
    if q > 0.0 {
      PositiveProduct(ss, q, ssq);
      PositiveProduct(p, q, p * q);
      PositiveProduct(p, ssq, p * ssq);
      SignedSquareScales(d, s, ss, sd);
      QuotientScales(SignedSquare(d), p, q, ss, SignedSquare(sd), ssq);
    } else {
      NonNegativeProduct(ss, -q, ss * -q);
    }
  }

  lemma QuotientScales(n: real, p: real, q: real, ss: real, n': real, q': real)
    requires p * q > 0.0 && p * q' > 0.0 && n' == n * ss && q' == ss * q
    ensures n' / (p * q') == n / (p * q)
  {
    var m, m', x := p * q, p * q', n / (p * q);
    assert m' == m * ss;
    QuotientTimes(n, m, x);
    assert x * m' == x * m * ss;
    QuotientUnique(n', m', x);
  }

  lemma SignedSquareScales(d: real, s: real, ss: real, sd: real)
    requires s > 0.0 && ss == s * s && sd == s * d
    ensures SignedSquare(sd) == SignedSquare(d) * ss
  {
    if d >= 0.0 {
      NonNegativeProduct(s, d, sd);
      ProductOfSquares(d, s, sd, d * d, ss);
    } else {
      PositiveProduct(s, -d, -sd);
      ProductOfSquares(-d, s, -sd, d * d, ss);
    }
  }

  lemma CodeScoreExact(e: Quantized, query: Vector)
    requires |e.codes| == |query| && e.scale > 0.0 && NormSquared(query) > 0.0
    ensures SignedCosine(query, Dequantize(e).vector) ==
            CosineOf(Dot(query, Reals(e.codes)), NormSquared(query), NormSquared(Reals(e.codes)))
  {
    var c := Reals(e.codes);
    var w := Scaled(e.scale, c);
    DotScaled(e.scale, query, c);
    NormScaled(e.scale, c);
    ScaleCancels(Dot(query, c), NormSquared(query), NormSquared(c), e.scale, Dot(query, w), NormSquared(w));
    assert |query| > 0;
  }

  // Searching the codes and searching the dequantized vectors agree - ids, order and scores -
  // exactly when the query is non-zero or there is nothing to return anyway.
  lemma Int8RefinesExact(entries: seq<Quantized>, dimension: nat, query: Vector, k: nat)
    requires ValidCodes(entries, dimension)
    ensures CodeRanked(entries, dimension, query, k) == Ranked(DequantizeAll(entries), dimension, query, k)
            <==> NormSquared(query) > 0.0 || |query| != dimension || entries == [] || k == 0
  {
    var plain := DequantizeAll(entries);
    if |query| == dimension {
      var scores := Scores(plain, query);
      TopHitsIsTop(scores, k);
      TopSlots(scores, k);
      if NormSquared(query) > 0.0 {
        forall i | 0 <= i < |entries| ensures scores[i] == CodeScores(entries, query)[i] {
          assert entries[i] in entries;
          CodeScoreExact(entries[i], query);
        }
        assert scores == CodeScores(entries, query);
        assert Ids(plain) == QuantizedIds(entries);
      }
    }
  }

  // Quantization happens once per vector, so it commutes with eviction.
  lemma {:induction false} RetentionCommutes(entries: seq<Quantized>, keep: IdGenerator.Id -> bool)
    ensures DequantizeAll(RetainedCodes(entries, keep)) == Retained(DequantizeAll(entries), keep)
  {
    if entries != [] {
      var n := |entries| - 1;
      RetentionCommutes(entries[..n], keep);
      assert DequantizeAll(entries)[..n] == DequantizeAll(entries[..n]);
      assert DequantizeAll(RetainedCodes(entries, keep)) ==
             DequantizeAll(RetainedCodes(entries[..n], keep)) +
             (if keep(entries[n].id) then [Dequantize(entries[n])] else []);
    }
  }
}
