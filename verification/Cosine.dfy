// Cosine similarity over real vectors, represented by its signed square c * |c| so that no
// square root is taken: the map is strictly increasing, so it orders vectors as the cosine does.
module Cosine {

  type Vector = seq<real>

  function Abs(x: real): real {
    if x < 0.0 then -x else x
  }

  function SignedSquare(x: real): real {
    x * Abs(x)
  }

  function Clamp(x: real, lo: real, hi: real): real {
    if x < lo then lo else if x > hi then hi else x
  }

  function Dot(a: Vector, b: Vector): real
    requires |a| == |b|
  {
    if |a| == 0 then 0.0
    else Dot(a[..|a| - 1], b[..|b| - 1]) + a[|a| - 1] * b[|b| - 1]
  }

  function NormSquared(a: Vector): real {
    Dot(a, a)
  }

  // dot / (sqrt(p) * sqrt(q)), squared with its sign kept and clamped to [-1, 1].
  function CosineOf(dot: real, p: real, q: real): real {
    if p <= 0.0 || q <= 0.0 then 0.0
    else
      PositiveProduct(p, q, p * q);
      Clamp(SignedSquare(dot) / (p * q), -1.0, 1.0)
  }

  function SignedCosine(a: Vector, b: Vector): real {
    if |a| != |b| || |a| == 0 then 0.0
    else CosineOf(Dot(a, b), NormSquared(a), NormSquared(b))
  }

  lemma PositiveProduct(x: real, y: real, m: real)
    requires x > 0.0 && y > 0.0 && m == x * y
    ensures m > 0.0
  {
  }

  lemma NonNegativeProduct(x: real, y: real, m: real)
    requires x >= 0.0 && y >= 0.0 && m == x * y
    ensures m >= 0.0
  {
  }

  lemma DotStep(a: Vector, b: Vector, i: nat)
    requires i < |a| == |b|
    ensures Dot(a[..i + 1], b[..i + 1]) == Dot(a[..i], b[..i]) + a[i] * b[i]
  {
    assert a[..i + 1][..i] == a[..i] && b[..i + 1][..i] == b[..i];
  }

  method CosineSimilarity(a: Vector, b: Vector) returns (c: real)
    ensures c == SignedCosine(a, b)
  {
    if |a| != |b| || |a| == 0 {
      return 0.0;
    }
    var dot, normA, normB := 0.0, 0.0, 0.0;
    for i := 0 to |a|
      invariant dot == Dot(a[..i], b[..i])
      invariant normA == Dot(a[..i], a[..i]) && normB == Dot(b[..i], b[..i])
    {
      DotStep(a, b, i);
      DotStep(a, a, i);
      DotStep(b, b, i);
      dot := dot + a[i] * b[i];
      normA := normA + a[i] * a[i];
      normB := normB + b[i] * b[i];
    }
    assert a[..|a|] == a && b[..|b|] == b;
    c := CosineOf(dot, normA, normB);
  }

  lemma {:induction false} NormNonNegative(a: Vector)
    ensures NormSquared(a) >= 0.0
  {
    if |a| > 0 {
      NormNonNegative(a[..|a| - 1]);
    }
  }

  // One step of the Cauchy-Schwarz induction.
  lemma QuadraticStep(d: real, p: real, q: real, x: real, y: real)
    requires p >= 0.0 && q >= 0.0 && d * d <= p * q
    ensures (d + x * y) * (d + x * y) <= (p + x * x) * (q + y * y)
  {
    var u, v := p * (y * y) + q * (x * x), 2.0 * d * (x * y);
    var m, n := p * (y * y), q * (x * x);
    assert m >= 0.0 && n >= 0.0;
    var w := (x * y) * (x * y);
    calc {
      u * u - v * v;
      (m - n) * (m - n) + 4.0 * (m * n) - 4.0 * (d * d) * w;
      { assert m * n == (p * q) * w; }
      (m - n) * (m - n) + 4.0 * ((p * q - d * d) * w);
    }
    assert (p * q - d * d) * w >= 0.0;
    assert u * u >= v * v;
    SquareOrder(u, v);
    calc {
      (p + x * x) * (q + y * y) - (d + x * y) * (d + x * y);
      p * q - d * d + (u - v);
    }
  }

  lemma SquareOrder(u: real, v: real)
    requires u >= 0.0 && u * u >= v * v
    ensures u >= v
  {
    if u < v {
      SquaresIncrease(u, v);
    }
  }

  lemma SquaresIncrease(u: real, v: real)
    requires 0.0 <= u < v
    ensures u * u < v * v
  {
    PositiveProduct(v - u, v + u, (v - u) * (v + u));
    assert (v - u) * (v + u) == v * v - u * u;
  }

  lemma {:induction false} CauchySchwarz(a: Vector, b: Vector)
    requires |a| == |b|
    ensures Dot(a, b) * Dot(a, b) <= NormSquared(a) * NormSquared(b)
  {
    if |a| > 0 {
      var a', b' := a[..|a| - 1], b[..|b| - 1];
      CauchySchwarz(a', b');
      NormNonNegative(a');
      NormNonNegative(b');
      QuadraticStep(Dot(a', b'), NormSquared(a'), NormSquared(b'), a[|a| - 1], b[|b| - 1]);
    }
  }

  // The signed square preserves and reflects order, so ranking by it is ranking by cosine.
  lemma SignedSquareOrder(x: real, y: real)
    ensures x < y <==> SignedSquare(x) < SignedSquare(y)
  {
    if x < y {
      SignedSquareIncreasing(x, y);
    } else if y < x {
      SignedSquareIncreasing(y, x);
    }
  }

  // Weighing commutes with the signed square, provided the weight is squared too.
  lemma WeightedSignedSquare(c: real, w: real)
    requires w >= 0.0
    ensures SignedSquare(c * w) == SignedSquare(c) * (w * w)
  {
    ProductSign(c, w);
    SquareOfProduct(c, w);
  }

  lemma ProductSign(c: real, w: real)
    requires w >= 0.0
    ensures c >= 0.0 ==> c * w >= 0.0
    ensures c <= 0.0 ==> c * w <= 0.0
  {
  }

  lemma SquareOfProduct(c: real, w: real)
    ensures (c * w) * (c * w) == (c * c) * (w * w)
  {
  }

  lemma SignedSquareIncreasing(x: real, y: real)
    requires x < y
    ensures SignedSquare(x) < SignedSquare(y)
  {
    if x >= 0.0 {
      SquaresIncrease(x, y);
    } else if y <= 0.0 {
      SquaresIncrease(-y, -x);
    } else {
      PositiveProduct(-x, -x, -x * -x);
      PositiveProduct(y, y, y * y);
    }
  }

  // Whatever square roots the code computes (exactly), the quotient it forms lies in [-1, 1], so
  // its clamp never acts, and squaring it with its sign gives SignedCosine.
  lemma SignedCosineIsExact(a: Vector, b: Vector, rootA: real, rootB: real)
    requires |a| == |b| > 0
    requires rootA > 0.0 && rootA * rootA == NormSquared(a)
    requires rootB > 0.0 && rootB * rootB == NormSquared(b)
    ensures rootA * rootB > 0.0
    ensures -1.0 <= Dot(a, b) / (rootA * rootB) <= 1.0
    ensures SignedCosine(a, b) == SignedSquare(Dot(a, b) / (rootA * rootB))
  {
    CauchySchwarz(a, b);
    CosineOfRoots(Dot(a, b), NormSquared(a), NormSquared(b), rootA, rootB, rootA * rootB);
  }

  lemma CosineOfRoots(d: real, p: real, q: real, x: real, y: real, r: real)
    requires x > 0.0 && x * x == p && y > 0.0 && y * y == q && r == x * y
    requires d * d <= p * q
    ensures r > 0.0 && -1.0 <= d / r <= 1.0
    ensures CosineOf(d, p, q) == SignedSquare(d / r)
  {
    var m := p * q;
    PositiveProduct(x, y, r);
    PositiveProduct(x, x, p);
    PositiveProduct(y, y, q);
    ProductOfSquares(x, y, r, p, q);
    SquareOrder(r, d);
    SquareOrder(r, -d);
    UnitQuotient(d, r);
    SquareOfQuotient(d, r, m);
  }

  lemma ProductOfSquares(x: real, y: real, r: real, p: real, q: real)
    requires x * x == p && y * y == q && r == x * y
    ensures r * r == p * q
  {
    assert (x * y) * (x * y) == (x * x) * (y * y);
  }

  lemma UnitQuotient(d: real, r: real)
    requires r > 0.0 && -r <= d <= r
    ensures -1.0 <= d / r <= 1.0
  {
  }

  lemma SquareOfQuotient(d: real, r: real, m: real)
    requires r > 0.0 && -r <= d <= r && r * r == m
    ensures m > 0.0
    ensures SignedSquare(d / r) == SignedSquare(d) / m
    ensures -1.0 <= SignedSquare(d / r) <= 1.0
  {
    PositiveProduct(r, r, m);
    var x := d / r;
    assert x * r == d;
    ScaledSignedSquare(x, r, d, m);
    UnitQuotient(d, r);
    SignedSquareBounded(d / r);
  }

  lemma ScaledSignedSquare(x: real, r: real, d: real, m: real)
    requires r > 0.0 && x * r == d && r * r == m && m > 0.0
    ensures SignedSquare(d) / m == SignedSquare(x)
  {
    var q := SignedSquare(x);
    if x >= 0.0 {
      ProductOfSquares(x, r, d, q, m);
    } else {
      ProductOfSquares(-x, r, -d, -q, m);
      assert d <= 0.0;
    }
    QuotientUnique(SignedSquare(d), m, q);
  }

  lemma QuotientUnique(n: real, m: real, q: real)
    requires m > 0.0 && q * m == n
    ensures n / m == q
  {
    var p := n / m;
    assert p * m == n;
    assert (p - q) * m == 0.0;
  }

  lemma SignedSquareBounded(x: real)
    requires -1.0 <= x <= 1.0
    ensures -1.0 <= SignedSquare(x) <= 1.0
  {
    assert Abs(x) * Abs(x) <= Abs(x) * 1.0;
  }
}
