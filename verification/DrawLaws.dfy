// What the hyperplanes are drawn from, and what hashing with them separates.
module DrawLaws {
  import opened Cosine
  import opened Graph
  import opened IdGenerator
  import opened Linking
  import opened LinkingLaws
  import opened VectorIndex
  import opened Words

  // ---- The draws

  lemma {:induction false} ShiftDivides(z: nat, k: nat)
    ensures ShiftRight(z, k) == z / Pow2(k)
    decreases k
  {
    if k > 0 {
      ShiftDivides(z / 2, k - 1);
      DivideTwice(z, Pow2(k - 1));
    }
  }

  lemma DivideTwice(z: nat, m: nat)
    requires m > 0
    ensures z / 2 / m == z / (2 * m)
  {
    var q := z / 2 / m;
    QuotientIs(z / 2, m, q, z / 2 % m);
    QuotientIs(z, 2 * m, q, 2 * (z / 2 % m) + z % 2);
  }

  lemma OneFactorMore(a: nat, b: nat, m: nat)
    requires a < b
    ensures a * m + m <= b * m
  {
    assert (b - a - 1) * m >= 0;
  }

  lemma QuotientIs(z: nat, m: nat, q: nat, r: nat)
    requires m > 0 && z == q * m + r && r < m
    ensures z / m == q
  {
    var p := z / m;
    assert z == p * m + z % m;
    if p < q {
      OneFactorMore(p, q, m);
    } else if p > q {
      OneFactorMore(q, p, m);
    }
  }

  lemma Pow40()
    ensures Pow2(40) == 0x100_0000_0000
  {
    assert Pow2(8) == 256;
    assert Pow2(16) == 65536 by { assert Pow2(12) == 4096; }
    assert Pow2(24) == 0x100_0000 by { assert Pow2(20) == 0x10_0000; }
    assert Pow2(32) == 0x1_0000_0000 by { assert Pow2(28) == 0x1000_0000; }
    assert Pow2(36) == 0x10_0000_0000;
  }

  // The k-th draw is made of the high 24 bits of the k-th word generated.
  lemma DrawIs(k: nat)
    ensures Draw(k) == (Mix(SeedAfter(INITIAL_SEED, k + 1)) / 0x100_0000_0000) as real / 8388608.0 - 1.0
  {
    ShiftDivides(Mix(SeedAfter(INITIAL_SEED, k + 1)), 40);
    Pow40();
  }

  // A draw is one of 2^24 evenly spaced values from -1 up to, but not, 1.
  lemma DrawInRange(k: nat) returns (j: nat)
    ensures j < 0x100_0000 && Draw(k) == j as real / 8388608.0 - 1.0
  {
    var seed := SeedAfter(INITIAL_SEED, k + 1);
    MixStaysWord(seed);
    DrawIs(k);
    j := Mix(seed) / 0x100_0000_0000;
  }

  // Every seed comes up within 2^64 draws.
  lemma SeedComesUp(seed: nat) returns (k: nat)
    requires IsWord(seed)
    ensures k < WORD && SeedAfter(INITIAL_SEED, k + 1) == seed
  {
    var m := (seed + WORD - INITIAL_SEED) % WORD;
    var n := m * GOLDEN_INVERSE % WORD;
    MulInverse(m, GOLDEN_INVERSE, GOLDEN, 0x957B_BF35_006E_D677);
    StepsReach(seed, m, n);
    if n == 0 {
      k := WORD - 1;
      SeedPeriod(INITIAL_SEED, 0, WORD);
    } else {
      k := n - 1;
    }
  }

  lemma StepsReach(seed: nat, m: nat, n: nat)
    requires IsWord(seed) && m == (seed + WORD - INITIAL_SEED) % WORD && n * GOLDEN % WORD == m
    ensures SeedAfter(INITIAL_SEED, n) == seed
  {
    var q := n * GOLDEN / WORD;
    assert n * GOLDEN == q * WORD + m;
    ModShift(INITIAL_SEED + m, q);
    assert INITIAL_SEED + n * GOLDEN == INITIAL_SEED + m + q * WORD;
  }

  // Every word is generated within 2^64 steps.
  lemma WordAttained(word: nat) returns (k: nat)
    requires IsWord(word)
    ensures k < WORD && Mix(SeedAfter(INITIAL_SEED, k + 1)) == word
  {
    MixBijective(word);
    k := SeedComesUp(Unmix(word));
  }

  // Each of those values is drawn within 2^64 draws.
  lemma DrawAttained(j: nat) returns (k: nat)
    requires j < 0x100_0000
    ensures k < WORD && Draw(k) == j as real / 8388608.0 - 1.0
  {
    k := WordAttained(j * 0x100_0000_0000);
    DrawIs(k);
    HighBits(j);
  }

  lemma HighBits(j: nat)
    ensures j * 0x100_0000_0000 / 0x100_0000_0000 == j
  {
  }

  // ---- Which pairs hashing keeps

  // On which side of plane p of table t a vector lies: the plane is the next |v| draws after those of
  // the planes before it.
  predicate Side(v: Vector, t: nat, p: nat, planes: nat) {
    Dot(v, seq(|v|, c requires 0 <= c < |v| => Draw((t * planes + p) * |v| + c))) >= 0.0
  }

  lemma SideIs(v: Vector, t: nat, p: nat, planes: nat)
    ensures Side(v, t, p, planes) <==> Dot(v, PlaneAt(t, p, planes, |v|)) >= 0.0
  {
    assert PlaneAt(t, p, planes, |v|) == seq(|v|, c requires 0 <= c < |v| => Draw((t * planes + p) * |v| + c));
  }

  // A pair is kept exactly when it is similar enough and in some table - there is always one - lies on
  // the same side of every plane, of which no more than 63 count.
  lemma LshPairIff(entries: seq<Entry>, threshold: real, planes: nat, tables: nat, i: nat, j: nat)
    requires i < j < |entries|
    ensures var n := if planes < 63 then planes else 63;
            (i, j) in LshChosen(entries, threshold, planes, tables) <==>
              && SignedCosine(entries[i].vector, entries[j].vector) >= threshold
              && exists t: nat :: (t < tables || t == 0) && SameSides(entries[i].vector, entries[j].vector, t, n)
  {
    var n := if planes < 63 then planes else 63;
    forall t: nat ensures SameBucket(entries, t, n, i, j) <==> SameSides(entries[i].vector, entries[j].vector, t, n) {
      BucketIsSides(entries, t, n, i, j);
    }
  }

  predicate SameSides(a: Vector, b: Vector, t: nat, planes: nat) {
    forall p :: 0 <= p < planes ==> (Side(a, t, p, planes) <==> Side(b, t, p, planes))
  }

  lemma BucketIsSides(entries: seq<Entry>, t: nat, planes: nat, i: nat, j: nat)
    requires i < |entries| && j < |entries|
    ensures SameBucket(entries, t, planes, i, j) <==> SameSides(entries[i].vector, entries[j].vector, t, planes)
  {
    var a, b := entries[i].vector, entries[j].vector;
    forall p: nat | p < planes
      ensures Signature(a, t, planes, planes)[p] == Side(a, t, p, planes)
      ensures Signature(b, t, planes, planes)[p] == Side(b, t, p, planes)
    {
      SideIs(a, t, p, planes);
      SideIs(b, t, p, planes);
    }
    if SameBucket(entries, t, planes, i, j) {
      forall p | 0 <= p < planes ensures Side(a, t, p, planes) <==> Side(b, t, p, planes) {
        assert Signature(a, t, planes, planes)[p] == Signature(b, t, planes, planes)[p];
      }
    }
  }

  // ---- Two vectors as similar as you please that a single plane separates

  // x at position k, y at position l, nothing elsewhere.
  function Spike(d: nat, k: nat, x: real, l: nat, y: real): (v: Vector)
    ensures |v| == d
  {
    seq(d, i requires 0 <= i < d => if i == k then x else if i == l then y else 0.0)
  }

  lemma SpikeFront(d: nat, k: nat, x: real, l: nat, y: real)
    requires d > 0
    ensures Spike(d, k, x, l, y)[..d - 1] == Spike(d - 1, k, x, l, y)
  {
  }

  // The share of position k in a dot product.
  function Share(v: Vector, k: nat, x: real): real {
    if k < |v| then x * v[k] else 0.0
  }

  lemma {:induction false} DotSpike(v: Vector, k: nat, x: real, l: nat, y: real)
    requires k != l
    ensures Dot(Spike(|v|, k, x, l, y), v) == Share(v, k, x) + Share(v, l, y)
  {
    if |v| > 0 {
      DotSpike(v[..|v| - 1], k, x, l, y);
      SpikeFront(|v|, k, x, l, y);
      DotLast(Spike(|v|, k, x, l, y), v);
      SpikeStep(Dot(Spike(|v| - 1, k, x, l, y), v[..|v| - 1]), v, k, x, l, y);
    }
  }

  lemma DotLast(a: Vector, b: Vector)
    requires |a| == |b| > 0
    ensures Dot(a, b) == Dot(a[..|a| - 1], b[..|b| - 1]) + a[|a| - 1] * b[|b| - 1]
  {
  }

  lemma SpikeStep(dot: real, v: Vector, k: nat, x: real, l: nat, y: real)
    requires k != l && |v| > 0 && dot == Share(v[..|v| - 1], k, x) + Share(v[..|v| - 1], l, y)
    ensures dot + Spike(|v|, k, x, l, y)[|v| - 1] * v[|v| - 1] == Share(v, k, x) + Share(v, l, y)
  {
  }

  lemma DotSpikes(d: nat, k: nat, l: nat, y: real)
    requires k != l && k < d && l < d
    ensures Dot(Spike(d, k, 1.0, l, 0.0), Spike(d, k, 1.0, l, y)) == 1.0
    ensures NormSquared(Spike(d, k, 1.0, l, 0.0)) == 1.0 && NormSquared(Spike(d, k, 1.0, l, y)) == 1.0 + y * y
  {
    DotSpike(Spike(d, k, 1.0, l, y), k, 1.0, l, 0.0);
    DotSpike(Spike(d, k, 1.0, l, 0.0), k, 1.0, l, 0.0);
    DotSpike(Spike(d, k, 1.0, l, y), k, 1.0, l, y);
  }

  lemma CosineOfSpikes(d: nat, k: nat, l: nat, y: real, threshold: real)
    requires k != l && k < d && l < d && 0.0 < y <= 1.0 && threshold < 1.0 && (threshold > 0.0 ==> y == 1.0 - threshold)
    ensures SignedCosine(Spike(d, k, 1.0, l, 0.0), Spike(d, k, 1.0, l, y)) >= threshold
  {
    DotSpikes(d, k, l, y);
    CloseEnough(y, y * y, threshold);
  }

  lemma CloseEnough(y: real, m: real, threshold: real)
    requires 0.0 < y <= 1.0 && m == y * y && threshold < 1.0 && (threshold > 0.0 ==> y == 1.0 - threshold)
    ensures 0.0 < 1.0 + m && CosineOf(1.0, 1.0, 1.0 + m) >= threshold
  {
    SquareNoLarger(y, m);
    var c := 1.0 / (1.0 + m);
    assert SignedSquare(1.0) == 1.0 && CosineOf(1.0, 1.0, 1.0 + m) == c;
    if threshold > 0.0 {
      ProductBelow(threshold, m, y);
      QuotientAtLeast(threshold, 1.0 + m);
    }
  }

  lemma SquareNoLarger(y: real, m: real)
    requires 0.0 < y <= 1.0 && m == y * y
    ensures 0.0 < m <= y
  {
    PositiveProduct(y, y, m);
    NonNegativeProduct(y, 1.0 - y, y - m);
  }

  lemma ProductBelow(t: real, m: real, y: real)
    requires 0.0 < t < 1.0 && 0.0 < m <= y && y == 1.0 - t
    ensures t * (1.0 + m) <= 1.0
  {
    assert t * m <= m;
  }

  lemma QuotientAtLeast(t: real, q: real)
    requires q > 0.0 && t * q <= 1.0
    ensures 1.0 / q >= t
  {
    var c := 1.0 / q;
    assert c * q == 1.0;
    if c < t {
      assert c * q < t * q;
    }
  }

  lemma SpikesAgainst(plane: Vector, k: nat, l: nat, y: real)
    requires k < |plane| && l < |plane| && k != l && y > 0.0 && plane[k] == 0.0 && plane[l] == -1.0
    ensures Dot(Spike(|plane|, k, 1.0, l, 0.0), plane) >= 0.0
    ensures Dot(Spike(|plane|, k, 1.0, l, y), plane) < 0.0
  {
    DotSpike(plane, k, 1.0, l, 0.0);
    DotSpike(plane, k, 1.0, l, y);
  }

  function FirstPlane(d: nat): (v: Vector)
    ensures |v| == d
  {
    seq(d, c requires 0 <= c < d => Draw(c))
  }

  lemma FirstSide(v: Vector)
    ensures Side(v, 0, 0, 1) <==> Dot(v, FirstPlane(|v|)) >= 0.0
  {
    assert FirstPlane(|v|) == seq(|v|, c requires 0 <= c < |v| => Draw((0 * 1 + 0) * |v| + c));
  }

  lemma SpikeSides(d: nat, k: nat, l: nat, y: real)
    requires k < d && l < d && k != l && y > 0.0 && Draw(k) == 0.0 && Draw(l) == -1.0
    ensures Side(Spike(d, k, 1.0, l, 0.0), 0, 0, 1) && !Side(Spike(d, k, 1.0, l, y), 0, 0, 1)
  {
    FirstSide(Spike(d, k, 1.0, l, 0.0));
    FirstSide(Spike(d, k, 1.0, l, y));
    SpikesAgainst(FirstPlane(d), k, l, y);
  }

  // However high the threshold: two live nodes not joined yet, with vectors the exact pass joins and a
  // single table of a single plane keeps apart.
  lemma HashingSeparates(g: State, p: Id, q: Id, threshold: real) returns (entries: seq<Entry>)
    requires p in g.nodes && q in g.nodes && p != q && threshold < 1.0
    ensures Linked(LinkSemantic(g, entries, threshold).edges, p, q)
    ensures LinkLsh(g, entries, threshold, 1, 1) == g
  {
    var k := DrawAttained(0x80_0000);
    var l := DrawAttained(0);
    var d, y := k + l + 1, if threshold > 0.0 then 1.0 - threshold else 1.0;
    var a, b := Spike(d, k, 1.0, l, 0.0), Spike(d, k, 1.0, l, y);
    entries := [Entry(p, a), Entry(q, b)];
    CosineOfSpikes(d, k, l, y, threshold);
    SpikeSides(d, k, l, y);
    TwoEntries(g, p, q, a, b, threshold);
  }

  lemma TwoEntries(g: State, p: Id, q: Id, a: Vector, b: Vector, threshold: real)
    requires p in g.nodes && q in g.nodes && p != q && SignedCosine(a, b) >= threshold
    requires Side(a, 0, 0, 1) && !Side(b, 0, 0, 1)
    ensures Linked(LinkSemantic(g, [Entry(p, a), Entry(q, b)], threshold).edges, p, q)
    ensures LinkLsh(g, [Entry(p, a), Entry(q, b)], threshold, 1, 1) == g
  {
    var entries := [Entry(p, a), Entry(q, b)];
    var chosen := SimilarPairs(entries, threshold);
    assert (0, 1) in chosen;
    SemanticJoins(g, entries, threshold);
    assert IdPair(entries, (0, 1)) in ChosenPairs(g, entries, chosen);
    PairSetIsLinked(LinkSemantic(g, entries, threshold).edges, p, q);
    NothingChosen(g, entries, threshold);
  }

  lemma NothingChosen(g: State, entries: seq<Entry>, threshold: real)
    requires |entries| == 2 && Side(entries[0].vector, 0, 0, 1) && !Side(entries[1].vector, 0, 0, 1)
    ensures LinkLsh(g, entries, threshold, 1, 1) == g
  {
    LshPairIff(entries, threshold, 1, 1, 0, 1);
    assert LshChosen(entries, threshold, 1, 1) == {};
    RowsMembers(2, 2, {});
    assert PairList(2, {}) == [];
  }
}
