// Locality-sensitive hashing: drawing the planes, filling the buckets, collecting the pairs.
module Hashing {
  import opened Cosine
  import opened IdGenerator
  import opened Linking
  import opened VectorIndex
  import opened Words

  function Push<K(==), V>(m: map<K, seq<V>>, k: K, v: V): map<K, seq<V>> {
    m[k := (if k in m then m[k] else []) + [v]]
  }

  // The bucket key: bit p is set when the vector lies on the non-negative side of plane p.
  function Pack(bits: seq<bool>): nat {
    if bits == [] then 0
    else Pack(bits[..|bits| - 1]) + (if bits[|bits| - 1] then Pow2(|bits| - 1) else 0)
  }

  lemma {:induction false} PackBelow(bits: seq<bool>)
    ensures Pack(bits) < Pow2(|bits|)
  {
    if bits != [] {
      PackBelow(bits[..|bits| - 1]);
    }
  }

  // Up to 63 sign bits fit a 64-bit key, and equal keys mean equal sides of every plane.
  lemma {:induction false} PackInjective(a: seq<bool>, b: seq<bool>)
    requires |a| == |b| && Pack(a) == Pack(b)
    ensures a == b
  {
    if a != [] {
      var n := |a| - 1;
      PackBelow(a[..n]);
      PackBelow(b[..n]);
      PackInjective(a[..n], b[..n]);
      assert a == a[..n] + [a[n]] && b == b[..n] + [b[n]];
    }
  }

  method NextDraw(seed: nat, ghost k: nat) returns (next: nat, x: real)
    requires seed == SeedAfter(INITIAL_SEED, k)
    ensures next == SeedAfter(INITIAL_SEED, k + 1) && x == Draw(k)
  {
    SeedAfterNext(INITIAL_SEED, k);
    next := NextSeed(seed);
    x := ShiftRight(Mix(next), 40) as real / 16777216.0 * 2.0 - 1.0;
  }

  method DrawPlane(seed: nat, ghost k: nat, dim: nat) returns (next: nat, plane: Vector)
    requires seed == SeedAfter(INITIAL_SEED, k)
    ensures next == SeedAfter(INITIAL_SEED, k + dim) && plane == Plane(k, dim)
  {
    next, plane := seed, [];
    for c := 0 to dim
      invariant next == SeedAfter(INITIAL_SEED, k + c) && plane == Plane(k, c)
    {
      var x: real;
      next, x := NextDraw(next, k + c);
      plane := plane + [x];
    }
  }

  // Where the draws of plane p of table t begin.
  function Offset(t: nat, p: nat, planes: nat, dim: nat): nat {
    (t * planes + p) * dim
  }

  lemma NextOffset(t: nat, p: nat, planes: nat, dim: nat)
    ensures Offset(t, p + 1, planes, dim) == Offset(t, p, planes, dim) + dim
    ensures Offset(t, 0, planes, dim) == (t * planes) * dim
    ensures Offset(t, planes, planes, dim) == ((t + 1) * planes) * dim
  {
  }

  ghost predicate FirstPlanes(table: seq<Vector>, t: nat, planes: nat, dim: nat) {
    forall p :: 0 <= p < |table| ==> table[p] == PlaneAt(t, p, planes, dim)
  }

  lemma OnePlaneMore(table: seq<Vector>, t: nat, planes: nat, dim: nat, plane: Vector, at: nat)
    requires FirstPlanes(table, t, planes, dim) && plane == Plane(at, dim) && at == Offset(t, |table|, planes, dim)
    ensures FirstPlanes(table + [plane], t, planes, dim)
  {
  }

  method DrawTable(seed: nat, ghost t: nat, planes: nat, dim: nat) returns (next: nat, table: seq<Vector>)
    requires seed == SeedAfter(INITIAL_SEED, (t * planes) * dim)
    ensures next == SeedAfter(INITIAL_SEED, ((t + 1) * planes) * dim)
    ensures |table| == planes && FirstPlanes(table, t, planes, dim)
  {
    next, table := seed, [];
    ghost var at: nat := (t * planes) * dim;
    NextOffset(t, 0, planes, dim);
    for p := 0 to planes
      invariant next == SeedAfter(INITIAL_SEED, at) && at == Offset(t, p, planes, dim)
      invariant |table| == p && FirstPlanes(table, t, planes, dim)
    {
      var plane: Vector;
      next, plane := DrawPlane(next, at, dim);
      OnePlaneMore(table, t, planes, dim, plane, at);
      NextOffset(t, p, planes, dim);
      table := table + [plane];
      at := at + dim;
    }
    NextOffset(t, planes, planes, dim);
  }

  method HashVector(v: Vector, table: seq<Vector>, ghost t: nat) returns (h: nat)
    requires forall p :: 0 <= p < |table| ==> table[p] == PlaneAt(t, p, |table|, |v|)
    ensures h == Pack(Signature(v, t, |table|, |table|))
  {
    ghost var bits := Signature(v, t, |table|, |table|);
    h := 0;
    for b := 0 to |table|
      invariant h == Pack(bits[..b])
    {
      assert bits[..b + 1][..b] == bits[..b];
      if Dot(v, table[b]) >= 0.0 {
        h := h + Pow2(b);
      }
    }
    assert bits[..|table|] == bits;
  }

  ghost predicate Filed(buckets: map<nat, seq<nat>>, keys: seq<nat>) {
    forall i :: 0 <= i < |keys| ==> keys[i] in buckets && i in buckets[keys[i]]
  }

  ghost predicate FiledRight(buckets: map<nat, seq<nat>>, keys: seq<nat>) {
    forall h, a :: h in buckets && 0 <= a < |buckets[h]| ==> buckets[h][a] < |keys| && keys[buckets[h][a]] == h
  }

  ghost predicate FiledInOrder(buckets: map<nat, seq<nat>>) {
    forall h, a, b :: h in buckets && 0 <= a < b < |buckets[h]| ==> buckets[h][a] < buckets[h][b]
  }

  // Each bucket lists, in ascending order, the slots whose key it holds.
  ghost predicate BucketsHold(buckets: map<nat, seq<nat>>, keys: seq<nat>) {
    Filed(buckets, keys) && FiledRight(buckets, keys) && FiledInOrder(buckets)
  }

  function BucketAt(buckets: map<nat, seq<nat>>, h: nat): seq<nat> {
    if h in buckets then buckets[h] else []
  }

  lemma FiledPush(buckets: map<nat, seq<nat>>, keys: seq<nat>, h: nat)
    requires Filed(buckets, keys)
    ensures Filed(Push(buckets, h, |keys|), keys + [h])
  {
    var r, ks := Push(buckets, h, |keys|), keys + [h];
    assert r[h] == BucketAt(buckets, h) + [|keys|];
    forall i | 0 <= i < |ks| ensures ks[i] in r && i in r[ks[i]] {
      if i == |keys| {
        assert r[h][|BucketAt(buckets, h)|] == i;
      } else {
        assert keys[i] in buckets && i in buckets[keys[i]];
      }
    }
  }

  lemma FiledRightPush(buckets: map<nat, seq<nat>>, keys: seq<nat>, h: nat)
    requires FiledRight(buckets, keys)
    ensures FiledRight(Push(buckets, h, |keys|), keys + [h])
  {
    var r, ks := Push(buckets, h, |keys|), keys + [h];
    forall x, a | x in r && 0 <= a < |r[x]| ensures r[x][a] < |ks| && ks[r[x][a]] == x {
      if !(x == h && a == |BucketAt(buckets, h)|) {
        assert x in buckets && r[x][a] == buckets[x][a];
      }
    }
  }

  lemma FiledInOrderPush(buckets: map<nat, seq<nat>>, keys: seq<nat>, h: nat)
    requires FiledRight(buckets, keys) && FiledInOrder(buckets)
    ensures FiledInOrder(Push(buckets, h, |keys|))
  {
    var r := Push(buckets, h, |keys|);
    forall x, a, b | x in r && 0 <= a < b < |r[x]| ensures r[x][a] < r[x][b] {
      assert x in buckets && r[x][a] == buckets[x][a];
      if !(x == h && b == |BucketAt(buckets, h)|) {
        assert r[x][b] == buckets[x][b];
      }
    }
  }

  lemma BucketsPush(buckets: map<nat, seq<nat>>, keys: seq<nat>, h: nat)
    requires BucketsHold(buckets, keys)
    ensures BucketsHold(Push(buckets, h, |keys|), keys + [h])
  {
    FiledPush(buckets, keys, h);
    FiledRightPush(buckets, keys, h);
    FiledInOrderPush(buckets, keys, h);
  }

  // The key of every slot in table t.
  ghost function KeysOf(entries: seq<Entry>, t: nat, planes: nat): (keys: seq<nat>)
    ensures |keys| == |entries|
  {
    seq(|entries|, i requires 0 <= i < |entries| => Pack(Signature(entries[i].vector, t, planes, planes)))
  }

  method FillBuckets(entries: seq<Entry>, table: seq<Vector>, dim: nat, ghost t: nat)
    returns (buckets: map<nat, seq<nat>>)
    requires HasDimension(entries, dim)
    requires forall p :: 0 <= p < |table| ==> table[p] == PlaneAt(t, p, |table|, dim)
    ensures BucketsHold(buckets, KeysOf(entries, t, |table|))
  {
    buckets := map[];
    ghost var keys := KeysOf(entries, t, |table|);
    for i := 0 to |entries|
      invariant BucketsHold(buckets, keys[..i])
    {
      assert entries[i] in entries;
      var h := HashVector(entries[i].vector, table, t);
      BucketsPush(buckets, keys[..i], h);
      assert keys[..i + 1] == keys[..i] + [h];
      buckets := Push(buckets, h, i);
    }
    assert keys[..|entries|] == keys;
  }

  method PairsInBucket(ids: seq<nat>) returns (pairs: set<(nat, nat)>)
    ensures pairs == set a, b | 0 <= a < |ids| && a < b < |ids| :: (ids[a], ids[b])
  {
    pairs := {};
    for a := 0 to |ids|
      invariant pairs == set x, y | 0 <= x < a && x < y < |ids| :: (ids[x], ids[y])
    {
      ghost var before := pairs;
      for b := a + 1 to |ids|
        invariant pairs == before + set y | a < y < b :: (ids[a], ids[y])
      {
        pairs := pairs + {(ids[a], ids[b])};
      }
    }
  }

  // The pairs of slots sharing a key.
  ghost function KeyPairs(keys: seq<nat>): set<(nat, nat)> {
    set i, j | 0 <= i < |keys| && i < j < |keys| && keys[i] == keys[j] :: (i, j)
  }

  method PairsInBuckets(buckets: map<nat, seq<nat>>, ghost keys: seq<nat>) returns (pairs: set<(nat, nat)>)
    requires BucketsHold(buckets, keys)
    ensures pairs == KeyPairs(keys)
  {
    pairs := {};
    var todo := buckets.Keys;
    while todo != {}
      invariant todo <= buckets.Keys
      invariant forall p :: p in pairs <==> p in KeyPairs(keys) && keys[p.0] !in todo
      decreases |todo|
    {
      var h :| h in todo;
      var more := PairsInBucket(buckets[h]);
      forall p ensures p in more <==> p in KeyPairs(keys) && keys[p.0] == h {
        OneBucket(buckets, keys, h, p);
      }
      pairs := pairs + more;
      todo := todo - {h};
    }
  }

  lemma OneBucket(buckets: map<nat, seq<nat>>, keys: seq<nat>, h: nat, p: (nat, nat))
    requires BucketsHold(buckets, keys) && h in buckets
    ensures p in (set a, b | 0 <= a < |buckets[h]| && a < b < |buckets[h]| :: (buckets[h][a], buckets[h][b]))
            <==> p in KeyPairs(keys) && keys[p.0] == h
  {
    var ids := buckets[h];
    var inside := set a, b | 0 <= a < |ids| && a < b < |ids| :: (ids[a], ids[b]);
    if p in KeyPairs(keys) && keys[p.0] == h {
      InBucket(buckets, keys, h, p);
    }
    if p in inside {
      var a, b :| 0 <= a < |ids| && a < b < |ids| && p == (ids[a], ids[b]);
      assert (p.0, p.1) in KeyPairs(keys);
    }
  }

  lemma InBucket(buckets: map<nat, seq<nat>>, keys: seq<nat>, h: nat, p: (nat, nat))
    requires BucketsHold(buckets, keys) && h in buckets
    requires p.0 < p.1 < |keys| && keys[p.0] == h && keys[p.1] == h
    ensures exists a, b :: 0 <= a < |buckets[h]| && a < b < |buckets[h]| && p == (buckets[h][a], buckets[h][b])
  {
    var ids := buckets[h];
    assert p.0 in ids && p.1 in ids;
    var a :| 0 <= a < |ids| && ids[a] == p.0;
    var b :| 0 <= b < |ids| && ids[b] == p.1;
    AscendingReflects(ids, a, b);
    assert p == (ids[a], ids[b]);
  }

  lemma AscendingReflects(ids: seq<nat>, a: nat, b: nat)
    requires forall i, j :: 0 <= i < j < |ids| ==> ids[i] < ids[j]
    requires a < |ids| && b < |ids| && ids[a] < ids[b]
    ensures a < b
  {
  }

  // The pairs that share a bucket in at least one table.
  method CollidingPairs(entries: seq<Entry>, dim: nat, planes: nat, tables: nat) returns (candidates: set<(nat, nat)>)
    requires HasDimension(entries, dim)
    ensures candidates == BucketPairs(entries, tables, planes)
  {
    var seed := INITIAL_SEED;
    SeedAfterNext(INITIAL_SEED, 0);
    candidates := {};
    for t := 0 to tables
      invariant seed == SeedAfter(INITIAL_SEED, (t * planes) * dim)
      invariant candidates == BucketPairs(entries, t, planes)
    {
      var table: seq<Vector>;
      seed, table := DrawTable(seed, t, planes, dim);
      var buckets := FillBuckets(entries, table, dim, t);
      ghost var keys := KeysOf(entries, t, planes);
      var more := PairsInBuckets(buckets, keys);
      forall i, j | 0 <= i < |entries| && i < j < |entries|
        ensures (i, j) in more <==> SameBucket(entries, t, planes, i, j)
      {
        if keys[i] == keys[j] {
          PackInjective(Signature(entries[i].vector, t, planes, planes),
                        Signature(entries[j].vector, t, planes, planes));
        }
      }
      OneMoreTable(entries, t, planes, more);
      candidates := candidates + more;
    }
  }

  lemma OneMoreTable(entries: seq<Entry>, t: nat, planes: nat, more: set<(nat, nat)>)
    requires forall p :: p in more ==> p.0 < p.1 < |entries|
    requires forall i, j :: 0 <= i < |entries| && i < j < |entries| ==>
      ((i, j) in more <==> SameBucket(entries, t, planes, i, j))
    ensures BucketPairs(entries, t + 1, planes) == BucketPairs(entries, t, planes) + more
  {
    forall i, j | 0 <= i < |entries| && i < j < |entries|
      ensures Collide(entries, t + 1, planes, i, j) <==>
              Collide(entries, t, planes, i, j) || SameBucket(entries, t, planes, i, j)
    {
    }
  }
}
