// The two linear-scan vector indexes: exact (real vectors) and int8 (codes with a scale).
module VectorIndex {
  import opened Cosine
  import opened Filtering
  import opened IdGenerator
  import opened Shortlist

  datatype Entry = Entry(id: Id, vector: Vector)

  datatype SearchResult = SearchResult(id: Id, score: real)

  ghost predicate HasDimension(entries: seq<Entry>, dimension: nat) {
    forall e :: e in entries ==> |e.vector| == dimension
  }

  // The score of every entry against the query, in slot order.
  function Scores(entries: seq<Entry>, query: Vector): seq<real> {
    seq(|entries|, i requires 0 <= i < |entries| => SignedCosine(query, entries[i].vector))
  }

  function Resolve(ids: seq<Id>, hits: seq<Hit>): seq<SearchResult>
    requires forall h :: h in hits ==> h.slot < |ids|
  {
    seq(|hits|, i requires 0 <= i < |hits| =>
      assert hits[i] in hits;
      SearchResult(ids[hits[i].slot], hits[i].score))
  }

  function Ids(entries: seq<Entry>): seq<Id> {
    seq(|entries|, i requires 0 <= i < |entries| => entries[i].id)
  }

  lemma TopSlots(scores: seq<real>, k: nat)
    ensures forall h :: h in TopHits(scores, k) ==> h.slot < |scores|
  {
    TopHitsIsTop(scores, k);
  }

  // Search as a full stable sort of all scores, cut to the first k.
  function Ranked(entries: seq<Entry>, dimension: nat, query: Vector, k: nat): seq<SearchResult> {
    if |query| != dimension then []
    else
      TopSlots(Scores(entries, query), k);
      Resolve(Ids(entries), TopHits(Scores(entries, query), k))
  }

  function ResultIds(results: seq<SearchResult>): seq<Id> {
    seq(|results|, i requires 0 <= i < |results| => results[i].id)
  }

  function EntryPasses(keep: Id -> bool): Entry -> bool {
    (e: Entry) => keep(e.id)
  }

  function Retained(entries: seq<Entry>, keep: Id -> bool): seq<Entry> {
    Filter(entries, EntryPasses(keep))
  }

  class SimpleVectorIndex {
    const dimension: nat
    var vectors: seq<Entry>

    ghost predicate Valid()
      reads this
    {
      HasDimension(vectors, dimension)
    }

    constructor (dimension: nat)
      ensures Valid() && this.dimension == dimension && vectors == []
    {
      this.dimension := dimension;
      vectors := [];
    }

    method Insert(id: Id, embedding: Vector) returns (ok: bool)
      requires Valid()
      modifies this
      ensures Valid()
      ensures ok <==> |embedding| == dimension
      ensures vectors == if ok then old(vectors) + [Entry(id, embedding)] else old(vectors)
    {
      if |embedding| != dimension {
        return false;
      }
      vectors := vectors + [Entry(id, embedding)];
      ok := true;
    }

    method Search(query: Vector, topK: nat) returns (r: seq<SearchResult>)
      requires Valid()
      ensures r == Ranked(vectors, dimension, query, topK)
    {
      if |query| != dimension || |vectors| == 0 || topK == 0 {
        return [];
      }
      ghost var all := Scores(vectors, query);
      var best: seq<Hit> := [];
      for i := 0 to |vectors|
        invariant best == TopHits(all[..i], topK)
      {
        var score := CosineSimilarity(query, vectors[i].vector);
        best := Offer(best, score, i, topK, all[..i]);
        assert all[..i + 1] == all[..i] + [score];
      }
      assert all[..|vectors|] == all;
      TopSlots(all, topK);
      r := Resolve(Ids(vectors), best);
    }

    method RetainIds(keep: Id -> bool) returns (removed: nat)
      requires Valid()
      modifies this
      ensures Valid()
      ensures vectors == Retained(old(vectors), keep)
      ensures removed == |old(vectors)| - |vectors|
    {
      RetainedKeeps(vectors, keep);
      var before := |vectors|;
      vectors := Retained(vectors, keep);
      removed := before - |vectors|;
    }
  }

  // Retention keeps exactly the entries whose id passes, in order.
  lemma RetainedKeeps(entries: seq<Entry>, keep: Id -> bool)
    ensures |Retained(entries, keep)| <= |entries|
    ensures forall e :: e in Retained(entries, keep) <==> e in entries && keep(e.id)
  {
    FilterKeeps(entries, EntryPasses(keep));
  }

  datatype Quantized = Quantized(id: Id, codes: seq<int>, scale: real)

  const CODE_LIMIT: int := 127

  // Rounding to the nearest integer, halves away from zero.
  function Round(x: real): int {
    if x >= 0.0 then (x + 0.5).Floor else -((-x + 0.5).Floor)
  }

  function ClampCode(c: int): int {
    if c < -CODE_LIMIT then -CODE_LIMIT else if c > CODE_LIMIT then CODE_LIMIT else c
  }

  function MaxAbs(v: Vector): real {
    if v == [] then 0.0
    else
      var m := MaxAbs(v[..|v| - 1]);
      if Abs(v[|v| - 1]) > m then Abs(v[|v| - 1]) else m
  }

  function ScaleOf(v: Vector): (s: real)
    ensures s > 0.0
  {
    if MaxAbs(v) > 0.0 then MaxAbs(v) / 127.0 else 1.0
  }

  function CodesWith(v: Vector, scale: real): (codes: seq<int>)
    requires scale > 0.0
    ensures |codes| == |v|
  {
    seq(|v|, i requires 0 <= i < |v| => ClampCode(Round(v[i] / scale)))
  }

  function CodesOf(v: Vector): (codes: seq<int>)
    ensures |codes| == |v|
  {
    CodesWith(v, ScaleOf(v))
  }

  function Reals(codes: seq<int>): (v: Vector)
    ensures |v| == |codes|
  {
    seq(|codes|, i requires 0 <= i < |codes| => codes[i] as real)
  }

  function Scaled(s: real, v: Vector): (w: Vector)
    ensures |w| == |v|
  {
    seq(|v|, i requires 0 <= i < |v| => s * v[i])
  }

  function Dequantize(e: Quantized): Entry {
    Entry(e.id, Scaled(e.scale, Reals(e.codes)))
  }

  function DequantizeAll(entries: seq<Quantized>): seq<Entry> {
    seq(|entries|, i requires 0 <= i < |entries| => Dequantize(entries[i]))
  }

  ghost predicate ValidCodes(entries: seq<Quantized>, dimension: nat) {
    forall e :: e in entries ==>
      |e.codes| == dimension && e.scale > 0.0 && forall c :: c in e.codes ==> -CODE_LIMIT <= c <= CODE_LIMIT
  }

  // Search straight from the codes: the scale is never used.
  function CodeScores(entries: seq<Quantized>, query: Vector): seq<real>
    requires ValidCodes(entries, |query|)
  {
    seq(|entries|, i requires 0 <= i < |entries| =>
      assert entries[i] in entries;
      CosineOf(Dot(query, Reals(entries[i].codes)), NormSquared(query), NormSquared(Reals(entries[i].codes))))
  }

  function QuantizedIds(entries: seq<Quantized>): seq<Id> {
    seq(|entries|, i requires 0 <= i < |entries| => entries[i].id)
  }

  function CodeRanked(entries: seq<Quantized>, dimension: nat, query: Vector, k: nat): seq<SearchResult>
    requires ValidCodes(entries, dimension)
  {
    if |query| != dimension || NormSquared(query) <= 0.0 then []
    else
      TopSlots(CodeScores(entries, query), k);
      Resolve(QuantizedIds(entries), TopHits(CodeScores(entries, query), k))
  }

  function CodePasses(keep: Id -> bool): Quantized -> bool {
    (e: Quantized) => keep(e.id)
  }

  function RetainedCodes(entries: seq<Quantized>, keep: Id -> bool): seq<Quantized> {
    Filter(entries, CodePasses(keep))
  }

  lemma RetainedCodesKeeps(entries: seq<Quantized>, keep: Id -> bool)
    ensures |RetainedCodes(entries, keep)| <= |entries|
    ensures forall e :: e in RetainedCodes(entries, keep) <==> e in entries && keep(e.id)
  {
    FilterKeeps(entries, CodePasses(keep));
  }

  class Int8VectorIndex {
    const dimension: nat
    var vectors: seq<Quantized>

    ghost predicate Valid()
      reads this
    {
      ValidCodes(vectors, dimension)
    }

    constructor (dimension: nat)
      ensures Valid() && this.dimension == dimension && vectors == []
    {
      this.dimension := dimension;
      vectors := [];
    }

    method Insert(id: Id, embedding: Vector) returns (ok: bool)
      requires Valid()
      modifies this
      ensures Valid()
      ensures ok <==> |embedding| == dimension
      ensures vectors ==
              if ok then old(vectors) + [Quantized(id, CodesOf(embedding), ScaleOf(embedding))] else old(vectors)
    {
      if |embedding| != dimension {
        return false;
      }
      vectors := vectors + [Quantized(id, CodesOf(embedding), ScaleOf(embedding))];
      ok := true;
    }

    method Search(query: Vector, topK: nat) returns (r: seq<SearchResult>)
      requires Valid()
      ensures r == CodeRanked(vectors, dimension, query, topK)
    {
      if |query| != dimension || |vectors| == 0 || topK == 0 {
        return [];
      }
      var normQ := QueryNorm(query);
      if normQ <= 0.0 {
        return [];
      }
      ghost var all := CodeScores(vectors, query);
      var best: seq<Hit> := [];
      for i := 0 to |vectors|
        invariant best == TopHits(all[..i], topK)
      {
        assert vectors[i] in vectors;
        var score := CodeSimilarity(query, normQ, vectors[i].codes);
        best := Offer(best, score, i, topK, all[..i]);
        assert all[..i + 1] == all[..i] + [score];
      }
      assert all[..|vectors|] == all;
      TopSlots(all, topK);
      r := Resolve(QuantizedIds(vectors), best);
    }

    method RetainIds(keep: Id -> bool) returns (removed: nat)
      requires Valid()
      modifies this
      ensures Valid()
      ensures vectors == RetainedCodes(old(vectors), keep)
      ensures removed == |old(vectors)| - |vectors|
    {
      RetainedCodesKeeps(vectors, keep);
      var before := |vectors|;
      vectors := RetainedCodes(vectors, keep);
      removed := before - |vectors|;
    }
  }

  // The query norm, computed once per search.
  method QueryNorm(query: Vector) returns (norm: real)
    ensures norm == NormSquared(query)
  {
    norm := 0.0;
    for j := 0 to |query|
      invariant norm == Dot(query[..j], query[..j])
    {
      DotStep(query, query, j);
      norm := norm + query[j] * query[j];
    }
    assert query[..|query|] == query;
  }

  // The inner loop of the int8 scan.
  method CodeSimilarity(query: Vector, normQ: real, codes: seq<int>) returns (score: real)
    requires |codes| == |query| && normQ == NormSquared(query) && normQ > 0.0
    ensures score == CosineOf(Dot(query, Reals(codes)), NormSquared(query), NormSquared(Reals(codes)))
  {
    ghost var v := Reals(codes);
    var dot, normC := 0.0, 0.0;
    for j := 0 to |codes|
      invariant dot == Dot(query[..j], v[..j]) && normC == Dot(v[..j], v[..j])
    {
      var c := codes[j] as real;
      DotStep(query, v, j);
      DotStep(v, v, j);
      dot := dot + c * query[j];
      normC := normC + c * c;
    }
    assert query[..|query|] == query && v[..|v|] == v;
    score := CosineOf(dot, normQ, normC);
  }
}
