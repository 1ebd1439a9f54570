// What a caller can know from the candidates alone: records recall cannot tell apart weigh the same,
// and without a certificate a single further node can be missed.
module RecallCertificate {
  import Cosine
  import opened Graph
  import opened IdGenerator
  import opened Provenance
  import opened Recall
  import opened Shortlist
  import opened StableSort
  import opened VectorIndex

  // A well-formed pairing of node records and index entries.
  ghost predicate WellFormed(g: State, entries: seq<Entry>, dimension: nat) {
    && Keyed(g)
    && HasDimension(entries, dimension)
    && (forall e :: e in entries ==> e.id in g.nodes)
    && (forall i, j :: 0 <= i < j < |entries| ==> entries[i].id != entries[j].id)
  }

  // Two node records that recall cannot tell apart.
  predicate SameRecord(a: Node, b: Node) {
    a.id == b.id && a.content == b.content && a.source == b.source && a.cell == b.cell
  }

  ghost predicate SameRecords(g: State, g': State, results: seq<SearchResult>) {
    forall r :: r in results ==>
      (r.id in g.nodes <==> r.id in g'.nodes) && (r.id in g.nodes ==> SameRecord(g.nodes[r.id], g'.nodes[r.id]))
  }

  lemma {:induction false} WeighedAlike(g: State, g': State, results: seq<SearchResult>)
    requires SameRecords(g, g', results)
    ensures Weighed(g, results) == Weighed(g', results)
  {
    if results != [] {
      var rest, last := results[..|results| - 1], results[|results| - 1];
      assert results == rest + [last];
      assert last in results && forall r :: r in rest ==> r in results;
      WeighedAlike(g, g', rest);
    }
  }

  // ---- Without a certificate: one more node, as near as the last candidate, is missed

  // A late entry no nearer than the n-th leaves the first n hits alone.
  lemma LateHit(scores: seq<real>, c: real, n: nat)
    requires n <= |scores| && forall i :: 0 <= i < n ==> TopHits(scores, n)[i].score >= c
    ensures TopHits(scores + [c], n) == TopHits(scores, n)
  {
    var s, h := Sort(Hits(scores), ScoreDescending), Hit(c, |scores|);
    assert Hits(scores + [c]) == Hits(scores) + [h];
    SortAppend(Hits(scores), h, ScoreDescending);
    forall i | 0 <= i < n ensures ScoreDescending(s[i], h) {
      assert TopHits(scores, n)[i] == s[i];
    }
    InsertBeyond(s, s, h, n, ScoreDescending);
  }

  lemma LateEntryUnseen(entries: seq<Entry>, dimension: nat, query: seq<real>, late: Entry, n: nat)
    requires |query| == dimension && n <= |entries|
    requires forall i :: 0 <= i < n ==>
      TopHits(Scores(entries, query), n)[i].score >= Cosine.SignedCosine(query, late.vector)
    ensures Ranked(entries + [late], dimension, query, n) == Ranked(entries, dimension, query, n)
  {
    var scores, c := Scores(entries, query), Cosine.SignedCosine(query, late.vector);
    assert Scores(entries + [late], query) == scores + [c];
    LateHit(scores, c, n);
    TopSlots(scores, n);
    var hits := TopHits(scores, n);
    assert forall h :: h in hits ==> Ids(entries + [late])[h.slot] == Ids(entries)[h.slot];
    assert Resolve(Ids(entries + [late]), hits) == Resolve(Ids(entries), hits);
  }

  lemma RankedListsAll(entries: seq<Entry>, dimension: nat, query: seq<real>, i: nat)
    requires |query| == dimension && i < |entries|
    ensures SearchResult(entries[i].id, Cosine.SignedCosine(query, entries[i].vector))
            in Ranked(entries, dimension, query, |entries|)
  {
    var scores := Scores(entries, query);
    var s := TopHits(scores, |entries|);
    SortElements(Hits(scores), ScoreDescending);
    assert Hits(scores)[i] == Hit(scores[i], i);
    assert Hit(scores[i], i) in s;
    var j :| 0 <= j < |s| && s[j] == Hit(scores[i], i);
    TopSlots(scores, |entries|);
    assert Ranked(entries, dimension, query, |entries|)[j] == SearchResult(entries[i].id, scores[i]);
  }

  lemma RankedWithin(entries: seq<Entry>, dimension: nat, query: seq<real>, n: nat)
    ensures |Ranked(entries, dimension, query, n)| <= n
  {
  }

  lemma RankedComesFrom(entries: seq<Entry>, dimension: nat, query: seq<real>, n: nat, j: nat) returns (i: nat)
    requires |query| == dimension && j < |Ranked(entries, dimension, query, n)|
    ensures i < |entries|
    ensures Ranked(entries, dimension, query, n)[j] ==
            SearchResult(entries[i].id, Cosine.SignedCosine(query, entries[i].vector))
    ensures TopHits(Scores(entries, query), n)[j].score == Cosine.SignedCosine(query, entries[i].vector)
  {
    var hits := TopHits(Scores(entries, query), n);
    TopHitsIsTop(Scores(entries, query), n);
    assert hits[j] in hits;
    i := hits[j].slot;
  }

  // One more entry, as near to the query as the last candidate and under a new id, is not seen.
  lemma LatecomerUnseen(g: State, g': State, entries: seq<Entry>, dimension: nat, query: seq<real>, n: nat,
      i: nat, late: Entry)
    requires WellFormed(g, entries, dimension) && |query| == dimension
    requires 0 < n == |Ranked(entries, dimension, query, n)| && i < |entries| && late.vector == entries[i].vector
    requires TopHits(Scores(entries, query), n)[n - 1].score == Cosine.SignedCosine(query, entries[i].vector)
    requires late.id !in g.nodes && late.id in g'.nodes && g'.nodes == g.nodes[late.id := g'.nodes[late.id]]
    ensures Ranked(entries + [late], dimension, query, n) == Ranked(entries, dimension, query, n)
    ensures forall r :: r in Ranked(entries, dimension, query, n) ==> r.id != late.id
    ensures SameRecords(g, g', Ranked(entries, dimension, query, n))
  {
    RankedPrefix(entries, dimension, query, n);
    RankedDescends(entries, dimension, query);
    NearestFirst(entries, query, n, Cosine.SignedCosine(query, late.vector));
    LateEntryUnseen(entries, dimension, query, late, n);
    SeenAreKnown(g, g', entries, dimension, query, n, late.id);
  }

  ghost predicate IsStranger(g: State, entries: seq<Entry>, query: seq<real>, x: Id, c: real) {
    && entries != [] && entries[|entries| - 1].id == x
    && c == Cosine.SignedCosine(query, entries[|entries| - 1].vector)
    && x in g.nodes && g.nodes[x].source == UserUtterance
  }

  lemma NearestFirst(entries: seq<Entry>, query: seq<real>, n: nat, c: real)
    requires 0 < n <= |entries| && c == TopHits(Scores(entries, query), n)[n - 1].score
    ensures forall i :: 0 <= i < n ==> TopHits(Scores(entries, query), n)[i].score >= c
  {
    TopHitsIsTop(Scores(entries, query), n);
    SortedScores(TopHits(Scores(entries, query), n), n);
  }

  lemma SortedScores(hits: seq<Hit>, n: nat)
    requires Sorted(hits, Precedes) && 0 < n <= |hits|
    ensures forall i :: 0 <= i < n ==> hits[i].score >= hits[n - 1].score
  {
    forall i | 0 <= i < n ensures hits[i].score >= hits[n - 1].score {
      assert i < n - 1 ==> Precedes(hits[i], hits[n - 1]);
    }
  }

  lemma SeenAreKnown(g: State, g': State, entries: seq<Entry>, dimension: nat, query: seq<real>, n: nat, x: Id)
    requires WellFormed(g, entries, dimension) && |query| == dimension && x !in g.nodes
    requires x in g'.nodes && g'.nodes == g.nodes[x := g'.nodes[x]]
    ensures forall r :: r in Ranked(entries, dimension, query, n) ==> r.id in g.nodes && r.id != x
    ensures SameRecords(g, g', Ranked(entries, dimension, query, n))
  {
    var seen := Ranked(entries, dimension, query, n);
    forall r | r in seen ensures r.id in g.nodes && r.id != x {
      var j :| 0 <= j < |seen| && seen[j] == r;
      var i := RankedComesFrom(entries, dimension, query, n, j);
      assert entries[i] in entries;
    }
  }

  lemma StrangerUnseen(entries: seq<Entry>, dimension: nat, query: seq<real>, k: nat, x: Id, c: real)
    requires |query| == dimension && entries != [] && entries[|entries| - 1].id == x
    requires c == Cosine.SignedCosine(query, entries[|entries| - 1].vector)
    requires forall r :: r in Ranked(entries, dimension, query, Fetch(k)) ==> r.id != x
    ensures SearchResult(x, c) in Unseen(entries, dimension, query, k)
  {
    RankedListsAll(entries, dimension, query, |entries| - 1);
    SeenAndUnseen(entries, dimension, query, k);
  }

  lemma StrangerWeighed(g: State, results: seq<SearchResult>, x: Id, c: real)
    requires x in g.nodes && g.nodes[x].source == UserUtterance && c >= FLOOR && SearchResult(x, c) in results
    ensures exists row :: row in Weighed(g, results) && row.score == TOP_WEIGHT * c
  {
    var r := SearchResult(x, c);
    WeighedMembers(g, results);
    assert Eligible(g, r) && RowOf(g, r) in Weighed(g, results);
    assert RowOf(g, r).score == TOP_WEIGHT * c;
  }

  lemma Uncertified(g: State, seen: seq<SearchResult>, k: nat)
    requires !Certificate(g, seen, k)
    ensures k > 0 && |seen| >= Fetch(k) > 0
    ensures seen[|seen| - 1].score >= FLOOR
    ensures |Weighed(g, seen)| >= k ==>
      Take(Sort(Weighed(g, seen), HigherScore), k)[k - 1].score < TOP_WEIGHT * seen[|seen| - 1].score
  {
  }

  lemma StrangerMissed(g: State, entries: seq<Entry>, dimension: nat, query: seq<real>, k: nat, x: Id)
    requires |query| == dimension
    requires var seen := Ranked(entries, dimension, query, Fetch(k));
             && !Certificate(g, seen, k) && |seen| > 0
             && (forall r :: r in seen ==> r.id != x)
             && IsStranger(g, entries, query, x, seen[|seen| - 1].score)
    ensures Answer(g, entries, dimension, query, k) != Ideal(g, entries, dimension, query, k)
  {
    var seen, unseen := Ranked(entries, dimension, query, Fetch(k)), Unseen(entries, dimension, query, k);
    var c := seen[|seen| - 1].score;
    StrangerUnseen(entries, dimension, query, k, x, c);
    StrangerDisplaces(g, seen, unseen, k, x, c);
    ExactIff(g, entries, dimension, query, k);
  }

  lemma StrangerDisplaces(g: State, seen: seq<SearchResult>, unseen: seq<SearchResult>, k: nat, x: Id, c: real)
    requires !Certificate(g, seen, k) && |seen| > 0 && c == seen[|seen| - 1].score
    requires x in g.nodes && g.nodes[x].source == UserUtterance && SearchResult(x, c) in unseen
    ensures Displaced(Weighed(g, seen), Weighed(g, unseen), k, HigherScore)
  {
    Uncertified(g, seen, k);
    StrangerWeighed(g, unseen, x, c);
    var row :| row in Weighed(g, unseen) && row.score == TOP_WEIGHT * c;
    HeavyRowDisplaces(Weighed(g, seen), Weighed(g, unseen), k, row);
  }

  lemma HeavyRowDisplaces(rows: seq<Row>, late: seq<Row>, k: nat, row: Row)
    requires row in late && k > 0
    requires |rows| >= k ==> Take(Sort(rows, HigherScore), k)[k - 1].score < row.score
    ensures Displaced(rows, late, k, HigherScore)
  {
    if |rows| >= k {
      assert Take(Sort(rows, HigherScore), k)[k - 1] == Sort(rows, HigherScore)[k - 1];
      assert !HigherScore(Sort(rows, HigherScore)[k - 1], row);
    }
  }

  // ---- What holds of every answer, certified or not

  // A row reports a live, non-quarantined node at or above the floor, with its true cosine.
  ghost predicate Honest(g: State, entries: seq<Entry>, query: seq<real>, row: Row) {
    exists e :: e in entries && e.id in g.nodes
      && row == RowOf(g, SearchResult(e.id, Cosine.SignedCosine(query, e.vector)))
      && row.cosine >= FLOOR && !g.nodes[e.id].source.IsSelfDescription()
  }

  lemma AnswerSound(g: State, entries: seq<Entry>, dimension: nat, query: seq<real>, k: nat)
    ensures |Answer(g, entries, dimension, query, k)| <= k
    ensures Sorted(Answer(g, entries, dimension, query, k), HigherScore)
    ensures forall row :: row in Answer(g, entries, dimension, query, k) ==> Honest(g, entries, query, row)
  {
    var seen := Ranked(entries, dimension, query, Fetch(k));
    HigherScoreTotal();
    SortSorted(Weighed(g, seen), HigherScore);
    SortElements(Weighed(g, seen), HigherScore);
    WeighedMembers(g, seen);
    forall row | row in Answer(g, entries, dimension, query, k) ensures Honest(g, entries, query, row) {
      assert row in Sort(Weighed(g, seen), HigherScore);
      var r :| r in seen && Eligible(g, r) && row == RowOf(g, r);
      var j :| 0 <= j < |seen| && seen[j] == r;
      var i := RankedComesFrom(entries, dimension, query, Fetch(k), j);
      assert entries[i] in entries;
      WeightBounded(g.nodes[r.id].source);
    }
  }
}
