// Associative recall from end to end: entry points by cosine, then expansion over the edges.
module AssociativeRecall {
  import opened Cosine
  import opened Filtering
  import opened Graph
  import opened IdGenerator
  import opened Recall
  import opened Shortlist
  import T = Traversal
  import opened VectorIndex

  ghost predicate DistinctIds(entries: seq<Entry>) {
    forall i, j :: 0 <= i < j < |entries| ==> entries[i].id != entries[j].id
  }

  // A search never returns the same slot twice.
  lemma SlotsDistinct(scores: seq<real>, k: nat, i: nat, j: nat)
    requires i < j < |TopHits(scores, k)|
    ensures TopHits(scores, k)[i].slot != TopHits(scores, k)[j].slot
  {
    var hits := TopHits(scores, k);
    TopHitsIsTop(scores, k);
    assert hits[i] in hits && hits[j] in hits && Precedes(hits[i], hits[j]);
  }

  // Distinct index ids make distinct entry points.
  lemma EntryPointsDistinct(entries: seq<Entry>, dimension: nat, query: Vector, k: nat)
    requires DistinctIds(entries)
    ensures T.Distinct(ResultIds(Ranked(entries, dimension, query, k)))
  {
    if |query| == dimension {
      var scores := Scores(entries, query);
      var hits, ids := TopHits(scores, k), ResultIds(Ranked(entries, dimension, query, k));
      TopSlots(scores, k);
      forall i, j | 0 <= i < j < |hits| ensures ids[i] != ids[j] {
        assert hits[i] in hits && hits[j] in hits;
        SlotsDistinct(scores, k, i, j);
      }
    }
  }

  // The hits whose node is live, in the order found.
  function HitLives(live: set<Id>): SearchResult -> bool {
    (r: SearchResult) => r.id in live
  }

  function LiveHits(hits: seq<SearchResult>, live: set<Id>): seq<SearchResult> {
    Filter(hits, HitLives(live))
  }

  lemma LiveHitsKeep(hits: seq<SearchResult>, live: set<Id>)
    ensures forall r :: r in LiveHits(hits, live) <==> r in hits && r.id in live
  {
    FilterKeeps(hits, HitLives(live));
  }

  lemma ResultIdsAppend(front: seq<SearchResult>, last: SearchResult)
    ensures ResultIds(front + [last]) == ResultIds(front) + [last.id]
  {
  }

  lemma {:induction false} LiveHitsIds(hits: seq<SearchResult>, live: set<Id>)
    ensures ResultIds(LiveHits(hits, live)) == T.Among(ResultIds(hits), live)
  {
    if hits != [] {
      var front, last := hits[..|hits| - 1], hits[|hits| - 1];
      LiveHitsIds(front, live);
      ResultIdsAppend(front, last);
      ResultIdsAppend(LiveHits(front, live), last);
      assert hits == front + [last];
      assert ResultIds(hits)[..|hits| - 1] == ResultIds(front);
    }
  }

  ghost predicate NoLower(a: SearchResult, b: SearchResult) {
    a.score >= b.score
  }

  lemma LiveHitsFall(hits: seq<SearchResult>, live: set<Id>)
    requires Descending(hits)
    ensures Descending(LiveHits(hits, live))
  {
    FilterOrdered(hits, HitLives(live), NoLower);
  }

  lemma RankedFalls(entries: seq<Entry>, dimension: nat, query: Vector, k: nat)
    ensures Descending(Ranked(entries, dimension, query, k))
  {
    RankedPrefix(entries, dimension, query, k);
    RankedDescends(entries, dimension, query);
  }

  // With distinct index ids, recall lists the ball around its entry points, each node once; the
  // live entry points come first, their cosines never rising.
  lemma RecallFromSearch(g: State, entries: seq<Entry>, dimension: nat, query: Vector, k: nat, hops: nat)
    requires EdgesLive(g) && DistinctIds(entries)
    ensures var hits := Ranked(entries, dimension, query, k);
            var out, live := T.Recall(g, ResultIds(hits), hops), LiveHits(hits, g.nodes.Keys);
            && T.Distinct(out)
            && T.SetOf(out) == T.Ball(g, T.SetOf(ResultIds(hits)), hops)
            && ResultIds(live) <= out && Descending(live)
            && forall r :: r in live <==> r in hits && r.id in g.nodes
  {
    var hits := Ranked(entries, dimension, query, k);
    EntryPointsDistinct(entries, dimension, query, k);
    RankedFalls(entries, dimension, query, k);
    LiveHitsKeep(hits, g.nodes.Keys);
    LiveHitsIds(hits, g.nodes.Keys);
    LiveHitsFall(hits, g.nodes.Keys);
    T.RecallListsBall(g, ResultIds(hits), hops);
  }
}
