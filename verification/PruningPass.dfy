// The loops of a pruning pass: degrees, scores, the greedy sweep.
module PruningPass {
  import G = Graph
  import opened IdGenerator
  import Pruning
  import PruningLaws

  lemma {:induction false} KeptNoLonger(edges: seq<G.Edge>, removed: set<nat>)
    ensures |Pruning.Kept(edges, removed)| <= |edges|
  {
    if edges != [] {
      KeptNoLonger(edges[..|edges| - 1], removed);
    }
  }

  function CountOf(deg: map<Id, nat>, x: Id): nat {
    if x in deg then deg[x] else 0
  }

  ghost predicate CountsDegrees(deg: map<Id, nat>, edges: seq<G.Edge>) {
    forall x :: CountOf(deg, x) == Pruning.Degree(edges, x)
  }

  ghost predicate CollectsNeighbors(adj: map<Id, set<Id>>, edges: seq<G.Edge>) {
    forall x :: (if x in adj then adj[x] else {}) == Pruning.Adjacent(edges, x)
  }

  method DegreesAndNeighbors(edges: seq<G.Edge>) returns (deg: map<Id, nat>, adj: map<Id, set<Id>>)
    ensures CountsDegrees(deg, edges) && CollectsNeighbors(adj, edges)
  {
    deg, adj := map[], map[];
    for i := 0 to |edges|
      invariant CountsDegrees(deg, edges[..i]) && CollectsNeighbors(adj, edges[..i])
    {
      var e := edges[i];
      assert edges[..i + 1][..i] == edges[..i];
      deg := deg[e.source := (if e.source in deg then deg[e.source] else 0) + 1];
      deg := deg[e.target := (if e.target in deg then deg[e.target] else 0) + 1];
      adj := adj[e.source := (if e.source in adj then adj[e.source] else {}) + {e.target}];
      adj := adj[e.target := (if e.target in adj then adj[e.target] else {}) + {e.source}];
    }
    assert edges[..|edges|] == edges;
  }

  method ScoreEdges(edges: seq<G.Edge>, deg: map<Id, nat>, adj: map<Id, set<Id>>) returns (scored: seq<Pruning.Scored>)
    requires CountsDegrees(deg, edges) && CollectsNeighbors(adj, edges)
    ensures scored == Pruning.Scores(edges)
  {
    scored := [];
    for i := 0 to |edges|
      invariant scored == Pruning.Scores(edges)[..i]
    {
      var u, v := edges[i].source, edges[i].target;
      assert edges[i] in edges;
      PruningLaws.DegreePositive(edges, edges[i]);
      var tri := if u in adj && v in adj then |adj[u] * adj[v]| else 0;
      assert tri == Pruning.Triangles(edges, edges[i]);
      scored := scored + [Pruning.Scored(i, Pruning.EdgeCurvature(deg[u], deg[v], tri))];
    }
  }

  // The live counts after one more edge is struck out.
  function Lowered(live: map<Id, nat>, e: G.Edge): map<Id, nat>
    requires e.source in live && e.target in live && live[e.source] > 1 && live[e.target] > 1
  {
    var first := live[e.source := live[e.source] - 1];
    first[e.target := first[e.target] - 1]
  }

  lemma LiveCountAt(edges: seq<G.Edge>, removed: set<nat>, i: nat, live: map<Id, nat>, x: Id)
    requires i < |edges| && i !in removed && CountsDegrees(live, Pruning.Kept(edges, removed))
    requires edges[i].source in live && edges[i].target in live
    requires live[edges[i].source] > 1 && live[edges[i].target] > 1
    ensures CountOf(Lowered(live, edges[i]), x) == Pruning.LiveDegree(edges, removed + {i}, x)
  {
    PruningLaws.StrikeOne(edges, removed, i, x);
    assert CountOf(live, x) == Pruning.LiveDegree(edges, removed, x);
  }

  // Striking out an edge lowers the two live counts by one each.
  lemma LiveCounts(edges: seq<G.Edge>, removed: set<nat>, i: nat, live: map<Id, nat>)
    requires i < |edges| && i !in removed && CountsDegrees(live, Pruning.Kept(edges, removed))
    requires edges[i].source in live && edges[i].target in live
    requires live[edges[i].source] > 1 && live[edges[i].target] > 1
    ensures CountsDegrees(Lowered(live, edges[i]), Pruning.Kept(edges, removed + {i}))
  {
    forall x ensures CountOf(Lowered(live, edges[i]), x) == Pruning.Degree(Pruning.Kept(edges, removed + {i}), x) {
      LiveCountAt(edges, removed, i, live, x);
    }
  }

  lemma GreedyNext(edges: seq<G.Edge>, rest: seq<Pruning.Scored>, threshold: real, removed: set<nat>)
    requires PruningLaws.Pending(edges, rest, removed) && rest != []
    ensures rest[0] in rest
    ensures rest[0].curvature as real <= threshold ==> Pruning.Greedy(edges, rest, threshold, removed) == removed
    ensures rest[0].curvature as real > threshold ==>
      PruningLaws.Pending(edges, rest[1..], PruningLaws.Advance(edges, rest[0], removed)) &&
      Pruning.Greedy(edges, rest, threshold, removed) ==
      Pruning.Greedy(edges, rest[1..], threshold, PruningLaws.Advance(edges, rest[0], removed))
  {
    assert rest[0] in rest;
    PruningLaws.PendingTail(edges, rest, removed, PruningLaws.Advance(edges, rest[0], removed));
  }

  lemma CountAt(deg: map<Id, nat>, edges: seq<G.Edge>, removed: set<nat>, i: nat)
    requires i < |edges| && i !in removed && CountsDegrees(deg, Pruning.Kept(edges, removed))
    ensures edges[i].source in deg && deg[edges[i].source] == Pruning.LiveDegree(edges, removed, edges[i].source)
    ensures edges[i].target in deg && deg[edges[i].target] == Pruning.LiveDegree(edges, removed, edges[i].target)
  {
    var e := edges[i];
    PruningLaws.SurvivorCounts(edges, removed, i);
    assert CountOf(deg, e.source) == Pruning.LiveDegree(edges, removed, e.source);
    assert CountOf(deg, e.target) == Pruning.LiveDegree(edges, removed, e.target);
  }

  method GreedyPass(edges: seq<G.Edge>, deg: map<Id, nat>, order: seq<Pruning.Scored>, threshold: real)
    returns (remove: set<nat>)
    requires CountsDegrees(deg, edges) && PruningLaws.Pending(edges, order, {})
    ensures remove == Pruning.Greedy(edges, order, threshold, {})
  {
    var liveDeg := deg;
    remove := {};
    PruningLaws.KeptAll(edges);
    ghost var goal := Pruning.Greedy(edges, order, threshold, {});
    assert order[0..] == order;
    for k := 0 to |order|
      invariant PruningLaws.Pending(edges, order[k..], remove)
      invariant CountsDegrees(liveDeg, Pruning.Kept(edges, remove))
      invariant Pruning.Greedy(edges, order[k..], threshold, remove) == goal
    {
      GreedyNext(edges, order[k..], threshold, remove);
      assert order[k..][0] == order[k] && order[k..][1..] == order[k + 1..];
      if order[k].curvature as real <= threshold {
        return;
      }
      var slot := order[k].slot;
      var e := edges[slot];
      CountAt(liveDeg, edges, remove, slot);
      if liveDeg[e.source] > 1 && liveDeg[e.target] > 1 {
        LiveCounts(edges, remove, slot, liveDeg);
        remove := remove + {slot};
        liveDeg := Lowered(liveDeg, e);
      }
    }
  }
}
