// The loops of breadth-first expansion, and recall's final ordering.
module Layers {
  import opened Filtering
  import G = Graph
  import opened Hashing
  import opened IdGenerator
  import opened IdOrder
  import opened StableSort
  import opened Traversal

  // Every node's neighbours, once per edge end.
  ghost predicate Lists(adj: map<Id, seq<Id>>, edges: seq<G.Edge>) {
    forall x :: SetOf(ListAt(adj, x)) == Neighbors(edges, {x})
  }

  function ListAt(adj: map<Id, seq<Id>>, x: Id): seq<Id> {
    if x in adj then adj[x] else []
  }

  method AdjacencyLists(edges: seq<G.Edge>) returns (adj: map<Id, seq<Id>>)
    ensures Lists(adj, edges)
  {
    adj := map[];
    for i := 0 to |edges|
      invariant Lists(adj, edges[..i])
    {
      var e := edges[i];
      ListsPush(adj, edges[..i], e);
      assert edges[..i + 1] == edges[..i] + [e];
      adj := Push(adj, e.source, e.target);
      adj := Push(adj, e.target, e.source);
    }
    assert edges[..|edges|] == edges;
  }

  // Both ends of one more edge, pushed onto the lists.
  lemma ListsPush(adj: map<Id, seq<Id>>, edges: seq<G.Edge>, e: G.Edge)
    requires Lists(adj, edges)
    ensures Lists(Push(Push(adj, e.source, e.target), e.target, e.source), edges + [e])
  {
    var after := Push(Push(adj, e.source, e.target), e.target, e.source);
    assert (edges + [e])[..|edges|] == edges;
    forall x ensures SetOf(ListAt(after, x)) == Neighbors(edges + [e], {x}) {
      assert SetOf(ListAt(adj, x)) == Neighbors(edges, {x});
      assert ListAt(after, x) == ListAt(adj, x) + (if x == e.source then [e.target] else [])
                                 + (if x == e.target then [e.source] else []);
    }
  }

  // When the settled nodes' neighbours are all seen, the frontier's are all that is missing.
  lemma LayerIsGrown(edges: seq<G.Edge>, settled: set<Id>, frontier: set<Id>)
    requires Neighbors(edges, settled) <= settled + frontier
    ensures (settled + frontier) + Neighbors(edges, frontier) == Grown(edges, settled + frontier)
  {
    NeighborsUnion(edges, settled, frontier);
  }

  // Mark one node's neighbours seen; the new ones join `next`.
  method VisitNeighbors(nbs: seq<Id>, ghost seen: set<Id>, before: set<Id>, queued: seq<Id>)
    returns (after: set<Id>, next: seq<Id>)
    requires seen <= before && SetOf(queued) == before - seen
    ensures after == before + SetOf(nbs) && SetOf(next) == after - seen
  {
    after, next := before, queued;
    for j := 0 to |nbs|
      invariant after == before + SetOf(nbs[..j])
      invariant SetOf(next) == after - seen
    {
      var nb := nbs[j];
      assert SetOf(nbs[..j + 1]) == SetOf(nbs[..j]) + {nb};
      if nb !in after {
        assert SetOf(next + [nb]) == SetOf(next) + {nb};
        after, next := after + {nb}, next + [nb];
      }
    }
    assert nbs[..|nbs|] == nbs;
  }

  // One layer: everything next to the frontier is marked seen; what is new becomes `next`.
  method ExpandLayer(adj: map<Id, seq<Id>>, ghost edges: seq<G.Edge>, seen: set<Id>, frontier: seq<Id>)
    returns (after: set<Id>, next: seq<Id>)
    requires Lists(adj, edges)
    ensures after == seen + Neighbors(edges, SetOf(frontier))
    ensures SetOf(next) == after - seen
  {
    after, next := seen, [];
    NoNeighbors(edges);
    assert SetOf(frontier[..0]) == {};
    for i := 0 to |frontier|
      invariant after == seen + Neighbors(edges, SetOf(frontier[..i]))
      invariant SetOf(next) == after - seen
    {
      NeighborsOfOneMore(edges, frontier, i);
      assert SetOf(ListAt(adj, frontier[i])) == Neighbors(edges, {frontier[i]});
      after, next := VisitNeighbors(ListAt(adj, frontier[i]), seen, after, next);
    }
    assert frontier[..|frontier|] == frontier;
  }

  lemma NeighborsOfOneMore(edges: seq<G.Edge>, frontier: seq<Id>, i: nat)
    requires i < |frontier|
    ensures Neighbors(edges, SetOf(frontier[..i + 1])) ==
            Neighbors(edges, SetOf(frontier[..i])) + Neighbors(edges, {frontier[i]})
  {
    assert SetOf(frontier[..i + 1]) == SetOf(frontier[..i]) + {frontier[i]};
    NeighborsUnion(edges, SetOf(frontier[..i]), {frontier[i]});
  }

  // After h layers: what has been seen, and which of it has had its neighbours visited.
  ghost predicate LayerDone(g: G.State, seeds: set<Id>, h: nat, seen: set<Id>, settled: set<Id>, frontier: set<Id>) {
    seen == Ball(g, seeds, h) && seen == settled + frontier && Neighbors(g.edges, settled) <= seen
  }

  lemma FirstLayer(g: G.State, seeds: set<Id>, frontier: seq<Id>)
    requires frontier == Ascending(Ball(g, seeds, 0))
    ensures LayerDone(g, seeds, 0, Ball(g, seeds, 0), {}, SetOf(frontier))
  {
    AscendingLists(Ball(g, seeds, 0));
    NoNeighbors(g.edges);
  }

  lemma NextLayer(g: G.State, seeds: set<Id>, h: nat, seen: set<Id>, settled: set<Id>, frontier: set<Id>,
      after: set<Id>, next: set<Id>)
    requires LayerDone(g, seeds, h, seen, settled, frontier)
    requires after == seen + Neighbors(g.edges, frontier) && next == after - seen
    ensures LayerDone(g, seeds, h + 1, after, seen, next)
    ensures next == {} ==> Closed(g, Ball(g, seeds, h))
  {
    LayerIsGrown(g.edges, settled, frontier);
  }

  // Layer after layer until `hops` is reached or a layer adds nothing.
  method ExpandLayers(adj: map<Id, seq<Id>>, start: set<Id>, hops: nat, ghost g: G.State, ghost seeds: set<Id>)
    returns (seen: set<Id>)
    requires Lists(adj, g.edges) && start == Ball(g, seeds, 0)
    ensures seen == Ball(g, seeds, hops)
  {
    seen := start;
    var frontier := Ascending(start);
    ghost var settled: set<Id> := {};
    FirstLayer(g, seeds, frontier);
    var h := 0;
    while h < hops
      invariant 0 <= h <= hops
      invariant LayerDone(g, seeds, h, seen, settled, SetOf(frontier))
    {
      var after, next := ExpandLayer(adj, g.edges, seen, frontier);
      NextLayer(g, seeds, h, seen, settled, SetOf(frontier), after, SetOf(next));
      if |next| == 0 {
        assert SetOf(next) == {};
        BallStops(g, seeds, h, hops);
        return;
      }
      seen, settled, frontier, h := after, seen, next, h + 1;
    }
  }

  method KeepAmong(s: seq<Id>, keep: set<Id>) returns (r: seq<Id>)
    ensures r == Among(s, keep)
  {
    r := [];
    for i := 0 to |s|
      invariant r == Among(s[..i], keep)
    {
      assert s[..i + 1][..i] == s[..i];
      if s[i] in keep {
        r := r + [s[i]];
      }
    }
    assert s[..|s|] == s;
  }

  // Dropping from an ascending list leaves the ascending list of the rest.
  lemma AmongAscending(all: set<Id>, keep: set<Id>)
    requires keep <= all
    ensures Among(Ascending(all), keep) == Ascending(keep)
  {
    AscendingLists(all);
    AmongKeeps(Ascending(all), keep);
    AmongSorted(Ascending(all), keep);
    AscendingUnique(keep, Among(Ascending(all), keep));
  }

  lemma AmongSorted(s: seq<Id>, keep: set<Id>)
    requires Sorted(s, Before)
    ensures Sorted(Among(s, keep), Before)
  {
    FilterOrdered(s, In(keep), Before);
  }
}
