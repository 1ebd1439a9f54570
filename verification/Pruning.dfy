// Forman-Ricci pruning: edges scored on the original graph, dropped greedily from the highest
// score down while neither endpoint would lose its last edge.
module Pruning {
  import opened Graph
  import opened IdGenerator
  import opened StableSort
  import opened Traversal

  function EdgeCurvature(degU: nat, degV: nat, triangles: nat): int {
    4 - degU - degV + 3 * triangles
  }

  function EndCount(e: Edge, x: Id): nat {
    (if e.source == x then 1 else 0) + (if e.target == x then 1 else 0)
  }

  function Degree(edges: seq<Edge>, x: Id): nat {
    if edges == [] then 0 else Degree(edges[..|edges| - 1], x) + EndCount(edges[|edges| - 1], x)
  }

  function Adjacent(edges: seq<Edge>, x: Id): set<Id> {
    Neighbors(edges, {x})
  }

  function Triangles(edges: seq<Edge>, e: Edge): nat {
    |Adjacent(edges, e.source) * Adjacent(edges, e.target)|
  }

  function CurvatureAt(edges: seq<Edge>, i: nat): int
    requires i < |edges|
  {
    var e := edges[i];
    EdgeCurvature(Degree(edges, e.source), Degree(edges, e.target), Triangles(edges, e))
  }

  datatype Scored = Scored(slot: nat, curvature: int)

  predicate MoreCurved(a: Scored, b: Scored) {
    a.curvature >= b.curvature
  }

  function Scores(edges: seq<Edge>): (r: seq<Scored>)
    ensures |r| == |edges|
  {
    seq(|edges|, i requires 0 <= i < |edges| => Scored(i, CurvatureAt(edges, i)))
  }

  function Order(edges: seq<Edge>): seq<Scored> {
    Sort(Scores(edges), MoreCurved)
  }

  // The edges whose slot has not been struck out.
  function Kept(edges: seq<Edge>, removed: set<nat>): seq<Edge> {
    if edges == [] then []
    else
      var n := |edges| - 1;
      Kept(edges[..n], removed) + (if n in removed then [] else [edges[n]])
  }

  function LiveDegree(edges: seq<Edge>, removed: set<nat>, x: Id): nat {
    Degree(Kept(edges, removed), x)
  }

  predicate Removable(edges: seq<Edge>, removed: set<nat>, e: Edge) {
    LiveDegree(edges, removed, e.source) > 1 && LiveDegree(edges, removed, e.target) > 1
  }

  ghost predicate ValidSlots(edges: seq<Edge>, order: seq<Scored>) {
    forall s :: s in order ==> s.slot < |edges| && s.curvature == CurvatureAt(edges, s.slot)
  }

  // The greedy pass over the scored edges; it stops at the first score not above the threshold.
  function Greedy(edges: seq<Edge>, order: seq<Scored>, threshold: real, removed: set<nat>): set<nat>
    requires forall s :: s in order ==> s.slot < |edges|
  {
    if order == [] || order[0].curvature as real <= threshold then removed
    else
      assert order[0] in order;
      var e := edges[order[0].slot];
      Greedy(edges, order[1..], threshold, if Removable(edges, removed, e) then removed + {order[0].slot} else removed)
  }

  ghost predicate EarlierSlot(a: Scored, b: Scored) {
    a.slot < b.slot
  }

  ghost predicate DistinctSlots(order: seq<Scored>) {
    forall i, j :: 0 <= i < j < |order| ==> order[i].slot != order[j].slot
  }

  lemma OrderMembers(edges: seq<Edge>)
    ensures ValidSlots(edges, Order(edges))
    ensures forall i :: 0 <= i < |edges| ==> Scored(i, CurvatureAt(edges, i)) in Order(edges)
  {
    SortElements(Scores(edges), MoreCurved);
    forall i | 0 <= i < |edges| ensures Scored(i, CurvatureAt(edges, i)) in Order(edges) {
      assert Scores(edges)[i] == Scored(i, CurvatureAt(edges, i));
    }
  }

  lemma OrderSorted(edges: seq<Edge>)
    ensures Sorted(Order(edges), MoreCurved)
  {
    SortSorted(Scores(edges), MoreCurved);
  }

  lemma OrderDistinct(edges: seq<Edge>)
    ensures DistinctSlots(Order(edges))
  {
    OrderMembers(edges);
    SortStable(Scores(edges), MoreCurved, EarlierSlot);
    RefinedDistinct(edges, Order(edges));
  }

  lemma RefinedDistinct(edges: seq<Edge>, r: seq<Scored>)
    requires RefinedSorted(r, MoreCurved, EarlierSlot) && ValidSlots(edges, r)
    ensures DistinctSlots(r)
  {
    forall i, j | 0 <= i < j < |r| ensures r[i].slot != r[j].slot {
      assert r[i] in r && r[j] in r && Refined(MoreCurved, EarlierSlot, r[i], r[j]);
    }
  }

  function Removed(edges: seq<Edge>, threshold: real): set<nat> {
    OrderMembers(edges);
    Greedy(edges, Order(edges), threshold, {})
  }

  function Prune(g: State, threshold: real): State {
    g.(edges := Kept(g.edges, Removed(g.edges, threshold)))
  }
}
