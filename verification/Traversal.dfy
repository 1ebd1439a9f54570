// Breadth-first expansion: the ball of nodes within h edges of the live seeds.
module Traversal {
  import opened Filtering
  import opened Graph
  import opened IdGenerator
  import opened IdOrder

  function Ends(e: Edge, around: set<Id>): set<Id> {
    (if e.source in around then {e.target} else {}) + (if e.target in around then {e.source} else {})
  }

  function Neighbors(edges: seq<Edge>, around: set<Id>): set<Id> {
    if edges == [] then {}
    else Neighbors(edges[..|edges| - 1], around) + Ends(edges[|edges| - 1], around)
  }

  function Ball(g: State, seeds: set<Id>, hops: nat): set<Id> {
    if hops == 0 then set s | s in seeds && s in g.nodes
    else Grown(g.edges, Ball(g, seeds, hops - 1))
  }

  lemma {:induction false} NeighborIff(edges: seq<Edge>, around: set<Id>, y: Id)
    ensures y in Neighbors(edges, around) <==> exists x :: x in around && Linked(edges, x, y)
  {
    if edges != [] {
      var rest, last := edges[..|edges| - 1], edges[|edges| - 1];
      NeighborIff(rest, around, y);
      assert edges == rest + [last];
      if y in Neighbors(rest, around) {
        var x :| x in around && Linked(rest, x, y);
        assert Linked(edges, x, y);
      } else if y in Ends(last, around) {
        var x := if last.source in around && y == last.target then last.source else last.target;
        assert Joins(last, x, y) && Linked(edges, x, y);
      }
    }
  }

  // One layer around the nodes given.
  function Grown(edges: seq<Edge>, around: set<Id>): set<Id> {
    around + Neighbors(edges, around)
  }

  lemma {:induction false} NeighborsUnion(edges: seq<Edge>, a: set<Id>, b: set<Id>)
    ensures Neighbors(edges, a + b) == Neighbors(edges, a) + Neighbors(edges, b)
  {
    if edges != [] {
      NeighborsUnion(edges[..|edges| - 1], a, b);
    }
  }

  lemma GrownUnion(edges: seq<Edge>, a: set<Id>, b: set<Id>)
    ensures Grown(edges, a + b) == Grown(edges, a) + Grown(edges, b)
  {
    NeighborsUnion(edges, a, b);
  }

  lemma {:induction false} NeighborsWithin(edges: seq<Edge>, around: set<Id>, all: set<Id>)
    requires forall e :: e in edges ==> e.source in all && e.target in all
    ensures Neighbors(edges, around) <= all
  {
    if edges != [] {
      NeighborsWithin(edges[..|edges| - 1], around, all);
      assert edges[|edges| - 1] in edges;
    }
  }

  // ---- Walks

  ghost predicate Walk(edges: seq<Edge>, p: seq<Id>) {
    |p| > 0 && forall i :: 0 <= i < |p| - 1 ==> Linked(edges, p[i], p[i + 1])
  }

  ghost predicate WalkFrom(g: State, seeds: set<Id>, p: seq<Id>, y: Id) {
    Walk(g.edges, p) && p[0] in seeds && p[0] in g.nodes && p[|p| - 1] == y
  }

  ghost predicate Connected(edges: seq<Edge>, a: Id, b: Id) {
    exists p :: Walk(edges, p) && p[0] == a && p[|p| - 1] == b
  }

  // The ball of radius h is exactly what some walk of at most h edges reaches from a live seed.
  lemma BallIffWalk(g: State, seeds: set<Id>, hops: nat, y: Id)
    ensures y in Ball(g, seeds, hops) <==> exists p :: WalkFrom(g, seeds, p, y) && |p| <= hops + 1
  {
    if y in Ball(g, seeds, hops) {
      var p := WalkWithin(g, seeds, hops, y);
    }
    forall p | WalkFrom(g, seeds, p, y) && |p| <= hops + 1 ensures y in Ball(g, seeds, hops) {
      WalkEndsInBall(g, seeds, p);
      BallGrows(g, seeds, |p| - 1, hops);
    }
  }

  lemma {:induction false} WalkWithin(g: State, seeds: set<Id>, hops: nat, y: Id) returns (p: seq<Id>)
    requires y in Ball(g, seeds, hops)
    ensures WalkFrom(g, seeds, p, y) && |p| <= hops + 1
  {
    if hops == 0 {
      p := [y];
    } else if y in Ball(g, seeds, hops - 1) {
      p := WalkWithin(g, seeds, hops - 1, y);
    } else {
      NeighborIff(g.edges, Ball(g, seeds, hops - 1), y);
      var x :| x in Ball(g, seeds, hops - 1) && Linked(g.edges, x, y);
      var q := WalkWithin(g, seeds, hops - 1, x);
      p := q + [y];
    }
  }

  lemma {:induction false} WalkEndsInBall(g: State, seeds: set<Id>, p: seq<Id>)
    requires Walk(g.edges, p) && p[0] in seeds && p[0] in g.nodes
    ensures p[|p| - 1] in Ball(g, seeds, |p| - 1)
    decreases |p|
  {
    if |p| > 1 {
      var q := p[..|p| - 1];
      assert Walk(g.edges, q) by {
        forall i | 0 <= i < |q| - 1 ensures Linked(g.edges, q[i], q[i + 1]) {
          assert Linked(g.edges, p[i], p[i + 1]);
        }
      }
      WalkEndsInBall(g, seeds, q);
      assert Linked(g.edges, p[|p| - 2], p[|p| - 1]);
      NeighborIff(g.edges, Ball(g, seeds, |p| - 2), p[|p| - 1]);
    }
  }

  // ---- Laws of expansion

  lemma {:induction false} BallGrows(g: State, seeds: set<Id>, a: nat, b: nat)
    requires a <= b
    ensures Ball(g, seeds, a) <= Ball(g, seeds, b)
    decreases b
  {
    if a < b {
      BallGrows(g, seeds, a, b - 1);
    }
  }

  lemma {:induction false} BallLive(g: State, seeds: set<Id>, hops: nat)
    requires EdgesLive(g)
    ensures Ball(g, seeds, hops) <= g.nodes.Keys
  {
    if hops > 0 {
      BallLive(g, seeds, hops - 1);
      NeighborsWithin(g.edges, Ball(g, seeds, hops - 1), g.nodes.Keys);
    }
  }

  lemma {:induction false} BallUnion(g: State, a: set<Id>, b: set<Id>, hops: nat)
    ensures Ball(g, a + b, hops) == Ball(g, a, hops) + Ball(g, b, hops)
  {
    if hops == 0 {
      SeedsUnion(g, a, b);
    } else {
      BallUnion(g, a, b, hops - 1);
      GrownUnion(g.edges, Ball(g, a, hops - 1), Ball(g, b, hops - 1));
    }
  }

  lemma SeedsUnion(g: State, a: set<Id>, b: set<Id>)
    ensures Ball(g, a + b, 0) == Ball(g, a, 0) + Ball(g, b, 0)
  {
  }

  lemma {:induction false} BallComposes(g: State, seeds: set<Id>, a: nat, b: nat)
    requires EdgesLive(g)
    ensures Ball(g, Ball(g, seeds, a), b) == Ball(g, seeds, a + b)
    decreases b
  {
    if b == 0 {
      BallLive(g, seeds, a);
    } else {
      BallComposes(g, seeds, a, b - 1);
    }
  }

  ghost predicate Closed(g: State, s: set<Id>) {
    Neighbors(g.edges, s) <= s
  }

  // Stopping early is sound: once a layer adds nothing, none ever will.
  lemma {:induction false} BallStops(g: State, seeds: set<Id>, a: nat, b: nat)
    requires a <= b && Closed(g, Ball(g, seeds, a))
    ensures Ball(g, seeds, b) == Ball(g, seeds, a)
    decreases b
  {
    if a < b {
      BallStops(g, seeds, a, b - 1);
    }
  }

  lemma {:induction false} BallClosedOrLarge(g: State, seeds: set<Id>, hops: nat)
    ensures Closed(g, Ball(g, seeds, hops)) || |Ball(g, seeds, hops)| > hops
  {
    if hops == 0 {
      EmptyClosed(g, Ball(g, seeds, 0));
    } else {
      BallClosedOrLarge(g, seeds, hops - 1);
      if Closed(g, Ball(g, seeds, hops - 1)) {
        BallStops(g, seeds, hops - 1, hops);
      } else {
        OpenGrows(g, Ball(g, seeds, hops - 1));
      }
    }
  }

  lemma EmptyClosed(g: State, s: set<Id>)
    ensures Closed(g, s) || |s| > 0
  {
    if s == {} {
      NoNeighbors(g.edges);
    }
  }

  lemma {:induction false} NoNeighbors(edges: seq<Edge>)
    ensures Neighbors(edges, {}) == {}
  {
    if edges != [] {
      NoNeighbors(edges[..|edges| - 1]);
    }
  }

  lemma OpenGrows(g: State, s: set<Id>)
    requires !Closed(g, s)
    ensures |Grown(g.edges, s)| > |s|
  {
    ProperSubset(s, Grown(g.edges, s));
  }

  lemma ProperSubset<T>(a: set<T>, b: set<T>)
    requires a <= b && a != b
    ensures |a| < |b|
  {
    assert b == a + (b - a);
  }

  lemma AllNodesClosed(g: State, s: set<Id>)
    requires EdgesLive(g) && s <= g.nodes.Keys && |s| >= |g.nodes|
    ensures Closed(g, s)
  {
    assert |g.nodes.Keys| == |g.nodes|;
    NeighborsWithin(g.edges, s, g.nodes.Keys);
    if s != g.nodes.Keys {
      ProperSubset(s, g.nodes.Keys);
    }
  }

  // With as many hops as there are nodes (less one), expansion reaches the whole component:
  // everything any walk can reach from a live seed.
  lemma BallIsComponent(g: State, seeds: set<Id>, hops: nat, y: Id)
    requires EdgesLive(g) && hops + 1 >= |g.nodes|
    ensures y in Ball(g, seeds, hops) <==> exists p :: WalkFrom(g, seeds, p, y)
  {
    BallIffWalk(g, seeds, hops, y);
    BallLive(g, seeds, hops);
    BallClosedOrLarge(g, seeds, hops);
    if |Ball(g, seeds, hops)| > hops {
      AllNodesClosed(g, Ball(g, seeds, hops));
    }
    forall p | WalkFrom(g, seeds, p, y) ensures y in Ball(g, seeds, hops) {
      WalkEndsInBall(g, seeds, p);
      BallGrows(g, seeds, |p| - 1, Graph.Max(hops, |p| - 1));
      BallStops(g, seeds, hops, Graph.Max(hops, |p| - 1));
    }
  }

  // ---- Associative recall

  function In(keep: set<Id>): Id -> bool {
    (x: Id) => x in keep
  }

  function Among(s: seq<Id>, keep: set<Id>): seq<Id> {
    Filter(s, In(keep))
  }

  function SetOf(s: seq<Id>): set<Id> {
    set x | x in s
  }

  // Seeds in their own order, then the rest of what was reached in key order.
  function Recall(g: State, seeds: seq<Id>, hops: nat): seq<Id> {
    var reached := Ball(g, SetOf(seeds), hops);
    Among(seeds, reached) + Ascending(reached - SetOf(seeds))
  }

  ghost predicate Distinct(s: seq<Id>) {
    forall i, j :: 0 <= i < j < |s| ==> s[i] != s[j]
  }

  ghost predicate Differ(a: Id, b: Id) {
    a != b
  }

  lemma AmongKeeps(s: seq<Id>, keep: set<Id>)
    ensures forall x :: x in Among(s, keep) <==> x in s && x in keep
    ensures Distinct(s) ==> Distinct(Among(s, keep))
  {
    FilterKeeps(s, In(keep));
    if Distinct(s) {
      FilterOrdered(s, In(keep), Differ);
    }
  }

  // Recall lists exactly the ball around the seeds, each node once; the live seeds come first,
  // in the order they were found.
  lemma RecallListsBall(g: State, seeds: seq<Id>, hops: nat)
    requires EdgesLive(g) && Distinct(seeds)
    ensures Distinct(Recall(g, seeds, hops))
    ensures SetOf(Recall(g, seeds, hops)) == Ball(g, SetOf(seeds), hops)
    ensures Among(seeds, g.nodes.Keys) <= Recall(g, seeds, hops)
  {
    var reached := Ball(g, SetOf(seeds), hops);
    BallLive(g, SetOf(seeds), hops);
    BallGrows(g, SetOf(seeds), 0, hops);
    SameAmong(seeds, reached, g.nodes.Keys);
    SeedsThenRest(seeds, reached);
  }

  lemma SeedsThenRest(seeds: seq<Id>, reached: set<Id>)
    requires Distinct(seeds)
    ensures Distinct(Among(seeds, reached) + Ascending(reached - SetOf(seeds)))
    ensures SetOf(Among(seeds, reached) + Ascending(reached - SetOf(seeds))) == reached
  {
    AmongKeeps(seeds, reached);
    AscendingDistinct(reached - SetOf(seeds));
    AscendingLists(reached - SetOf(seeds));
    DistinctConcat(Among(seeds, reached), Ascending(reached - SetOf(seeds)));
  }

  lemma AscendingDistinct(s: set<Id>)
    ensures Distinct(Ascending(s))
  {
    AscendingLists(s);
    BeforeStrict();
    forall i, j | 0 <= i < j < |Ascending(s)| ensures Ascending(s)[i] != Ascending(s)[j] {
      assert Before(Ascending(s)[i], Ascending(s)[j]);
    }
  }

  lemma DistinctConcat(a: seq<Id>, b: seq<Id>)
    requires Distinct(a) && Distinct(b) && SetOf(a) !! SetOf(b)
    ensures Distinct(a + b)
  {
    forall i, j | 0 <= i < j < |a + b| ensures (a + b)[i] != (a + b)[j] {
      if i < |a| <= j {
        assert a[i] in SetOf(a) && b[j - |a|] in SetOf(b);
      }
    }
  }

  lemma SameAmong(s: seq<Id>, a: set<Id>, b: set<Id>)
    requires forall x :: x in s ==> (x in a <==> x in b)
    ensures Among(s, a) == Among(s, b)
  {
    FilterSame(s, In(a), In(b));
  }
}
