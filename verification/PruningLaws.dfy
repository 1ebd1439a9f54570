// What pruning guarantees: nobody is isolated, nothing more could go, and no bridge ever does.
module PruningLaws {
  import opened Graph
  import opened IdGenerator
  import opened Pruning
  import opened StableSort
  import opened Traversal

  lemma {:induction false} KeptAll(edges: seq<Edge>)
    ensures Kept(edges, {}) == edges
  {
    if edges != [] {
      KeptAll(edges[..|edges| - 1]);
    }
  }

  lemma {:induction false} KeptMembers(edges: seq<Edge>, removed: set<nat>)
    ensures forall e :: e in Kept(edges, removed) <==> exists i :: 0 <= i < |edges| && i !in removed && edges[i] == e
  {
    if edges != [] {
      KeptMembers(edges[..|edges| - 1], removed);
    }
  }

  lemma DegreeAppend(edges: seq<Edge>, e: Edge, x: Id)
    ensures Degree(edges + [e], x) == Degree(edges, x) + EndCount(e, x)
  {
    assert (edges + [e])[..|edges|] == edges;
  }

  lemma {:induction false} SlotsBeyond(edges: seq<Edge>, removed: set<nat>, i: nat)
    requires i >= |edges|
    ensures Kept(edges, removed + {i}) == Kept(edges, removed)
  {
    if edges != [] {
      SlotsBeyond(edges[..|edges| - 1], removed, i);
    }
  }

  lemma LiveDegreeStep(edges: seq<Edge>, removed: set<nat>, x: Id)
    requires edges != []
    ensures var n := |edges| - 1;
            LiveDegree(edges, removed, x) ==
            LiveDegree(edges[..n], removed, x) + (if n in removed then 0 else EndCount(edges[n], x))
  {
    var n := |edges| - 1;
    DegreeAppend(Kept(edges[..n], removed), edges[n], x);
    if n in removed {
      assert Kept(edges, removed) == Kept(edges[..n], removed);
    }
  }

  // Striking out one more slot costs each endpoint its share of that edge.
  lemma {:induction false} StrikeOne(edges: seq<Edge>, removed: set<nat>, i: nat, x: Id)
    requires i < |edges| && i !in removed
    ensures LiveDegree(edges, removed, x) == LiveDegree(edges, removed + {i}, x) + EndCount(edges[i], x)
  {
    var n := |edges| - 1;
    LiveDegreeStep(edges, removed, x);
    LiveDegreeStep(edges, removed + {i}, x);
    if i == n {
      SlotsBeyond(edges[..n], removed, n);
    } else {
      StrikeOne(edges[..n], removed, i, x);
    }
  }

  lemma {:induction false} DegreePositive(edges: seq<Edge>, e: Edge)
    requires e in edges
    ensures Degree(edges, e.source) > 0 && Degree(edges, e.target) > 0
  {
    if e != edges[|edges| - 1] {
      assert edges == edges[..|edges| - 1] + [edges[|edges| - 1]];
      DegreePositive(edges[..|edges| - 1], e);
    }
  }

  // Removing an edge whose endpoints both have another one isolates nobody.
  lemma RemovalKeeps(edges: seq<Edge>, removed: set<nat>, i: nat, x: Id)
    requires NoLoops(edges) && i < |edges| && i !in removed && Removable(edges, removed, edges[i])
    ensures LiveDegree(edges, removed + {i}, x) <= LiveDegree(edges, removed, x)
    ensures LiveDegree(edges, removed, x) > 0 ==> LiveDegree(edges, removed + {i}, x) > 0
  {
    StrikeOne(edges, removed, i, x);
    assert edges[i] in edges;
  }

  // What the rest of the pass still has to look at.
  ghost predicate Pending(edges: seq<Edge>, order: seq<Scored>, removed: set<nat>) {
    ValidSlots(edges, order) && DistinctSlots(order) && forall s :: s in order ==> s.slot !in removed
  }

  lemma PendingTail(edges: seq<Edge>, order: seq<Scored>, removed: set<nat>, next: set<nat>)
    requires Pending(edges, order, removed) && order != [] && next <= removed + {order[0].slot}
    ensures order[0].slot < |edges| && order[0].slot !in removed
    ensures order[0].curvature == CurvatureAt(edges, order[0].slot)
    ensures Pending(edges, order[1..], next)
  {
    assert order[0] in order;
    forall s | s in order[1..] ensures s in order && s.slot !in next {
      var j :| 0 <= j < |order[1..]| && order[1..][j] == s;
      assert order[j + 1] == s;
    }
  }

  // The removals made so far by the time the pass moves past its first entry.
  function Advance(edges: seq<Edge>, first: Scored, removed: set<nat>): set<nat>
    requires first.slot < |edges|
  {
    if Removable(edges, removed, edges[first.slot]) then removed + {first.slot} else removed
  }

  // However the pass ends, degrees only fell and no node lost its last edge.
  lemma {:induction false} GreedyKeepsDegree(edges: seq<Edge>, order: seq<Scored>, threshold: real,
      removed: set<nat>, x: Id)
    requires NoLoops(edges) && Pending(edges, order, removed)
    ensures var r := Greedy(edges, order, threshold, removed);
            && removed <= r
            && LiveDegree(edges, r, x) <= LiveDegree(edges, removed, x)
            && (LiveDegree(edges, removed, x) > 0 ==> LiveDegree(edges, r, x) > 0)
    decreases |order|
  {
    if order != [] && order[0].curvature as real > threshold {
      assert order[0] in order;
      var next := Advance(edges, order[0], removed);
      PendingTail(edges, order, removed, next);
      GreedyKeepsDegree(edges, order[1..], threshold, next, x);
      if next != removed {
        RemovalKeeps(edges, removed, order[0].slot, x);
      }
    }
  }

  // Only edges above the threshold go, and only where both endpoints had another edge.
  lemma {:induction false} GreedyRemovesOnly(edges: seq<Edge>, order: seq<Scored>, threshold: real,
      removed: set<nat>, i: nat)
    requires NoLoops(edges) && Pending(edges, order, removed)
    requires i in Greedy(edges, order, threshold, removed) && i !in removed
    ensures i < |edges| && CurvatureAt(edges, i) as real > threshold
    ensures Removable(edges, removed, edges[i])
    decreases |order|
  {
    if order != [] && order[0].curvature as real > threshold {
      assert order[0] in order;
      var next := Advance(edges, order[0], removed);
      PendingTail(edges, order, removed, next);
      if i !in next {
        GreedyRemovesOnly(edges, order[1..], threshold, next, i);
        if next != removed {
          RemovalKeeps(edges, removed, order[0].slot, edges[i].source);
          RemovalKeeps(edges, removed, order[0].slot, edges[i].target);
        }
      }
    }
  }

  lemma SurvivorCounts(edges: seq<Edge>, removed: set<nat>, i: nat)
    requires i < |edges| && i !in removed
    ensures LiveDegree(edges, removed, edges[i].source) > 0 && LiveDegree(edges, removed, edges[i].target) > 0
  {
    KeptMembers(edges, removed);
    DegreePositive(Kept(edges, removed), edges[i]);
  }

  ghost predicate AtLimit(edges: seq<Edge>, removed: set<nat>, e: Edge) {
    LiveDegree(edges, removed, e.source) == 1 || LiveDegree(edges, removed, e.target) == 1
  }

  // Every edge the pass met above the threshold and kept is some node's last edge.
  lemma {:induction false} GreedyMaximal(edges: seq<Edge>, order: seq<Scored>, threshold: real,
      removed: set<nat>, s: Scored)
    requires NoLoops(edges) && Pending(edges, order, removed) && Sorted(order, MoreCurved)
    requires s in order && s.curvature as real > threshold
    requires s.slot !in Greedy(edges, order, threshold, removed)
    ensures s.slot < |edges| && AtLimit(edges, Greedy(edges, order, threshold, removed), edges[s.slot])
    decreases |order|
  {
    HeadAbove(order, threshold, s);
    var next := Advance(edges, order[0], removed);
    PendingTail(edges, order, removed, next);
    if order[0] == s {
      GreedyKeepsDegree(edges, order[1..], threshold, next, edges[s.slot].source);
      assert next == removed;
      FirstKeptAtLimit(edges, order[1..], threshold, removed, s.slot);
    } else {
      GreedyMaximal(edges, order[1..], threshold, next, s);
    }
  }

  lemma HeadAbove(order: seq<Scored>, threshold: real, s: Scored)
    requires Sorted(order, MoreCurved) && s in order && s.curvature as real > threshold
    ensures order[0] in order && order[0].curvature as real > threshold
    ensures Sorted(order[1..], MoreCurved) && (order[0] == s || s in order[1..])
  {
    var j :| 0 <= j < |order| && order[j] == s;
    if j > 0 {
      assert MoreCurved(order[0], order[j]);
      assert order[1..][j - 1] == s;
    }
  }

  // An edge that could not be removed when the pass met it stays the last of an endpoint.
  lemma FirstKeptAtLimit(edges: seq<Edge>, rest: seq<Scored>, threshold: real, removed: set<nat>, i: nat)
    requires NoLoops(edges) && Pending(edges, rest, removed) && i < |edges|
    requires !Removable(edges, removed, edges[i]) && i !in Greedy(edges, rest, threshold, removed)
    ensures AtLimit(edges, Greedy(edges, rest, threshold, removed), edges[i])
  {
    GreedyKeepsDegree(edges, rest, threshold, removed, edges[i].source);
    GreedyKeepsDegree(edges, rest, threshold, removed, edges[i].target);
    SurvivorCounts(edges, Greedy(edges, rest, threshold, removed), i);
  }

  // ---- The laws of a whole pruning

  lemma PruningStarts(edges: seq<Edge>)
    ensures Pending(edges, Order(edges), {})
  {
    OrderMembers(edges);
    OrderDistinct(edges);
  }

  // Every node with an edge before still has one after.
  lemma PruningIsolatesNobody(g: State, threshold: real, x: Id)
    requires NoLoops(g.edges)
    ensures Degree(g.edges, x) > 0 ==> Degree(Prune(g, threshold).edges, x) > 0
  {
    PruningStarts(g.edges);
    KeptAll(g.edges);
    GreedyKeepsDegree(g.edges, Order(g.edges), threshold, {}, x);
  }

  // What went scored above the threshold on the original graph, between nodes of degree 2 or more.
  lemma PrunedWereRedundant(edges: seq<Edge>, threshold: real, i: nat)
    requires NoLoops(edges) && i in Removed(edges, threshold)
    ensures i < |edges| && CurvatureAt(edges, i) as real > threshold
    ensures Degree(edges, edges[i].source) > 1 && Degree(edges, edges[i].target) > 1
  {
    PruningStarts(edges);
    KeptAll(edges);
    GreedyRemovesOnly(edges, Order(edges), threshold, {}, i);
  }

  // Nothing more could go: a survivor above the threshold is the last edge of an endpoint.
  lemma PruningIsMaximal(edges: seq<Edge>, threshold: real, i: nat)
    requires NoLoops(edges) && i < |edges| && i !in Removed(edges, threshold)
    requires CurvatureAt(edges, i) as real > threshold
    ensures AtLimit(edges, Removed(edges, threshold), edges[i])
  {
    PruningStarts(edges);
    OrderMembers(edges);
    OrderSorted(edges);
    GreedyMaximal(edges, Order(edges), threshold, {}, Scored(i, CurvatureAt(edges, i)));
  }

  lemma {:induction false} KeptCount(edges: seq<Edge>, removed: set<nat>)
    requires forall i :: i in removed ==> i < |edges|
    ensures |Kept(edges, removed)| == |edges| - |removed|
  {
    if edges == [] {
      assert removed == {};
    } else {
      var n := |edges| - 1;
      var rest := removed - {n};
      KeptCount(edges[..n], rest);
      if n in removed {
        assert removed == rest + {n};
        SlotsBeyond(edges[..n], rest, n);
      } else {
        assert removed == rest;
      }
    }
  }

  // The number of edges dropped is the number struck out.
  lemma PruningCount(g: State, threshold: real)
    requires NoLoops(g.edges)
    ensures |g.edges| - |Prune(g, threshold).edges| == |Removed(g.edges, threshold)|
  {
    forall i | i in Removed(g.edges, threshold) ensures i < |g.edges| {
      PrunedWereRedundant(g.edges, threshold, i);
    }
    KeptCount(g.edges, Removed(g.edges, threshold));
  }

  // At a threshold of 0 or more, every pruned edge closes a triangle of the original graph.
  lemma PrunedClosesTriangle(edges: seq<Edge>, threshold: real, i: nat) returns (w: Id)
    requires NoLoops(edges) && threshold >= 0.0 && i in Removed(edges, threshold)
    ensures i < |edges| && w != edges[i].source && w != edges[i].target
    ensures Linked(edges, edges[i].source, w) && Linked(edges, w, edges[i].target)
  {
    PrunedWereRedundant(edges, threshold, i);
    var e := edges[i];
    var common := Adjacent(edges, e.source) * Adjacent(edges, e.target);
    assert |common| > 0;
    w :| w in common;
    AdjacentIff(edges, e.source, w);
    AdjacentIff(edges, e.target, w);
    LinkedSymmetric(edges, e.target, w);
  }

  lemma AdjacentIff(edges: seq<Edge>, x: Id, y: Id)
    ensures y in Adjacent(edges, x) <==> Linked(edges, x, y)
    ensures NoLoops(edges) && y in Adjacent(edges, x) ==> y != x
  {
    NeighborIff(edges, {x}, y);
    if Linked(edges, x, y) {
      assert x in {x};
    }
  }

  lemma LinkedSymmetric(edges: seq<Edge>, a: Id, b: Id)
    ensures Linked(edges, a, b) <==> Linked(edges, b, a)
  {
    if Linked(edges, a, b) {
      var e :| e in edges && Joins(e, a, b);
      assert Joins(e, b, a);
    }
    if Linked(edges, b, a) {
      var e :| e in edges && Joins(e, b, a);
      assert Joins(e, a, b);
    }
  }

  // A bridge: without this one edge its endpoints are no longer connected.
  ghost predicate Bridge(edges: seq<Edge>, i: nat)
    requires i < |edges|
  {
    !Connected(Kept(edges, {i}), edges[i].source, edges[i].target)
  }

  lemma BridgesSurvive(edges: seq<Edge>, threshold: real, i: nat)
    requires NoLoops(edges) && threshold >= 0.0 && i in Removed(edges, threshold)
    ensures i < |edges| && !Bridge(edges, i)
  {
    var w := PrunedClosesTriangle(edges, threshold, i);
    var u, v := edges[i].source, edges[i].target;
    LinkedWithout(edges, i, u, w);
    LinkedWithout(edges, i, w, v);
    var p := [u, w, v];
    assert Walk(Kept(edges, {i}), p);
  }

  lemma LinkedWithout(edges: seq<Edge>, i: nat, a: Id, b: Id)
    requires i < |edges| && Linked(edges, a, b) && !Joins(edges[i], a, b)
    ensures Linked(Kept(edges, {i}), a, b)
  {
    var e :| e in edges && Joins(e, a, b);
    var j :| 0 <= j < |edges| && edges[j] == e;
    KeptMembers(edges, {i});
    assert e in Kept(edges, {i});
  }

  // ---- Below 0 the guarantee is lost: on a path of four nodes the middle bridge goes

  lemma {:induction false} WalkStays(edges: seq<Edge>, p: seq<Id>, s: set<Id>)
    requires Walk(edges, p) && p[0] in s && Neighbors(edges, s) <= s
    ensures p[|p| - 1] in s
    decreases |p|
  {
    if |p| > 1 {
      assert Linked(edges, p[0], p[1]);
      NeighborIff(edges, s, p[1]);
      assert Walk(edges, p[1..]) by {
        forall i | 0 <= i < |p[1..]| - 1 ensures Linked(edges, p[1..][i], p[1..][i + 1]) {
          assert Linked(edges, p[i + 1], p[i + 2]);
        }
      }
      WalkStays(edges, p[1..], s);
    }
  }

  function Alley(a: Id, b: Id, c: Id, d: Id, x: Id, y: Id, z: Id): seq<Edge> {
    [Edge(x, a, b, "", 1.0), Edge(y, b, c, "", 1.0), Edge(z, c, d, "", 1.0)]
  }

  lemma PairUnfolds(e: Edge, f: Edge, around: set<Id>, x: Id)
    ensures Degree([e, f], x) == EndCount(e, x) + EndCount(f, x)
    ensures Neighbors([e, f], around) == Ends(e, around) + Ends(f, around)
    ensures Kept([e, f], {1}) == [e]
  {
    assert [e, f][..1] == [e] && [e][..0] == [];
    assert Degree([e], x) == EndCount(e, x);
    assert Neighbors([e], around) == Ends(e, around);
    assert Kept([e], {1}) == [e];
  }

  lemma TripleUnfolds(e: Edge, f: Edge, h: Edge, around: set<Id>, x: Id)
    ensures Degree([e, f, h], x) == EndCount(e, x) + EndCount(f, x) + EndCount(h, x)
    ensures Neighbors([e, f, h], around) == Ends(e, around) + Ends(f, around) + Ends(h, around)
    ensures Kept([e, f, h], {1}) == [e, h]
  {
    assert [e, f, h][..2] == [e, f];
    PairUnfolds(e, f, around, x);
  }

  ghost predicate FourIds(a: Id, b: Id, c: Id, d: Id) {
    a != b && a != c && a != d && b != c && b != d && c != d
  }

  lemma AlleyDegrees(a: Id, b: Id, c: Id, d: Id, x: Id, y: Id, z: Id)
    requires FourIds(a, b, c, d)
    ensures Degree(Alley(a, b, c, d, x, y, z), a) == 1 && Degree(Alley(a, b, c, d, x, y, z), b) == 2
    ensures Degree(Alley(a, b, c, d, x, y, z), c) == 2 && Degree(Alley(a, b, c, d, x, y, z), d) == 1
  {
    var s := Alley(a, b, c, d, x, y, z);
    TripleUnfolds(s[0], s[1], s[2], {}, a);
    TripleUnfolds(s[0], s[1], s[2], {}, b);
    TripleUnfolds(s[0], s[1], s[2], {}, c);
    TripleUnfolds(s[0], s[1], s[2], {}, d);
  }

  lemma AlleyMiddleOpen(a: Id, b: Id, c: Id, d: Id, x: Id, y: Id, z: Id)
    requires FourIds(a, b, c, d)
    ensures Adjacent(Alley(a, b, c, d, x, y, z), b) * Adjacent(Alley(a, b, c, d, x, y, z), c) == {}
  {
    var s := Alley(a, b, c, d, x, y, z);
    TripleUnfolds(s[0], s[1], s[2], {b}, a);
    TripleUnfolds(s[0], s[1], s[2], {c}, a);
  }

  lemma AlleyShape(a: Id, b: Id, c: Id, d: Id, x: Id, y: Id, z: Id)
    requires FourIds(a, b, c, d)
    ensures SimpleEdges(Alley(a, b, c, d, x, y, z))
    ensures CurvatureAt(Alley(a, b, c, d, x, y, z), 1) == 0
  {
    AlleyDegrees(a, b, c, d, x, y, z);
    AlleyMiddleOpen(a, b, c, d, x, y, z);
  }

  lemma AlleyBridge(a: Id, b: Id, c: Id, d: Id, x: Id, y: Id, z: Id)
    requires FourIds(a, b, c, d)
    ensures Bridge(Alley(a, b, c, d, x, y, z), 1)
  {
    var s := Alley(a, b, c, d, x, y, z);
    TripleUnfolds(s[0], s[1], s[2], {}, a);
    PairUnfolds(s[0], s[2], {a, b}, a);
    forall p | Walk([s[0], s[2]], p) && p[0] == b ensures p[|p| - 1] != c {
      WalkStays([s[0], s[2]], p, {a, b});
    }
  }

  lemma AlleyMiddleRemoved(a: Id, b: Id, c: Id, d: Id, x: Id, y: Id, z: Id, threshold: real)
    requires FourIds(a, b, c, d) && threshold < 0.0
    ensures 1 in Removed(Alley(a, b, c, d, x, y, z), threshold)
  {
    var s := Alley(a, b, c, d, x, y, z);
    AlleyShape(a, b, c, d, x, y, z);
    AlleyDegrees(a, b, c, d, x, y, z);
    if 1 !in Removed(s, threshold) {
      forall i | i in Removed(s, threshold) ensures false {
        PrunedWereRedundant(s, threshold, i);
      }
      assert Removed(s, threshold) == {};
      KeptAll(s);
      PruningIsMaximal(s, threshold, 1);
    }
  }

  // No bridge of any simple graph is ever pruned exactly when the threshold is not negative.
  lemma BridgeSafeThresholds(threshold: real)
    ensures threshold >= 0.0 <==> BridgeSafe(threshold)
  {
    if threshold >= 0.0 {
      forall edges: seq<Edge>, i: nat | SimpleEdges(edges) && i in Removed(edges, threshold)
        ensures i < |edges| && !Bridge(edges, i)
      {
        BridgesSurvive(edges, threshold, i);
      }
    } else {
      assert "a"[0] != "b"[0] && "a"[0] != "c"[0] && "a"[0] != "d"[0];
      assert "b"[0] != "c"[0] && "b"[0] != "d"[0] && "c"[0] != "d"[0];
      AlleyShape("a", "b", "c", "d", "x", "y", "z");
      AlleyMiddleRemoved("a", "b", "c", "d", "x", "y", "z", threshold);
      AlleyBridge("a", "b", "c", "d", "x", "y", "z");
    }
  }

  ghost predicate BridgeSafe(threshold: real) {
    forall edges: seq<Edge>, i: nat ::
      SimpleEdges(edges) && i in Removed(edges, threshold) ==> i < |edges| && !Bridge(edges, i)
  }
}
