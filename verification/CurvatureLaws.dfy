// What pruning does, said with nothing but who is linked to whom: the score of an edge, which edges
// go at a threshold, and in which order they are given up.
module CurvatureLaws {
  import opened Graph
  import opened IdGenerator
  import opened Pruning
  import opened PruningLaws
  import opened StableSort

  // The nodes linked to x.
  function Around(edges: seq<Edge>, x: Id): set<Id> {
    (set e | e in edges && e.source == x :: e.target) + (set e | e in edges && e.target == x :: e.source)
  }

  lemma AroundIff(edges: seq<Edge>, x: Id, y: Id)
    ensures y in Around(edges, x) <==> Linked(edges, x, y)
  {
    if y in Around(edges, x) {
      var e :| e in edges && ((e.source == x && e.target == y) || (e.target == x && e.source == y));
      assert Joins(e, x, y);
    }
    if Linked(edges, x, y) {
      var e :| e in edges && Joins(e, x, y);
    }
  }

  // Forman-Ricci curvature of an edge: 4 less the two degrees, and 3 for every triangle it closes.
  function Redundancy(edges: seq<Edge>, e: Edge): int {
    4 - |Around(edges, e.source)| - |Around(edges, e.target)| + 3 * |Around(edges, e.source) * Around(edges, e.target)|
  }

  lemma AroundIsAdjacent(edges: seq<Edge>, x: Id)
    ensures Around(edges, x) == Adjacent(edges, x)
  {
    forall y ensures y in Around(edges, x) <==> y in Adjacent(edges, x) {
      AroundIff(edges, x, y);
      AdjacentIff(edges, x, y);
    }
  }

  lemma AroundAppend(edges: seq<Edge>, e: Edge, x: Id)
    ensures Around(edges + [e], x) ==
            Around(edges, x) + (if e.source == x then {e.target} else {}) + (if e.target == x then {e.source} else {})
  {
  }

  lemma FrontSimple(edges: seq<Edge>)
    requires SimpleEdges(edges) && edges != []
    ensures SimpleEdges(edges[..|edges| - 1])
    ensures var e := edges[|edges| - 1];
            e.source != e.target && !Linked(edges[..|edges| - 1], e.source, e.target)
  {
    var front, e := edges[..|edges| - 1], edges[|edges| - 1];
    assert edges == front + [e];
    assert e in edges;
    forall f | f in front ensures !Joins(f, e.source, e.target) {
      var i :| 0 <= i < |front| && front[i] == f;
      assert edges[i] == f;
    }
  }

  lemma OneMore<T>(s: set<T>, x: T)
    requires x !in s
    ensures |s + {x}| == |s| + 1
  {
  }

  lemma BothGrow(edges: seq<Edge>, front: seq<Edge>, e: Edge, x: Id)
    requires edges == front + [e] && e.source != e.target && !Linked(front, e.source, e.target)
    requires Degree(front, x) == |Around(front, x)|
    ensures Degree(edges, x) == |Around(edges, x)|
  {
    AroundGrows(front, e, x);
    DegreeAppend(front, e, x);
  }

  lemma AroundGrows(front: seq<Edge>, e: Edge, x: Id)
    requires e.source != e.target && !Linked(front, e.source, e.target)
    ensures |Around(front + [e], x)| == |Around(front, x)| + EndCount(e, x)
  {
    AroundAppend(front, e, x);
    LinkedSymmetric(front, e.source, e.target);
    if e.source == x {
      AroundIff(front, x, e.target);
      OneMore(Around(front, x), e.target);
      assert Around(front + [e], x) == Around(front, x) + {e.target};
    } else if e.target == x {
      AroundIff(front, x, e.source);
      OneMore(Around(front, x), e.source);
      assert Around(front + [e], x) == Around(front, x) + {e.source};
    } else {
      assert Around(front + [e], x) == Around(front, x);
    }
  }

  // In a simple graph the degree counts the nodes linked.
  lemma {:induction false} DegreeIsAround(edges: seq<Edge>, x: Id)
    requires SimpleEdges(edges)
    ensures Degree(edges, x) == |Around(edges, x)|
  {
    if edges != [] {
      FrontSimple(edges);
      DegreeIsAround(edges[..|edges| - 1], x);
      BothGrow(edges, edges[..|edges| - 1], edges[|edges| - 1], x);
    }
  }

  lemma CurvatureIsRedundancy(edges: seq<Edge>, i: nat)
    requires SimpleEdges(edges) && i < |edges|
    ensures CurvatureAt(edges, i) == Redundancy(edges, edges[i])
  {
    DegreeIsAround(edges, edges[i].source);
    DegreeIsAround(edges, edges[i].target);
    AroundIsAdjacent(edges, edges[i].source);
    AroundIsAdjacent(edges, edges[i].target);
  }

  lemma {:induction false} KeptSimple(edges: seq<Edge>, removed: set<nat>)
    requires SimpleEdges(edges)
    ensures SimpleEdges(Kept(edges, removed)) && forall e :: e in Kept(edges, removed) ==> e in edges
  {
    if edges != [] {
      var front, e := edges[..|edges| - 1], edges[|edges| - 1];
      FrontSimple(edges);
      KeptSimple(front, removed);
      assert edges == front + [e];
      var kept := Kept(front, removed);
      forall i | 0 <= i < |kept| ensures !Joins(kept[i], e.source, e.target) {
        assert kept[i] in kept && kept[i] in front;
      }
    }
  }

  // The removed slots are those of edges redundant beyond the threshold, each with ends that have
  // another neighbor.
  lemma RemovedWereRedundant(edges: seq<Edge>, threshold: real, i: nat)
    requires SimpleEdges(edges) && i in Removed(edges, threshold)
    ensures i < |edges| && Redundancy(edges, edges[i]) as real > threshold
    ensures |Around(edges, edges[i].source)| > 1 && |Around(edges, edges[i].target)| > 1
  {
    PrunedWereRedundant(edges, threshold, i);
    CurvatureIsRedundancy(edges, i);
    DegreeIsAround(edges, edges[i].source);
    DegreeIsAround(edges, edges[i].target);
  }

  // ---- Why an edge stays

  // Slot j is given up before slot i: more redundant, or as redundant and earlier.
  ghost predicate GivenUpBefore(edges: seq<Edge>, j: nat, i: nat)
    requires i < |edges| && j < |edges|
  {
    var a, b := Redundancy(edges, edges[j]), Redundancy(edges, edges[i]);
    a > b || (a == b && j < i)
  }

  ghost predicate At(e: Edge, v: Id) {
    e.source == v || e.target == v
  }

  lemma {:induction false} StrikeMore(edges: seq<Edge>, a: set<nat>, b: set<nat>, v: Id)
    requires a <= b
    ensures LiveDegree(edges, b, v) <= LiveDegree(edges, a, v)
  {
    if edges != [] {
      StrikeMore(edges[..|edges| - 1], a, b, v);
      LiveDegreeStep(edges, a, v);
      LiveDegreeStep(edges, b, v);
    }
  }

  // All edges at v struck out since `removed` precede s in the order.
  ghost predicate Outranked(edges: seq<Edge>, removed: set<nat>, r: set<nat>, s: Scored, v: Id) {
    forall j :: j in r && j !in removed && j < |edges| && At(edges[j], v) ==>
      Refined(MoreCurved, EarlierSlot, Scored(j, CurvatureAt(edges, j)), s)
  }

  // The end of a kept edge that holds it: it is that end's last edge, and all the others there went
  // before it came up.
  ghost predicate HeldBy(edges: seq<Edge>, removed: set<nat>, r: set<nat>, s: Scored, v: Id) {
    LiveDegree(edges, r, v) == 1 && Outranked(edges, removed, r, s, v)
  }

  lemma LastEdgeHolds(edges: seq<Edge>, rest: seq<Scored>, threshold: real, removed: set<nat>, s: Scored, v: Id)
    requires NoLoops(edges) && Pending(edges, rest, removed) && LiveDegree(edges, removed, v) == 1
    ensures HeldBy(edges, removed, Greedy(edges, rest, threshold, removed), s, v)
  {
    var r := Greedy(edges, rest, threshold, removed);
    GreedyKeepsDegree(edges, rest, threshold, removed, v);
    forall j | j in r && j !in removed && j < |edges| ensures !At(edges[j], v) {
      if At(edges[j], v) {
        StrikeOne(edges, removed, j, v);
        StrikeMore(edges, removed + {j}, r, v);
      }
    }
  }

  lemma {:induction false} GreedyHolds(edges: seq<Edge>, order: seq<Scored>, threshold: real, removed: set<nat>,
      s: Scored) returns (v: Id)
    requires NoLoops(edges) && Pending(edges, order, removed)
    requires Sorted(order, MoreCurved) && RefinedSorted(order, MoreCurved, EarlierSlot)
    requires s in order && s.curvature as real > threshold
    requires s.slot !in Greedy(edges, order, threshold, removed)
    ensures s.slot < |edges| && At(edges[s.slot], v)
    ensures HeldBy(edges, removed, Greedy(edges, order, threshold, removed), s, v)
    decreases |order|
  {
    HeadAbove(order, threshold, s);
    var next := Advance(edges, order[0], removed);
    PendingTail(edges, order, removed, next);
    if order[0] == s {
      GreedyKeepsDegree(edges, order[1..], threshold, next, edges[s.slot].source);
      assert next == removed;
      SurvivorCounts(edges, removed, s.slot);
      v := if LiveDegree(edges, removed, edges[s.slot].source) == 1 then edges[s.slot].source else edges[s.slot].target;
      LastEdgeHolds(edges, order[1..], threshold, removed, s, v);
    } else {
      v := GreedyHolds(edges, order[1..], threshold, next, s);
      HeadPrecedes(order, s);
      HeldEarlier(edges, removed, next, Greedy(edges, order[1..], threshold, next), order[0], s, v);
    }
  }

  // A removal before s may be counted in as well.
  lemma HeldEarlier(edges: seq<Edge>, removed: set<nat>, next: set<nat>, r: set<nat>, h: Scored, s: Scored, v: Id)
    requires HeldBy(edges, next, r, s, v) && next <= removed + {h.slot} && h.slot < |edges|
    requires h == Scored(h.slot, CurvatureAt(edges, h.slot)) && Refined(MoreCurved, EarlierSlot, h, s)
    ensures HeldBy(edges, removed, r, s, v)
  {
  }

  lemma HeadPrecedes(order: seq<Scored>, s: Scored)
    requires RefinedSorted(order, MoreCurved, EarlierSlot) && s in order && order[0] != s
    ensures Refined(MoreCurved, EarlierSlot, order[0], s)
  {
    var j :| 0 <= j < |order| && order[j] == s;
  }

  lemma OrderRefined(edges: seq<Edge>)
    ensures Sorted(Order(edges), MoreCurved) && RefinedSorted(Order(edges), MoreCurved, EarlierSlot)
  {
    OrderSorted(edges);
    SortStable(Scores(edges), MoreCurved, EarlierSlot);
  }

  // An edge redundant beyond the threshold stays only where it is the last of one of its ends, and
  // every edge removed there was given up before it.
  lemma KeptWasLast(edges: seq<Edge>, threshold: real, i: nat) returns (v: Id)
    requires SimpleEdges(edges) && i < |edges| && i !in Removed(edges, threshold)
    requires Redundancy(edges, edges[i]) as real > threshold
    ensures At(edges[i], v) && |Around(Kept(edges, Removed(edges, threshold)), v)| == 1
    ensures forall j :: j in Removed(edges, threshold) && j < |edges| && At(edges[j], v) ==> GivenUpBefore(edges, j, i)
  {
    var s := Scored(i, CurvatureAt(edges, i));
    CurvatureIsRedundancy(edges, i);
    PruningStarts(edges);
    OrderMembers(edges);
    OrderRefined(edges);
    v := GreedyHolds(edges, Order(edges), threshold, {}, s);
    KeptSimple(edges, Removed(edges, threshold));
    DegreeIsAround(Kept(edges, Removed(edges, threshold)), v);
    forall j | j in Removed(edges, threshold) && j < |edges| && At(edges[j], v) ensures GivenUpBefore(edges, j, i) {
      CurvatureIsRedundancy(edges, j);
      assert Refined(MoreCurved, EarlierSlot, Scored(j, CurvatureAt(edges, j)), s);
    }
  }

  // ---- A triangle

  // Three edges, one between any two of a, b and c.
  ghost predicate IsTriangle(t: seq<Edge>, a: Id, b: Id, c: Id) {
    && |t| == 3 && a != b && b != c && c != a
    && Joins(t[0], a, b) && Joins(t[1], b, c) && Joins(t[2], c, a)
  }

  lemma TriangleAround(t: seq<Edge>, a: Id, b: Id, c: Id)
    requires IsTriangle(t, a, b, c)
    ensures Around(t, a) == {b, c} && Around(t, b) == {c, a} && Around(t, c) == {a, b}
  {
    assert t == [t[0], t[1], t[2]];
    Corner(t, t[0], t[2], t[1], a, b, c);
    Corner(t, t[1], t[0], t[2], b, c, a);
    Corner(t, t[2], t[1], t[0], c, a, b);
  }

  // Of three edges e joins v and p, f joins q and v, and the third is not at v.
  lemma Corner(t: seq<Edge>, e: Edge, f: Edge, h: Edge, v: Id, p: Id, q: Id)
    requires e in t && f in t && forall x :: x in t ==> x == e || x == f || x == h
    requires Joins(e, v, p) && Joins(f, q, v) && Joins(h, p, q) && v != p && v != q
    ensures Around(t, v) == {p, q}
  {
    forall y ensures y in Around(t, v) <==> y == p || y == q {
      AroundIff(t, v, y);
    }
  }

  lemma TwoOf(p: Id, q: Id)
    requires p != q
    ensures |{p, q}| == 2
  {
  }

  lemma TriangleRedundancy(t: seq<Edge>, a: Id, b: Id, c: Id)
    requires IsTriangle(t, a, b, c)
    ensures Redundancy(t, t[0]) == 3 && Redundancy(t, t[1]) == 3 && Redundancy(t, t[2]) == 3
  {
    SideCounts(t, a, b, c);
    SideRedundancy(t, t[0], a, b);
    SideRedundancy(t, t[1], b, c);
    SideRedundancy(t, t[2], c, a);
  }

  // The ends of an edge that closes one triangle and has no other neighbors.
  ghost predicate Side(edges: seq<Edge>, a: Id, b: Id) {
    |Around(edges, a)| == 2 && |Around(edges, b)| == 2 && |Around(edges, a) * Around(edges, b)| == 1
  }

  lemma SideCounts(t: seq<Edge>, a: Id, b: Id, c: Id)
    requires IsTriangle(t, a, b, c)
    ensures Side(t, a, b) && Side(t, b, c) && Side(t, c, a)
  {
    TriangleAround(t, a, b, c);
    SideOf(t, a, b, c);
    SideOf(t, b, c, a);
    SideOf(t, c, a, b);
  }

  lemma SideOf(t: seq<Edge>, a: Id, b: Id, c: Id)
    requires a != b && b != c && a != c && Around(t, a) == {b, c} && Around(t, b) == {c, a}
    ensures Side(t, a, b)
  {
    TwoOf(b, c);
    TwoOf(c, a);
    assert {b, c} * {c, a} == {c};
  }

  lemma SideRedundancy(edges: seq<Edge>, e: Edge, a: Id, b: Id)
    requires Joins(e, a, b) && Side(edges, a, b)
    ensures Redundancy(edges, e) == 3
  {
    assert Around(edges, a) * Around(edges, b) == Around(edges, b) * Around(edges, a);
  }

  lemma TriangleSimple(t: seq<Edge>, a: Id, b: Id, c: Id)
    requires IsTriangle(t, a, b, c)
    ensures SimpleEdges(t)
  {
  }

  // Where nothing is removed, everyone is still there.
  lemma AroundKept(edges: seq<Edge>, removed: set<nat>, v: Id)
    requires forall j :: j in removed && j < |edges| ==> !At(edges[j], v)
    ensures Around(Kept(edges, removed), v) == Around(edges, v)
  {
    KeptMembers(edges, removed);
    var kept := Kept(edges, removed);
    forall e | At(e, v) ensures e in kept <==> e in edges {
      if e in edges {
        var i :| 0 <= i < |edges| && edges[i] == e;
      }
    }
  }

  lemma TriangleFirstGoes(t: seq<Edge>, threshold: real, a: Id, b: Id, c: Id)
    requires IsTriangle(t, a, b, c) && threshold < 3.0
    ensures 0 in Removed(t, threshold)
  {
    TriangleSimple(t, a, b, c);
    TriangleRedundancy(t, a, b, c);
    if 0 !in Removed(t, threshold) {
      var v := KeptWasLast(t, threshold, 0);
      forall j | j in Removed(t, threshold) && j < |t| ensures !At(t[j], v) {
        assert !GivenUpBefore(t, j, 0);
      }
      AroundKept(t, Removed(t, threshold), v);
      TriangleAround(t, a, b, c);
      TwoOf(b, c);
      TwoOf(c, a);
      assert false;
    }
  }

  lemma KeepsAnEdge(edges: seq<Edge>, threshold: real, v: Id) returns (i: nat)
    requires SimpleEdges(edges) && Around(edges, v) != {}
    ensures i < |edges| && i !in Removed(edges, threshold) && At(edges[i], v)
  {
    var kept := Kept(edges, Removed(edges, threshold));
    PruningIsolatesNobody(State(map[], edges, 0, 0), threshold, v);
    DegreeIsAround(edges, v);
    KeptSimple(edges, Removed(edges, threshold));
    DegreeIsAround(kept, v);
    KeptMembers(edges, Removed(edges, threshold));
    var e :| e in kept && At(e, v);
    i :| 0 <= i < |edges| && i !in Removed(edges, threshold) && edges[i] == e;
  }

  lemma TriangleBounds(t: seq<Edge>, a: Id, b: Id, c: Id, threshold: real, i: nat)
    requires IsTriangle(t, a, b, c) && i in Removed(t, threshold)
    ensures i < 3 && threshold < 3.0
  {
    TriangleSimple(t, a, b, c);
    TriangleRedundancy(t, a, b, c);
    RemovedWereRedundant(t, threshold, i);
  }

  lemma TriangleOthersStay(t: seq<Edge>, a: Id, b: Id, c: Id, threshold: real)
    requires IsTriangle(t, a, b, c) && 0 in Removed(t, threshold)
    ensures 1 !in Removed(t, threshold) && 2 !in Removed(t, threshold)
  {
    TriangleSimple(t, a, b, c);
    TriangleAround(t, a, b, c);
    var i := KeepsAnEdge(t, threshold, a);
    var j := KeepsAnEdge(t, threshold, b);
  }

  // Below a threshold of 3 a triangle loses exactly its first edge, at 3 or above none.
  lemma TrianglePruned(t: seq<Edge>, a: Id, b: Id, c: Id, threshold: real)
    requires IsTriangle(t, a, b, c)
    ensures Removed(t, threshold) == if threshold < 3.0 then {0} else {}
  {
    forall i | i in Removed(t, threshold) ensures i < 3 && threshold < 3.0 {
      TriangleBounds(t, a, b, c, threshold, i);
    }
    if threshold < 3.0 {
      TriangleFirstGoes(t, threshold, a, b, c);
      TriangleOthersStay(t, a, b, c, threshold);
    }
  }
}
