// What capacity eviction guarantees about sizes, canon, edges and repeated calls.
module EvictionLaws {
  import opened Eviction
  import opened Filtering
  import opened Graph
  import opened IdGenerator
  import opened IdOrder

  lemma EvictedCount(g: State, maxNodes: nat)
    ensures Evicted(g, maxNodes) <= EphemeralIds(g)
    ensures |Evicted(g, maxNodes)| == RemoveCount(g, maxNodes)
  {
    EvictionOrderLists(g);
    OrderDistinct(g);
    DistinctIdCount(EvictionOrder(g)[..RemoveCount(g, maxNodes)]);
  }

  lemma CanonAndEphemeralCover(g: State)
    ensures |EphemeralIds(g)| + |CanonIds(g)| == |g.nodes|
  {
    assert EphemeralIds(g) + CanonIds(g) == g.nodes.Keys;
    assert EphemeralIds(g) !! CanonIds(g);
    assert |g.nodes.Keys| == |g.nodes|;
  }

  lemma DropSize(g: State, dead: set<Id>)
    requires dead <= g.nodes.Keys
    ensures |Drop(g, dead).nodes| == |g.nodes| - |dead|
  {
    assert (g.nodes - dead).Keys == g.nodes.Keys - dead;
    assert |(g.nodes - dead).Keys| == |g.nodes.Keys| - |dead|;
  }

  // The final size: the bound is met unless canon alone exceeds it.
  lemma EvictionSize(g: State, maxNodes: nat)
    ensures |EnforceCapacity(g, maxNodes).nodes| == Min(|g.nodes|, Max(maxNodes, |CanonIds(g)|))
    ensures |Evicted(g, maxNodes)| == |g.nodes| - |EnforceCapacity(g, maxNodes).nodes|
  {
    EvictedCount(g, maxNodes);
    CanonAndEphemeralCover(g);
    DropSize(g, Evicted(g, maxNodes));
  }

  // No canon node goes, no survivor changes.
  lemma CanonSurvives(g: State, maxNodes: nat, id: Id)
    requires id in CanonIds(g)
    ensures id in EnforceCapacity(g, maxNodes).nodes
    ensures EnforceCapacity(g, maxNodes).nodes[id] == g.nodes[id]
  {
    EvictedCount(g, maxNodes);
  }

  // Every evicted node is less valuable than every ephemeral survivor.
  lemma NoInversion(g: State, maxNodes: nat, gone: Id, kept: Id)
    requires gone in Evicted(g, maxNodes)
    requires kept in EphemeralIds(g) && kept !in Evicted(g, maxNodes)
    ensures gone in Rivals(g, kept)
  {
    EvictedCount(g, maxNodes);
    EvictedIffRank(g, maxNodes, gone);
    EvictedIffRank(g, maxNodes, kept);
    if !Cheaper(Summary(g, gone), Summary(g, kept)) {
      CheaperTotal(Summary(g, gone), Summary(g, kept));
      CheaperStrict();
      SubsetCount(Rivals(g, kept), Rivals(g, gone));
    }
  }

  lemma SubsetCount<T>(a: set<T>, b: set<T>)
    requires a <= b
    ensures |a| <= |b|
  {
    assert b == a + (b - a);
  }

  function Inside(live: set<Id>): Edge -> bool {
    (e: Edge) => e.source in live && e.target in live
  }

  function EdgesAmong(edges: seq<Edge>, live: set<Id>): seq<Edge> {
    Filter(edges, Inside(live))
  }

  // The edges left are exactly those of the subgraph on the nodes left, in their old order.
  lemma InducedSubgraph(g: State, maxNodes: nat)
    requires EdgesLive(g)
    ensures EnforceCapacity(g, maxNodes).edges == EdgesAmong(g.edges, EnforceCapacity(g, maxNodes).nodes.Keys)
    ensures EdgesLive(EnforceCapacity(g, maxNodes))
  {
    WithoutIsAmong(g.edges, g.nodes.Keys, Evicted(g, maxNodes));
    EdgesWithoutMembers(g.edges, Evicted(g, maxNodes));
    assert (g.nodes - Evicted(g, maxNodes)).Keys == g.nodes.Keys - Evicted(g, maxNodes);
  }

  lemma WithoutIsAmong(edges: seq<Edge>, live: set<Id>, dead: set<Id>)
    requires forall e :: e in edges ==> e.source in live && e.target in live
    ensures EdgesWithout(edges, dead) == EdgesAmong(edges, live - dead)
  {
    FilterSame(edges, ClearOf(dead), Inside(live - dead));
  }

  lemma EdgesWithoutMembers(edges: seq<Edge>, dead: set<Id>)
    ensures forall e :: e in EdgesWithout(edges, dead) <==> e in edges && e.source !in dead && e.target !in dead
  {
    FilterKeeps(edges, ClearOf(dead));
  }

  lemma EdgesWithoutTwice(edges: seq<Edge>, a: set<Id>, b: set<Id>)
    ensures EdgesWithout(EdgesWithout(edges, a), b) == EdgesWithout(edges, a + b)
  {
    FilterTwice(edges, ClearOf(a), ClearOf(b), ClearOf(a + b));
  }

  lemma DropTwice(g: State, a: set<Id>, b: set<Id>)
    ensures Drop(Drop(g, a), b) == Drop(g, a + b)
  {
    EdgesWithoutTwice(g.edges, a, b);
    assert (g.nodes - a) - b == g.nodes - (a + b);
  }

  // After an eviction, a survivor has lost exactly the evicted nodes as rivals.
  lemma SurvivorRank(g: State, maxNodes: nat, id: Id)
    requires id in EphemeralIds(g) && id !in Evicted(g, maxNodes)
    ensures var g' := EnforceCapacity(g, maxNodes);
            id in EphemeralIds(g') && |Rivals(g', id)| == |Rivals(g, id)| - |Evicted(g, maxNodes)|
  {
    var g', dead := EnforceCapacity(g, maxNodes), Evicted(g, maxNodes);
    forall gone | gone in dead ensures gone in Rivals(g, id) {
      NoInversion(g, maxNodes, gone, id);
    }
    assert Rivals(g', id) == Rivals(g, id) - dead;
    assert |Rivals(g, id) - dead| == |Rivals(g, id)| - |dead|;
  }

  // Shrinking in two steps is shrinking once to the smaller bound: same state, same total.
  lemma EvictionPathIndependent(g: State, a: nat, b: nat)
    ensures EnforceCapacity(EnforceCapacity(g, a), b) == EnforceCapacity(g, Min(a, b))
    ensures |Evicted(g, a)| + |Evicted(EnforceCapacity(g, a), b)| == |Evicted(g, Min(a, b))|
  {
    EvictedUnion(g, a, b);
    DropTwice(g, Evicted(g, a), Evicted(EnforceCapacity(g, a), b));
  }

  lemma EvictedUnion(g: State, a: nat, b: nat)
    ensures Evicted(g, a) !! Evicted(EnforceCapacity(g, a), b)
    ensures Evicted(g, a) + Evicted(EnforceCapacity(g, a), b) == Evicted(g, Min(a, b))
    ensures |Evicted(g, a)| + |Evicted(EnforceCapacity(g, a), b)| == |Evicted(g, Min(a, b))|
  {
    EvictedCount(EnforceCapacity(g, a), b);
    forall id ensures id in Evicted(g, a) || id in Evicted(EnforceCapacity(g, a), b) <==> id in Evicted(g, Min(a, b)) {
      EvictedInTwoSteps(g, a, b, id);
    }
    UnionOf(Evicted(g, a), Evicted(EnforceCapacity(g, a), b), Evicted(g, Min(a, b)));
  }

  lemma UnionOf<T>(a: set<T>, b: set<T>, c: set<T>)
    requires a !! b && forall x :: x in a || x in b <==> x in c
    ensures a + b == c && |a| + |b| == |c|
  {
    assert a + b == c;
  }

  lemma EvictedInTwoSteps(g: State, a: nat, b: nat, id: Id)
    ensures id in Evicted(g, a) || id in Evicted(EnforceCapacity(g, a), b) <==> id in Evicted(g, Min(a, b))
  {
    EvictedIffRank(g, a, id);
    EvictedIffRank(g, Min(a, b), id);
    EvictedCount(g, a);
    DropSize(g, Evicted(g, a));
    if id in EphemeralIds(g) && id !in Evicted(g, a) {
      SurvivorRank(g, a, id);
    }
    EvictedIffRank(EnforceCapacity(g, a), b, id);
  }

  // Last-access ticks that tell nodes apart leave nothing for access counts (or keys) to decide.
  ghost predicate TicksDistinct(g: State) {
    forall a, b :: a in g.nodes && b in g.nodes && a != b ==> g.nodes[a].lastAccessedAt != g.nodes[b].lastAccessedAt
  }

  ghost predicate CheaperByTick(a: Node, b: Node) {
    a.importance < b.importance || (a.importance == b.importance && a.lastAccessedAt < b.lastAccessedAt)
  }

  lemma AccessCountNeverDecides(g: State, a: Id, b: Id)
    requires TicksDistinct(g) && a in g.nodes && b in g.nodes
    ensures Cheaper(Summary(g, a), Summary(g, b)) <==> CheaperByTick(g.nodes[a], g.nodes[b])
  {
    if a == b {
      BeforeIrreflexive(a);
    }
  }
}
