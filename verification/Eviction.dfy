// Capacity eviction: which nodes go, and what that guarantees.
module Eviction {
  import opened Filtering
  import opened Graph
  import opened IdGenerator
  import opened IdOrder
  import opened StableSort

  datatype Evictable = Evictable(id: Id, lastAccessedAt: nat, accessCount: nat, importance: int)

  // The comparison eviction sorts by: importance, then last access, then access count.
  predicate NotDearer(a: Evictable, b: Evictable) {
    if a.importance != b.importance then a.importance < b.importance
    else if a.lastAccessedAt != b.lastAccessedAt then a.lastAccessedAt < b.lastAccessedAt
    else a.accessCount <= b.accessCount
  }

  ghost predicate EarlierKey(a: Evictable, b: Evictable) {
    Before(a.id, b.id)
  }

  function Summary(g: State, id: Id): Evictable
    requires id in g.nodes
  {
    Evictable(id, g.nodes[id].lastAccessedAt, g.nodes[id].accessCount, g.nodes[id].importance)
  }

  function Summaries(g: State, ids: seq<Id>): (r: seq<Evictable>)
    requires forall id :: id in ids ==> id in g.nodes
    ensures |r| == |ids|
  {
    seq(|ids|, i requires 0 <= i < |ids| => assert ids[i] in ids; Summary(g, ids[i]))
  }

  // Every ephemeral node, in key order.
  function Candidates(g: State): (r: seq<Evictable>)
    ensures |r| == |EphemeralIds(g)|
  {
    AscendingLists(EphemeralIds(g));
    Summaries(g, Ascending(EphemeralIds(g)))
  }

  // The same, least valuable first.
  function EvictionOrder(g: State): seq<Evictable> {
    Sort(Candidates(g), NotDearer)
  }

  function RemoveCount(g: State, maxNodes: nat): nat {
    if |g.nodes| <= maxNodes then 0 else Min(|g.nodes| - maxNodes, |EphemeralIds(g)|)
  }

  function IdsOf(s: seq<Evictable>): set<Id> {
    set e | e in s :: e.id
  }

  function Evicted(g: State, maxNodes: nat): set<Id> {
    IdsOf(EvictionOrder(g)[..RemoveCount(g, maxNodes)])
  }

  function ClearOf(dead: set<Id>): Edge -> bool {
    (e: Edge) => e.source !in dead && e.target !in dead
  }

  function EdgesWithout(edges: seq<Edge>, dead: set<Id>): seq<Edge> {
    Filter(edges, ClearOf(dead))
  }

  function Drop(g: State, dead: set<Id>): State {
    g.(nodes := g.nodes - dead, edges := EdgesWithout(g.edges, dead))
  }

  function EnforceCapacity(g: State, maxNodes: nat): State {
    Drop(g, Evicted(g, maxNodes))
  }

  // Strictly less valuable; the last resort is key order.
  ghost predicate Cheaper(a: Evictable, b: Evictable) {
    Refined(NotDearer, EarlierKey, a, b)
  }

  lemma CheaperStrict()
    ensures TotalPreorder(NotDearer) && StrictOrder(EarlierKey) && StrictOrder(Cheaper)
  {
    BeforeStrict();
  }

  lemma CheaperTotal(a: Evictable, b: Evictable)
    requires a.id != b.id
    ensures Cheaper(a, b) || Cheaper(b, a)
  {
    BeforeTotal(a.id, b.id);
  }

  lemma EvictionOrderLists(g: State)
    ensures Sorted(EvictionOrder(g), Cheaper)
    ensures forall e :: e in EvictionOrder(g) <==> e.id in EphemeralIds(g) && e == Summary(g, e.id)
  {
    var ids, c := Ascending(EphemeralIds(g)), Candidates(g);
    AscendingLists(EphemeralIds(g));
    CheaperStrict();
    forall i, j | 0 <= i < j < |c| ensures EarlierKey(c[i], c[j]) {
      assert Before(ids[i], ids[j]);
    }
    SortStable(c, NotDearer, EarlierKey);
    SortElements(c, NotDearer);
    forall e ensures e in c <==> e.id in EphemeralIds(g) && e == Summary(g, e.id) {
      if e.id in EphemeralIds(g) && e == Summary(g, e.id) {
        assert e.id in ids;
        var i :| 0 <= i < |ids| && ids[i] == e.id;
        assert c[i] == e;
      }
    }
  }

  // The ephemeral nodes that go before this one.
  ghost function Rivals(g: State, id: Id): set<Id>
    requires id in g.nodes
  {
    set m | m in EphemeralIds(g) && Cheaper(Summary(g, m), Summary(g, id))
  }

  lemma {:induction false} DistinctIdCount(s: seq<Evictable>)
    requires forall i, j :: 0 <= i < j < |s| ==> s[i].id != s[j].id
    ensures |IdsOf(s)| == |s|
  {
    if s != [] {
      var n := |s| - 1;
      DistinctIdCount(s[..n]);
      assert s == s[..n] + [s[n]];
      assert IdsOf(s) == IdsOf(s[..n]) + {s[n].id};
    }
  }

  lemma OrderDistinct(g: State)
    ensures forall i, j :: 0 <= i < j < |EvictionOrder(g)| ==> EvictionOrder(g)[i].id != EvictionOrder(g)[j].id
  {
    var s := EvictionOrder(g);
    EvictionOrderLists(g);
    CheaperStrict();
    forall i, j | 0 <= i < j < |s| ensures s[i].id != s[j].id {
      assert s[i] in s && s[j] in s && Cheaper(s[i], s[j]);
    }
  }

  // A node's place in the eviction order is the number of its rivals.
  lemma RankIsPosition(g: State, i: nat)
    requires i < |EvictionOrder(g)|
    ensures EvictionOrder(g)[i].id in EphemeralIds(g)
    ensures Rivals(g, EvictionOrder(g)[i].id) == IdsOf(EvictionOrder(g)[..i])
    ensures |Rivals(g, EvictionOrder(g)[i].id)| == i
  {
    var s := EvictionOrder(g);
    EvictionOrderLists(g);
    CheaperStrict();
    PredecessorsArePrefix(s, i, Cheaper);
    assert s[i] in s;
    forall m ensures m in Rivals(g, s[i].id) <==> m in IdsOf(s[..i]) {
      if m in EphemeralIds(g) {
        assert Summary(g, m) in s;
      }
    }
    OrderDistinct(g);
    DistinctIdCount(s[..i]);
  }

  // Exactly which nodes go: the ephemeral ones with fewer rivals than there are nodes in excess.
  lemma EvictedIffRank(g: State, maxNodes: nat, id: Id)
    ensures id in Evicted(g, maxNodes) <==>
            id in EphemeralIds(g) && |Rivals(g, id)| < |g.nodes| - maxNodes
  {
    var s, k := EvictionOrder(g), RemoveCount(g, maxNodes);
    EvictionOrderLists(g);
    if id in EphemeralIds(g) {
      assert Summary(g, id) in s;
      var i :| 0 <= i < |s| && s[i] == Summary(g, id);
      RankIsPosition(g, i);
      OrderDistinct(g);
      if i < k {
        assert s[..k][i] == s[i];
      } else {
        assert forall j :: 0 <= j < k ==> s[..k][j] == s[j];
      }
    }
  }
}
