// The graph store, updated in place. Every method is tied to the value-level operation of the
// module that proves its laws.
module Nexus {
  import opened Cosine
  import opened Eviction
  import EvictionLaws
  import G = Graph
  import opened Hashing
  import opened IdGenerator
  import opened IdOrder
  import opened Layers
  import opened LinkSelection
  import opened Linking
  import LinkingLaws
  import opened Provenance
  import Pruning
  import PruningLaws
  import opened PruningPass
  import opened StableSort
  import opened Traversal
  import opened VectorIndex
  import opened Words

  class MemoryGraphNexus {
    var nodes: map<Id, G.Node>
    var edges: seq<G.Edge>
    var clock: nat
    var idSeed: nat

    ghost function State(): G.State
      reads this
    {
      G.State(nodes, edges, clock, idSeed)
    }

    constructor ()
      ensures State() == G.EMPTY
    {
      nodes := map[];
      edges := [];
      clock := 0;
      idSeed := INITIAL_SEED;
    }

    method NextTick() returns (now: nat)
      modifies this`clock
      ensures clock == now == G.Tick(old(clock))
    {
      clock := (clock + 1) % WORD;
      now := clock;
    }

    method NextId() returns (id: Id)
      modifies this`idSeed
      ensures id == G.FreshId(old(State())) && idSeed == NextSeed(old(idSeed))
    {
      idSeed := (idSeed + GOLDEN) % WORD;
      var z := idSeed;
      z := MulWrap(XorShift(z, 30), FACTOR_A);
      z := MulWrap(XorShift(z, 27), FACTOR_B);
      z := XorShift(z, 31);
      id := Hex(z);
    }

    method CreateNode(d: G.Draft) returns (id: Id)
      modifies this
      ensures id == G.FreshId(old(State()))
      ensures State() == G.CreateNode(old(State()), d)
    {
      id := NextId();
      var now := NextTick();
      var cap := d.source.MaxImportanceCap();
      var node := G.Node(id, d.content, d.tags, if G.INITIAL_IMPORTANCE < cap then G.INITIAL_IMPORTANCE else cap,
                         d.source, d.cell, d.canon, !d.canon.IsImmortal(), G.NEUTRAL, now, now, 1, 0, 0);
      nodes := nodes[id := node];
    }

    method AddEdge(a: Id, b: Id, relation: string, weight: real)
      modifies this`edges, this`idSeed
      ensures State() == G.AddEdge(old(State()), a, b, relation, weight)
    {
      if a == b || a !in nodes || b !in nodes {
        return;
      }
      if exists e :: e in edges && G.Joins(e, a, b) {
        return;
      }
      var edgeId := NextId();
      edges := edges + [G.Edge(edgeId, a, b, relation, weight)];
    }

    method SetNodeAffect(id: Id, affect: G.Affect) returns (known: bool)
      modifies this`nodes
      ensures known <==> id in old(nodes)
      ensures State() == G.SetAffect(old(State()), id, affect)
    {
      known := id in nodes;
      if known {
        nodes := nodes[id := nodes[id].(affect := affect)];
      }
    }

    method RecordAccess(id: Id)
      modifies this
      ensures State() == G.RecordAccess(old(State()), id)
    {
      var now := NextTick();
      if id in nodes {
        var n := nodes[id];
        nodes := nodes[id := n.(accessCount := G.Bump(n.accessCount), lastAccessedAt := now)];
      }
    }

    method RecordHumanFeedback(id: Id, helpful: bool) returns (known: bool)
      modifies this`nodes
      ensures known <==> id in old(nodes)
      ensures State() == G.RecordFeedback(old(State()), id, helpful)
    {
      known := id in nodes;
      if known {
        var n := nodes[id];
        var cap := n.source.MaxImportanceCap();
        if helpful {
          n := n.(confirmations := G.Bump(n.confirmations), importance := G.Min(n.importance + G.CONFIRM_STEP, cap));
        } else {
          n := n.(rejections := G.Bump(n.rejections), importance := G.Max(n.importance - G.REJECT_STEP, 0));
        }
        nodes := nodes[id := n];
      }
    }

    method PromoteNode(id: Id, minConfirmations: nat, level: CanonLevel) returns (changed: bool)
      requires id in nodes && level.IsCanon()
      modifies this`nodes
      ensures State() == G.UpdateNode(old(State()), id, G.Promoted(old(nodes)[id], minConfirmations, level))
      ensures changed <==> G.Promotable(old(nodes)[id], minConfirmations)
    {
      var n := nodes[id];
      changed := !(n.canon.IsCanon() || n.source.IsSelfDescription() || n.confirmations < minConfirmations);
      if changed {
        n := n.(canon := level, ephemeral := false);
      }
      nodes := nodes[id := n];
    }

    method PromoteConfirmedToCanon(minConfirmations: nat, level: CanonLevel) returns (promoted: nat)
      modifies this`nodes
      ensures State() == G.Promote(old(State()), minConfirmations, level)
      ensures promoted == |G.PromotedIds(old(State()), minConfirmations, level)|
    {
      ghost var g := State();
      promoted := 0;
      PromoteNone(g, minConfirmations, level);
      if !level.IsCanon() {
        return;
      }
      var todo := nodes.Keys;
      while todo != {}
        invariant todo <= g.nodes.Keys
        invariant State() == PartlyPromoted(g, minConfirmations, level, todo)
        invariant promoted == |G.PromotedIds(g, minConfirmations, level) - todo|
        decreases |todo|
      {
        var id :| id in todo;
        PromoteOneMore(g, minConfirmations, level, todo, id);
        var changed := PromoteNode(id, minConfirmations, level);
        if changed {
          promoted := promoted + 1;
        }
        todo := todo - {id};
      }
      PromoteAll(g, minConfirmations, level);
    }

    method EnforceCapacity(maxNodes: nat) returns (removed: nat)
      modifies this`nodes, this`edges
      ensures State() == Eviction.EnforceCapacity(old(State()), maxNodes)
      ensures removed == |old(nodes)| - |nodes|
    {
      EvictionTally(State(), maxNodes);
      if |nodes| <= maxNodes {
        return 0;
      }
      var evictable := EvictionOrderOf(nodes, State());
      var wantRemove := |nodes| - maxNodes;
      removed := if wantRemove < |evictable| then wantRemove else |evictable|;
      FirstAreEvicted(State(), maxNodes, evictable, removed);
      RemoveFirst(evictable, removed);
    }

    method RemoveFirst(evictable: seq<Evictable>, count: nat)
      requires count <= |evictable|
      modifies this`nodes, this`edges
      ensures State() == Drop(old(State()), IdsOf(evictable[..count]))
    {
      ghost var g := State();
      DropNothing(g);
      for i := 0 to count
        invariant State() == Drop(g, IdsOf(evictable[..i]))
      {
        var id := evictable[i].id;
        DropOneMore(g, evictable, i);
        nodes := nodes - {id};
        edges := EdgesWithout(edges, {id});
      }
    }

    // Join every chosen pair, in order.
    method AddEdges(links: seq<Link>, relation: string) returns (added: nat)
      modifies this`edges, this`idSeed
      ensures State() == AddAll(old(State()), links, relation)
      ensures added == |edges| - |old(edges)|
    {
      ghost var g := State();
      var before := |edges|;
      for i := 0 to |links|
        invariant State() == AddAll(g, links[..i], relation)
      {
        AddEdge(links[i].a, links[i].b, relation, links[i].weight);
        assert links[..i + 1][..i] == links[..i];
      }
      assert links[..|links|] == links;
      LinkingLaws.AddAllJoins(g, links, relation);
      added := |edges| - before;
    }

    method LinkSemantic(index: SimpleVectorIndex, threshold: real) returns (added: nat)
      modifies this`edges, this`idSeed
      ensures State() == Linking.LinkSemantic(old(State()), index.vectors, threshold)
      ensures added == |edges| - |old(edges)|
    {
      var toAdd := SimilarLinks(index.vectors, threshold);
      added := AddEdges(toAdd, RELATED);
    }

    method LinkSemanticLshMulti(index: SimpleVectorIndex, threshold: real, planes: nat, tables: nat)
      returns (added: nat)
      requires index.Valid()
      modifies this`edges, this`idSeed
      ensures State() == LinkLsh(old(State()), index.vectors, threshold, planes, tables)
      ensures added == |edges| - |old(edges)|
    {
      var entries := index.vectors;
      if |entries| == 0 {
        assert LshLinks(entries, threshold, planes, tables) == [];
        return 0;
      }
      assert entries[0] in entries;
      var dim := |entries[0].vector|;
      var candidates := CollidingPairs(entries, dim, PlaneCount(planes), TableCount(tables));
      var toAdd := CandidateLinks(entries, candidates, threshold);
      added := AddEdges(toAdd, RELATED);
    }

    // How content is split into significant tokens is a parameter.
    method LinkByEntities(tokenize: string -> set<string>, maxFrequency: nat, minShared: nat) returns (added: nat)
      modifies this`edges, this`idSeed
      ensures State() == Linking.LinkByEntities(old(State()), tokenize, maxFrequency, minShared)
      ensures added == |edges| - |old(edges)|
    {
      var nodeTokens := CollectTokens(nodes, tokenize, State());
      var toAdd := EntityLinks(nodeTokens, maxFrequency, minShared);
      added := AddEdges(toAdd, SHARED);
    }

    method PruneRedundantEdges(minCurvature: real) returns (pruned: nat)
      modifies this`edges
      ensures State() == Pruning.Prune(old(State()), minCurvature)
      ensures pruned == |old(edges)| - |edges|
    {
      var deg, adj := DegreesAndNeighbors(edges);
      var scored := ScoreEdges(edges, deg, adj);
      PruningLaws.PruningStarts(edges);
      var remove := GreedyPass(edges, deg, Sort(scored, Pruning.MoreCurved), minCurvature);
      var before := |edges|;
      KeptNoLonger(edges, remove);
      edges := Pruning.Kept(edges, remove);
      pruned := before - |edges|;
    }

    method Expand(seeds: seq<Id>, hops: nat) returns (seen: set<Id>)
      ensures seen == Ball(State(), SetOf(seeds), hops)
    {
      var adj := AdjacencyLists(edges);
      var live := set s | s in seeds && s in nodes;
      assert live == Ball(State(), SetOf(seeds), 0);
      seen := ExpandLayers(adj, live, hops, State(), SetOf(seeds));
    }

    // Seeds in cosine order, then the rest of what expansion reached, in key order.
    method AssociativeRecall(index: SimpleVectorIndex, query: Vector, kSeeds: nat, hops: nat) returns (out: seq<Id>)
      requires index.Valid()
      ensures out == Recall(State(), ResultIds(Ranked(index.vectors, index.dimension, query, kSeeds)), hops)
    {
      var results := index.Search(query, kSeeds);
      var seeds := ResultIds(results);
      var reached := Expand(seeds, hops);
      var ranked := KeepAmong(seeds, reached);
      var rest := KeepAmong(Ascending(reached), reached - SetOf(seeds));
      AmongAscending(reached, reached - SetOf(seeds));
      out := ranked + rest;
    }
  }

  lemma AscendingAll(nodes: map<Id, G.Node>, ids: seq<Id>)
    requires ids == Ascending(nodes.Keys)
    ensures forall i :: 0 <= i <= |ids| ==> forall id :: id in ids[..i] ==> id in nodes
    ensures forall id :: id in ids ==> id in nodes
  {
    AscendingLists(nodes.Keys);
  }

  lemma TokensForStep(g: G.State, ids: seq<Id>, i: nat, tokenize: string -> set<string>)
    requires i < |ids| && forall id :: id in ids ==> id in g.nodes
    ensures forall id :: id in ids[..i] || id in ids[..i + 1] ==> id in g.nodes
    ensures ids[i] in g.nodes
    ensures TokensFor(g, ids[..i + 1], tokenize) ==
            TokensFor(g, ids[..i], tokenize) + [Tokens(ids[i], tokenize(g.nodes[ids[i]].content))]
  {
    assert ids[..i + 1][..i] == ids[..i];
  }

  // Every node's tokens, in key order.
  method CollectTokens(nodes: map<Id, G.Node>, tokenize: string -> set<string>, ghost g: G.State)
    returns (tokens: seq<Tokens>)
    requires g.nodes == nodes
    ensures tokens == NodeTokens(g, tokenize)
  {
    var ids := Ascending(nodes.Keys);
    AscendingAll(nodes, ids);
    tokens := [];
    for i := 0 to |ids|
      invariant tokens == TokensFor(g, ids[..i], tokenize)
    {
      assert ids[i] in ids;
      TokensForStep(g, ids, i, tokenize);
      tokens := tokens + [Tokens(ids[i], tokenize(nodes[ids[i]].content))];
    }
    assert ids[..|ids|] == ids;
  }

  // The ephemeral nodes of a node map, least valuable first.
  method EvictionOrderOf(nodes: map<Id, G.Node>, ghost g: G.State) returns (r: seq<Evictable>)
    requires g.nodes == nodes
    ensures r == EvictionOrder(g)
    ensures |r| == |G.EphemeralIds(g)|
  {
    var ids := set id | id in nodes && nodes[id].ephemeral;
    assert ids == G.EphemeralIds(g);
    AscendingLists(ids);
    var keys := Ascending(ids);
    var evictable: seq<Evictable> := [];
    for i := 0 to |keys|
      invariant evictable == Candidates(g)[..i]
    {
      assert keys[i] in keys;
      var n := nodes[keys[i]];
      evictable := evictable + [Evictable(keys[i], n.lastAccessedAt, n.accessCount, n.importance)];
    }
    assert evictable == Candidates(g);
    r := Sort(evictable, NotDearer);
  }

  lemma FirstAreEvicted(g: G.State, maxNodes: nat, evictable: seq<Evictable>, k: nat)
    requires |g.nodes| > maxNodes && evictable == EvictionOrder(g)
    requires k == if |g.nodes| - maxNodes < |evictable| then |g.nodes| - maxNodes else |evictable|
    ensures k == RemoveCount(g, maxNodes)
    ensures Drop(g, IdsOf(evictable[..k])) == Eviction.EnforceCapacity(g, maxNodes)
  {
  }

  lemma EvictionTally(g: G.State, maxNodes: nat)
    ensures |g.nodes| <= maxNodes ==> Eviction.EnforceCapacity(g, maxNodes) == g
    ensures |g.nodes| - |Eviction.EnforceCapacity(g, maxNodes).nodes| == RemoveCount(g, maxNodes)
  {
    EvictionLaws.EvictionSize(g, maxNodes);
    EvictionLaws.EvictedCount(g, maxNodes);
    if |g.nodes| <= maxNodes {
      assert Evicted(g, maxNodes) == {};
      DropNothing(g);
    }
  }

  lemma DropNothing(g: G.State)
    ensures Drop(g, {}) == g
    ensures IdsOf([]) == {}
  {
    KeepAllEdges(g.edges);
    assert g.nodes - {} == g.nodes;
  }

  lemma {:induction false} KeepAllEdges(edges: seq<G.Edge>)
    ensures EdgesWithout(edges, {}) == edges
  {
    if edges != [] {
      KeepAllEdges(edges[..|edges| - 1]);
    }
  }

  lemma DropOneMore(g: G.State, evictable: seq<Evictable>, i: nat)
    requires i < |evictable|
    ensures Drop(g, IdsOf(evictable[..i + 1])) == Drop(Drop(g, IdsOf(evictable[..i])), {evictable[i].id})
  {
    EvictionLaws.DropTwice(g, IdsOf(evictable[..i]), {evictable[i].id});
    assert evictable[..i + 1] == evictable[..i] + [evictable[i]];
    assert IdsOf(evictable[..i + 1]) == IdsOf(evictable[..i]) + {evictable[i].id};
  }

  // The state while the nodes in `todo` have still to be looked at.
  ghost function PartlyPromoted(g: G.State, minConfirmations: nat, level: CanonLevel, todo: set<Id>): G.State {
    g.(nodes := map id | id in g.nodes ::
                  if id in todo then g.nodes[id] else G.Promoted(g.nodes[id], minConfirmations, level))
  }

  lemma PromoteNone(g: G.State, minConfirmations: nat, level: CanonLevel)
    ensures PartlyPromoted(g, minConfirmations, level, g.nodes.Keys) == g
    ensures G.PromotedIds(g, minConfirmations, level) - g.nodes.Keys == {}
    ensures !level.IsCanon() ==>
      G.Promote(g, minConfirmations, level) == g && G.PromotedIds(g, minConfirmations, level) == {}
  {
    assert PartlyPromoted(g, minConfirmations, level, g.nodes.Keys).nodes == g.nodes;
    if !level.IsCanon() {
      assert G.Promote(g, minConfirmations, level).nodes == g.nodes;
    }
  }

  lemma PromoteOneMore(g: G.State, minConfirmations: nat, level: CanonLevel, todo: set<Id>, id: Id)
    requires level.IsCanon() && id in g.nodes && id in todo
    ensures var before := PartlyPromoted(g, minConfirmations, level, todo);
            && id in before.nodes && before.nodes[id] == g.nodes[id]
            && PartlyPromoted(g, minConfirmations, level, todo - {id}) ==
               G.UpdateNode(before, id, G.Promoted(g.nodes[id], minConfirmations, level))
    ensures |G.PromotedIds(g, minConfirmations, level) - (todo - {id})| ==
            |G.PromotedIds(g, minConfirmations, level) - todo|
            + (if G.Promotable(g.nodes[id], minConfirmations) then 1 else 0)
  {
    var before := PartlyPromoted(g, minConfirmations, level, todo);
    var after := PartlyPromoted(g, minConfirmations, level, todo - {id});
    assert after.nodes == before.nodes[id := G.Promoted(g.nodes[id], minConfirmations, level)];
    var all := G.PromotedIds(g, minConfirmations, level);
    assert all - (todo - {id}) == (all - todo) + (if id in all then {id} else {});
  }

  lemma PromoteAll(g: G.State, minConfirmations: nat, level: CanonLevel)
    ensures PartlyPromoted(g, minConfirmations, level, {}) == G.Promote(g, minConfirmations, level)
    ensures G.PromotedIds(g, minConfirmations, level) - {} == G.PromotedIds(g, minConfirmations, level)
  {
    assert PartlyPromoted(g, minConfirmations, level, {}).nodes == G.Promote(g, minConfirmations, level).nodes;
  }
}
