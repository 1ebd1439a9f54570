// The engine updated in place: each public call, tied to the value-level engine.
module Handle {
  import opened Cosine
  import E = Engine
  import Eviction
  import EvictionLaws
  import G = Graph
  import opened IdGenerator
  import Json
  import opened Nexus
  import opened Provenance
  import opened Recall
  import opened StableSort
  import opened VectorIndex

  class EngineHandle {
    const nexus: MemoryGraphNexus
    var index: SimpleVectorIndex?

    ghost function Repr(): set<object>
      reads this
    {
      if index == null then {this, nexus} else {this, nexus, index}
    }

    ghost predicate Valid()
      reads Repr()
    {
      index != null ==> index.Valid()
    }

    ghost function Value(): E.EngineState
      reads Repr()
    {
      E.EngineState(nexus.State(), if index == null then E.NoIndex else E.Indexed(index.dimension, index.vectors))
    }

    constructor ()
      ensures Valid() && fresh(Repr()) && Value() == E.FRESH
    {
      nexus := new MemoryGraphNexus();
      index := null;
    }

    method AddNode(content: string, tags: seq<string>, source: nat, cell: nat, canon: nat, embedding: Vector)
      returns (id: Id)
      requires Valid()
      modifies Repr()
      ensures Valid() && fresh(Repr() - old(Repr()))
      ensures E.Name(id) == E.ReplyTo(old(Value()), E.AddNode(content, tags, source, cell, canon, embedding))
      ensures Value() == E.After(old(Value()), E.AddNode(content, tags, source, cell, canon, embedding))
    {
      id := nexus.CreateNode(E.DraftOf(content, tags, source, cell, canon));
      if |embedding| > 0 {
        if index == null {
          index := new SimpleVectorIndex(|embedding|);
        }
        var indexed := index.Insert(id, embedding);
      }
    }

    method SetAffect(id: Id, valence: real, arousal: real, intensity: real) returns (code: int)
      requires Valid()
      modifies nexus
      ensures Valid() && Repr() == old(Repr())
      ensures E.Code(code) == E.ReplyTo(old(Value()), E.SetNodeAffect(id, valence, arousal, intensity))
      ensures Value() == E.After(old(Value()), E.SetNodeAffect(id, valence, arousal, intensity))
    {
      var known := nexus.SetNodeAffect(id, E.ClampAffect(valence, arousal, intensity));
      code := if known then 0 else 2;
    }

    method RecordFeedback(id: Id, helpful: int) returns (code: int)
      requires Valid()
      modifies nexus
      ensures Valid() && Repr() == old(Repr())
      ensures E.Code(code) == E.ReplyTo(old(Value()), E.Feedback(id, helpful))
      ensures Value() == E.After(old(Value()), E.Feedback(id, helpful))
    {
      var known := nexus.RecordHumanFeedback(id, helpful != 0);
      code := if known then 0 else 2;
    }

    method PromoteConfirmed(minConfirmations: nat, level: nat) returns (promoted: nat)
      requires Valid()
      modifies nexus
      ensures Valid() && Repr() == old(Repr())
      ensures E.Count(promoted) == E.ReplyTo(old(Value()), E.PromoteConfirmed(minConfirmations, level))
      ensures Value() == E.After(old(Value()), E.PromoteConfirmed(minConfirmations, level))
    {
      promoted := nexus.PromoteConfirmedToCanon(minConfirmations, CanonFromByte(level));
    }

    method EnforceCapacity(maxNodes: nat) returns (evicted: nat)
      requires Valid()
      modifies Repr()
      ensures Valid() && Repr() == old(Repr())
      ensures E.Count(evicted) == E.ReplyTo(old(Value()), E.Enforce(maxNodes))
      ensures Value() == E.After(old(Value()), E.Enforce(maxNodes))
    {
      ghost var before := Value();
      evicted := nexus.EnforceCapacity(maxNodes);
      if evicted > 0 {
        ShedDead();
      }
      EnforceOutcome(before, maxNodes, Value(), evicted);
    }

    // Drop the index entries of nodes that are gone.
    method ShedDead()
      requires Valid()
      modifies Repr()
      ensures Valid() && Repr() == old(Repr())
      ensures nexus.State() == old(nexus.State())
      ensures Value() == old(Value()).(index := E.Shed(old(Value()).index, old(nexus.nodes).Keys))
    {
      if index != null {
        var live := nexus.nodes.Keys;
        E.RetainedIsLive(index.vectors, id => id in live, live);
        var removed := index.RetainIds(id => id in live);
      }
    }

    method NodeCount() returns (count: nat)
      requires Valid()
      ensures E.Count(count) == E.ReplyTo(Value(), E.NodeCount)
    {
      count := |nexus.nodes|;
    }

    method Search(query: Vector, topK: nat) returns (rows: seq<Row>)
      requires Valid()
      ensures E.Rows(rows) == E.ReplyTo(Value(), E.Search(query, topK))
    {
      if |query| == 0 || topK == 0 || index == null {
        return [];
      }
      var fetch := G.Max(G.Min(4 * topK, USIZE_MAX), topK);
      var candidates := index.Search(query, fetch);
      var scored := Weigh(candidates, nexus.nodes, nexus.State());
      var sorted := Sort(scored, HigherScore);
      rows := if |sorted| > topK then sorted[..topK] else sorted;
    }

    // The search as its caller sees it: the rows as JSON text.
    method SearchText(query: Vector, topK: nat, decimal: real -> string) returns (out: string)
      requires Valid()
      ensures out == Json.Returned(E.Found(Value(), query, topK), decimal)
    {
      var rows := Search(query, topK);
      out := Json.Print(rows, decimal);
    }
  }

  lemma EnforceOutcome(s: E.EngineState, maxNodes: nat, s': E.EngineState, evicted: nat)
    requires s'.graph == Eviction.EnforceCapacity(s.graph, maxNodes)
    requires evicted == |s.graph.nodes| - |s'.graph.nodes|
    requires s'.index == if evicted > 0 then E.Shed(s.index, s'.graph.nodes.Keys) else s.index
    ensures E.Count(evicted) == E.ReplyTo(s, E.Enforce(maxNodes))
    ensures s' == E.After(s, E.Enforce(maxNodes))
  {
    ShrunkBy(s.graph, maxNodes, s'.graph, evicted);
    ReplyToEnforce(s, maxNodes, evicted);
    AfterEnforce(s, maxNodes, s'.graph);
  }

  lemma ShrunkBy(g: G.State, maxNodes: nat, g': G.State, evicted: nat)
    requires g' == Eviction.EnforceCapacity(g, maxNodes) && evicted == |g.nodes| - |g'.nodes|
    ensures |Eviction.Evicted(g, maxNodes)| == evicted
  {
    EvictionLaws.EvictionSize(g, maxNodes);
  }

  lemma ReplyToEnforce(s: E.EngineState, maxNodes: nat, evicted: nat)
    requires |Eviction.Evicted(s.graph, maxNodes)| == evicted
    ensures E.ReplyTo(s, E.Enforce(maxNodes)) == E.Count(evicted)
  {
  }

  lemma AfterEnforce(s: E.EngineState, maxNodes: nat, g: G.State)
    requires g == Eviction.EnforceCapacity(s.graph, maxNodes)
    ensures E.After(s, E.Enforce(maxNodes)) ==
            E.EngineState(g, if |g.nodes| < |s.graph.nodes| then E.Shed(s.index, g.nodes.Keys) else s.index)
  {
  }

  // The filter chain: floor, live node, quarantine, weight.
  method Weigh(candidates: seq<SearchResult>, nodes: map<Id, G.Node>, ghost g: G.State) returns (scored: seq<Row>)
    requires g.nodes == nodes
    ensures scored == Weighed(g, candidates)
  {
    scored := [];
    for i := 0 to |candidates|
      invariant scored == Weighed(g, candidates[..i])
    {
      var r := candidates[i];
      assert candidates[..i + 1][..i] == candidates[..i];
      if r.score >= FLOOR && r.id in nodes {
        var n := nodes[r.id];
        var weight := Weight(n.source);
        if weight > 0.0 {
          scored := scored + [Row(r.score * weight, r.score, n.id, n.content, n.cell)];
        }
      }
    }
    assert candidates[..|candidates|] == candidates;
  }
}
