// What the canon byte of a new node decides: bytes 1 and 2 make it stay for good, whatever the calls
// that follow; any other leaves it to the next eviction.
module Permanence {
  import opened Engine
  import opened EngineHistory
  import opened Eviction
  import opened EvictionLaws
  import opened Graph
  import H = GraphHistory
  import opened IdGenerator
  import opened Provenance
  import opened SearchCertificate

  // The node that a call has just added.
  lemma NewNodeCanon(s: EngineState, add: Call)
    requires add.AddNode?
    ensures FreshId(s.graph) in After(s, add).graph.nodes
    ensures var n := After(s, add).graph.nodes[FreshId(s.graph)];
            && n.canon == (if add.canon == 1 then L1Project else if add.canon == 2 then L2Foundational else NotCanon)
            && (n.ephemeral <==> add.canon != 1 && add.canon != 2)
            && n.content == add.content && n.cell == add.cell
  {
  }

  lemma CanonStays(s: H.Supply, c: Session, c': Session, id: Id)
    requires EngineOk(s, c') && Progress(s, c, c') && id in c.s.graph.nodes && c.s.graph.nodes[id].canon != NotCanon
    ensures id in c'.s.graph.nodes && c'.s.graph.nodes[id].canon == c.s.graph.nodes[id].canon
    ensures !c'.s.graph.nodes[id].ephemeral
    ensures c'.s.graph.nodes[id].content == c.s.graph.nodes[id].content
    ensures c'.s.graph.nodes[id].cell == c.s.graph.nodes[id].cell
  {
  }

  lemma {:induction false} DrawsGrow(c: Session, calls: seq<Call>)
    ensures c.ids <= RunSession(c, calls).ids && c.ticks <= RunSession(c, calls).ticks
  {
    if calls != [] {
      DrawsGrow(c, calls[..|calls| - 1]);
    }
  }

  // A node added with canon byte 1 or 2 is in the store, at that level and not evictable, at the end of
  // every further run.
  lemma CanonForGood(calls: seq<Call>, add: Call, more: seq<Call>)
    requires add.AddNode? && (add.canon == 1 || add.canon == 2)
    requires H.WithinBudget(GraphPart(RunSession(RunSession(OPENED, calls + [add]), more)))
    ensures var g, id := RunSession(RunSession(OPENED, calls + [add]), more).s.graph,
                         FreshId(RunSession(OPENED, calls).s.graph);
            && id in g.nodes && !g.nodes[id].ephemeral
            && g.nodes[id].canon == (if add.canon == 1 then L1Project else L2Foundational)
            && g.nodes[id].content == add.content && g.nodes[id].cell == add.cell
  {
    var s, c, mid := H.SupplyFrom(INITIAL_SEED), RunSession(OPENED, calls), RunSession(OPENED, calls + [add]);
    H.SupplyFromValid(INITIAL_SEED);
    RunOneMore(calls, add);
    DrawsGrow(mid, more);
    SessionFromFresh(calls + [add]);
    SessionKeeps(s, mid, more);
    NewNodeCanon(c.s, add);
    CanonStays(s, mid, RunSession(mid, more), FreshId(c.s.graph));
  }

  lemma ShrinkToNothing(g: State, id: Id)
    requires id in g.nodes
    ensures id in EnforceCapacity(g, 0).nodes <==> !g.nodes[id].ephemeral
  {
    EvictedIffRank(g, 0, id);
    CheaperStrict();
    assert id !in Rivals(g, id);
    assert Rivals(g, id) <= g.nodes.Keys - {id};
    SubsetCount(Rivals(g, id), g.nodes.Keys - {id});
  }

  lemma EnforcedGraph(s: EngineState, maxNodes: nat)
    ensures After(s, Enforce(maxNodes)).graph == EnforceCapacity(s.graph, maxNodes)
  {
  }

  // Shrinking the store to nothing right after spares the new node exactly for canon bytes 1 and 2.
  lemma CanonByteDecides(s: EngineState, add: Call)
    requires add.AddNode?
    ensures FreshId(s.graph) in After(After(s, add), Enforce(0)).graph.nodes <==> add.canon == 1 || add.canon == 2
  {
    NewNodeCanon(s, add);
    EnforcedGraph(After(s, add), 0);
    ShrinkToNothing(After(s, add).graph, FreshId(s.graph));
  }

  // And the answers to feedback and affect on it tell: 0 for a node there, 2 for one that is not.
  lemma AnswersTell(s: EngineState, add: Call, helpful: int, valence: real, arousal: real, intensity: real)
    requires add.AddNode?
    ensures var s', id := After(After(s, add), Enforce(0)), FreshId(s.graph);
            var code := if add.canon == 1 || add.canon == 2 then 0 else 2;
            && ReplyTo(s', Feedback(id, helpful)) == Code(code)
            && ReplyTo(s', SetNodeAffect(id, valence, arousal, intensity)) == Code(code)
  {
    CanonByteDecides(s, add);
  }

  // ---- What the replies say of the store

  lemma AddNames(s: EngineState, add: Call)
    requires add.AddNode?
    ensures ReplyTo(s, add) == Name(FreshId(s.graph))
    ensures After(s, add).graph.nodes.Keys == s.graph.nodes.Keys + {FreshId(s.graph)}
  {
  }

  lemma FreshAfter(calls: seq<Call>)
    requires H.WithinBudget(GraphPart(RunSession(OPENED, calls)))
    requires RunSession(OPENED, calls).ids < 0x1_0000_0000_0000_0000
    ensures FreshId(RunSession(OPENED, calls).s.graph) !in RunSession(OPENED, calls).s.graph.nodes
  {
    SessionFromFresh(calls);
    H.SupplyFromValid(INITIAL_SEED);
    FreshNotLive(H.SupplyFrom(INITIAL_SEED), RunSession(OPENED, calls));
  }

  // The reply to a new note is the one name the store did not know before and knows after.
  lemma AddAnswers(calls: seq<Call>, add: Call)
    requires add.AddNode? && H.WithinBudget(GraphPart(Next(RunSession(OPENED, calls), add)))
    ensures var s := RunSession(OPENED, calls).s;
            && ReplyTo(s, add).Name? && ReplyTo(s, add).id !in s.graph.nodes
            && After(s, add).graph.nodes.Keys == s.graph.nodes.Keys + {ReplyTo(s, add).id}
  {
    FreshAfter(calls);
    AddNames(RunSession(OPENED, calls).s, add);
  }

  lemma EnforceCounts(s: EngineState, maxNodes: nat)
    ensures ReplyTo(s, Enforce(maxNodes)) == Count(|Evicted(s.graph, maxNodes)|)
  {
  }

  lemma NodesCounted(s: EngineState)
    ensures ReplyTo(s, NodeCount) == Count(|s.graph.nodes|)
  {
  }

  // The reply to an eviction is what the count of nodes has gone down by.
  lemma EnforceAnswers(s: EngineState, maxNodes: nat, s': EngineState)
    requires s' == After(s, Enforce(maxNodes))
    ensures ReplyTo(s, Enforce(maxNodes)).Count? && ReplyTo(s, NodeCount).Count? && ReplyTo(s', NodeCount).Count?
    ensures ReplyTo(s, Enforce(maxNodes)).n == ReplyTo(s, NodeCount).n - ReplyTo(s', NodeCount).n
  {
    EvictionSize(s.graph, maxNodes);
    EnforcedGraph(s, maxNodes);
    EnforceCounts(s, maxNodes);
    NodesCounted(s);
    NodesCounted(s');
  }

  // ---- What one verdict makes of a new node

  lemma NewNodeStanding(s: EngineState, add: Call)
    requires add.AddNode?
    ensures FreshId(s.graph) in After(s, add).graph.nodes
    ensures var n := After(s, add).graph.nodes[FreshId(s.graph)];
            && n.importance == (if add.source == 2 then 40 else 45)
            && Judge(n.importance, n.source.MaxImportanceCap(), true) ==
               (if add.source == 2 then 40 else if add.source >= 5 then 50 else 60)
            && Judge(n.importance, n.source.MaxImportanceCap(), false) == (if add.source == 2 then 20 else 25)
  {
  }

  lemma VerdictImportance(s: EngineState, id: Id, helpful: int)
    requires id in s.graph.nodes
    ensures id in After(s, Feedback(id, helpful)).graph.nodes
    ensures After(s, Feedback(id, helpful)).graph.nodes[id].importance ==
            Judge(s.graph.nodes[id].importance, s.graph.nodes[id].source.MaxImportanceCap(), helpful != 0)
  {
  }

  // In hundredths, by source byte: how important a new node is, and after its first verdict.
  lemma FirstVerdict(s: EngineState, add: Call, helpful: int)
    requires add.AddNode?
    ensures var id := FreshId(s.graph);
            var added := After(s, add);
            && id in added.graph.nodes && id in After(added, Feedback(id, helpful)).graph.nodes
            && added.graph.nodes[id].importance == (if add.source == 2 then 40 else 45)
            && After(added, Feedback(id, helpful)).graph.nodes[id].importance ==
               (if helpful == 0 then (if add.source == 2 then 20 else 25)
                else if add.source == 2 then 40
                else if add.source >= 5 then 50
                else 60)
  {
    NewNodeStanding(s, add);
    VerdictImportance(After(s, add), FreshId(s.graph), helpful);
  }

  // ---- Recency

  function AccessedTimes(g: State, id: Id, n: nat): State {
    if n == 0 then g else RecordAccess(AccessedTimes(g, id, n - 1), id)
  }

  // Accesses are counted up to 2^32 - 1, and the last one dates the node.
  lemma {:induction false} AccessesCounted(g: State, id: Id, n: nat)
    requires id in g.nodes && g.nodes[id].accessCount <= 4294967295
    ensures var g' := AccessedTimes(g, id, n);
            && id in g'.nodes && g'.nodes[id].accessCount == Min(g.nodes[id].accessCount + n, 4294967295)
            && (n > 0 ==> g'.nodes[id].lastAccessedAt == g'.clock)
            && (g.clock + n < 0x1_0000_0000_0000_0000 ==> g'.clock == g.clock + n)
  {
    if n > 0 {
      AccessesCounted(g, id, n - 1);
    }
  }

  ghost predicate SameImportance(g: State, a: Id, b: Id) {
    a in EphemeralIds(g) && b in EphemeralIds(g) && a != b && g.nodes[a].importance == g.nodes[b].importance
  }

  // After an access before the clock wraps, every other evictable node of the same importance goes
  // before the one accessed.
  lemma AccessOutranks(g: State, id: Id, other: Id)
    requires SameImportance(g, id, other)
    requires g.nodes[other].lastAccessedAt <= g.clock && g.clock + 1 < 0x1_0000_0000_0000_0000
    ensures id in RecordAccess(g, id).nodes && other in Rivals(RecordAccess(g, id), id)
  {
  }

  lemma RivalGoesFirst(g: State, maxNodes: nat, id: Id, other: Id)
    requires id in g.nodes && other in Rivals(g, id)
    ensures id in Evicted(g, maxNodes) ==> other in Evicted(g, maxNodes)
  {
    EvictedIffRank(g, maxNodes, id);
    EvictedIffRank(g, maxNodes, other);
    CheaperStrict();
    SubsetCount(Rivals(g, other), Rivals(g, id));
  }

  lemma TicksPast(s: H.Supply, c: H.Counted, id: Id)
    requires H.Healthy(s, c) && id in c.g.nodes
    ensures c.g.clock == c.ticks && c.g.nodes[id].lastAccessedAt <= c.g.clock
  {
  }

  lemma TouchIs(c: H.Counted, id: Id)
    ensures H.Step(c, H.Touch(id)) == H.Counted(RecordAccess(c.g, id), c.ids, c.ticks + 1)
  {
  }

  // So in every state of the store that a run within budget reaches: the node just accessed is evicted
  // only if every other evictable node of its importance is.
  lemma AccessSaves(ops: seq<H.Op>, id: Id, other: Id, maxNodes: nat)
    requires SameImportance(H.Run(H.START, ops).g, id, other)
    requires H.WithinBudget(H.Step(H.Run(H.START, ops), H.Touch(id)))
    ensures var g := H.Step(H.Run(H.START, ops), H.Touch(id)).g;
            id in Evicted(g, maxNodes) ==> other in Evicted(g, maxNodes)
  {
    var c := H.Run(H.START, ops);
    TouchIs(c, id);
    H.RunFromEmpty(ops);
    TicksPast(H.SupplyFrom(INITIAL_SEED), c, other);
    AccessOutranks(c.g, id, other);
    RivalGoesFirst(RecordAccess(c.g, id), maxNodes, id, other);
  }
}
