// The vector index over whole runs: it holds exactly the embeddings of the live notes that have the
// length of the first one, in the order they were added.
module IndexRuns {
  import opened Cosine
  import opened Engine
  import opened EngineHistory
  import opened Filtering
  import opened Graph
  import H = GraphHistory
  import opened IdGenerator
  import opened VectorIndex
  import opened Words

  // The length of the first embedding a run supplies, or 0.
  function FirstLength(calls: seq<Call>): nat {
    if calls == [] then 0
    else
      var before, last := FirstLength(calls[..|calls| - 1]), calls[|calls| - 1];
      if before == 0 && last.AddNode? then |last.embedding| else before
  }

  // The embeddings of that length, each under the id its node was given.
  function Embedded(calls: seq<Call>): seq<Entry> {
    if calls == [] then []
    else
      var front, last := calls[..|calls| - 1], calls[|calls| - 1];
      Embedded(front) +
      if last.AddNode? && last.embedding != [] && |last.embedding| == FirstLength(calls)
      then [Entry(FreshId(RunSession(OPENED, front).s.graph), last.embedding)]
      else []
  }

  ghost predicate IdsIssued(s: H.Supply, ids: nat, all: seq<Entry>) {
    forall e :: e in all ==> H.Issued(s, ids, e.id)
  }

  // The index holds the entries of the list whose nodes are live.
  ghost predicate HoldsLive(s: EngineState, length: nat, all: seq<Entry>) {
    if length == 0 then s.index.NoIndex? && all == []
    else s.index == Indexed(length, LiveEntries(all, s.graph.nodes.Keys))
  }

  // ---- One call

  lemma NewcomerLive(all: seq<Entry>, live: set<Id>, id: Id, v: Vector)
    requires forall e :: e in all ==> e.id != id
    ensures LiveEntries(all, live + {id}) == LiveEntries(all, live)
    ensures LiveEntries(all + [Entry(id, v)], live + {id}) == LiveEntries(all, live) + [Entry(id, v)]
  {
    FilterSame(all, EntryLives(live + {id}), EntryLives(live));
    FilterAppend(all, Entry(id, v), EntryLives(live + {id}));
  }

  lemma FewerLive(all: seq<Entry>, live: set<Id>, less: set<Id>)
    requires less <= live
    ensures LiveEntries(LiveEntries(all, live), less) == LiveEntries(all, less)
  {
    FilterTwice(all, EntryLives(live), EntryLives(less), EntryLives(less));
  }

  // What a list of entries becomes when a node named id is added with an embedding.
  function Joined(all: seq<Entry>, length: nat, id: Id, v: Vector): seq<Entry> {
    all + if v != [] && |v| == length then [Entry(id, v)] else []
  }

  lemma AddedIndex(s: EngineState, add: Call)
    requires add.AddNode?
    ensures After(s, add).graph.nodes.Keys == s.graph.nodes.Keys + {FreshId(s.graph)}
    ensures After(s, add).index == WithEmbedding(s.index, FreshId(s.graph), add.embedding)
  {
  }

  lemma NewIndexHolds(s: EngineState, s': EngineState, id: Id, v: Vector, length: nat, all: seq<Entry>)
    requires HoldsLive(s, length, all) && forall e :: e in all ==> e.id != id
    requires s'.graph.nodes.Keys == s.graph.nodes.Keys + {id} && s'.index == WithEmbedding(s.index, id, v)
    ensures var length' := if length == 0 then |v| else length;
            HoldsLive(s', length', Joined(all, length', id, v))
  {
    NewcomerLive(all, s.graph.nodes.Keys, id, v);
    assert all + [] == all && LiveEntries([], s.graph.nodes.Keys) == [];
  }

  lemma EnforceHolds(s: EngineState, maxNodes: nat, length: nat, all: seq<Entry>)
    requires HoldsLive(s, length, all)
    ensures HoldsLive(After(s, Enforce(maxNodes)), length, all)
  {
    var g, g' := s.graph, After(s, Enforce(maxNodes)).graph;
    assert g'.nodes.Keys <= g.nodes.Keys;
    if |g'.nodes| < |g.nodes| {
      FewerLive(all, g.nodes.Keys, g'.nodes.Keys);
    } else {
      NothingLost(g, maxNodes);
    }
  }

  lemma OtherHolds(s: EngineState, call: Call, length: nat, all: seq<Entry>)
    requires HoldsLive(s, length, all) && !call.AddNode? && !call.Enforce?
    ensures HoldsLive(After(s, call), length, all)
  {
    assert After(s, call).graph.nodes.Keys == s.graph.nodes.Keys;
  }

  lemma IssuedLater(s: H.Supply, ids: nat, more: nat, all: seq<Entry>)
    requires IdsIssued(s, ids, all) && ids <= more
    ensures IdsIssued(s, more, all)
  {
  }

  lemma FreshIsNew(s: H.Supply, c: Session, all: seq<Entry>)
    requires H.ValidSupply(s) && EngineOk(s, c) && c.ids < WORD && IdsIssued(s, c.ids, all)
    ensures forall e :: e in all ==> e.id != FreshId(c.s.graph)
    ensures H.Issued(s, c.ids + 1, FreshId(c.s.graph))
  {
    H.FreshIdIsNew(s, c.s.graph, c.ids);
  }

  // ---- Runs

  ghost predicate IndexTold(s: H.Supply, c: Session, length: nat, all: seq<Entry>) {
    match c case Session(_, _, _) => HoldsLive(c.s, length, all) && IdsIssued(s, c.ids, all)
  }

  lemma AddTold(s: H.Supply, c: Session, add: Call, length: nat, all: seq<Entry>)
    requires H.ValidSupply(s) && EngineOk(s, c) && c.ids < WORD && IndexTold(s, c, length, all) && add.AddNode?
    ensures var length' := if length == 0 then |add.embedding| else length;
            IndexTold(s, Next(c, add), length', Joined(all, length', FreshId(c.s.graph), add.embedding))
  {
    FreshIsNew(s, c, all);
    AddedIndex(c.s, add);
    NewIndexHolds(c.s, After(c.s, add), FreshId(c.s.graph), add.embedding, length, all);
    IssuedLater(s, c.ids, c.ids + 1, all);
  }

  lemma OtherTold(s: H.Supply, c: Session, call: Call, length: nat, all: seq<Entry>)
    requires IndexTold(s, c, length, all) && !call.AddNode?
    ensures IndexTold(s, Next(c, call), length, all)
  {
    if call.Enforce? {
      EnforceHolds(c.s, call.maxNodes, length, all);
    } else {
      OtherHolds(c.s, call, length, all);
    }
  }

  lemma EmbeddedAppend(calls: seq<Call>, call: Call)
    ensures FirstLength(calls + [call]) ==
            if FirstLength(calls) == 0 && call.AddNode? then |call.embedding| else FirstLength(calls)
    ensures Embedded(calls + [call]) ==
            if call.AddNode?
            then Joined(Embedded(calls), FirstLength(calls + [call]),
                        FreshId(RunSession(OPENED, calls).s.graph), call.embedding)
            else Embedded(calls)
  {
    assert (calls + [call])[..|calls|] == calls;
  }

  lemma CallTold(s: H.Supply, calls: seq<Call>, call: Call, c: Session)
    requires H.ValidSupply(s) && c == RunSession(OPENED, calls) && EngineOk(s, c)
    requires IndexTold(s, c, FirstLength(calls), Embedded(calls))
    requires call.AddNode? ==> c.ids < WORD
    ensures IndexTold(s, Next(c, call), FirstLength(calls + [call]), Embedded(calls + [call]))
  {
    EmbeddedAppend(calls, call);
    if call.AddNode? {
      AddTold(s, c, call, FirstLength(calls), Embedded(calls));
    } else {
      OtherTold(s, c, call, FirstLength(calls), Embedded(calls));
    }
  }

  lemma {:induction false} RunTold(calls: seq<Call>)
    requires H.WithinBudget(GraphPart(RunSession(OPENED, calls)))
    ensures IndexTold(H.SupplyFrom(INITIAL_SEED), RunSession(OPENED, calls), FirstLength(calls), Embedded(calls))
  {
    if calls != [] {
      var front, last := calls[..|calls| - 1], calls[|calls| - 1];
      assert calls == front + [last];
      RunTold(front);
      SessionFromFresh(front);
      H.SupplyFromValid(INITIAL_SEED);
      CallTold(H.SupplyFrom(INITIAL_SEED), front, last, RunSession(OPENED, front));
    }
  }

  // After every run within budget the index is the list of the embeddings supplied, of the length of the
  // first, cut down to the nodes that live; without an embedding there is no index.
  lemma IndexIsHistory(calls: seq<Call>)
    requires H.WithinBudget(GraphPart(RunSession(OPENED, calls)))
    ensures var s := RunSession(OPENED, calls).s;
            if FirstLength(calls) == 0 then s.index.NoIndex?
            else s.index == Indexed(FirstLength(calls), LiveEntries(Embedded(calls), s.graph.nodes.Keys))
  {
    RunTold(calls);
  }
}
