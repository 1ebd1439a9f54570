// Whole runs through the public calls: the joint invariant of graph and index, what carries over
// from earlier states, and what search can and cannot be influenced by.
module EngineHistory {
  import opened Cosine
  import opened Engine
  import Eviction
  import EvictionLaws
  import opened Filtering
  import opened Graph
  import H = GraphHistory
  import opened IdGenerator
  import opened Provenance
  import opened Recall
  import opened RecallCertificate
  import opened VectorIndex
  import opened Words

  // ---- The invariant

  // Index ids are distinct and name live nodes; every vector has the index dimension.
  ghost predicate IndexOk(s: EngineState) {
    match s.index
    case NoIndex => true
    case Indexed(dimension, entries) => dimension > 0 && WellFormed(s.graph, entries, dimension)
  }

  // An engine together with how many ids and ticks it has drawn.
  datatype Session = Session(s: EngineState, ids: nat, ticks: nat)

  const OPENED: Session := Session(FRESH, 0, 0)

  function GraphPart(c: Session): H.Counted {
    H.Counted(c.s.graph, c.ids, c.ticks)
  }

  function OpOf(call: Call): H.Op
    requires !call.Search? && !call.NodeCount?
  {
    match call
    case AddNode(content, tags, source, cell, canon, _) => H.Create(DraftOf(content, tags, source, cell, canon))
    case SetNodeAffect(id, valence, arousal, intensity) => H.Feel(id, ClampAffect(valence, arousal, intensity))
    case Feedback(id, helpful) => H.Verdict(id, helpful != 0)
    case PromoteConfirmed(minConfirmations, level) => H.Canonize(minConfirmations, CanonFromByte(level))
    case Enforce(maxNodes) => H.Shrink(maxNodes)
  }

  function Next(c: Session, call: Call): Session {
    var drawn := if call.AddNode? then 1 else 0;
    Session(After(c.s, call), c.ids + drawn, c.ticks + drawn)
  }

  function RunSession(c: Session, calls: seq<Call>): Session {
    if calls == [] then c else Next(RunSession(c, calls[..|calls| - 1]), calls[|calls| - 1])
  }

  lemma NextIsStep(c: Session, call: Call)
    requires !call.Search? && !call.NodeCount?
    ensures GraphPart(Next(c, call)) == H.Step(GraphPart(c), OpOf(call))
  {
    if call.Enforce? {
      EnforceIsApplied(c.s, call.maxNodes);
    } else {
      RecordingIsApplied(c.s, call);
    }
  }

  lemma EnforceIsApplied(s: EngineState, maxNodes: nat)
    ensures After(s, Enforce(maxNodes)).graph == H.Apply(s.graph, H.Shrink(maxNodes))
  {
  }

  lemma RecordingIsApplied(s: EngineState, call: Call)
    requires Silent(call) || call.AddNode?
    ensures After(s, call).graph == H.Apply(s.graph, OpOf(call))
  {
  }

  ghost predicate EngineOk(s: H.Supply, c: Session) {
    match c case Session(_, _, _) => H.Healthy(s, GraphPart(c)) && IndexOk(c.s)
  }

  lemma AddEntryKeeps(g: State, g': State, entries: seq<Entry>, dimension: nat, e: Entry)
    requires WellFormed(g, entries, dimension) && Keyed(g') && |e.vector| == dimension
    requires e.id !in g.nodes && g'.nodes.Keys == g.nodes.Keys + {e.id}
    ensures WellFormed(g', entries + [e], dimension)
  {
    var all := entries + [e];
    forall x | x in all ensures x.id in g'.nodes.Keys {
    }
    forall i, j | 0 <= i < j < |all| ensures all[i].id != all[j].id {
      if j == |entries| {
        assert entries[i] in entries;
      }
    }
  }

  lemma SameIndexKeeps(g: State, g': State, entries: seq<Entry>, dimension: nat)
    requires WellFormed(g, entries, dimension) && Keyed(g') && g.nodes.Keys <= g'.nodes.Keys
    ensures WellFormed(g', entries, dimension)
  {
    forall x | x in entries ensures x.id in g'.nodes.Keys {
      assert x.id in g.nodes.Keys;
    }
  }

  ghost predicate OtherId(a: Entry, b: Entry) {
    a.id != b.id
  }

  lemma LiveEntriesOk(g: State, g': State, entries: seq<Entry>, dimension: nat)
    requires WellFormed(g, entries, dimension) && Keyed(g')
    ensures WellFormed(g', LiveEntries(entries, g'.nodes.Keys), dimension)
  {
    var kept := LiveEntries(entries, g'.nodes.Keys);
    LiveEntriesKeep(entries, g'.nodes.Keys);
    FilterOrdered(entries, EntryLives(g'.nodes.Keys), OtherId);
    forall i, j | 0 <= i < j < |kept| ensures kept[i].id != kept[j].id {
      assert OtherId(kept[i], kept[j]);
    }
  }

  lemma AddNodeKeepsIndex(s: H.Supply, c: Session, call: Call)
    requires H.ValidSupply(s) && EngineOk(s, c) && call.AddNode? && H.Healthy(s, GraphPart(Next(c, call)))
    requires c.ids < WORD
    ensures IndexOk(Next(c, call).s)
  {
    var g, g', id := c.s.graph, Next(c, call).s.graph, FreshId(c.s.graph);
    FreshNotLive(s, c);
    assert g'.nodes.Keys == g.nodes.Keys + {id};
    var ready := if c.s.index.NoIndex? then Indexed(|call.embedding|, []) else c.s.index;
    if call.embedding != [] && |call.embedding| == ready.dimension {
      AddEntryKeeps(g, g', ready.entries, ready.dimension, Entry(id, call.embedding));
    } else if c.s.index.Indexed? {
      SameIndexKeeps(g, g', c.s.index.entries, c.s.index.dimension);
    }
  }

  lemma FreshNotLive(s: H.Supply, c: Session)
    requires H.ValidSupply(s) && EngineOk(s, c) && c.ids < WORD
    ensures FreshId(c.s.graph) !in c.s.graph.nodes
  {
    H.FreshIdIsNew(s, c.s.graph, c.ids);
  }

  lemma HealthyKeyed(s: H.Supply, c: Session)
    requires H.Healthy(s, GraphPart(c))
    ensures Keyed(c.s.graph)
  {
  }

  lemma EnforceKeepsIndex(s: H.Supply, c: Session, maxNodes: nat)
    requires EngineOk(s, c) && H.Healthy(s, GraphPart(Next(c, Enforce(maxNodes))))
    ensures IndexOk(Next(c, Enforce(maxNodes)).s)
  {
    var g, g' := c.s.graph, Next(c, Enforce(maxNodes)).s.graph;
    HealthyKeyed(s, Next(c, Enforce(maxNodes)));
    if c.s.index.Indexed? {
      if |g'.nodes| < |g.nodes| {
        LiveEntriesOk(g, g', c.s.index.entries, c.s.index.dimension);
      } else {
        NothingLost(g, maxNodes);
        SameIndexKeeps(g, g', c.s.index.entries, c.s.index.dimension);
      }
    }
  }

  lemma NothingLost(g: State, maxNodes: nat)
    requires |Eviction.EnforceCapacity(g, maxNodes).nodes| >= |g.nodes|
    ensures Eviction.EnforceCapacity(g, maxNodes).nodes.Keys == g.nodes.Keys
  {
    EvictionLaws.EvictionSize(g, maxNodes);
    assert Eviction.Evicted(g, maxNodes) == {};
    assert (g.nodes - {}).Keys == g.nodes.Keys;
  }

  lemma RecordCallKeepsIndex(s: H.Supply, c: Session, call: Call)
    requires EngineOk(s, c) && H.Healthy(s, GraphPart(Next(c, call)))
    requires call.SetNodeAffect? || call.Feedback? || call.PromoteConfirmed?
    ensures IndexOk(Next(c, call).s)
  {
    HealthyKeyed(s, Next(c, call));
    if c.s.index.Indexed? {
      SameIndexKeeps(c.s.graph, Next(c, call).s.graph, c.s.index.entries, c.s.index.dimension);
    }
  }

  // Every public call keeps the joint invariant.
  lemma CallKeeps(s: H.Supply, c: Session, call: Call)
    requires H.ValidSupply(s) && EngineOk(s, c) && H.WithinBudget(GraphPart(Next(c, call)))
    ensures EngineOk(s, Next(c, call))
  {
    if !call.Search? && !call.NodeCount? {
      NextIsStep(c, call);
      H.StepKeeps(s, GraphPart(c), OpOf(call));
      match call
      case AddNode(_, _, _, _, _, _) => AddNodeKeepsIndex(s, c, call);
      case Enforce(maxNodes) => EnforceKeepsIndex(s, c, maxNodes);
      case _ => RecordCallKeepsIndex(s, c, call);
    }
  }

  // ---- Runs

  // Once there is an index there always is, and its dimension never changes.
  ghost predicate DimensionKept(a: Index, b: Index) {
    a.Indexed? ==> b.Indexed? && b.dimension == a.dimension
  }

  ghost predicate Progress(s: H.Supply, c: Session, c': Session) {
    match c case Session(_, _, _) =>
      H.Evolves(s, GraphPart(c), GraphPart(c')) && DimensionKept(c.s.index, c'.s.index)
  }

  lemma CallProgress(s: H.Supply, c: Session, call: Call)
    requires H.ValidSupply(s) && EngineOk(s, c) && H.WithinBudget(GraphPart(Next(c, call)))
    ensures Progress(s, c, Next(c, call))
  {
    if !call.Search? && !call.NodeCount? {
      NextIsStep(c, call);
      H.StepEvolves(s, GraphPart(c), OpOf(call));
    } else {
      H.EvolvesReflexive(s, GraphPart(c));
    }
    CallKeepsDimension(c.s, call);
  }

  lemma CallKeepsDimension(s: EngineState, call: Call)
    ensures DimensionKept(s.index, After(s, call).index)
  {
  }

  lemma OneCallOn(s: H.Supply, c: Session, mid: Session, call: Call)
    requires H.ValidSupply(s) && EngineOk(s, c) && EngineOk(s, mid) && Progress(s, c, mid)
    requires H.WithinBudget(GraphPart(Next(mid, call)))
    ensures EngineOk(s, Next(mid, call)) && Progress(s, c, Next(mid, call))
  {
    CallKeeps(s, mid, call);
    CallProgress(s, mid, call);
    H.EvolvesTransitive(s, GraphPart(c), GraphPart(mid), GraphPart(Next(mid, call)));
  }

  lemma NoCalls(s: H.Supply, c: Session)
    ensures Progress(s, c, c)
  {
    H.EvolvesReflexive(s, GraphPart(c));
  }

  // Over every run within budget: the joint invariant holds throughout, identities, canon and the
  // index dimension carry over, and dead ids stay dead.
  lemma {:induction false} SessionKeeps(s: H.Supply, c: Session, calls: seq<Call>)
    requires H.ValidSupply(s) && EngineOk(s, c) && H.WithinBudget(GraphPart(RunSession(c, calls)))
    ensures EngineOk(s, RunSession(c, calls)) && Progress(s, c, RunSession(c, calls))
  {
    if calls == [] {
      NoCalls(s, c);
    } else {
      SessionKeeps(s, c, calls[..|calls| - 1]);
      OneCallOn(s, c, RunSession(c, calls[..|calls| - 1]), calls[|calls| - 1]);
    }
  }

  lemma SessionFromFresh(calls: seq<Call>)
    requires H.WithinBudget(GraphPart(RunSession(OPENED, calls)))
    ensures EngineOk(H.SupplyFrom(INITIAL_SEED), RunSession(OPENED, calls))
  {
    H.StartHealthy();
    assert GraphPart(OPENED) == H.START;
    SessionKeeps(H.SupplyFrom(INITIAL_SEED), OPENED, calls);
  }

  // ---- Ranking is out of feedback's reach

  // Two states recall cannot tell apart, and that will issue the same ids.
  ghost predicate SameView(a: EngineState, b: EngineState) {
    && a.index == b.index && a.graph.seed == b.graph.seed
    && a.graph.nodes.Keys == b.graph.nodes.Keys
    && forall id :: id in a.graph.nodes && id in b.graph.nodes ==> SameRecord(a.graph.nodes[id], b.graph.nodes[id])
  }

  // Feedback, promotion and affect.
  predicate Silent(call: Call) {
    call.SetNodeAffect? || call.Feedback? || call.PromoteConfirmed?
  }

  lemma ViewDeterminesAnswer(a: EngineState, b: EngineState, query: Vector, k: nat)
    requires SameView(a, b)
    ensures Found(a, query, k) == Found(b, query, k)
  {
    if a.index.Indexed? {
      var seen := Ranked(a.index.entries, a.index.dimension, query, Fetch(k));
      forall r | r in seen ensures r.id in a.graph.nodes <==> r.id in b.graph.nodes {
        assert r.id in a.graph.nodes.Keys <==> r.id in b.graph.nodes.Keys;
      }
      WeighedAlike(a.graph, b.graph, seen);
    }
  }

  lemma SilentKeepsView(a: EngineState, b: EngineState, call: Call)
    requires SameView(a, b) && Silent(call)
    ensures SameView(After(a, call), b)
  {
  }

  // This call evicts nothing.
  predicate Spares(s: EngineState, call: Call) {
    call.Enforce? ==> Eviction.Evicted(s.graph, call.maxNodes) == {}
  }

  lemma EnforceIdle(s: EngineState, maxNodes: nat)
    requires Eviction.Evicted(s.graph, maxNodes) == {}
    ensures After(s, Enforce(maxNodes)).index == s.index
    ensures After(s, Enforce(maxNodes)).graph.nodes == s.graph.nodes
    ensures After(s, Enforce(maxNodes)).graph.seed == s.graph.seed
    ensures ReplyTo(s, Enforce(maxNodes)) == Count(0)
  {
    EvictionLaws.EvictionSize(s.graph, maxNodes);
    assert s.graph.nodes - {} == s.graph.nodes;
  }

  // A call that evicts nothing in either of two states recall cannot tell apart gives the same
  // reply in both, and leaves two states recall cannot tell apart.
  lemma CallKeepsView(a: EngineState, b: EngineState, call: Call)
    requires SameView(a, b) && !Silent(call) && Spares(a, call) && Spares(b, call)
    ensures SameView(After(a, call), After(b, call))
    ensures ReplyTo(a, call) == ReplyTo(b, call)
  {
    assert |a.graph.nodes.Keys| == |a.graph.nodes| && |b.graph.nodes.Keys| == |b.graph.nodes|;
    match call
    case AddNode(_, _, _, _, _, _) =>
    case Enforce(maxNodes) =>
      EnforceIdle(a, maxNodes);
      EnforceIdle(b, maxNodes);
    case Search(query, topK) => ViewDeterminesAnswer(a, b, query, topK);
    case NodeCount =>
  }

  // No call of the run evicts.
  predicate NoEviction(s: EngineState, calls: seq<Call>)
    decreases |calls|
  {
    calls == [] || (Spares(s, calls[0]) && NoEviction(After(s, calls[0]), calls[1..]))
  }

  // The replies to all calls but the silent ones.
  function Heard(s: EngineState, calls: seq<Call>): seq<Reply>
    decreases |calls|
  {
    if calls == [] then []
    else (if Silent(calls[0]) then [] else [ReplyTo(s, calls[0])]) + Heard(After(s, calls[0]), calls[1..])
  }

  function Strip(calls: seq<Call>): seq<Call> {
    if calls == [] then []
    else (if Silent(calls[0]) then [] else [calls[0]]) + Strip(calls[1..])
  }

  // An eviction is heard.
  lemma EvictionHeard(a: EngineState, b: EngineState, call: Call)
    requires call.Enforce? && Spares(a, call) && !Spares(b, call)
    ensures ReplyTo(a, call) != ReplyTo(b, call)
  {
    assert |Eviction.Evicted(b.graph, call.maxNodes)| > 0;
  }

  lemma HeardOne(s: EngineState, calls: seq<Call>)
    requires calls != [] && !Silent(calls[0])
    ensures Strip(calls) != [] && Strip(calls)[0] == calls[0] && Strip(calls)[1..] == Strip(calls[1..])
    ensures Heard(s, calls) == [ReplyTo(s, calls[0])] + Heard(After(s, calls[0]), calls[1..])
    ensures Heard(s, Strip(calls)) == [ReplyTo(s, calls[0])] + Heard(After(s, calls[0]), Strip(calls[1..]))
  {
    StripKeeps(calls);
    assert Strip(calls) == [calls[0]] + Strip(calls[1..]);
  }

  lemma {:induction false} StripKeeps(calls: seq<Call>)
    ensures forall call :: call in Strip(calls) ==> !Silent(call)
  {
    if calls != [] {
      StripKeeps(calls[1..]);
    }
  }

  lemma SameHeads<T>(x: T, a: seq<T>, y: T, b: seq<T>)
    ensures [x] + a == [y] + b <==> x == y && a == b
  {
    if [x] + a == [y] + b {
      assert x == ([x] + a)[0] && a == ([x] + a)[1..];
      assert y == ([y] + b)[0] && b == ([y] + b)[1..];
    }
  }

  // Take every feedback, promotion and affect call out of a run that evicts nothing: all other
  // replies - search results, new ids, counts - stay what they were, exactly when the run without
  // them evicts nothing either.
  lemma {:induction false} FeedbackNeverHeard(a: EngineState, b: EngineState, calls: seq<Call>)
    requires SameView(a, b) && NoEviction(a, calls)
    ensures Heard(a, calls) == Heard(b, Strip(calls)) <==> NoEviction(b, Strip(calls))
    decreases |calls|
  {
    if calls != [] {
      var call, rest := calls[0], calls[1..];
      if Silent(call) {
        SilentKeepsView(a, b, call);
        FeedbackNeverHeard(After(a, call), b, rest);
        assert Strip(calls) == Strip(rest);
      } else {
        HeardOne(a, calls);
        HeardOne(b, calls);
        SameHeads(ReplyTo(a, call), Heard(After(a, call), rest), ReplyTo(b, call), Heard(After(b, call), Strip(rest)));
        if Spares(b, call) {
          CallKeepsView(a, b, call);
          FeedbackNeverHeard(After(a, call), After(b, call), rest);
        } else {
          EvictionHeard(a, b, call);
        }
      }
    }
  }

  // From one and the same state.
  lemma FeedbackOutOfReach(s: EngineState, calls: seq<Call>)
    requires NoEviction(s, calls)
    ensures Heard(s, calls) == Heard(s, Strip(calls)) <==> NoEviction(s, Strip(calls))
  {
    FeedbackNeverHeard(s, s, calls);
  }

  // A search made after any number of silent calls answers as before them.
  lemma {:induction false} SearchUnmoved(a: EngineState, b: EngineState, silent: seq<Call>, query: Vector, k: nat)
    requires SameView(a, b) && forall call :: call in silent ==> Silent(call)
    ensures SameView(RunCalls(a, silent), b)
    ensures Found(RunCalls(a, silent), query, k) == Found(b, query, k)
  {
    if silent == [] {
      ViewDeterminesAnswer(a, b, query, k);
    } else {
      var front, last := silent[..|silent| - 1], silent[|silent| - 1];
      SearchUnmoved(a, b, front, query, k);
      SilentKeepsView(RunCalls(a, front), b, last);
      ViewDeterminesAnswer(RunCalls(a, silent), b, query, k);
    }
  }

  const ONE_NOTE: EngineState := After(FRESH, AddNode("", [], 0, 0, 0, []))
  const PROMOTE: Call := PromoteConfirmed(0, 1)

  lemma OneNote()
    ensures ONE_NOTE.graph.nodes == map[FreshId(FRESH.graph) := ONE_NOTE.graph.nodes[FreshId(FRESH.graph)]]
    ensures var n := ONE_NOTE.graph.nodes[FreshId(FRESH.graph)];
            n.source == UserUtterance && n.canon == NotCanon && n.ephemeral && n.confirmations == 0
  {
  }

  // With a single node, shrinking to nothing removes it exactly when it is ephemeral.
  lemma ShrinkOne(g: State, id: Id)
    requires g.nodes.Keys == {id}
    ensures |Eviction.Evicted(g, 0)| == if g.nodes[id].ephemeral then 1 else 0
  {
    EvictionLaws.EvictedCount(g, 0);
    assert |g.nodes| == |g.nodes.Keys| == 1;
    assert EphemeralIds(g) == if g.nodes[id].ephemeral then {id} else {};
  }

  lemma PromoteOne(g: State, id: Id, level: CanonLevel)
    requires g.nodes.Keys == {id} && Promotable(g.nodes[id], 0) && level.IsCanon()
    ensures Promote(g, 0, level).nodes.Keys == {id} && !Promote(g, 0, level).nodes[id].ephemeral
  {
  }

  lemma Promoting(s: EngineState)
    ensures After(s, PROMOTE).graph == Promote(s.graph, 0, L1Project)
  {
  }

  lemma PromotedNote()
    ensures |Eviction.Evicted(After(ONE_NOTE, PROMOTE).graph, 0)| == 0
  {
    OneNote();
    Promoting(ONE_NOTE);
    PromoteOne(ONE_NOTE.graph, FreshId(FRESH.graph), L1Project);
    ShrinkOne(After(ONE_NOTE, PROMOTE).graph, FreshId(FRESH.graph));
  }

  lemma NoteShrinks()
    ensures |Eviction.Evicted(ONE_NOTE.graph, 0)| == 1
  {
    OneNote();
    ShrinkOne(ONE_NOTE.graph, FreshId(FRESH.graph));
  }

  lemma SingleCall(s: EngineState, call: Call)
    requires !Silent(call)
    ensures Strip([call]) == [call] && Heard(s, [call]) == [ReplyTo(s, call)]
    ensures NoEviction(s, [call]) <==> Spares(s, call)
  {
    var calls := [call];
    assert calls[1..] == [];
    assert Heard(After(s, call), calls[1..]) == [] && Strip(calls[1..]) == [];
    assert NoEviction(After(s, call), calls[1..]);
  }

  lemma SilentFirst(s: EngineState, calls: seq<Call>)
    requires calls != [] && Silent(calls[0])
    ensures Strip(calls) == Strip(calls[1..]) && Heard(s, calls) == Heard(After(s, calls[0]), calls[1..])
    ensures NoEviction(s, calls) <==> NoEviction(After(s, calls[0]), calls[1..])
  {
  }

  // A silent call that saves every node is heard of at the next eviction.
  lemma SavingHeard(s: EngineState, silent: Call, maxNodes: nat)
    requires Silent(silent) && |Eviction.Evicted(After(s, silent).graph, maxNodes)| == 0
    ensures var calls := [silent, Enforce(maxNodes)];
            && Heard(s, calls) == [Count(0)] && Heard(s, Strip(calls)) == [Count(|Eviction.Evicted(s.graph, maxNodes)|)]
            && NoEviction(s, calls) && (NoEviction(s, Strip(calls)) <==> |Eviction.Evicted(s.graph, maxNodes)| == 0)
  {
    var calls := [silent, Enforce(maxNodes)];
    assert calls[1..] == [Enforce(maxNodes)];
    SilentFirst(s, calls);
    SingleCall(After(s, silent), Enforce(maxNodes));
    SingleCall(s, Enforce(maxNodes));
  }

  // That the run with feedback evicts nothing is not enough: here promotion is what saves the node.
  lemma PromotionHeard()
    ensures var calls := [PROMOTE, Enforce(0)];
            && NoEviction(ONE_NOTE, calls) && !NoEviction(ONE_NOTE, Strip(calls))
            && Heard(ONE_NOTE, calls) == [Count(0)] && Heard(ONE_NOTE, Strip(calls)) == [Count(1)]
  {
    PromotedNote();
    SavingHeard(ONE_NOTE, PROMOTE, 0);
    NoteShrinks();
  }
}
