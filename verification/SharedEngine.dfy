// One engine behind its spinlock, called from any number of threads.
module SharedEngine {
  import opened Cosine
  import opened Engine
  import opened EngineHistory
  import Eviction
  import EvictionLaws
  import opened Graph
  import H = GraphHistory
  import opened IdGenerator
  import opened Recall
  import L = SpinLock
  import Laws = SpinLockLaws
  import opened VectorIndex

  // Where a call is inside its critical section. Adding a node and enforcing capacity write the
  // graph first and the index second; a search reads the index first and the graph second.
  datatype Stage =
    | Begun(call: Call)
    | Created(id: Id, embedding: Vector)
    | Evicted(count: nat)
    | Fetched(candidates: seq<SearchResult>, topK: nat)
    | Done(reply: Reply)

  function Start(call: Call): Stage {
    Begun(call)
  }

  function Work(p: Stage, s: EngineState): (Stage, EngineState) {
    match p
    case Begun(AddNode(content, tags, source, cell, canon, embedding)) =>
      (Created(FreshId(s.graph), embedding),
       s.(graph := CreateNode(s.graph, DraftOf(content, tags, source, cell, canon))))
    case Begun(Enforce(maxNodes)) =>
      var g := Eviction.EnforceCapacity(s.graph, maxNodes);
      (Evicted(|Eviction.Evicted(s.graph, maxNodes)|), s.(graph := g))
    case Begun(Search(query, topK)) =>
      if query == [] || topK == 0 || s.index.NoIndex? then (Done(Rows([])), s)
      else (Fetched(Ranked(s.index.entries, s.index.dimension, query, Fetch(topK)), topK), s)
    case Begun(call) => (Done(ReplyTo(s, call)), After(s, call))
    case Created(id, embedding) => (Done(Name(id)), s.(index := WithEmbedding(s.index, id, embedding)))
    case Evicted(count) => (Done(Count(count)), if count > 0 then s.(index := Shed(s.index, s.graph.nodes.Keys)) else s)
    case Fetched(candidates, topK) => (Done(Rows(Rerank(s.graph, candidates, topK))), s)
    case Done(_) => (p, s)
  }

  function Outcome(p: Stage): L.Outcome<Reply> {
    if p.Done? then L.Finished(p.reply) else L.Running
  }

  function Rest(p: Stage, s: EngineState): (Reply, EngineState) {
    match p
    case Begun(call) => (ReplyTo(s, call), After(s, call))
    case Created(id, embedding) => (Name(id), s.(index := WithEmbedding(s.index, id, embedding)))
    case Evicted(count) => (Count(count), if count > 0 then s.(index := Shed(s.index, s.graph.nodes.Keys)) else s)
    case Fetched(candidates, topK) => (Rows(Rerank(s.graph, candidates, topK)), s)
    case Done(reply) => (reply, s)
  }

  const ENGINE: L.Guarded<Call, Stage, EngineState, Reply> := L.Guarded(Start, Work, Outcome, Rest)

  lemma EvictedCounts(s: EngineState, maxNodes: nat)
    ensures var g := Eviction.EnforceCapacity(s.graph, maxNodes);
            |g.nodes| < |s.graph.nodes| <==> |Eviction.Evicted(s.graph, maxNodes)| > 0
  {
    EvictionLaws.EvictionSize(s.graph, maxNodes);
  }

  lemma WorkKeepsRest(p: Stage, s: EngineState)
    ensures !p.Done? ==> Rest(Work(p, s).0, Work(p, s).1) == Rest(p, s)
  {
    if p.Begun? && p.call.Enforce? {
      EvictedCounts(s, p.call.maxNodes);
    }
  }

  lemma EngineFaithful()
    ensures L.Faithful(ENGINE)
  {
    forall p: Stage, s: EngineState
      ensures ENGINE.outcome(p).Running? ==> ENGINE.rest(ENGINE.step(p, s).0, ENGINE.step(p, s).1) == ENGINE.rest(p, s)
    {
      WorkKeepsRest(p, s);
    }
  }

  // A critical section ends: after two steps at most, whatever the data is by then.
  lemma SectionEnds(call: Call, first: EngineState, second: EngineState)
    ensures ENGINE.outcome(ENGINE.step(ENGINE.step(ENGINE.begin(call), first).0, second).0).Finished?
  {
  }

  // And no interleaving gets stuck.
  lemma EngineNeverStuck(threads: nat, steps: seq<L.Step<Call>>, m: L.Machine<Call, Stage, EngineState, Reply>,
                         i: nat) returns (step: L.Step<Call>)
    requires L.Runs(ENGINE, L.Opened(FRESH, threads), steps, m)
    requires i < |m.threads| && !m.threads[i].Idle?
    ensures L.Enabled(ENGINE, m, step) && !step.Spin? && !step.Invoke?
  {
    EngineFaithful();
    step := Laws.NeverStuck(ENGINE, FRESH, threads, steps, m, i);
  }

  lemma {:induction false} SequentialRun(calls: seq<Call>)
    ensures L.AfterAll(ENGINE, FRESH, calls) == RunCalls(FRESH, calls)
    ensures RunSession(OPENED, calls).s == RunCalls(FRESH, calls)
  {
    if calls != [] {
      SequentialRun(calls[..|calls| - 1]);
    }
  }

  // Whenever the lock is free, in every interleaving of every number of threads, the engine is what
  // the same calls made one after another would have left, and its joint invariant holds.
  lemma FreeLockSafe(threads: nat, steps: seq<L.Step<Call>>, m: L.Machine<Call, Stage, EngineState, Reply>)
    requires L.Runs(ENGINE, L.Opened(FRESH, threads), steps, m) && !m.locked
    requires H.WithinBudget(GraphPart(RunSession(OPENED, L.Order(m.log))))
    ensures m.data == RunCalls(FRESH, L.Order(m.log))
    ensures RunSession(OPENED, L.Order(m.log)).s == m.data
    ensures EngineOk(H.SupplyFrom(INITIAL_SEED), RunSession(OPENED, L.Order(m.log)))
  {
    EngineFaithful();
    Laws.MutualExclusion(ENGINE, FRESH, threads, steps, m);
    SequentialRun(L.Order(m.log));
    SessionFromFresh(L.Order(m.log));
  }

  // Every reply, in every interleaving, is the one the sequential engine gives at the moment
  // between the call and its return when the call took the lock.
  lemma RepliesLinearizable(threads: nat, steps: seq<L.Step<Call>>, m: L.Machine<Call, Stage, EngineState, Reply>,
                            p: nat) returns (i: nat, a: nat)
    requires L.Runs(ENGINE, L.Opened(FRESH, threads), steps, m) && p < |m.log| && m.log[p].Returned?
    ensures i < a < p && m.log[i] == L.Invoked(m.log[p].thread, m.log[p].call)
    ensures m.log[a] == L.Acquired(m.log[p].thread, m.log[p].call)
    ensures Laws.Undisturbed(m.log, i, a, m.log[p].thread) && Laws.Undisturbed(m.log, a, p, m.log[p].thread)
    ensures m.log[p].reply == ReplyTo(RunCalls(FRESH, L.Order(m.log[..a])), m.log[p].call)
  {
    EngineFaithful();
    i, a := Laws.Linearizable(ENGINE, FRESH, threads, steps, m, p);
    SequentialRun(L.Order(m.log[..a]));
  }

  // ---- Why the lock spans the whole call

  // Between its two writes, enforcing capacity leaves index and graph at odds exactly when it
  // evicts a node that is indexed: another thread must not look then.
  lemma TornInside(s: EngineState, maxNodes: nat)
    requires IndexOk(s) && s.index.Indexed?
    ensures IndexOk(Work(Begun(Enforce(maxNodes)), s).1) <==>
            forall e :: e in s.index.entries ==> e.id !in Eviction.Evicted(s.graph, maxNodes)
    ensures var between := Work(Begun(Enforce(maxNodes)), s);
            IndexOk(Work(between.0, between.1).1)
  {
    var between := Work(Begun(Enforce(maxNodes)), s);
    var g, g', gone := s.graph, between.1.graph, Eviction.Evicted(s.graph, maxNodes);
    assert g'.nodes == g.nodes - gone;
    forall e | e in s.index.entries ensures e.id in g'.nodes <==> e.id !in gone {
      assert e.id in g.nodes;
    }
    if |gone| > 0 {
      LiveEntriesOk(g, g', s.index.entries, s.index.dimension);
    } else {
      assert gone == {};
      SameIndexKeeps(g, g', s.index.entries, s.index.dimension);
    }
  }
}
