// Feedback moves retention and nothing else, carried through evictions: while the node it is about
// lives on, one verdict more changes no reply but the number of nodes a promotion reports.
module FeedbackRuns {
  import opened Engine
  import opened EngineHistory
  import Eviction
  import opened Graph
  import H = GraphHistory
  import opened IdGenerator
  import Provenance
  import opened RetentionRuns
  import TickShift

  // A reply, but for how many nodes a promotion promoted.
  function Masked(call: Call, reply: Reply): Reply {
    if call.PromoteConfirmed? then Count(0) else reply
  }

  function Hear(s: EngineState, call: Call): Reply {
    Masked(call, ReplyTo(s, call))
  }

  // What is said along a run, and where the run ends.
  function Trace<S, C, R>(s: S, calls: seq<C>, after: (S, C) -> S, say: (S, C) -> R): (r: seq<R>)
    ensures |r| == |calls|
    decreases |calls|
  {
    if calls == [] then [] else [say(s, calls[0])] + Trace(after(s, calls[0]), calls[1..], after, say)
  }

  function End<S, C>(s: S, calls: seq<C>, after: (S, C) -> S): S
    decreases |calls|
  {
    if calls == [] then s else End(after(s, calls[0]), calls[1..], after)
  }

  lemma {:induction false} TraceConcat<S, C, R>(s: S, a: seq<C>, b: seq<C>, after: (S, C) -> S, say: (S, C) -> R)
    ensures Trace(s, a + b, after, say) == Trace(s, a, after, say) + Trace(End(s, a, after), b, after, say)
    decreases |a|
  {
    if a == [] {
      assert a + b == b;
    } else {
      assert (a + b)[1..] == a[1..] + b;
      TraceConcat(after(s, a[0]), a[1..], b, after, say);
    }
  }

  // What the calls of a run are told.
  function Told(s: EngineState, calls: seq<Call>): seq<Reply> {
    Trace(s, calls, After, Hear)
  }

  // The same index, and stores that differ in the record of x only.
  ghost predicate EngineAhead(low: EngineState, high: EngineState, x: Id) {
    low.index == high.index && Ahead(low.graph, high.graph, x, false)
  }

  // ---- One call

  lemma AheadSameView(low: EngineState, high: EngineState, x: Id)
    requires EngineAhead(low, high, x)
    ensures SameView(low, high)
  {
    AheadKeys(low.graph, high.graph, x, false);
  }

  lemma EnforceAhead(low: EngineState, high: EngineState, x: Id, maxNodes: nat)
    requires EngineAhead(low, high, x) && x in After(low, Enforce(maxNodes)).graph.nodes
    ensures EngineAhead(After(low, Enforce(maxNodes)), After(high, Enforce(maxNodes)), x)
    ensures ReplyTo(low, Enforce(maxNodes)) == ReplyTo(high, Enforce(maxNodes))
  {
    AheadKeys(low.graph, high.graph, x, false);
    ShrinkAhead(low.graph, high.graph, x, false, maxNodes);
    SameEvicted(low.graph, high.graph, x, false, maxNodes);
    AheadKeys(Eviction.EnforceCapacity(low.graph, maxNodes), Eviction.EnforceCapacity(high.graph, maxNodes), x, false);
  }

  lemma RecordAhead(low: EngineState, high: EngineState, x: Id, call: Call)
    requires EngineAhead(low, high, x) && (Silent(call) || call.AddNode?)
    requires call.AddNode? ==> FreshId(low.graph) != x
    ensures EngineAhead(After(low, call), After(high, call), x)
    ensures Masked(call, ReplyTo(low, call)) == Masked(call, ReplyTo(high, call))
  {
    AheadKeys(low.graph, high.graph, x, false);
    RecordingIsApplied(low, call);
    RecordingIsApplied(high, call);
    match call
    case AddNode(content, tags, source, cell, canon, _) =>
      CreateAhead(low.graph, high.graph, x, false, DraftOf(content, tags, source, cell, canon));
    case SetNodeAffect(id, valence, arousal, intensity) =>
      AffectAhead(low.graph, high.graph, x, false, id, ClampAffect(valence, arousal, intensity));
    case Feedback(id, helpful) => VerdictAhead(low.graph, high.graph, x, false, id, helpful != 0);
    case PromoteConfirmed(minConfirmations, level) =>
      PromoteAhead(low.graph, high.graph, x, false, minConfirmations, Provenance.CanonFromByte(level));
  }

  lemma AskAhead(low: EngineState, high: EngineState, x: Id, call: Call)
    requires EngineAhead(low, high, x) && (call.Search? || call.NodeCount?)
    ensures EngineAhead(After(low, call), After(high, call), x) && ReplyTo(low, call) == ReplyTo(high, call)
  {
    AheadKeys(low.graph, high.graph, x, false);
    AheadSameView(low, high, x);
    if call.Search? {
      ViewDeterminesAnswer(low, high, call.query, call.topK);
    }
  }

  lemma CallAhead(low: EngineState, high: EngineState, x: Id, call: Call)
    requires EngineAhead(low, high, x) && x in After(low, call).graph.nodes
    requires call.AddNode? ==> FreshId(low.graph) != x
    ensures EngineAhead(After(low, call), After(high, call), x)
    ensures Masked(call, ReplyTo(low, call)) == Masked(call, ReplyTo(high, call))
  {
    if call.Enforce? {
      EnforceAhead(low, high, x, call.maxNodes);
    } else if call.Search? || call.NodeCount? {
      AskAhead(low, high, x, call);
    } else {
      RecordAhead(low, high, x, call);
    }
  }

  // ---- Runs

  lemma {:induction false} FrontCall(c: Session, calls: seq<Call>)
    requires calls != []
    ensures RunSession(c, calls) == RunSession(Next(c, calls[0]), calls[1..])
    decreases |calls|
  {
    var n := |calls| - 1;
    if n == 0 {
      assert calls[..0] == [] && calls[1..] == [];
    } else {
      FrontCall(c, calls[..n]);
      assert calls[..n][1..] == calls[1..][..n - 1] && calls[1..][n - 1] == calls[n];
    }
  }

  lemma {:induction false} SessionIsRun(c: Session, calls: seq<Call>)
    ensures RunSession(c, calls).s == RunCalls(c.s, calls)
  {
    if calls != [] {
      SessionIsRun(c, calls[..|calls| - 1]);
    }
  }

  lemma {:induction false} SessionGrows(c: Session, calls: seq<Call>)
    ensures c.ids <= RunSession(c, calls).ids && c.ticks <= RunSession(c, calls).ticks
  {
    if calls != [] {
      SessionGrows(c, calls[..|calls| - 1]);
    }
  }

  lemma FrontRun(s: EngineState, calls: seq<Call>)
    requires calls != []
    ensures RunCalls(s, calls) == RunCalls(After(s, calls[0]), calls[1..])
  {
    var c := Session(s, 0, 0);
    FrontCall(c, calls);
    SessionIsRun(c, calls);
    SessionIsRun(Next(c, calls[0]), calls[1..]);
  }

  // A node of an earlier state that lives at the end of a run lived all the while.
  lemma LivesOn(s: H.Supply, c: Session, mid: Session, calls: seq<Call>, x: Id)
    requires H.ValidSupply(s) && EngineOk(s, c) && EngineOk(s, mid) && c.ids <= mid.ids
    requires H.WithinBudget(GraphPart(RunSession(mid, calls)))
    requires x in c.s.graph.nodes && x in RunSession(mid, calls).s.graph.nodes
    ensures x in mid.s.graph.nodes
  {
    LiveIsIssued(s, GraphPart(c), x);
    H.IssuedGrows(s, c.ids, mid.ids, x);
    SessionKeeps(s, mid, calls);
    NotReborn(s, GraphPart(mid), GraphPart(RunSession(mid, calls)), x);
  }

  lemma NotReborn(s: H.Supply, c: H.Counted, c': H.Counted, x: Id)
    requires H.Evolves(s, c, c') && H.Issued(s, c.ids, x) && x in c'.g.nodes
    ensures x in c.g.nodes
  {
  }

  lemma FirstCallOk(s: H.Supply, c: Session, calls: seq<Call>, x: Id)
    requires H.ValidSupply(s) && EngineOk(s, c) && calls != []
    requires H.WithinBudget(GraphPart(RunSession(c, calls)))
    requires x in c.s.graph.nodes && x in RunSession(c, calls).s.graph.nodes
    ensures EngineOk(s, Next(c, calls[0])) && x in Next(c, calls[0]).s.graph.nodes
    ensures calls[0].AddNode? ==> FreshId(c.s.graph) != x
  {
    var mid := Next(c, calls[0]);
    FrontCall(c, calls);
    SessionGrows(mid, calls[1..]);
    CallKeeps(s, c, calls[0]);
    LivesOn(s, c, mid, calls[1..], x);
    if calls[0].AddNode? {
      FreshNotLive(s, c);
    }
  }

  lemma {:induction false} RunTold(s: H.Supply, c: Session, high: EngineState, calls: seq<Call>, x: Id)
    requires H.ValidSupply(s) && EngineOk(s, c) && H.WithinBudget(GraphPart(RunSession(c, calls)))
    requires EngineAhead(c.s, high, x) && x in RunSession(c, calls).s.graph.nodes
    ensures Told(c.s, calls) == Told(high, calls)
    ensures EngineAhead(RunSession(c, calls).s, RunCalls(high, calls), x)
    decreases |calls|
  {
    if calls != [] {
      FirstCallOk(s, c, calls, x);
      CallAhead(c.s, high, x, calls[0]);
      FrontCall(c, calls);
      FrontRun(high, calls);
      RunTold(s, Next(c, calls[0]), After(high, calls[0]), calls[1..], x);
    }
  }

  // ---- One verdict more

  lemma {:induction false} RunConcatCalls(s: EngineState, a: seq<Call>, b: seq<Call>)
    ensures RunCalls(s, a + b) == RunCalls(RunCalls(s, a), b)
  {
    if b == [] {
      assert a + b == a;
    } else {
      RunConcatCalls(s, a, b[..|b| - 1]);
      assert (a + b)[..|a + b| - 1] == a + b[..|b| - 1];
    }
  }

  lemma {:induction false} EndIsRun(s: EngineState, calls: seq<Call>)
    ensures End(s, calls, After) == RunCalls(s, calls)
    decreases |calls|
  {
    if calls != [] {
      EndIsRun(After(s, calls[0]), calls[1..]);
      FrontRun(s, calls);
    }
  }

  lemma ToldConcat(s: EngineState, a: seq<Call>, b: seq<Call>)
    ensures Told(s, a + b) == Told(s, a) + Told(RunCalls(s, a), b)
  {
    TraceConcat(s, a, b, After, Hear);
    EndIsRun(s, a);
  }

  // What a run is told, without the reply to call number n.
  function Without(told: seq<Reply>, n: nat): seq<Reply>
    requires n < |told|
  {
    told[..n] + told[n + 1..]
  }

  lemma ToldOne(s: EngineState, call: Call)
    ensures |Told(s, [call])| == 1 && RunCalls(s, [call]) == After(s, call)
  {
    assert [call][..0] == [];
  }

  lemma WithoutMiddle(a: seq<Reply>, m: seq<Reply>, b: seq<Reply>)
    requires |m| == 1
    ensures |a + m + b| == |a| + 1 + |b| && Without(a + m + b, |a|) == a + b
  {
  }

  lemma InsertedTold(s: EngineState, a: seq<Call>, call: Call, b: seq<Call>)
    ensures |Told(s, a + [call] + b)| == |a| + 1 + |b|
    ensures Without(Told(s, a + [call] + b), |a|) == Told(s, a) + Told(After(RunCalls(s, a), call), b)
    ensures RunCalls(s, a + [call] + b) == RunCalls(After(RunCalls(s, a), call), b)
  {
    var mid := RunCalls(s, a);
    ToldOne(mid, call);
    RunConcatCalls(s, a, [call]);
    RunConcatCalls(s, a + [call], b);
    ToldConcat(s, a, [call]);
    ToldConcat(s, a + [call], b);
    WithoutMiddle(Told(s, a), Told(mid, [call]), Told(After(mid, call), b));
  }

  lemma SessionConcat(c: Session, a: seq<Call>, b: seq<Call>)
    ensures RunSession(c, a + b) == RunSession(RunSession(c, a), b)
    decreases |b|
  {
    if b == [] {
      assert a + b == a;
    } else {
      SessionConcat(c, a, b[..|b| - 1]);
      assert (a + b)[..|a + b| - 1] == a + b[..|b| - 1];
    }
  }

  lemma VerdictSpares(c: Session, x: Id, helpful: int)
    ensures Next(c, Feedback(x, helpful)).ids == c.ids && Next(c, Feedback(x, helpful)).ticks == c.ticks
    ensures x !in c.s.graph.nodes ==> After(c.s, Feedback(x, helpful)) == c.s
  {
  }

  lemma EngineAheadOfItself(s: H.Supply, c: Session, x: Id)
    requires EngineOk(s, c) && x in c.s.graph.nodes
    ensures EngineAhead(c.s, c.s, x)
  {
    LiveIsOk(s, GraphPart(c), x);
    AheadOfItself(c.s.graph, x, false, c.ticks, 0, 0);
    TickShift.ShiftNone(c.s.graph, 0);
  }

  lemma ConfirmedRun(s: H.Supply, c: Session, b: seq<Call>, x: Id, helpful: int)
    requires H.ValidSupply(s) && EngineOk(s, c) && H.WithinBudget(GraphPart(RunSession(c, b)))
    requires helpful != 0 && x in RunSession(c, b).s.graph.nodes
    ensures Told(c.s, b) == Told(After(c.s, Feedback(x, helpful)), b)
    ensures EngineAhead(RunCalls(c.s, b), RunCalls(After(c.s, Feedback(x, helpful)), b), x)
  {
    SessionIsRun(c, b);
    VerdictSpares(c, x, helpful);
    if x in c.s.graph.nodes {
      JudgedFavored(s, GraphPart(c), x);
      RunTold(s, c, After(c.s, Feedback(x, helpful)), b, x);
    } else {
      SessionKeeps(s, c, b);
      EngineAheadOfItself(s, RunSession(c, b), x);
    }
  }

  lemma RejectedRun(s: H.Supply, c: Session, b: seq<Call>, x: Id)
    requires H.ValidSupply(s) && EngineOk(s, c) && H.WithinBudget(GraphPart(c))
    requires H.WithinBudget(GraphPart(RunSession(Next(c, Feedback(x, 0)), b)))
    requires x in RunSession(Next(c, Feedback(x, 0)), b).s.graph.nodes
    ensures Told(After(c.s, Feedback(x, 0)), b) == Told(c.s, b)
    ensures EngineAhead(RunCalls(After(c.s, Feedback(x, 0)), b), RunCalls(c.s, b), x)
  {
    var low := Next(c, Feedback(x, 0));
    SessionIsRun(low, b);
    VerdictSpares(c, x, 0);
    CallKeeps(s, c, Feedback(x, 0));
    if x in c.s.graph.nodes {
      JudgedFavored(s, GraphPart(c), x);
      RunTold(s, low, c.s, b, x);
    } else {
      SessionKeeps(s, low, b);
      EngineAheadOfItself(s, RunSession(low, b), x);
    }
  }

  // Insert one confirmation of x anywhere into a run of a new handle. If x lives at the end, the
  // index ends as it was, the store differs in x only, and all other calls are told what they were
  // told, evictions included, but for the counts of promotions.
  lemma ConfirmationMovesRetentionOnly(a: seq<Call>, b: seq<Call>, x: Id, helpful: int)
    requires H.WithinBudget(GraphPart(RunSession(OPENED, a + b))) && helpful != 0
    requires x in RunCalls(FRESH, a + b).graph.nodes
    ensures var more := a + [Feedback(x, helpful)] + b;
            && |Told(FRESH, more)| == |more|
            && Without(Told(FRESH, more), |a|) == Told(FRESH, a + b)
            && EngineAhead(RunCalls(FRESH, a + b), RunCalls(FRESH, more), x)
  {
    SessionConcat(OPENED, a, b);
    SessionGrows(RunSession(OPENED, a), b);
    SessionFromFresh(a);
    H.StartHealthy();
    SessionIsRun(OPENED, a + b);
    SessionIsRun(OPENED, a);
    ConfirmedRun(H.SupplyFrom(INITIAL_SEED), RunSession(OPENED, a), b, x, helpful);
    InsertedTold(FRESH, a, Feedback(x, helpful), b);
    ToldConcat(FRESH, a, b);
    RunConcatCalls(FRESH, a, b);
  }

  // Insert one rejection of x. If x lives at the end all the same, the same holds.
  lemma RejectionMovesRetentionOnly(a: seq<Call>, b: seq<Call>, x: Id)
    requires var more := a + [Feedback(x, 0)] + b;
             H.WithinBudget(GraphPart(RunSession(OPENED, more))) && x in RunCalls(FRESH, more).graph.nodes
    ensures var more := a + [Feedback(x, 0)] + b;
            && |Told(FRESH, more)| == |more|
            && Without(Told(FRESH, more), |a|) == Told(FRESH, a + b)
            && EngineAhead(RunCalls(FRESH, more), RunCalls(FRESH, a + b), x)
  {
    var fb := Feedback(x, 0);
    SessionConcat(OPENED, a + [fb], b);
    SessionConcat(OPENED, a, [fb]);
    FrontCall(RunSession(OPENED, a), [fb]);
    SessionGrows(RunSession(OPENED, a + [fb]), b);
    VerdictSpares(RunSession(OPENED, a), x, 0);
    SessionFromFresh(a);
    H.StartHealthy();
    SessionIsRun(OPENED, a + [fb] + b);
    SessionIsRun(OPENED, a);
    RejectedRun(H.SupplyFrom(INITIAL_SEED), RunSession(OPENED, a), b, x);
    InsertedTold(FRESH, a, fb, b);
    ToldConcat(FRESH, a, b);
    RunConcatCalls(FRESH, a, b);
  }
}
