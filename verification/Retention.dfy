// Feedback moves retention, and only the right way: confirming (or accessing) a node never costs
// it its place, rejecting it never buys it one, wherever in its history the verdict falls.
module Retention {
  import opened Eviction
  import opened EvictionLaws
  import opened Graph
  import opened IdGenerator
  import opened Words

  function SummaryOf(id: Id, n: Node): Evictable {
    Evictable(id, n.lastAccessedAt, n.accessCount, n.importance)
  }

  ghost predicate Survives(g: State, maxNodes: nat, id: Id) {
    id in EnforceCapacity(g, maxNodes).nodes
  }

  // n may replace g's record of id without making it less valuable or less permanent.
  ghost predicate Raises(g: State, id: Id, n: Node) {
    && id in g.nodes
    && NotDearer(Summary(g, id), SummaryOf(id, n))
    && (n.ephemeral ==> g.nodes[id].ephemeral)
  }

  lemma RaisedSurvives(g: State, id: Id, n: Node, maxNodes: nat)
    requires Raises(g, id, n) && Survives(g, maxNodes, id)
    ensures Survives(UpdateNode(g, id, n), maxNodes, id)
  {
    var g' := UpdateNode(g, id, n);
    UpdateSize(g, id, n);
    EvictedIffRank(g, maxNodes, id);
    EvictedIffRank(g', maxNodes, id);
    CheaperStrict();
    forall m | m in Rivals(g, id) ensures m in Rivals(g', id) {
      assert m != id;
      assert Summary(g', m) == Summary(g, m);
    }
    SubsetCount(Rivals(g, id), Rivals(g', id));
  }

  // Somebody else's gain never saves a node that was due to go.
  lemma RaisedSavesNobodyElse(g: State, id: Id, n: Node, maxNodes: nat, other: Id)
    requires Raises(g, id, n) && other != id
    requires other in g.nodes && !Survives(g, maxNodes, other)
    ensures !Survives(UpdateNode(g, id, n), maxNodes, other)
  {
    var g' := UpdateNode(g, id, n);
    UpdateSize(g, id, n);
    EvictedIffRank(g, maxNodes, other);
    EvictedIffRank(g', maxNodes, other);
    CheaperStrict();
    forall m | m in Rivals(g', other) ensures m in Rivals(g, other) {
      if m == id {
        assert Cheaper(SummaryOf(id, n), Summary(g, other));
      } else {
        assert Summary(g', m) == Summary(g, m);
      }
    }
    SubsetCount(Rivals(g', other), Rivals(g, other));
  }

  lemma UpdateSize(g: State, id: Id, n: Node)
    requires id in g.nodes
    ensures UpdateNode(g, id, n).nodes.Keys == g.nodes.Keys
    ensures |UpdateNode(g, id, n).nodes| == |g.nodes|
  {
    assert |UpdateNode(g, id, n).nodes.Keys| == |g.nodes.Keys|;
  }

  // An access before the clock wraps never costs a node its place.
  lemma AccessKeeps(g: State, id: Id, maxNodes: nat)
    requires id in g.nodes && g.nodes[id].lastAccessedAt <= g.clock && g.clock + 1 < WORD
    requires Survives(g, maxNodes, id)
    ensures Survives(RecordAccess(g, id), maxNodes, id)
  {
    RaisedSurvives(g, id, Accessed(g.nodes[id], Tick(g.clock)), maxNodes);
    ClockIdle(UpdateNode(g, id, Accessed(g.nodes[id], Tick(g.clock))), Tick(g.clock), maxNodes);
  }

  lemma ClockIdle(g: State, clock: nat, maxNodes: nat)
    ensures EnforceCapacity(g.(clock := clock), maxNodes).nodes == EnforceCapacity(g, maxNodes).nodes
  {
    var g' := g.(clock := clock);
    forall id ensures id in Evicted(g', maxNodes) <==> id in Evicted(g, maxNodes) {
      EvictedIffRank(g, maxNodes, id);
      EvictedIffRank(g', maxNodes, id);
      if id in g.nodes {
        assert Rivals(g', id) == Rivals(g, id);
      }
    }
    assert Evicted(g', maxNodes) == Evicted(g, maxNodes);
  }

  // ---- Whole feedback histories of one node

  function Verdicts(importance: int, cap: int, history: seq<bool>): int {
    if history == [] then importance
    else Judge(Verdicts(importance, cap, history[..|history| - 1]), cap, history[|history| - 1])
  }

  // x becomes min(hi, max(lo, x + d)).
  datatype Shift = Shift(lo: int, hi: int, d: int)

  function ApplyShift(s: Shift, x: int): int {
    Min(s.hi, Max(s.lo, x + s.d))
  }

  function ShiftOf(cap: int, history: seq<bool>): Shift {
    if history == [] then Shift(0, cap, 0)
    else
      var s := ShiftOf(cap, history[..|history| - 1]);
      if history[|history| - 1]
      then Shift(Min(s.lo + CONFIRM_STEP, cap), Min(s.hi + CONFIRM_STEP, cap), s.d + CONFIRM_STEP)
      else Shift(Max(s.lo - REJECT_STEP, 0), Max(s.hi - REJECT_STEP, 0), s.d - REJECT_STEP)
  }

  // However long, a history acts on importance as one clamped shift, and stays below the cap.
  lemma {:induction false} HistoryIsClampedShift(cap: int, history: seq<bool>, x: int)
    requires 0 <= x <= cap
    ensures Verdicts(x, cap, history) == ApplyShift(ShiftOf(cap, history), x)
    ensures 0 <= ShiftOf(cap, history).lo <= ShiftOf(cap, history).hi <= cap
    ensures 0 <= Verdicts(x, cap, history) <= cap
  {
    if history != [] {
      HistoryIsClampedShift(cap, history[..|history| - 1], x);
    }
  }

  lemma {:induction false} VerdictsMonotone(x: int, y: int, cap: int, history: seq<bool>)
    requires x <= y
    ensures Verdicts(x, cap, history) <= Verdicts(y, cap, history)
  {
    if history != [] {
      VerdictsMonotone(x, y, cap, history[..|history| - 1]);
    }
  }

  lemma {:induction false} VerdictsAppend(x: int, cap: int, a: seq<bool>, b: seq<bool>)
    ensures Verdicts(x, cap, a + b) == Verdicts(Verdicts(x, cap, a), cap, b)
  {
    if b == [] {
      assert a + b == a;
    } else {
      VerdictsAppend(x, cap, a, b[..|b| - 1]);
      assert (a + b)[..|a + b| - 1] == a + b[..|b| - 1];
    }
  }

  // One more confirmation anywhere in a history never lowers the outcome; one more rejection
  // never raises it.
  lemma InsertedVerdict(x: int, cap: int, a: seq<bool>, helpful: bool, b: seq<bool>)
    requires 0 <= x <= cap
    ensures helpful ==> Verdicts(x, cap, a + b) <= Verdicts(x, cap, a + [helpful] + b)
    ensures !helpful ==> Verdicts(x, cap, a + [helpful] + b) <= Verdicts(x, cap, a + b)
  {
    var y := Verdicts(x, cap, a);
    HistoryIsClampedShift(cap, a, x);
    VerdictsAppend(x, cap, a, b);
    VerdictsAppend(x, cap, a + [helpful], b);
    VerdictsAppend(x, cap, a, [helpful]);
    assert Verdicts(y, cap, [helpful]) == Judge(Verdicts(y, cap, []), cap, helpful);
    if helpful {
      VerdictsMonotone(y, Judge(y, cap, helpful), cap, b);
    } else {
      VerdictsMonotone(Judge(y, cap, helpful), y, cap, b);
    }
  }

  function RecordAll(g: State, id: Id, history: seq<bool>): State {
    if history == [] then g
    else RecordFeedback(RecordAll(g, id, history[..|history| - 1]), id, history[|history| - 1])
  }

  // A history touches one node, and of what eviction reads only its importance.
  lemma {:induction false} RecordAllEffect(g: State, id: Id, history: seq<bool>)
    requires id in g.nodes
    ensures var g' := RecordAll(g, id, history);
            && id in g'.nodes && g' == UpdateNode(g, id, g'.nodes[id])
            && g'.nodes[id].source == g.nodes[id].source
            && g'.nodes[id].ephemeral == g.nodes[id].ephemeral
            && g'.nodes[id].lastAccessedAt == g.nodes[id].lastAccessedAt
            && g'.nodes[id].accessCount == g.nodes[id].accessCount
            && g'.nodes[id].importance ==
               Verdicts(g.nodes[id].importance, g.nodes[id].source.MaxImportanceCap(), history)
  {
    if history == [] {
      assert g.nodes[id := g.nodes[id]] == g.nodes;
    } else {
      RecordAllEffect(g, id, history[..|history| - 1]);
    }
  }

  // Insert one confirmation anywhere into a node's history: if it survived before, it still does.
  // Insert one rejection: if it was evicted before, it still is.
  lemma RetentionMonotone(g: State, id: Id, a: seq<bool>, b: seq<bool>, maxNodes: nat)
    requires id in g.nodes && 0 <= g.nodes[id].importance <= g.nodes[id].source.MaxImportanceCap()
    ensures Survives(RecordAll(g, id, a + b), maxNodes, id) ==>
              Survives(RecordAll(g, id, a + [true] + b), maxNodes, id)
    ensures !Survives(RecordAll(g, id, a + b), maxNodes, id) ==>
              !Survives(RecordAll(g, id, a + [false] + b), maxNodes, id)
  {
    HistoryOrder(g, id, a + b, a + [true] + b, maxNodes);
    HistoryOrder(g, id, a + [false] + b, a + b, maxNodes);
    InsertedVerdict(g.nodes[id].importance, g.nodes[id].source.MaxImportanceCap(), a, true, b);
    InsertedVerdict(g.nodes[id].importance, g.nodes[id].source.MaxImportanceCap(), a, false, b);
  }

  lemma HistoryOrder(g: State, id: Id, low: seq<bool>, high: seq<bool>, maxNodes: nat)
    requires id in g.nodes
    ensures var n := g.nodes[id];
            Verdicts(n.importance, n.source.MaxImportanceCap(), low)
            <= Verdicts(n.importance, n.source.MaxImportanceCap(), high)
            && Survives(RecordAll(g, id, low), maxNodes, id) ==>
              Survives(RecordAll(g, id, high), maxNodes, id)
  {
    var g1, g2 := RecordAll(g, id, low), RecordAll(g, id, high);
    RecordAllEffect(g, id, low);
    RecordAllEffect(g, id, high);
    assert g2 == UpdateNode(g1, id, g2.nodes[id]);
    if g1.nodes[id].importance <= g2.nodes[id].importance && Survives(g1, maxNodes, id) {
      RaisedSurvives(g1, id, g2.nodes[id], maxNodes);
    }
  }
}
