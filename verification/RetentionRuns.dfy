// Feedback over whole runs of the store: one more confirmation or access of a node, anywhere in a run
// with creations, links, other feedback, promotions, pruning and evictions, never costs that node
// its place, and as long as it lives changes nothing else.
module RetentionRuns {
  import opened Eviction
  import opened EvictionLaws
  import opened Graph
  import H = GraphHistory
  import opened IdGenerator
  import opened IdOrder
  import opened Linking
  import opened Provenance
  import Pruning
  import opened Retention
  import opened TickShift
  import opened Words

  // b is a's node, ahead of it in one respect: no less important, confirmed and permanent, or if `used`
  // no less recently and often accessed.
  predicate Favored(a: Node, b: Node, used: bool) {
    && b.id == a.id && b.source == a.source && b.content == a.content && b.cell == a.cell
    && b.tags == a.tags && b.affect == a.affect && b.createdAt == a.createdAt
    && b.importance >= a.importance && b.lastAccessedAt >= a.lastAccessedAt
    && b.accessCount >= a.accessCount && b.confirmations >= a.confirmations
    && (!used ==> b.lastAccessedAt == a.lastAccessedAt && b.accessCount == a.accessCount)
    && (used ==> b == a.(lastAccessedAt := b.lastAccessedAt, accessCount := b.accessCount))
    && (b.ephemeral ==> a.ephemeral)
    && (a.ephemeral <==> !a.canon.IsCanon()) && (b.ephemeral <==> !b.canon.IsCanon())
  }

  // The two stores differ in the record of x only, and there `high` is favored.
  ghost predicate Ahead(low: State, high: State, x: Id, used: bool) {
    && x in low.nodes && x in high.nodes
    && high == UpdateNode(low, x, high.nodes[x])
    && Favored(low.nodes[x], high.nodes[x], used)
  }

  // ---- One step

  lemma AheadKeys(low: State, high: State, x: Id, used: bool)
    requires Ahead(low, high, x, used)
    ensures high.nodes.Keys == low.nodes.Keys && |high.nodes| == |low.nodes|
    ensures high.edges == low.edges && high.clock == low.clock && high.seed == low.seed
  {
    UpdateSize(low, x, high.nodes[x]);
  }

  // Two stores that agree but for x are ahead of one another if their records of x are.
  lemma AheadFrom(low: State, high: State, x: Id, used: bool)
    requires x in low.nodes && x in high.nodes && Favored(low.nodes[x], high.nodes[x], used)
    requires high.nodes.Keys == low.nodes.Keys
    requires forall id :: id in low.nodes && id != x ==> high.nodes[id] == low.nodes[id]
    requires high.edges == low.edges && high.clock == low.clock && high.seed == low.seed
    ensures Ahead(low, high, x, used)
  {
    assert high.nodes == low.nodes[x := high.nodes[x]];
  }

  lemma CreateAhead(low: State, high: State, x: Id, used: bool, d: Draft)
    requires Ahead(low, high, x, used) && FreshId(low) != x
    ensures Ahead(CreateNode(low, d), CreateNode(high, d), x, used)
  {
    AheadKeys(low, high, x, used);
    AheadFrom(CreateNode(low, d), CreateNode(high, d), x, used);
  }

  lemma EdgeAhead(low: State, high: State, x: Id, used: bool, a: Id, b: Id, relation: string, weight: real)
    requires Ahead(low, high, x, used)
    ensures Ahead(AddEdge(low, a, b, relation, weight), AddEdge(high, a, b, relation, weight), x, used)
  {
    AheadKeys(low, high, x, used);
    assert MayLink(low, a, b) <==> MayLink(high, a, b);
    AheadFrom(AddEdge(low, a, b, relation, weight), AddEdge(high, a, b, relation, weight), x, used);
  }

  lemma {:induction false} LinksAhead(low: State, high: State, x: Id, used: bool, links: seq<Link>, relation: string)
    requires Ahead(low, high, x, used)
    ensures Ahead(AddAll(low, links, relation), AddAll(high, links, relation), x, used)
  {
    if links != [] {
      var rest, l := links[..|links| - 1], links[|links| - 1];
      LinksAhead(low, high, x, used, rest, relation);
      EdgeAhead(AddAll(low, rest, relation), AddAll(high, rest, relation), x, used, l.a, l.b, relation, l.weight);
    }
  }

  // Both stores ask for the same entity links: ids and contents are the same.
  lemma {:induction false} SameTokens(low: State, high: State, x: Id, used: bool,
      ids: seq<Id>, tokenize: string -> set<string>)
    requires Ahead(low, high, x, used) && forall id :: id in ids ==> id in low.nodes && id in high.nodes
    ensures TokensFor(high, ids, tokenize) == TokensFor(low, ids, tokenize)
  {
    if ids != [] {
      SameTokens(low, high, x, used, ids[..|ids| - 1], tokenize);
      assert ids[|ids| - 1] in ids;
    }
  }

  lemma KinAhead(low: State, high: State, x: Id, used: bool,
      tokenize: string -> set<string>, maxFrequency: nat, minShared: nat)
    requires Ahead(low, high, x, used)
    ensures Ahead(LinkByEntities(low, tokenize, maxFrequency, minShared),
                  LinkByEntities(high, tokenize, maxFrequency, minShared), x, used)
  {
    AheadKeys(low, high, x, used);
    AscendingLists(low.nodes.Keys);
    SameTokens(low, high, x, used, Ascending(low.nodes.Keys), tokenize);
    LinksAhead(low, high, x, used, EntityLinksOf(low, tokenize, maxFrequency, minShared), SHARED);
  }

  lemma AffectAhead(low: State, high: State, x: Id, used: bool, id: Id, affect: Affect)
    requires Ahead(low, high, x, used)
    ensures Ahead(SetAffect(low, id, affect), SetAffect(high, id, affect), x, used)
  {
    AheadKeys(low, high, x, used);
    AheadFrom(SetAffect(low, id, affect), SetAffect(high, id, affect), x, used);
  }

  lemma AccessAhead(low: State, high: State, x: Id, used: bool, id: Id)
    requires Ahead(low, high, x, used)
    ensures Ahead(RecordAccess(low, id), RecordAccess(high, id), x, used)
  {
    AheadKeys(low, high, x, used);
    AheadFrom(RecordAccess(low, id), RecordAccess(high, id), x, used);
  }

  lemma VerdictAhead(low: State, high: State, x: Id, used: bool, id: Id, helpful: bool)
    requires Ahead(low, high, x, used)
    ensures Ahead(RecordFeedback(low, id, helpful), RecordFeedback(high, id, helpful), x, used)
  {
    AheadKeys(low, high, x, used);
    AheadFrom(RecordFeedback(low, id, helpful), RecordFeedback(high, id, helpful), x, used);
  }

  lemma PromoteAhead(low: State, high: State, x: Id, used: bool, minConfirmations: nat, level: CanonLevel)
    requires Ahead(low, high, x, used)
    ensures Ahead(Promote(low, minConfirmations, level), Promote(high, minConfirmations, level), x, used)
  {
    AheadKeys(low, high, x, used);
    AheadFrom(Promote(low, minConfirmations, level), Promote(high, minConfirmations, level), x, used);
  }

  lemma PruneAhead(low: State, high: State, x: Id, used: bool, threshold: real)
    requires Ahead(low, high, x, used)
    ensures Ahead(Pruning.Prune(low, threshold), Pruning.Prune(high, threshold), x, used)
  {
    AheadKeys(low, high, x, used);
  }

  // Where x survives, favoring it changes nothing about who goes.
  lemma SameEvicted(low: State, high: State, x: Id, used: bool, maxNodes: nat)
    requires Ahead(low, high, x, used) && x !in Evicted(low, maxNodes)
    ensures Evicted(high, maxNodes) == Evicted(low, maxNodes)
  {
    var n := high.nodes[x];
    AheadKeys(low, high, x, used);
    EvictedCount(low, maxNodes);
    EvictedCount(high, maxNodes);
    assert Raises(low, x, n);
    forall id | id in Evicted(low, maxNodes) ensures id in Evicted(high, maxNodes) {
      RaisedSavesNobodyElse(low, x, n, maxNodes, id);
    }
    assert EphemeralIds(high) <= EphemeralIds(low);
    SubsetCount(EphemeralIds(high), EphemeralIds(low));
    SubsetCount(Evicted(low, maxNodes), Evicted(high, maxNodes));
    SameSizeSubset(Evicted(low, maxNodes), Evicted(high, maxNodes));
  }

  lemma SameSizeSubset<T>(a: set<T>, b: set<T>)
    requires a <= b && |b| <= |a|
    ensures a == b
  {
    assert b == a + (b - a);
  }

  lemma ShrinkAhead(low: State, high: State, x: Id, used: bool, maxNodes: nat)
    requires Ahead(low, high, x, used) && Survives(low, maxNodes, x)
    ensures Ahead(EnforceCapacity(low, maxNodes), EnforceCapacity(high, maxNodes), x, used)
  {
    AheadKeys(low, high, x, used);
    SameEvicted(low, high, x, used, maxNodes);
    DropAhead(low, high, x, used, Evicted(low, maxNodes));
  }

  lemma DropAhead(low: State, high: State, x: Id, used: bool, dead: set<Id>)
    requires Ahead(low, high, x, used) && x !in dead
    ensures Ahead(Drop(low, dead), Drop(high, dead), x, used)
  {
    AheadKeys(low, high, x, used);
    AheadFrom(Drop(low, dead), Drop(high, dead), x, used);
  }

  lemma StepAhead(low: State, high: State, x: Id, used: bool, op: H.Op)
    requires Ahead(low, high, x, used) && x in H.Apply(low, op).nodes
    requires op.Create? ==> FreshId(low) != x
    ensures Ahead(H.Apply(low, op), H.Apply(high, op), x, used)
  {
    match op
    case Create(draft) => CreateAhead(low, high, x, used, draft);
    case Connect(a, b, relation, weight) => EdgeAhead(low, high, x, used, a, b, relation, weight);
    case JoinAll(links, relation) => LinksAhead(low, high, x, used, links, relation);
    case JoinKin(tokenize, maxFrequency, minShared) => KinAhead(low, high, x, used, tokenize, maxFrequency, minShared);
    case Feel(id, affect) => AffectAhead(low, high, x, used, id, affect);
    case Touch(id) => AccessAhead(low, high, x, used, id);
    case Verdict(id, helpful) => VerdictAhead(low, high, x, used, id, helpful);
    case Canonize(minConfirmations, level) => PromoteAhead(low, high, x, used, minConfirmations, level);
    case Shrink(maxNodes) => ShrinkAhead(low, high, x, used, maxNodes);
    case Thin(threshold) => PruneAhead(low, high, x, used, threshold);
  }

  // ---- Whole runs

  lemma {:induction false} RunConcat(c: H.Counted, a: seq<H.Op>, b: seq<H.Op>)
    ensures H.Run(c, a + b) == H.Run(H.Run(c, a), b)
  {
    if b == [] {
      assert a + b == a;
    } else {
      RunConcat(c, a, b[..|b| - 1]);
      assert (a + b)[..|a + b| - 1] == a + b[..|b| - 1];
    }
  }

  lemma LiveIsIssued(s: H.Supply, c: H.Counted, x: Id)
    requires H.Healthy(s, c) && x in c.g.nodes
    ensures H.Issued(s, c.ids, x)
  {
  }

  // A node of an earlier state that lives after a step lived before it, and is not born by it.
  lemma LivedBefore(s: H.Supply, c: H.Counted, mid: H.Counted, op: H.Op, x: Id)
    requires H.ValidSupply(s) && H.Healthy(s, c) && H.Healthy(s, mid) && c.ids <= mid.ids
    requires H.WithinBudget(H.Step(mid, op))
    requires x in c.g.nodes && x in H.Apply(mid.g, op).nodes
    ensures x in mid.g.nodes && (op.Create? ==> FreshId(mid.g) != x)
  {
    LiveIsIssued(s, c, x);
    H.IssuedGrows(s, c.ids, mid.ids, x);
    H.StepEvolves(s, mid, op);
    if op.Create? {
      H.FreshIdIsNew(s, mid.g, mid.ids);
    }
  }

  // Two stores a fixed number of ticks apart since a given moment, `high` ahead in x, stay so through
  // any run at whose end x lives.
  lemma {:induction false} RunAhead(s: H.Supply, low: H.Counted, high: H.Counted, at: nat, d: nat,
      ops: seq<H.Op>, x: Id, used: bool)
    requires H.ValidSupply(s) && H.Healthy(s, low) && H.WithinBudget(H.Run(low, ops))
    requires at <= low.ticks && H.Run(low, ops).ticks + d < WORD
    requires Ahead(Delayed(low.g, at, d), high.g, x, used) && x in H.Run(low, ops).g.nodes
    ensures Ahead(Delayed(H.Run(low, ops).g, at, d), H.Run(high, ops).g, x, used)
  {
    if ops != [] {
      var front, last := ops[..|ops| - 1], ops[|ops| - 1];
      H.RunMonotone(low, front);
      H.RunKeeps(s, low, front);
      ShiftKeys(low.g, at, d);
      LivedBefore(s, low, H.Run(low, front), last, x);
      RunAhead(s, low, high, at, d, front, x, used);
      OneStepAhead(s, H.Run(low, front), H.Run(high, front), at, d, last, x, used);
    }
  }

  lemma OneStepAhead(s: H.Supply, low: H.Counted, high: H.Counted, at: nat, d: nat,
      op: H.Op, x: Id, used: bool)
    requires H.Healthy(s, low) && at <= low.ticks && H.Step(low, op).ticks + d < WORD
    requires Ahead(Delayed(low.g, at, d), high.g, x, used) && x in H.Apply(low.g, op).nodes
    requires op.Create? ==> FreshId(low.g) != x
    ensures Ahead(Delayed(H.Apply(low.g, op), at, d), H.Apply(high.g, op), x, used)
  {
    ClockIsTicks(s, low);
    StepShifts(low.g, at, d, op);
    ShiftKeys(H.Apply(low.g, op), at, d);
    StepAhead(Delayed(low.g, at, d), high.g, x, used, op);
  }

  // ---- One verdict or access more

  lemma JudgedFavored(s: H.Supply, c: H.Counted, x: Id)
    requires H.Healthy(s, c) && x in c.g.nodes
    ensures Ahead(c.g, RecordFeedback(c.g, x, true), x, false)
    ensures Ahead(RecordFeedback(c.g, x, false), c.g, x, false)
  {
    assert H.NodeOk(c.g.nodes[x], c.g.clock);
    assert RecordFeedback(c.g, x, false).nodes[x := c.g.nodes[x]] == c.g.nodes;
  }

  lemma LiveIsOk(s: H.Supply, c: H.Counted, id: Id)
    requires H.Healthy(s, c) && id in c.g.nodes
    ensures H.NodeOk(c.g.nodes[id], c.ticks)
  {
    ClockIsTicks(s, c);
  }

  // Nothing has happened yet after the moment of the shift.
  lemma NowUnshifted(s: H.Supply, c: H.Counted, d: nat)
    requires H.Healthy(s, c)
    ensures Delayed(c.g, c.ticks, d) == c.g.(clock := c.ticks + d)
  {
    ClockIsTicks(s, c);
    forall id | id in c.g.nodes ensures ShiftNode(c.g.nodes[id], c.ticks, d) == c.g.nodes[id] {
      LiveIsOk(s, c, id);
    }
    assert ShiftNodes(c.g.nodes, c.ticks, d) == c.g.nodes;
  }

  lemma TouchedFavored(s: H.Supply, c: H.Counted, x: Id)
    requires H.Healthy(s, c) && x in c.g.nodes && c.ticks + 1 < WORD
    ensures Ahead(Delayed(c.g, c.ticks, 1), RecordAccess(c.g, x), x, true)
  {
    ClockIsTicks(s, c);
    NowUnshifted(s, c, 1);
    LiveIsOk(s, c, x);
    AheadFrom(Delayed(c.g, c.ticks, 1), RecordAccess(c.g, x), x, true);
  }

  lemma AheadOfItself(g: State, x: Id, used: bool, clock: nat, at: nat, d: nat)
    requires x in g.nodes && H.NodeOk(g.nodes[x], clock)
    ensures Ahead(Delayed(g, at, d), Delayed(g, at, d), x, used)
  {
    AheadFrom(Delayed(g, at, d), Delayed(g, at, d), x, used);
  }

  lemma InsertedSplit(c: H.Counted, a: seq<H.Op>, v: H.Op, b: seq<H.Op>)
    ensures H.Run(c, a + b) == H.Run(H.Run(c, a), b)
    ensures H.Run(c, a + [v] + b) == H.Run(H.Step(H.Run(c, a), v), b)
  {
    RunConcat(c, a, b);
    RunConcat(c, a + [v], b);
    assert (a + [v])[..|a|] == a;
  }

  lemma UnknownVerdict(c: H.Counted, x: Id, helpful: bool)
    requires x !in c.g.nodes
    ensures H.Step(c, H.Verdict(x, helpful)) == c
  {
  }

  lemma EndsAhead(s: H.Supply, c: H.Counted, b: seq<H.Op>, x: Id)
    requires H.ValidSupply(s) && H.Healthy(s, c) && H.WithinBudget(H.Run(c, b)) && x in H.Run(c, b).g.nodes
    ensures Ahead(H.Run(c, b).g, H.Run(c, b).g, x, false)
  {
    H.RunKeeps(s, c, b);
    LiveIsOk(s, H.Run(c, b), x);
    AheadOfItself(H.Run(c, b).g, x, false, H.Run(c, b).ticks, 0, 0);
    ShiftNone(H.Run(c, b).g, 0);
  }

  // The case of no shift.
  lemma RunAheadNow(s: H.Supply, low: H.Counted, high: H.Counted, b: seq<H.Op>, x: Id)
    requires H.ValidSupply(s) && H.Healthy(s, low) && H.WithinBudget(H.Run(low, b))
    requires Ahead(low.g, high.g, x, false) && x in H.Run(low, b).g.nodes
    ensures Ahead(H.Run(low, b).g, H.Run(high, b).g, x, false)
  {
    ShiftNone(low.g, 0);
    ShiftNone(H.Run(low, b).g, 0);
    RunAhead(s, low, high, 0, 0, b, x, false);
  }

  lemma ConfirmedBefore(s: H.Supply, c: H.Counted, b: seq<H.Op>, x: Id)
    requires H.ValidSupply(s) && H.Healthy(s, c) && H.WithinBudget(H.Run(c, b)) && x in H.Run(c, b).g.nodes
    ensures Ahead(H.Run(c, b).g, H.Run(H.Step(c, H.Verdict(x, true)), b).g, x, false)
  {
    if x in c.g.nodes {
      JudgedFavored(s, c, x);
      RunAheadNow(s, c, H.Step(c, H.Verdict(x, true)), b, x);
    } else {
      UnknownVerdict(c, x, true);
      EndsAhead(s, c, b, x);
    }
  }

  lemma RejectedBefore(s: H.Supply, c: H.Counted, b: seq<H.Op>, x: Id)
    requires H.ValidSupply(s) && H.Healthy(s, c) && H.WithinBudget(c)
    requires H.WithinBudget(H.Run(H.Step(c, H.Verdict(x, false)), b))
    requires x in H.Run(H.Step(c, H.Verdict(x, false)), b).g.nodes
    ensures Ahead(H.Run(H.Step(c, H.Verdict(x, false)), b).g, H.Run(c, b).g, x, false)
  {
    if x in c.g.nodes {
      JudgedFavored(s, c, x);
      H.StepKeeps(s, c, H.Verdict(x, false));
      RunAheadNow(s, H.Step(c, H.Verdict(x, false)), c, b, x);
    } else {
      UnknownVerdict(c, x, false);
      EndsAhead(s, c, b, x);
    }
  }

  lemma TouchedBefore(s: H.Supply, c: H.Counted, b: seq<H.Op>, x: Id)
    requires H.ValidSupply(s) && H.Healthy(s, c) && H.WithinBudget(H.Run(c, b)) && x in H.Run(c, b).g.nodes
    requires H.Run(c, b).ticks + 1 < WORD
    ensures Ahead(Delayed(H.Run(c, b).g, c.ticks, 1), H.Run(H.Step(c, H.Touch(x)), b).g, x, true)
  {
    H.RunMonotone(c, b);
    if x in c.g.nodes {
      TouchedFavored(s, c, x);
      RunAhead(s, c, H.Step(c, H.Touch(x)), c.ticks, 1, b, x, true);
    } else {
      UnknownTouch(s, c, x);
      RunShifts(s, c, H.Step(c, H.Touch(x)), c.ticks, 1, b);
      H.RunKeeps(s, c, b);
      LiveIsOk(s, H.Run(c, b), x);
      AheadOfItself(H.Run(c, b).g, x, true, H.Run(c, b).ticks, c.ticks, 1);
    }
  }

  lemma UnknownTouch(s: H.Supply, c: H.Counted, x: Id)
    requires H.Healthy(s, c) && x !in c.g.nodes && c.ticks + 1 < WORD
    ensures H.Step(c, H.Touch(x)).g == Delayed(c.g, c.ticks, 1)
  {
    ClockIsTicks(s, c);
    NowUnshifted(s, c, 1);
  }

  // Insert one confirmation of x anywhere into a run. If x was live at the end, it still is; the
  // other nodes, the edges, the clock and the ids to come are what they were; and x is no less
  // important, confirmed or permanent.
  lemma ConfirmationInserted(s: H.Supply, c: H.Counted, a: seq<H.Op>, b: seq<H.Op>, x: Id)
    requires H.ValidSupply(s) && H.Healthy(s, c) && H.WithinBudget(H.Run(c, a + b))
    requires x in H.Run(c, a + b).g.nodes
    ensures Ahead(H.Run(c, a + b).g, H.Run(c, a + [H.Verdict(x, true)] + b).g, x, false)
  {
    InsertedSplit(c, a, H.Verdict(x, true), b);
    H.RunMonotone(H.Run(c, a), b);
    H.RunKeeps(s, c, a);
    ConfirmedBefore(s, H.Run(c, a), b, x);
  }

  // Insert one rejection of x anywhere into a run. If x is live at the end all the same, it was
  // without the rejection, with everything else as it is.
  lemma RejectionInserted(s: H.Supply, c: H.Counted, a: seq<H.Op>, b: seq<H.Op>, x: Id)
    requires H.ValidSupply(s) && H.Healthy(s, c) && H.WithinBudget(H.Run(c, a + [H.Verdict(x, false)] + b))
    requires x in H.Run(c, a + [H.Verdict(x, false)] + b).g.nodes
    ensures Ahead(H.Run(c, a + [H.Verdict(x, false)] + b).g, H.Run(c, a + b).g, x, false)
  {
    InsertedSplit(c, a, H.Verdict(x, false), b);
    H.RunMonotone(H.Step(H.Run(c, a), H.Verdict(x, false)), b);
    H.RunKeeps(s, c, a);
    RejectedBefore(s, H.Run(c, a), b, x);
  }

  // Insert one access of x anywhere into a run. If x was live at the end, it still is, no less
  // recent or used; everything else is what it was, but for ticks after the access, which come one
  // later.
  lemma AccessInserted(s: H.Supply, c: H.Counted, a: seq<H.Op>, b: seq<H.Op>, x: Id)
    requires H.ValidSupply(s) && H.Healthy(s, c) && H.WithinBudget(H.Run(c, a + b))
    requires H.Run(c, a + b).ticks + 1 < WORD && x in H.Run(c, a + b).g.nodes
    ensures Ahead(Delayed(H.Run(c, a + b).g, H.Run(c, a).ticks, 1), H.Run(c, a + [H.Touch(x)] + b).g, x, true)
  {
    InsertedSplit(c, a, H.Touch(x), b);
    H.RunMonotone(H.Run(c, a), b);
    H.RunKeeps(s, c, a);
    TouchedBefore(s, H.Run(c, a), b, x);
  }
}
