// Only the order of ticks matters: a store whose clock is some ticks ahead since a given moment does
// everything the original does, on the shifted ticks.
module TickShift {
  import opened Eviction
  import opened Graph
  import H = GraphHistory
  import opened IdGenerator
  import opened IdOrder
  import opened Linking
  import opened Provenance
  import opened Words

  // Ticks up to `at` stay; later ones come d later.
  function ShiftTick(t: nat, at: nat, d: nat): nat {
    if t <= at then t else t + d
  }

  function ShiftNode(n: Node, at: nat, d: nat): Node {
    n.(createdAt := ShiftTick(n.createdAt, at, d), lastAccessedAt := ShiftTick(n.lastAccessedAt, at, d))
  }

  function ShiftNodes(nodes: map<Id, Node>, at: nat, d: nat): map<Id, Node> {
    map id | id in nodes :: ShiftNode(nodes[id], at, d)
  }

  function Delayed(g: State, at: nat, d: nat): State {
    State(ShiftNodes(g.nodes, at, d), g.edges, g.clock + d, g.seed)
  }

  lemma ShiftKeys(g: State, at: nat, d: nat)
    ensures Delayed(g, at, d).nodes.Keys == g.nodes.Keys && |Delayed(g, at, d).nodes| == |g.nodes|
  {
    assert Delayed(g, at, d).nodes.Keys == g.nodes.Keys;
    assert |Delayed(g, at, d).nodes| == |Delayed(g, at, d).nodes.Keys| && |g.nodes| == |g.nodes.Keys|;
  }

  lemma ShiftNone(g: State, at: nat)
    ensures Delayed(g, at, 0) == g
  {
    assert ShiftNodes(g.nodes, at, 0) == g.nodes;
  }

  lemma ShiftUpdate(nodes: map<Id, Node>, at: nat, d: nat, id: Id, n: Node)
    ensures ShiftNodes(nodes[id := n], at, d) == ShiftNodes(nodes, at, d)[id := ShiftNode(n, at, d)]
  {
  }

  // ---- One step

  lemma BirthShifts(id: Id, draft: Draft, now: nat, at: nat, d: nat)
    requires at < now
    ensures ShiftNode(NewNode(id, draft, now), at, d) == NewNode(id, draft, now + d)
  {
  }

  // How to recognize a shifted store.
  lemma ShiftFrom(g': State, g: State, at: nat, d: nat)
    requires g'.nodes.Keys == g.nodes.Keys && g'.edges == g.edges
    requires g'.clock == g.clock + d && g'.seed == g.seed
    requires forall id :: id in g.nodes ==> g'.nodes[id] == ShiftNode(g.nodes[id], at, d)
    ensures g' == Delayed(g, at, d)
  {
    assert g'.nodes == ShiftNodes(g.nodes, at, d);
  }

  lemma CreateShifts(g: State, at: nat, d: nat, draft: Draft)
    requires at <= g.clock && g.clock + 1 + d < WORD
    ensures CreateNode(Delayed(g, at, d), draft) == Delayed(CreateNode(g, draft), at, d)
  {
    TickIs(g.clock);
    TickIs(g.clock + d);
    BirthShifts(FreshId(g), draft, g.clock + 1, at, d);
    ShiftFrom(CreateNode(Delayed(g, at, d), draft), CreateNode(g, draft), at, d);
  }

  lemma TickIs(clock: nat)
    requires clock + 1 < WORD
    ensures Tick(clock) == clock + 1
  {
  }

  lemma EdgeShifts(g: State, at: nat, d: nat, a: Id, b: Id, relation: string, weight: real)
    ensures AddEdge(Delayed(g, at, d), a, b, relation, weight) == Delayed(AddEdge(g, a, b, relation, weight), at, d)
  {
  }

  lemma {:induction false} LinksShift(g: State, at: nat, d: nat, links: seq<Link>, relation: string)
    ensures AddAll(Delayed(g, at, d), links, relation) == Delayed(AddAll(g, links, relation), at, d)
  {
    if links != [] {
      var rest, l := links[..|links| - 1], links[|links| - 1];
      LinksShift(g, at, d, rest, relation);
      EdgeShifts(AddAll(g, rest, relation), at, d, l.a, l.b, relation, l.weight);
    }
  }

  lemma {:induction false} TokensShift(g: State, at: nat, d: nat, ids: seq<Id>, tokenize: string -> set<string>)
    requires forall id :: id in ids ==> id in g.nodes
    ensures TokensFor(Delayed(g, at, d), ids, tokenize) == TokensFor(g, ids, tokenize)
  {
    if ids != [] {
      TokensShift(g, at, d, ids[..|ids| - 1], tokenize);
      assert ids[|ids| - 1] in ids;
    }
  }

  lemma KinShifts(g: State, at: nat, d: nat, tokenize: string -> set<string>, maxFrequency: nat, minShared: nat)
    ensures LinkByEntities(Delayed(g, at, d), tokenize, maxFrequency, minShared) ==
            Delayed(LinkByEntities(g, tokenize, maxFrequency, minShared), at, d)
  {
    ShiftKeys(g, at, d);
    AscendingLists(g.nodes.Keys);
    TokensShift(g, at, d, Ascending(g.nodes.Keys), tokenize);
    LinksShift(g, at, d, EntityLinksOf(g, tokenize, maxFrequency, minShared), SHARED);
  }

  lemma AffectShifts(g: State, at: nat, d: nat, id: Id, affect: Affect)
    ensures SetAffect(Delayed(g, at, d), id, affect) == Delayed(SetAffect(g, id, affect), at, d)
  {
    if id in g.nodes {
      ShiftUpdate(g.nodes, at, d, id, g.nodes[id].(affect := affect));
    }
  }

  lemma AccessShifts(g: State, at: nat, d: nat, id: Id)
    requires at <= g.clock && g.clock + 1 + d < WORD
    ensures RecordAccess(Delayed(g, at, d), id) == Delayed(RecordAccess(g, id), at, d)
  {
    if id in g.nodes {
      ShiftUpdate(g.nodes, at, d, id, Accessed(g.nodes[id], Tick(g.clock)));
    }
  }

  lemma VerdictShifts(g: State, at: nat, d: nat, id: Id, helpful: bool)
    ensures RecordFeedback(Delayed(g, at, d), id, helpful) == Delayed(RecordFeedback(g, id, helpful), at, d)
  {
    if id in g.nodes {
      ShiftUpdate(g.nodes, at, d, id, Judged(g.nodes[id], helpful));
    }
  }

  lemma PromoteShifts(g: State, at: nat, d: nat, minConfirmations: nat, level: CanonLevel)
    ensures Promote(Delayed(g, at, d), minConfirmations, level) == Delayed(Promote(g, minConfirmations, level), at, d)
  {
    assert Promote(Delayed(g, at, d), minConfirmations, level).nodes ==
           Delayed(Promote(g, minConfirmations, level), at, d).nodes;
  }

  // The shift keeps the order of ticks, so nobody's rivals change.
  lemma CheaperShifts(g: State, at: nat, d: nat, a: Id, b: Id)
    requires a in g.nodes && b in g.nodes
    ensures Cheaper(Summary(Delayed(g, at, d), a), Summary(Delayed(g, at, d), b)) <==>
            Cheaper(Summary(g, a), Summary(g, b))
  {
  }

  lemma EvictedShifts(g: State, at: nat, d: nat, maxNodes: nat)
    ensures Evicted(Delayed(g, at, d), maxNodes) == Evicted(g, maxNodes)
  {
    var g' := Delayed(g, at, d);
    ShiftKeys(g, at, d);
    assert EphemeralIds(g') == EphemeralIds(g);
    forall id ensures id in Evicted(g', maxNodes) <==> id in Evicted(g, maxNodes) {
      EvictedIffRank(g, maxNodes, id);
      EvictedIffRank(g', maxNodes, id);
      if id in g.nodes {
        RivalsShift(g, at, d, id);
      }
    }
  }

  lemma RivalsShift(g: State, at: nat, d: nat, id: Id)
    requires id in g.nodes
    ensures Rivals(Delayed(g, at, d), id) == Rivals(g, id)
  {
    assert EphemeralIds(Delayed(g, at, d)) == EphemeralIds(g);
    forall m | m in EphemeralIds(g) ensures m in Rivals(Delayed(g, at, d), id) <==> m in Rivals(g, id) {
      CheaperShifts(g, at, d, m, id);
    }
  }

  lemma ShrinkShifts(g: State, at: nat, d: nat, maxNodes: nat)
    ensures EnforceCapacity(Delayed(g, at, d), maxNodes) == Delayed(EnforceCapacity(g, maxNodes), at, d)
  {
    EvictedShifts(g, at, d, maxNodes);
    var dead := Evicted(g, maxNodes);
    assert ShiftNodes(g.nodes, at, d) - dead == ShiftNodes(g.nodes - dead, at, d);
  }

  lemma StepShifts(g: State, at: nat, d: nat, op: H.Op)
    requires at <= g.clock && g.clock + H.TicksDrawn(op) + d < WORD
    ensures H.Apply(Delayed(g, at, d), op) == Delayed(H.Apply(g, op), at, d)
  {
    match op
    case Create(draft) => CreateShifts(g, at, d, draft);
    case Connect(a, b, relation, weight) => EdgeShifts(g, at, d, a, b, relation, weight);
    case JoinAll(links, relation) => LinksShift(g, at, d, links, relation);
    case JoinKin(tokenize, maxFrequency, minShared) => KinShifts(g, at, d, tokenize, maxFrequency, minShared);
    case Feel(id, affect) => AffectShifts(g, at, d, id, affect);
    case Touch(id) => AccessShifts(g, at, d, id);
    case Verdict(id, helpful) => VerdictShifts(g, at, d, id, helpful);
    case Canonize(minConfirmations, level) => PromoteShifts(g, at, d, minConfirmations, level);
    case Shrink(maxNodes) => ShrinkShifts(g, at, d, maxNodes);
    case Thin(threshold) =>
  }

  // ---- Runs

  lemma ClockIsTicks(s: H.Supply, c: H.Counted)
    requires H.Healthy(s, c)
    ensures c.g.clock == c.ticks
  {
  }

  // A run from a shifted store ends in the shifted store.
  lemma {:induction false} RunShifts(s: H.Supply, c: H.Counted, c': H.Counted, at: nat, d: nat, ops: seq<H.Op>)
    requires H.ValidSupply(s) && H.Healthy(s, c) && H.WithinBudget(H.Run(c, ops))
    requires at <= c.ticks && H.Run(c, ops).ticks + d < WORD && c'.g == Delayed(c.g, at, d)
    ensures H.Run(c', ops).g == Delayed(H.Run(c, ops).g, at, d)
  {
    if ops != [] {
      var front, last := ops[..|ops| - 1], ops[|ops| - 1];
      H.RunMonotone(c, front);
      H.RunKeeps(s, c, front);
      ClockIsTicks(s, H.Run(c, front));
      RunShifts(s, c, c', at, d, front);
      StepShifts(H.Run(c, front).g, at, d, last);
    }
  }
}
