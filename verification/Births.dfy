// Where the nodes of a run come from: every live node goes back to one AddNode call, its standing and
// its counters come from the verdicts since, and it is canon only if it was added so or promoted on them.
module Births {
  import opened Engine
  import opened Graph
  import opened IdGenerator
  import opened Provenance

  // Helpful verdicts on a node.
  function Helpful(calls: seq<Call>, id: Id): nat {
    if calls == [] then 0
    else
      var last := calls[|calls| - 1];
      Helpful(calls[..|calls| - 1], id) + (if last.Feedback? && last.id == id && last.helpful != 0 then 1 else 0)
  }

  function Unhelpful(calls: seq<Call>, id: Id): nat {
    if calls == [] then 0
    else
      var last := calls[|calls| - 1];
      Unhelpful(calls[..|calls| - 1], id) + (if last.Feedback? && last.id == id && last.helpful == 0 then 1 else 0)
  }

  // The ceiling on importance that goes with a source byte, in hundredths.
  function Ceiling(source: nat): int {
    if source == 0 || source == 4 then 100
    else if source == 1 then 70
    else if source == 2 then 40
    else if source == 3 then 85
    else 50
  }

  // The importance of a node after the verdicts of a run: it starts at 45, a helpful verdict adds 15 and
  // any other takes 20, never above the ceiling and never below 0.
  function Standing(calls: seq<Call>, id: Id, ceiling: int): int {
    if calls == [] then Min(45, ceiling)
    else
      var last := calls[|calls| - 1];
      var before := Standing(calls[..|calls| - 1], id, ceiling);
      if !last.Feedback? || last.id != id then before
      else if last.helpful != 0 then Min(before + 15, ceiling)
      else Max(before - 20, 0)
  }

  // The feeling set last, each part held within its range.
  function Feeling(calls: seq<Call>, id: Id): Affect {
    if calls == [] then Affect(0.0, 0.2, 0.1)
    else
      var last := calls[|calls| - 1];
      if !last.SetNodeAffect? || last.id != id then Feeling(calls[..|calls| - 1], id)
      else Affect(Within(last.valence, -1.0), Within(last.arousal, 0.0), Within(last.intensity, 0.0))
  }

  function Within(x: real, low: real): real {
    if x < low then low else if x > 1.0 then 1.0 else x
  }

  // Call number i of the run added the node named id.
  ghost predicate AddedAt(calls: seq<Call>, i: nat, id: Id) {
    i < |calls| && calls[i].AddNode? && id == FreshId(RunCalls(FRESH, calls[..i]).graph)
  }

  // What the run says of a node that call number i added.
  ghost predicate Accounts(calls: seq<Call>, i: nat, n: Node, m: nat) {
    && AddedAt(calls, i, n.id)
    && n.content == calls[i].content && n.cell == calls[i].cell && n.tags == calls[i].tags
    && n.source == SourceFromByte(calls[i].source)
    && n.importance == Standing(calls[i + 1..], n.id, Ceiling(calls[i].source))
    && n.affect == Feeling(calls[i + 1..], n.id)
    && n.confirmations == Min(Helpful(calls[i + 1..], n.id), 4294967295)
    && n.rejections == Min(Unhelpful(calls[i + 1..], n.id), 4294967295)
    && (n.canon == NotCanon || n.canon == CanonFromByte(calls[i].canon) || Helpful(calls[i + 1..], n.id) >= m)
    && (n.ephemeral <==> n.canon == NotCanon)
  }

  // No promotion of the run asks for fewer than m confirmations.
  ghost predicate Demanding(calls: seq<Call>, m: nat) {
    forall call :: call in calls && call.PromoteConfirmed? ==> call.minConfirmations >= m
  }

  ghost predicate Accounted(calls: seq<Call>, n: Node, m: nat) {
    match n case Node(_, _, _, _, _, _, _, _, _, _, _, _, _, _) =>
      n.confirmations <= 4294967295 && n.rejections <= 4294967295 && exists i :: Accounts(calls, i, n, m)
  }

  ghost predicate AllAccounted(calls: seq<Call>, g: State, m: nat) {
    forall id :: id in g.nodes ==> g.nodes[id].id == id && Accounted(calls, g.nodes[id], m)
  }

  // ---- One call

  lemma VerdictsAppend(calls: seq<Call>, call: Call, id: Id)
    ensures Helpful(calls + [call], id) ==
            Helpful(calls, id) + (if call.Feedback? && call.id == id && call.helpful != 0 then 1 else 0)
    ensures Unhelpful(calls + [call], id) ==
            Unhelpful(calls, id) + (if call.Feedback? && call.id == id && call.helpful == 0 then 1 else 0)
  {
    assert (calls + [call])[..|calls|] == calls;
  }

  lemma StandingAppend(calls: seq<Call>, call: Call, id: Id, ceiling: int)
    ensures Standing(calls + [call], id, ceiling) ==
            if !call.Feedback? || call.id != id then Standing(calls, id, ceiling)
            else if call.helpful != 0 then Min(Standing(calls, id, ceiling) + 15, ceiling)
            else Max(Standing(calls, id, ceiling) - 20, 0)
    ensures Feeling(calls + [call], id) ==
            if !call.SetNodeAffect? || call.id != id then Feeling(calls, id)
            else Affect(Within(call.valence, -1.0), Within(call.arousal, 0.0), Within(call.intensity, 0.0))
  {
    assert (calls + [call])[..|calls|] == calls;
  }

  lemma AddedStill(calls: seq<Call>, call: Call, i: nat, id: Id)
    requires AddedAt(calls, i, id)
    ensures AddedAt(calls + [call], i, id) && (calls + [call])[i + 1..] == calls[i + 1..] + [call]
  {
    assert (calls + [call])[..i] == calls[..i];
  }

  // What one call makes of a node it does not add.
  ghost predicate Aged(n: Node, n': Node, call: Call) {
    && n'.id == n.id && n'.content == n.content && n'.cell == n.cell && n'.tags == n.tags && n'.source == n.source
    && n'.confirmations == (if call.Feedback? && call.id == n.id && call.helpful != 0
                            then Min(n.confirmations + 1, 4294967295) else n.confirmations)
    && n'.rejections == (if call.Feedback? && call.id == n.id && call.helpful == 0
                         then Min(n.rejections + 1, 4294967295) else n.rejections)
    && n'.importance == (if !call.Feedback? || call.id != n.id then n.importance
                         else if call.helpful != 0 then Min(n.importance + 15, n.source.MaxImportanceCap())
                         else Max(n.importance - 20, 0))
    && n'.affect == (if !call.SetNodeAffect? || call.id != n.id then n.affect
                     else Affect(Within(call.valence, -1.0), Within(call.arousal, 0.0), Within(call.intensity, 0.0)))
    && (n'.canon == n.canon || (call.PromoteConfirmed? && n.confirmations >= call.minConfirmations))
    && n.confirmations <= 4294967295 && n.rejections <= 4294967295
    && ((n.ephemeral <==> n.canon == NotCanon) ==> (n'.ephemeral <==> n'.canon == NotCanon))
  }

  lemma CeilingIs(source: nat)
    ensures SourceFromByte(source).MaxImportanceCap() == Ceiling(source)
  {
  }

  lemma AgedAccounts(calls: seq<Call>, call: Call, i: nat, n: Node, n': Node, m: nat)
    requires Accounts(calls, i, n, m) && Aged(n, n', call)
    requires call.PromoteConfirmed? ==> call.minConfirmations >= m
    ensures Accounts(calls + [call], i, n', m)
  {
    AddedStill(calls, call, i, n.id);
    VerdictsAppend(calls[i + 1..], call, n.id);
    StandingAppend(calls[i + 1..], call, n.id, Ceiling(calls[i].source));
    CeilingIs(calls[i].source);
  }

  lemma AddedLast(calls: seq<Call>, call: Call, id: Id)
    requires call.AddNode? && id == FreshId(RunCalls(FRESH, calls).graph)
    ensures AddedAt(calls + [call], |calls|, id)
  {
    assert (calls + [call])[..|calls|] == calls;
  }

  lemma NewAccounts(calls: seq<Call>, call: Call, n: Node, m: nat)
    requires calls != [] && AddedAt(calls, |calls| - 1, n.id) && calls[|calls| - 1] == call
    requires n.content == call.content && n.cell == call.cell && n.tags == call.tags
    requires n.source == SourceFromByte(call.source) && n.canon == CanonFromByte(call.canon)
    requires n.importance == Min(45, Ceiling(call.source)) && n.affect == Affect(0.0, 0.2, 0.1)
    requires n.confirmations == 0 && n.rejections == 0 && (n.ephemeral <==> n.canon == NotCanon)
    ensures Accounts(calls, |calls| - 1, n, m)
  {
    assert calls[|calls|..] == [];
  }

  lemma EvictionAges(s: EngineState, call: Call, id: Id)
    requires call.Enforce? && id in After(s, call).graph.nodes
    ensures id in s.graph.nodes && After(s, call).graph.nodes[id] == s.graph.nodes[id]
  {
  }

  lemma AddingAges(s: EngineState, call: Call, id: Id)
    requires call.AddNode? && id in After(s, call).graph.nodes && id != FreshId(s.graph)
    ensures id in s.graph.nodes && After(s, call).graph.nodes[id] == s.graph.nodes[id]
  {
  }

  // Every node after a call was added by it or was there, and has aged.
  lemma CallAges(s: EngineState, call: Call, id: Id)
    requires id in s.graph.nodes ==>
               var n := s.graph.nodes[id]; n.id == id && n.confirmations <= 4294967295 && n.rejections <= 4294967295
    requires id in After(s, call).graph.nodes && !(call.AddNode? && id == FreshId(s.graph))
    ensures id in s.graph.nodes && Aged(s.graph.nodes[id], After(s, call).graph.nodes[id], call)
  {
    if call.Enforce? {
      EvictionAges(s, call, id);
    } else if call.AddNode? {
      AddingAges(s, call, id);
    }
  }

  lemma CallAdds(s: EngineState, call: Call)
    requires call.AddNode?
    ensures FreshId(s.graph) in After(s, call).graph.nodes
    ensures var n := After(s, call).graph.nodes[FreshId(s.graph)];
            && n.id == FreshId(s.graph) && n.content == call.content && n.cell == call.cell && n.tags == call.tags
            && n.source == SourceFromByte(call.source) && n.canon == CanonFromByte(call.canon)
            && n.importance == Min(45, Ceiling(call.source)) && n.affect == Affect(0.0, 0.2, 0.1)
            && n.confirmations == 0 && n.rejections == 0 && (n.ephemeral <==> n.canon == NotCanon)
  {
    CeilingIs(call.source);
  }

  lemma NewcomerAccounted(calls: seq<Call>, call: Call, m: nat, n: Node)
    requires call.AddNode? && n.id == FreshId(RunCalls(FRESH, calls).graph)
    requires n.content == call.content && n.cell == call.cell && n.tags == call.tags
    requires n.source == SourceFromByte(call.source) && n.canon == CanonFromByte(call.canon)
    requires n.importance == Min(45, Ceiling(call.source)) && n.affect == Affect(0.0, 0.2, 0.1)
    requires n.confirmations == 0 && n.rejections == 0 && (n.ephemeral <==> n.canon == NotCanon)
    ensures Accounted(calls + [call], n, m)
  {
    AddedLast(calls, call, n.id);
    NewAccounts(calls + [call], call, n, m);
  }

  lemma OldAccounted(calls: seq<Call>, call: Call, m: nat, n: Node, n': Node)
    requires (call.PromoteConfirmed? ==> call.minConfirmations >= m)
    requires Accounted(calls, n, m) && Aged(n, n', call)
    ensures Accounted(calls + [call], n', m)
  {
    var i :| Accounts(calls, i, n, m);
    AgedAccounts(calls, call, i, n, n', m);
  }

  lemma CallAccounts(calls: seq<Call>, call: Call, s: EngineState, m: nat)
    requires s == RunCalls(FRESH, calls) && AllAccounted(calls, s.graph, m)
    requires call.PromoteConfirmed? ==> call.minConfirmations >= m
    ensures AllAccounted(calls + [call], After(s, call).graph, m)
  {
    forall id | id in After(s, call).graph.nodes
      ensures After(s, call).graph.nodes[id].id == id
      ensures Accounted(calls + [call], After(s, call).graph.nodes[id], m)
    {
      NodeAccounted(calls, call, s, m, id);
    }
  }

  lemma NodeAccounted(calls: seq<Call>, call: Call, s: EngineState, m: nat, id: Id)
    requires s == RunCalls(FRESH, calls) && AllAccounted(calls, s.graph, m)
    requires call.PromoteConfirmed? ==> call.minConfirmations >= m
    requires id in After(s, call).graph.nodes
    ensures After(s, call).graph.nodes[id].id == id && Accounted(calls + [call], After(s, call).graph.nodes[id], m)
  {
    if call.AddNode? && id == FreshId(s.graph) {
      CallAdds(s, call);
      NewcomerAccounted(calls, call, m, After(s, call).graph.nodes[id]);
    } else {
      CallAges(s, call, id);
      OldAccounted(calls, call, m, s.graph.nodes[id], After(s, call).graph.nodes[id]);
    }
  }

  // ---- Runs

  lemma {:induction false} RunAccounts(calls: seq<Call>, m: nat)
    requires Demanding(calls, m)
    ensures AllAccounted(calls, RunCalls(FRESH, calls).graph, m)
  {
    if calls != [] {
      var front, last := calls[..|calls| - 1], calls[|calls| - 1];
      assert calls == front + [last] && last in calls;
      RunAccounts(front, m);
      CallAccounts(front, last, RunCalls(FRESH, front), m);
    }
  }

  // If every promotion of a run asks for at least m confirmations, a node that is canon at the end was
  // added with canon byte 1 or 2, or got at least m helpful verdicts since it was added.
  lemma CanonIsEarned(calls: seq<Call>, m: nat, id: Id) returns (i: nat)
    requires Demanding(calls, m) && id in RunCalls(FRESH, calls).graph.nodes
    requires RunCalls(FRESH, calls).graph.nodes[id].canon != NotCanon
    ensures AddedAt(calls, i, id)
    ensures calls[i].canon == 1 || calls[i].canon == 2 || Helpful(calls[i + 1..], id) >= m
  {
    RunAccounts(calls, m);
    i :| Accounts(calls, i, RunCalls(FRESH, calls).graph.nodes[id], m);
  }

  // What a live node says, where it stands, how it feels and how it was judged are settled by the call
  // that added it and by the verdicts and feelings the run reported of it since.
  lemma LiveNodeAccounted(calls: seq<Call>, id: Id) returns (i: nat)
    requires id in RunCalls(FRESH, calls).graph.nodes
    ensures AddedAt(calls, i, id)
    ensures var n := RunCalls(FRESH, calls).graph.nodes[id];
            && n.content == calls[i].content && n.cell == calls[i].cell && n.tags == calls[i].tags
            && n.source == SourceFromByte(calls[i].source)
            && n.importance == Standing(calls[i + 1..], id, Ceiling(calls[i].source))
            && n.affect == Feeling(calls[i + 1..], id)
            && n.confirmations == Min(Helpful(calls[i + 1..], id), 4294967295)
            && n.rejections == Min(Unhelpful(calls[i + 1..], id), 4294967295)
  {
    RunAccounts(calls, 0);
    i :| Accounts(calls, i, RunCalls(FRESH, calls).graph.nodes[id], 0);
  }

  // A confirmation and a rejection, in either order, cost five hundredths exactly away from cap and floor.
  lemma VerdictsOfBothKinds(s: EngineState, id: Id)
    requires id in s.graph.nodes
    requires 0 <= s.graph.nodes[id].importance <= s.graph.nodes[id].source.MaxImportanceCap()
    ensures var x, cap := s.graph.nodes[id].importance, s.graph.nodes[id].source.MaxImportanceCap();
            && id in After(After(s, Feedback(id, 1)), Feedback(id, 0)).graph.nodes
            && id in After(After(s, Feedback(id, 0)), Feedback(id, 1)).graph.nodes
            && (After(After(s, Feedback(id, 1)), Feedback(id, 0)).graph.nodes[id].importance == x - 5
                <==> 5 <= x <= cap - 15)
            && (After(After(s, Feedback(id, 0)), Feedback(id, 1)).graph.nodes[id].importance == x - 5 <==> 20 <= x)
  {
  }

  // ---- Promotion, on the fields

  // Promotion changes a node exactly if the level asked for is canon, the node is not, was not said by
  // the model about itself and has the confirmations; it then takes that level and nothing else.
  lemma PromotionIff(g: State, minConfirmations: nat, level: CanonLevel, id: Id)
    requires id in g.nodes
    ensures id in Promote(g, minConfirmations, level).nodes
    ensures var n, n' := g.nodes[id], Promote(g, minConfirmations, level).nodes[id];
            && (n'.canon != n.canon <==>
                  level != NotCanon && n.canon == NotCanon && n.source != LlmSelfDescription
                  && n.confirmations >= minConfirmations)
            && (n'.canon != n.canon ==> n' == n.(canon := level, ephemeral := false))
            && (n'.canon == n.canon ==> n' == n)
  {
  }

  // The reply counts the nodes that changed.
  lemma PromotionCounts(s: EngineState, minConfirmations: nat, level: nat)
    ensures var s' := After(s, PromoteConfirmed(minConfirmations, level));
            ReplyTo(s, PromoteConfirmed(minConfirmations, level)) ==
            Count(|set id | id in s.graph.nodes && id in s'.graph.nodes
                            && s'.graph.nodes[id].canon != s.graph.nodes[id].canon|)
  {
    var s' := After(s, PromoteConfirmed(minConfirmations, level));
    var changed := set id | id in s.graph.nodes && id in s'.graph.nodes
                            && s'.graph.nodes[id].canon != s.graph.nodes[id].canon;
    assert changed == PromotedIds(s.graph, minConfirmations, CanonFromByte(level));
  }
}
