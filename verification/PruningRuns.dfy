// Pruning and bridges in the graphs a store can actually hold.
module PruningRuns {
  import opened Graph
  import H = GraphHistory
  import opened IdGenerator
  import opened Provenance
  import Pruning
  import opened PruningLaws
  import opened Words

  // No run of the store ever prunes a bridge at this threshold.
  ghost predicate RunsBridgeSafe(threshold: real) {
    forall ops: seq<H.Op>, i: nat ::
      var edges := H.Run(H.START, ops).g.edges;
      H.WithinBudget(H.Run(H.START, ops)) && i in Pruning.Removed(edges, threshold) ==>
        i < |edges| && !Bridge(edges, i)
  }

  lemma RunEdgesOk(ops: seq<H.Op>)
    requires H.WithinBudget(H.Run(H.START, ops))
    ensures NoLoops(H.Run(H.START, ops).g.edges)
  {
    H.RunFromEmpty(ops);
    SoundEdges(H.SupplyFrom(INITIAL_SEED), H.Run(H.START, ops));
  }

  lemma SoundEdges(s: H.Supply, c: H.Counted)
    requires H.Healthy(s, c)
    ensures NoLoops(c.g.edges)
  {
  }

  // ---- A path of four nodes, built call by call

  const NOTE: H.Op := H.Create(Draft("", [], UserUtterance, 0, NotCanon))

  lemma CreateOne(s: H.Supply, c: H.Counted) returns (id: Id)
    requires H.ValidSupply(s) && H.Healthy(s, c) && c.ids < WORD && c.ticks + 1 < WORD
    ensures H.Healthy(s, H.Step(c, NOTE)) && id !in c.g.nodes
    ensures H.Step(c, NOTE).g.nodes.Keys == c.g.nodes.Keys + {id}
    ensures H.Step(c, NOTE).g.edges == c.g.edges
    ensures H.Step(c, NOTE).ids == c.ids + 1 && H.Step(c, NOTE).ticks == c.ticks + 1
  {
    id := FreshId(c.g);
    H.CreateKeeps(s, c.g, c.ids, c.ticks, NOTE.draft);
  }

  // Two more nodes with names of their own.
  lemma CreateTwo(s: H.Supply, m: H.Counted) returns (a: Id, b: Id)
    requires H.ValidSupply(s) && H.Healthy(s, m) && m.ids + 1 < WORD && m.ticks + 2 < WORD
    ensures a != b && a !in m.g.nodes && b !in m.g.nodes
    ensures var m' := H.Step(H.Step(m, NOTE), NOTE);
            && H.Healthy(s, m') && m'.g.nodes.Keys == m.g.nodes.Keys + {a, b}
            && m'.g.edges == m.g.edges && m'.ids == m.ids + 2 && m'.ticks == m.ticks + 2
  {
    a := CreateOne(s, m);
    b := CreateOne(s, H.Step(m, NOTE));
  }

  lemma CreateFour(s: H.Supply, m: H.Counted) returns (a: Id, b: Id, c: Id, d: Id)
    requires H.ValidSupply(s) && H.Healthy(s, m) && m.ids + 3 < WORD && m.ticks + 4 < WORD
    ensures FourIds(a, b, c, d)
    ensures var m' := H.Step(H.Step(H.Step(H.Step(m, NOTE), NOTE), NOTE), NOTE);
            && {a, b, c, d} <= m'.g.nodes.Keys
            && m'.g.edges == m.g.edges && m'.ids == m.ids + 4 && m'.ticks == m.ticks + 4
  {
    a, b := CreateTwo(s, m);
    c, d := CreateTwo(s, H.Step(H.Step(m, NOTE), NOTE));
  }

  lemma FourNotes(s: H.Supply) returns (a: Id, b: Id, c: Id, d: Id)
    requires H.ValidSupply(s) && H.Healthy(s, H.START)
    ensures FourIds(a, b, c, d)
    ensures var m := H.Run(H.START, [] + [NOTE] + [NOTE] + [NOTE] + [NOTE]);
            {a, b, c, d} <= m.g.nodes.Keys && m.g.edges == [] && m.ids == 4 && m.ticks == 4
  {
    a, b, c, d := CreateFour(s, H.START);
    RunFour(H.START, NOTE);
  }

  lemma RunFour(c: H.Counted, op: H.Op)
    ensures H.Run(c, [] + [op] + [op] + [op] + [op]) == H.Step(H.Step(H.Step(H.Step(c, op), op), op), op)
  {
    RunOne(c, [], op);
    RunOne(c, [] + [op], op);
    RunOne(c, [] + [op] + [op], op);
    RunOne(c, [] + [op] + [op] + [op], op);
  }

  lemma RunOne(c: H.Counted, ops: seq<H.Op>, op: H.Op)
    ensures H.Run(c, ops + [op]) == H.Step(H.Run(c, ops), op)
  {
    assert (ops + [op])[..|ops|] == ops;
  }

  function Link(a: Id, b: Id): H.Op {
    H.Connect(a, b, "", 1.0)
  }

  lemma LinkOne(c: H.Counted, a: Id, b: Id)
    requires MayLink(c.g, a, b)
    ensures H.Step(c, Link(a, b)).g.edges == c.g.edges + [Edge(FreshId(c.g), a, b, "", 1.0)]
    ensures H.Step(c, Link(a, b)).g.nodes == c.g.nodes
    ensures H.Step(c, Link(a, b)).ids == c.ids + 1 && H.Step(c, Link(a, b)).ticks == c.ticks
  {
  }

  lemma LinkThree(m: H.Counted, a: Id, b: Id, c: Id, d: Id) returns (x: Id, y: Id, z: Id)
    requires FourIds(a, b, c, d) && {a, b, c, d} <= m.g.nodes.Keys && m.g.edges == []
    ensures var m' := H.Step(H.Step(H.Step(m, Link(a, b)), Link(b, c)), Link(c, d));
            m'.g.edges == Alley(a, b, c, d, x, y, z) && m'.ids == m.ids + 3 && m'.ticks == m.ticks
  {
    LinkOne(m, a, b);
    var m1 := H.Step(m, Link(a, b));
    x := FreshId(m.g);
    assert m1.g.edges == [Edge(x, a, b, "", 1.0)];
    LinkOne(m1, b, c);
    var m2 := H.Step(m1, Link(b, c));
    y := FreshId(m1.g);
    assert m2.g.edges == [Edge(x, a, b, "", 1.0), Edge(y, b, c, "", 1.0)];
    LinkOne(m2, c, d);
    z := FreshId(m2.g);
  }

  lemma AlleyRun() returns (ops: seq<H.Op>, a: Id, b: Id, c: Id, d: Id, x: Id, y: Id, z: Id)
    ensures FourIds(a, b, c, d) && H.WithinBudget(H.Run(H.START, ops))
    ensures H.Run(H.START, ops).g.edges == Alley(a, b, c, d, x, y, z)
  {
    H.StartHealthy();
    var notes := [] + [NOTE] + [NOTE] + [NOTE] + [NOTE];
    a, b, c, d := FourNotes(H.SupplyFrom(INITIAL_SEED));
    x, y, z := LinkThree(H.Run(H.START, notes), a, b, c, d);
    RunOne(H.START, notes, Link(a, b));
    RunOne(H.START, notes + [Link(a, b)], Link(b, c));
    RunOne(H.START, notes + [Link(a, b)] + [Link(b, c)], Link(c, d));
    ops := notes + [Link(a, b)] + [Link(b, c)] + [Link(c, d)];
  }

  // No run ever prunes a bridge exactly when the threshold is not negative.
  lemma BridgeSafeRuns(threshold: real)
    ensures threshold >= 0.0 <==> RunsBridgeSafe(threshold)
  {
    if threshold >= 0.0 {
      forall ops: seq<H.Op>, i: nat
        | H.WithinBudget(H.Run(H.START, ops)) && i in Pruning.Removed(H.Run(H.START, ops).g.edges, threshold)
        ensures i < |H.Run(H.START, ops).g.edges| && !Bridge(H.Run(H.START, ops).g.edges, i)
      {
        RunEdgesOk(ops);
        BridgesSurvive(H.Run(H.START, ops).g.edges, threshold, i);
      }
    } else {
      var ops, a, b, c, d, x, y, z := AlleyRun();
      AlleyMiddleRemoved(a, b, c, d, x, y, z, threshold);
      AlleyBridge(a, b, c, d, x, y, z);
    }
  }
}
