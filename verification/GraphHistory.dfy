// Whole runs of the graph store: what every mutator keeps, and how a later state relates to an
// earlier one. The guarantees hold while fewer than 2^64 ids and clock ticks have been drawn.
module GraphHistory {
  import opened Eviction
  import opened EvictionLaws
  import opened Filtering
  import opened Graph
  import opened IdGenerator
  import opened Linking
  import opened Provenance
  import Pruning
  import opened Words

  // The mutators. JoinAll stands for the two semantic linking passes, whose list of links comes from
  // an index outside the store; entity linking draws its list from the store itself.
  datatype Op =
    | Create(draft: Draft)
    | Connect(a: Id, b: Id, relation: string, weight: real)
    | JoinAll(links: seq<Link>, relation: string)
    | JoinKin(tokenize: string -> set<string>, maxFrequency: nat, minShared: nat)
    | Feel(id: Id, affect: Affect)
    | Touch(id: Id)
    | Verdict(id: Id, helpful: bool)
    | Canonize(minConfirmations: nat, level: CanonLevel)
    | Shrink(maxNodes: nat)
    | Thin(threshold: real)

  function Apply(g: State, op: Op): State {
    match op
    case Create(draft) => CreateNode(g, draft)
    case Connect(a, b, relation, weight) => AddEdge(g, a, b, relation, weight)
    case JoinAll(links, relation) => AddAll(g, links, relation)
    case JoinKin(tokenize, maxFrequency, minShared) => LinkByEntities(g, tokenize, maxFrequency, minShared)
    case Feel(id, affect) => SetAffect(g, id, affect)
    case Touch(id) => RecordAccess(g, id)
    case Verdict(id, helpful) => RecordFeedback(g, id, helpful)
    case Canonize(minConfirmations, level) => Promote(g, minConfirmations, level)
    case Shrink(maxNodes) => EnforceCapacity(g, maxNodes)
    case Thin(threshold) => Pruning.Prune(g, threshold)
  }

  function IdsDrawn(g: State, op: Op): nat {
    match op
    case Create(_) => 1
    case Connect(a, b, _, _) => if MayLink(g, a, b) then 1 else 0
    case JoinAll(links, relation) => LinksAdded(g, links, relation)
    case JoinKin(tokenize, maxFrequency, minShared) =>
      LinksAdded(g, EntityLinksOf(g, tokenize, maxFrequency, minShared), SHARED)
    case _ => 0
  }

  function LinksAdded(g: State, links: seq<Link>, relation: string): nat {
    if links == [] then 0
    else
      var l := links[|links| - 1];
      LinksAdded(g, links[..|links| - 1], relation) +
      (if MayLink(AddAll(g, links[..|links| - 1], relation), l.a, l.b) then 1 else 0)
  }

  function TicksDrawn(op: Op): nat {
    if op.Create? || op.Touch? then 1 else 0
  }

  // ---- The invariant

  // Where ids come from: the seed after n draws and the n-th id.
  datatype Supply = Supply(seedAt: nat -> nat, idAt: nat -> Id)

  ghost predicate Supplies(s: Supply, n: nat) {
    NextSeed(s.seedAt(n)) == s.seedAt(n + 1) && IdFrom(s.seedAt(n)) == s.idAt(n)
  }

  // The generator follows the supply, and the first 2^64 ids differ.
  ghost predicate ValidSupply(s: Supply) {
    && (forall n: nat {:trigger Supplies(s, n)} :: Supplies(s, n))
    && (forall m: nat, n: nat {:trigger s.idAt(m), s.idAt(n)} :: m < n < WORD ==> s.idAt(m) != s.idAt(n))
  }

  ghost predicate Issued(s: Supply, ids: nat, id: Id) {
    exists k: nat :: k < ids && id == s.idAt(k)
  }

  ghost predicate NodeOk(n: Node, clock: nat) {
    && 0 <= n.importance <= n.source.MaxImportanceCap()
    && (n.ephemeral <==> !n.canon.IsCanon())
    && n.createdAt <= n.lastAccessedAt <= clock
  }

  ghost predicate NodesOk(g: State) {
    forall id :: id in g.nodes ==> g.nodes[id].id == id && NodeOk(g.nodes[id], g.clock)
  }

  ghost predicate Compatible(a: Edge, b: Edge) {
    !Joins(a, b.source, b.target) && a.id != b.id
  }

  // A simple graph whose edges carry distinct ids.
  ghost predicate EdgesOk(edges: seq<Edge>) {
    && NoLoops(edges)
    && forall i, j :: 0 <= i < j < |edges| ==> Compatible(edges[i], edges[j])
  }

  // Nodes keep their promises, edges form a simple graph on live nodes, ticks tell nodes apart.
  ghost predicate Sound(g: State, ticks: nat) {
    ticks < WORD && g.clock == ticks && NodesOk(g) && TicksDistinct(g) && EdgesOk(g.edges) && EdgesLive(g)
  }

  // Nodes and edges carry ids already issued, and no edge shares its id with a node.
  ghost predicate IdsOk(s: Supply, g: State, ids: nat) {
    && g.seed == s.seedAt(ids)
    && (forall id :: id in g.nodes ==> Issued(s, ids, id))
    && (forall e :: e in g.edges ==> Issued(s, ids, e.id) && e.id !in g.nodes)
  }

  // (Here and below, a predicate that matches on one of its arguments is taken as a whole by the
  // verifier, where it would otherwise prove each part again at every use.)
  ghost predicate Inv(s: Supply, g: State, ids: nat, ticks: nat) {
    match s case Supply(_, _) => ids <= WORD && Sound(g, ticks) && IdsOk(s, g, ids)
  }

  // ---- Fresh ids

  // The next id is the next of the supply, and has never been issued before.
  lemma FreshIdIsNew(s: Supply, g: State, ids: nat)
    requires ValidSupply(s) && IdsOk(s, g, ids) && ids < WORD
    ensures FreshId(g) == s.idAt(ids) && NextSeed(g.seed) == s.seedAt(ids + 1)
    ensures !Issued(s, ids, s.idAt(ids)) && Issued(s, ids + 1, s.idAt(ids))
  {
    assert Supplies(s, ids);
  }

  lemma IssuedGrows(s: Supply, ids: nat, more: nat, id: Id)
    requires Issued(s, ids, id) && ids <= more
    ensures Issued(s, more, id)
  {
  }

  // One more id is drawn and given to a new node (n) or a new edge (e).
  lemma IdsAfterNode(s: Supply, g: State, g': State, ids: nat, id: Id)
    requires IdsOk(s, g, ids) && !Issued(s, ids, id) && Issued(s, ids + 1, id)
    requires g'.nodes.Keys == g.nodes.Keys + {id} && g'.edges == g.edges && g'.seed == s.seedAt(ids + 1)
    ensures id !in g.nodes && IdsOk(s, g', ids + 1)
  {
    forall x | x in g'.nodes ensures Issued(s, ids + 1, x) {
      if x != id {
        assert x in g.nodes.Keys;
        IssuedGrows(s, ids, ids + 1, x);
      }
    }
    forall e | e in g'.edges ensures Issued(s, ids + 1, e.id) && e.id !in g'.nodes.Keys {
      IssuedGrows(s, ids, ids + 1, e.id);
    }
  }

  lemma IdsAfterEdge(s: Supply, g: State, g': State, ids: nat, e: Edge)
    requires IdsOk(s, g, ids) && !Issued(s, ids, e.id) && Issued(s, ids + 1, e.id)
    requires g'.nodes == g.nodes && g'.edges == g.edges + [e] && g'.seed == s.seedAt(ids + 1)
    ensures IdsOk(s, g', ids + 1)
    ensures forall x :: x in g.edges ==> x.id != e.id
  {
    forall x | x in g'.nodes ensures Issued(s, ids + 1, x) {
      IssuedGrows(s, ids, ids + 1, x);
    }
    forall x | x in g'.edges ensures Issued(s, ids + 1, x.id) && x.id !in g'.nodes {
      if x in g.edges {
        IssuedGrows(s, ids, ids + 1, x.id);
      }
    }
  }

  // No id is drawn, and nobody new appears.
  lemma IdsWithoutDraw(s: Supply, g: State, g': State, ids: nat)
    requires IdsOk(s, g, ids) && g'.seed == g.seed
    requires g'.nodes.Keys <= g.nodes.Keys && forall e :: e in g'.edges ==> e in g.edges
    ensures IdsOk(s, g', ids)
  {
    forall x | x in g'.nodes ensures Issued(s, ids, x) {
      assert x in g.nodes.Keys;
    }
    forall e | e in g'.edges ensures e.id !in g'.nodes {
      assert e.id !in g.nodes.Keys;
    }
  }

  // ---- What each mutator keeps

  lemma TickIs(ticks: nat)
    requires ticks + 1 < WORD
    ensures Tick(ticks) == ticks + 1
  {
  }

  lemma EdgesOkAppend(edges: seq<Edge>, e: Edge)
    requires EdgesOk(edges) && e.source != e.target
    requires forall x :: x in edges ==> Compatible(x, e)
    ensures EdgesOk(edges + [e])
  {
    var r := edges + [e];
    forall i, j | 0 <= i < j < |r| ensures Compatible(r[i], r[j]) {
      if j == |edges| {
        assert r[i] in edges;
      }
    }
  }

  lemma BornSound(g: State, g': State, ticks: nat, id: Id, d: Draft)
    requires Sound(g, ticks) && ticks + 1 < WORD && id !in g.nodes
    requires g'.nodes == g.nodes[id := NewNode(id, d, ticks + 1)] && g'.edges == g.edges && g'.clock == ticks + 1
    ensures Sound(g', ticks + 1)
  {
  }

  // create_node inserts; it never overwrites.
  lemma CreateKeeps(s: Supply, g: State, ids: nat, ticks: nat, d: Draft)
    requires ValidSupply(s) && Inv(s, g, ids, ticks) && ids < WORD && ticks + 1 < WORD
    ensures FreshId(g) !in g.nodes
    ensures Inv(s, CreateNode(g, d), ids + 1, ticks + 1)
  {
    TickIs(ticks);
    FreshIdIsNew(s, g, ids);
    IdsAfterNode(s, g, CreateNode(g, d), ids, s.idAt(ids));
    BornSound(g, CreateNode(g, d), ticks, s.idAt(ids), d);
  }

  lemma JoinedSound(g: State, g': State, ticks: nat, e: Edge)
    requires Sound(g, ticks) && MayLink(g, e.source, e.target) && forall x :: x in g.edges ==> x.id != e.id
    requires g'.nodes == g.nodes && g'.edges == g.edges + [e] && g'.clock == g.clock
    ensures Sound(g', ticks)
  {
    forall x | x in g.edges ensures Compatible(x, e) {
      assert !Joins(x, e.source, e.target);
    }
    EdgesOkAppend(g.edges, e);
  }

  lemma ConnectKeeps(s: Supply, g: State, ids: nat, ticks: nat, a: Id, b: Id, relation: string, weight: real)
    requires ValidSupply(s) && Inv(s, g, ids, ticks) && ids + (if MayLink(g, a, b) then 1 else 0) <= WORD
    ensures Inv(s, AddEdge(g, a, b, relation, weight), ids + (if MayLink(g, a, b) then 1 else 0), ticks)
    ensures AddEdge(g, a, b, relation, weight).nodes == g.nodes
  {
    if MayLink(g, a, b) {
      FreshIdIsNew(s, g, ids);
      var e := Edge(s.idAt(ids), a, b, relation, weight);
      IdsAfterEdge(s, g, AddEdge(g, a, b, relation, weight), ids, e);
      JoinedSound(g, AddEdge(g, a, b, relation, weight), ticks, e);
    }
  }

  lemma JoinStep(s: Supply, c: Counted, l: Link, relation: string) returns (c': Counted)
    requires ValidSupply(s) && Healthy(s, c) && c.ids + (if MayLink(c.g, l.a, l.b) then 1 else 0) <= WORD
    ensures c'.g == AddEdge(c.g, l.a, l.b, relation, l.weight) && c'.g.nodes == c.g.nodes && c'.ticks == c.ticks
    ensures c'.ids == c.ids + (if MayLink(c.g, l.a, l.b) then 1 else 0) && Healthy(s, c')
  {
    ConnectKeeps(s, c.g, c.ids, c.ticks, l.a, l.b, relation, l.weight);
    var drawn := if MayLink(c.g, l.a, l.b) then 1 else 0;
    c' := Counted(AddEdge(c.g, l.a, l.b, relation, l.weight), c.ids + drawn, c.ticks);
  }

  // Any list of links, added one at a time, keeps the invariant.
  lemma {:induction false} JoinAllKeeps(s: Supply, c: Counted, links: seq<Link>, relation: string) returns (c': Counted)
    requires ValidSupply(s) && Healthy(s, c) && c.ids + LinksAdded(c.g, links, relation) <= WORD
    ensures c' == Counted(AddAll(c.g, links, relation), c.ids + LinksAdded(c.g, links, relation), c.ticks)
    ensures Healthy(s, c') && c'.g.nodes == c.g.nodes
  {
    if links == [] {
      c' := c;
    } else {
      var mid := JoinAllKeeps(s, c, links[..|links| - 1], relation);
      c' := JoinStep(s, mid, links[|links| - 1], relation);
    }
  }

  // Records may change in place as long as their own promises and the access ticks hold.
  lemma RecordsKeep(s: Supply, g: State, g': State, ids: nat, ticks: nat, ticks': nat)
    requires Inv(s, g, ids, ticks) && ticks' < WORD && g'.clock == ticks'
    requires g'.nodes.Keys == g.nodes.Keys && g'.edges == g.edges && g'.seed == g.seed
    requires NodesOk(g') && TicksDistinct(g')
    ensures Inv(s, g', ids, ticks')
  {
    IdsWithoutDraw(s, g, g', ids);
    forall e | e in g'.edges ensures e.source in g'.nodes.Keys && e.target in g'.nodes.Keys {
    }
  }

  lemma FeelRecords(g: State, ticks: nat, id: Id, affect: Affect)
    requires Sound(g, ticks)
    ensures NodesOk(SetAffect(g, id, affect)) && TicksDistinct(SetAffect(g, id, affect))
  {
  }

  lemma VerdictRecords(g: State, ticks: nat, id: Id, helpful: bool)
    requires Sound(g, ticks)
    ensures NodesOk(RecordFeedback(g, id, helpful)) && TicksDistinct(RecordFeedback(g, id, helpful))
  {
  }

  lemma CanonizeRecords(g: State, ticks: nat, minConfirmations: nat, level: CanonLevel)
    requires Sound(g, ticks)
    ensures NodesOk(Promote(g, minConfirmations, level)) && TicksDistinct(Promote(g, minConfirmations, level))
  {
  }

  lemma TouchRecords(g: State, g': State, ticks: nat, id: Id)
    requires Sound(g, ticks) && g'.clock == ticks + 1
    requires g'.nodes == if id in g.nodes then g.nodes[id := Accessed(g.nodes[id], ticks + 1)] else g.nodes
    ensures NodesOk(g') && TicksDistinct(g')
  {
  }

  lemma TouchKeeps(s: Supply, g: State, ids: nat, ticks: nat, id: Id)
    requires Inv(s, g, ids, ticks) && ticks + 1 < WORD
    ensures Inv(s, RecordAccess(g, id), ids, ticks + 1)
  {
    TickIs(ticks);
    TouchRecords(g, RecordAccess(g, id), ticks, id);
    RecordsKeep(s, g, RecordAccess(g, id), ids, ticks, ticks + 1);
  }

  lemma EdgesWithoutOk(edges: seq<Edge>, dead: set<Id>)
    requires EdgesOk(edges)
    ensures EdgesOk(EdgesWithout(edges, dead))
  {
    EdgesWithoutMembers(edges, dead);
    FilterOrdered(edges, ClearOf(dead), Compatible);
  }

  lemma ShrinkKeeps(s: Supply, g: State, ids: nat, ticks: nat, maxNodes: nat)
    requires Inv(s, g, ids, ticks)
    ensures Inv(s, EnforceCapacity(g, maxNodes), ids, ticks)
  {
    var g' := EnforceCapacity(g, maxNodes);
    EdgesWithoutOk(g.edges, Evicted(g, maxNodes));
    EdgesWithoutMembers(g.edges, Evicted(g, maxNodes));
    InducedSubgraph(g, maxNodes);
    FewerOk(s, g, g', ids, ticks);
  }

  // Nodes and edges may go, as long as no edge dangles.
  lemma FewerOk(s: Supply, g: State, g': State, ids: nat, ticks: nat)
    requires Inv(s, g, ids, ticks) && g'.clock == g.clock && g'.seed == g.seed
    requires forall id :: id in g'.nodes ==> id in g.nodes && g'.nodes[id] == g.nodes[id]
    requires EdgesOk(g'.edges) && EdgesLive(g') && forall x :: x in g'.edges ==> x in g.edges
    ensures Inv(s, g', ids, ticks)
  {
    IdsWithoutDraw(s, g, g', ids);
  }

  lemma {:induction false} KeptOk(edges: seq<Edge>, removed: set<nat>)
    requires EdgesOk(edges)
    ensures EdgesOk(Pruning.Kept(edges, removed))
    ensures forall x :: x in Pruning.Kept(edges, removed) ==> x in edges
  {
    if edges != [] {
      var rest, e := edges[..|edges| - 1], edges[|edges| - 1];
      assert edges == rest + [e];
      assert e in edges && forall x :: x in rest ==> x in edges;
      KeptOk(rest, removed);
      forall x | x in Pruning.Kept(rest, removed) ensures Compatible(x, e) {
        var i :| 0 <= i < |rest| && rest[i] == x;
        assert Compatible(edges[i], edges[|edges| - 1]);
      }
      EdgesOkAppend(Pruning.Kept(rest, removed), e);
    }
  }

  lemma ThinKeeps(s: Supply, g: State, ids: nat, ticks: nat, threshold: real)
    requires Inv(s, g, ids, ticks)
    ensures Inv(s, Pruning.Prune(g, threshold), ids, ticks)
  {
    KeptOk(g.edges, Pruning.Removed(g.edges, threshold));
    FewerOk(s, g, Pruning.Prune(g, threshold), ids, ticks);
  }

  // ---- Runs

  datatype Counted = Counted(g: State, ids: nat, ticks: nat)

  const START: Counted := Counted(EMPTY, 0, 0)

  function Step(c: Counted, op: Op): Counted {
    Counted(Apply(c.g, op), c.ids + IdsDrawn(c.g, op), c.ticks + TicksDrawn(op))
  }

  function Run(c: Counted, ops: seq<Op>): Counted {
    if ops == [] then c else Step(Run(c, ops[..|ops| - 1]), ops[|ops| - 1])
  }

  ghost predicate WithinBudget(c: Counted) {
    c.ids <= WORD && c.ticks < WORD
  }

  ghost predicate Healthy(s: Supply, c: Counted) {
    match c
    case Counted(g, ids, ticks) => Inv(s, g, ids, ticks)
  }

  lemma DrawingStep(s: Supply, c: Counted, op: Op)
    requires ValidSupply(s) && Healthy(s, c) && WithinBudget(Step(c, op))
    requires op.Create? || op.Connect?
    ensures Healthy(s, Step(c, op))
  {
    match op
    case Create(draft) => CreateKeeps(s, c.g, c.ids, c.ticks, draft);
    case Connect(a, b, relation, weight) => ConnectKeeps(s, c.g, c.ids, c.ticks, a, b, relation, weight);
  }

  lemma JoiningStep(s: Supply, c: Counted, op: Op)
    requires ValidSupply(s) && Healthy(s, c) && WithinBudget(Step(c, op)) && op.JoinAll?
    ensures Healthy(s, Step(c, op)) && Step(c, op).g.nodes == c.g.nodes
  {
    var c' := JoinAllKeeps(s, c, op.links, op.relation);
    assert c' == Step(c, op);
  }

  // Entity linking in this store, as the list it comes down to.
  function KinJoined(g: State, op: Op): Op
    requires op.JoinKin?
  {
    JoinAll(EntityLinksOf(g, op.tokenize, op.maxFrequency, op.minShared), SHARED)
  }

  lemma JoinKinIsJoinAll(c: Counted, op: Op)
    requires op.JoinKin?
    ensures Step(c, op) == Step(c, KinJoined(c.g, op))
  {
  }

  lemma RecordStep(s: Supply, c: Counted, op: Op)
    requires Healthy(s, c) && WithinBudget(Step(c, op))
    requires op.Feel? || op.Touch? || op.Verdict? || op.Canonize?
    ensures Healthy(s, Step(c, op))
  {
    match op
    case Touch(id) => TouchKeeps(s, c.g, c.ids, c.ticks, id);
    case Feel(id, affect) =>
      FeelRecords(c.g, c.ticks, id, affect);
      RecordsKeep(s, c.g, SetAffect(c.g, id, affect), c.ids, c.ticks, c.ticks);
    case Verdict(id, helpful) =>
      VerdictRecords(c.g, c.ticks, id, helpful);
      RecordsKeep(s, c.g, RecordFeedback(c.g, id, helpful), c.ids, c.ticks, c.ticks);
    case Canonize(minConfirmations, level) =>
      CanonizeRecords(c.g, c.ticks, minConfirmations, level);
      RecordsKeep(s, c.g, Promote(c.g, minConfirmations, level), c.ids, c.ticks, c.ticks);
  }

  lemma RemovingStep(s: Supply, c: Counted, op: Op)
    requires Healthy(s, c) && (op.Shrink? || op.Thin?)
    ensures Healthy(s, Step(c, op))
  {
    match op
    case Shrink(maxNodes) => ShrinkKeeps(s, c.g, c.ids, c.ticks, maxNodes);
    case Thin(threshold) => ThinKeeps(s, c.g, c.ids, c.ticks, threshold);
  }

  // Every mutator keeps the invariant.
  lemma StepKeeps(s: Supply, c: Counted, op: Op)
    requires ValidSupply(s) && Healthy(s, c) && WithinBudget(Step(c, op))
    ensures Healthy(s, Step(c, op))
  {
    match op
    case Create(_) => DrawingStep(s, c, op);
    case Connect(_, _, _, _) => DrawingStep(s, c, op);
    case JoinAll(_, _) => JoiningStep(s, c, op);
    case JoinKin(_, _, _) =>
      JoinKinIsJoinAll(c, op);
      JoiningStep(s, c, KinJoined(c.g, op));
    case Feel(_, _) => RecordStep(s, c, op);
    case Touch(_) => RecordStep(s, c, op);
    case Verdict(_, _) => RecordStep(s, c, op);
    case Canonize(_, _) => RecordStep(s, c, op);
    case Shrink(_) => RemovingStep(s, c, op);
    case Thin(_) => RemovingStep(s, c, op);
  }

  // The ids of an engine whose generator starts at `seed`.
  ghost function SupplyFrom(seed: nat): Supply {
    Supply((n: nat) => SeedAfter(seed, n), (n: nat) => IssuedId(seed, n))
  }

  lemma SupplyFromValid(seed: nat)
    requires IsWord(seed)
    ensures ValidSupply(SupplyFrom(seed))
  {
    var s := SupplyFrom(seed);
    forall n: nat ensures Supplies(s, n) {
      SeedAfterNext(seed, n);
      IdFromIssued(seed, n);
    }
    forall m: nat, n: nat | m < n < WORD ensures s.idAt(m) != s.idAt(n) {
      SmallIssuedDistinct(seed, m, n);
    }
  }

  lemma StartHealthy()
    ensures ValidSupply(SupplyFrom(INITIAL_SEED)) && Healthy(SupplyFrom(INITIAL_SEED), START)
  {
    SupplyFromValid(INITIAL_SEED);
    SeedAfterNext(INITIAL_SEED, 0);
  }

  lemma {:induction false} RunMonotone(c: Counted, ops: seq<Op>)
    ensures c.ids <= Run(c, ops).ids && c.ticks <= Run(c, ops).ticks
  {
    if ops != [] {
      RunMonotone(c, ops[..|ops| - 1]);
    }
  }

  // ---- How a later state relates to an earlier one

  // What never changes about a node while it lives.
  ghost predicate SameIdentity(a: Node, b: Node) {
    && a.source == b.source && a.content == b.content && a.cell == b.cell && a.createdAt == b.createdAt
    && (a.canon.IsCanon() || a.source.IsSelfDescription() ==> b.canon == a.canon)
  }

  ghost predicate Evolves(s: Supply, c: Counted, c': Counted) {
    match c case Counted(_, _, _) =>
    && c.ids <= c'.ids
    && (forall id :: id in c.g.nodes && id in c'.g.nodes ==> SameIdentity(c.g.nodes[id], c'.g.nodes[id]))
    && (forall id :: id in c.g.nodes && c.g.nodes[id].canon.IsCanon() ==> id in c'.g.nodes)
    && (forall id :: id in c'.g.nodes && id !in c.g.nodes ==> !Issued(s, c.ids, id))
  }

  // Records may change in place or go, as long as identities are kept and canon stays.
  lemma RecordsEvolve(s: Supply, c: Counted, c': Counted)
    requires c.ids <= c'.ids && forall id :: id in c'.g.nodes ==> id in c.g.nodes
    requires forall id :: id in c'.g.nodes ==> SameIdentity(c.g.nodes[id], c'.g.nodes[id])
    requires forall id :: id in c.g.nodes && c.g.nodes[id].canon.IsCanon() ==> id in c'.g.nodes
    ensures Evolves(s, c, c')
  {
  }

  lemma BirthEvolves(s: Supply, c: Counted, draft: Draft)
    requires ValidSupply(s) && Healthy(s, c) && c.ids < WORD
    ensures Evolves(s, c, Step(c, Create(draft)))
  {
    FreshIdIsNew(s, c.g, c.ids);
    assert s.idAt(c.ids) !in c.g.nodes;
  }

  lemma CanonIsNotEvicted(c: Counted, ticks: nat, maxNodes: nat)
    requires Sound(c.g, ticks)
    ensures forall id :: id in c.g.nodes && c.g.nodes[id].canon.IsCanon() ==> id !in Evicted(c.g, maxNodes)
  {
    EvictedCount(c.g, maxNodes);
  }

  lemma JoinEvolves(s: Supply, c: Counted, op: Op)
    requires ValidSupply(s) && Healthy(s, c) && WithinBudget(Step(c, op)) && op.JoinAll?
    ensures Evolves(s, c, Step(c, op))
  {
    JoiningStep(s, c, op);
    RecordsEvolve(s, c, Step(c, op));
  }

  lemma ShrinkEvolves(s: Supply, c: Counted, op: Op)
    requires Healthy(s, c) && op.Shrink?
    ensures Evolves(s, c, Step(c, op))
  {
    CanonIsNotEvicted(c, c.ticks, op.maxNodes);
    RecordsEvolve(s, c, Step(c, op));
  }

  lemma OtherEvolves(s: Supply, c: Counted, op: Op)
    requires !op.Create? && !op.JoinAll? && !op.JoinKin? && !op.Shrink?
    ensures Evolves(s, c, Step(c, op))
  {
    RecordsEvolve(s, c, Step(c, op));
  }

  lemma StepEvolves(s: Supply, c: Counted, op: Op)
    requires ValidSupply(s) && Healthy(s, c) && WithinBudget(Step(c, op))
    ensures Evolves(s, c, Step(c, op))
  {
    match op
    case Create(draft) => BirthEvolves(s, c, draft);
    case JoinAll(_, _) => JoinEvolves(s, c, op);
    case JoinKin(_, _, _) =>
      JoinKinIsJoinAll(c, op);
      JoinEvolves(s, c, KinJoined(c.g, op));
    case Shrink(_) => ShrinkEvolves(s, c, op);
    case _ => OtherEvolves(s, c, op);
  }

  // A dead id never comes back, so identity carries across any number of steps.
  lemma EvolvesTransitive(s: Supply, a: Counted, b: Counted, c: Counted)
    requires Healthy(s, a) && Evolves(s, a, b) && Evolves(s, b, c)
    ensures Evolves(s, a, c)
  {
    forall id | id in a.g.nodes && id in c.g.nodes ensures id in b.g.nodes {
      if id !in b.g.nodes {
        assert Issued(s, a.ids, id);
        IssuedGrows(s, a.ids, b.ids, id);
      }
    }
    forall id | id in c.g.nodes && id !in a.g.nodes ensures !Issued(s, a.ids, id) {
      if Issued(s, a.ids, id) {
        IssuedGrows(s, a.ids, b.ids, id);
      }
    }
  }

  lemma EvolvesReflexive(s: Supply, c: Counted)
    ensures Evolves(s, c, c)
  {
  }

  // Every state of a run within budget satisfies the invariant. And from any healthy state on,
  // whatever is done: sources, contents and birth ticks never change, canon is never lost, a
  // self-description's canon level stays what it was at creation, and dead ids stay dead.
  lemma {:induction false} RunKeeps(s: Supply, c: Counted, ops: seq<Op>)
    requires ValidSupply(s) && Healthy(s, c) && WithinBudget(Run(c, ops))
    ensures Healthy(s, Run(c, ops)) && Evolves(s, c, Run(c, ops))
  {
    if ops == [] {
      EvolvesReflexive(s, c);
    } else {
      RunKeeps(s, c, ops[..|ops| - 1]);
      OneStepOn(s, c, Run(c, ops[..|ops| - 1]), ops[|ops| - 1]);
    }
  }

  lemma OneStepOn(s: Supply, c: Counted, mid: Counted, op: Op)
    requires ValidSupply(s) && Healthy(s, c) && Healthy(s, mid) && Evolves(s, c, mid)
    requires WithinBudget(Step(mid, op))
    ensures Healthy(s, Step(mid, op)) && Evolves(s, c, Step(mid, op))
  {
    StepKeeps(s, mid, op);
    StepEvolves(s, mid, op);
    EvolvesTransitive(s, c, mid, Step(mid, op));
  }

  // The same from an empty store.
  lemma RunFromEmpty(ops: seq<Op>)
    requires WithinBudget(Run(START, ops))
    ensures Healthy(SupplyFrom(INITIAL_SEED), Run(START, ops))
  {
    StartHealthy();
    RunKeeps(SupplyFrom(INITIAL_SEED), START, ops);
  }
}
