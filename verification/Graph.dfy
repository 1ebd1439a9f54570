// The graph store as a value: what its nodes and edges are, and what each single-step operation
// makes of the whole state. The class MemoryGraphNexus performs these updates in place.
module Graph {
  import opened IdGenerator
  import opened Provenance
  import opened Words

  const COUNTER_MAX: nat := 0xFFFF_FFFF
  const INITIAL_IMPORTANCE: int := 45
  const CONFIRM_STEP: int := 15
  const REJECT_STEP: int := 20

  datatype Affect = Affect(valence: real, arousal: real, intensity: real)

  const NEUTRAL: Affect := Affect(0.0, 0.2, 0.1)

  // Importance is counted in hundredths.
  datatype Node = Node(
    id: Id,
    content: string,
    tags: seq<string>,
    importance: int,
    source: SourceType,
    cell: nat,
    canon: CanonLevel,
    ephemeral: bool,
    affect: Affect,
    createdAt: nat,
    lastAccessedAt: nat,
    accessCount: nat,
    confirmations: nat,
    rejections: nat)

  datatype Edge = Edge(id: Id, source: Id, target: Id, relation: string, weight: real)

  datatype State = State(nodes: map<Id, Node>, edges: seq<Edge>, clock: nat, seed: nat)

  const EMPTY: State := State(map[], [], 0, INITIAL_SEED)

  function Min(a: int, b: int): int {
    if a < b then a else b
  }

  function Max(a: int, b: int): int {
    if a > b then a else b
  }

  function Tick(clock: nat): nat {
    (clock + 1) % WORD
  }

  function Bump(counter: nat): nat {
    if counter < COUNTER_MAX then counter + 1 else counter
  }

  // What a caller supplies for a new node.
  datatype Draft = Draft(content: string, tags: seq<string>, source: SourceType, cell: nat, canon: CanonLevel)

  function FreshId(g: State): Id {
    IdFrom(g.seed)
  }

  function NewNode(id: Id, d: Draft, now: nat): Node {
    Node(id, d.content, d.tags, Min(INITIAL_IMPORTANCE, d.source.MaxImportanceCap()), d.source, d.cell, d.canon,
         !d.canon.IsImmortal(), NEUTRAL, now, now, 1, 0, 0)
  }

  function CreateNode(g: State, d: Draft): State {
    var now := Tick(g.clock);
    State(g.nodes[FreshId(g) := NewNode(FreshId(g), d, now)], g.edges, now, NextSeed(g.seed))
  }

  predicate Joins(e: Edge, a: Id, b: Id) {
    (e.source == a && e.target == b) || (e.source == b && e.target == a)
  }

  predicate Linked(edges: seq<Edge>, a: Id, b: Id) {
    exists e :: e in edges && Joins(e, a, b)
  }

  predicate MayLink(g: State, a: Id, b: Id) {
    a != b && a in g.nodes && b in g.nodes && !Linked(g.edges, a, b)
  }

  function AddEdge(g: State, a: Id, b: Id, relation: string, weight: real): State {
    if MayLink(g, a, b)
    then g.(edges := g.edges + [Edge(FreshId(g), a, b, relation, weight)], seed := NextSeed(g.seed))
    else g
  }

  function UpdateNode(g: State, id: Id, n: Node): State {
    g.(nodes := g.nodes[id := n])
  }

  function SetAffect(g: State, id: Id, affect: Affect): State {
    if id in g.nodes then UpdateNode(g, id, g.nodes[id].(affect := affect)) else g
  }

  function Accessed(n: Node, now: nat): Node {
    n.(accessCount := Bump(n.accessCount), lastAccessedAt := now)
  }

  // The clock advances even when the node is unknown.
  function RecordAccess(g: State, id: Id): State {
    var now := Tick(g.clock);
    var ticked := g.(clock := now);
    if id in g.nodes then UpdateNode(ticked, id, Accessed(g.nodes[id], now)) else ticked
  }

  function Judge(importance: int, cap: int, helpful: bool): int {
    if helpful then Min(importance + CONFIRM_STEP, cap) else Max(importance - REJECT_STEP, 0)
  }

  function Judged(n: Node, helpful: bool): Node {
    var importance := Judge(n.importance, n.source.MaxImportanceCap(), helpful);
    if helpful
    then n.(confirmations := Bump(n.confirmations), importance := importance)
    else n.(rejections := Bump(n.rejections), importance := importance)
  }

  function RecordFeedback(g: State, id: Id, helpful: bool): State {
    if id in g.nodes then UpdateNode(g, id, Judged(g.nodes[id], helpful)) else g
  }

  predicate Promotable(n: Node, minConfirmations: nat) {
    !n.canon.IsCanon() && !n.source.IsSelfDescription() && n.confirmations >= minConfirmations
  }

  function Promoted(n: Node, minConfirmations: nat, level: CanonLevel): Node {
    if level.IsCanon() && Promotable(n, minConfirmations) then n.(canon := level, ephemeral := false) else n
  }

  function Promote(g: State, minConfirmations: nat, level: CanonLevel): State {
    g.(nodes := map id | id in g.nodes :: Promoted(g.nodes[id], minConfirmations, level))
  }

  function PromotedIds(g: State, minConfirmations: nat, level: CanonLevel): set<Id> {
    set id | id in g.nodes && level.IsCanon() && Promotable(g.nodes[id], minConfirmations)
  }

  function EphemeralIds(g: State): set<Id> {
    set id | id in g.nodes && g.nodes[id].ephemeral
  }

  function CanonIds(g: State): set<Id> {
    set id | id in g.nodes && !g.nodes[id].ephemeral
  }

  // Node records sit under their own id.
  ghost predicate Keyed(g: State) {
    forall id :: id in g.nodes ==> g.nodes[id].id == id
  }

  ghost predicate EdgesLive(g: State) {
    forall e :: e in g.edges ==> e.source in g.nodes && e.target in g.nodes
  }

  ghost predicate NoLoops(edges: seq<Edge>) {
    forall e :: e in edges ==> e.source != e.target
  }

  // At most one edge joins any two nodes, and none joins a node to itself.
  ghost predicate SimpleEdges(edges: seq<Edge>) {
    && NoLoops(edges)
    && forall i, j :: 0 <= i < j < |edges| ==> !Joins(edges[i], edges[j].source, edges[j].target)
  }
}
