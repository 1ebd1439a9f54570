// One engine behind a handle, as a value: graph, lazily created index, and every call that
// reaches them. The class in Handle.dfy performs the calls in place.
module Engine {
  import opened Cosine
  import Eviction
  import opened Filtering
  import opened Graph
  import opened IdGenerator
  import opened Provenance
  import opened Recall
  import opened VectorIndex

  datatype Index = NoIndex | Indexed(dimension: nat, entries: seq<Entry>)

  datatype EngineState = EngineState(graph: State, index: Index)

  const FRESH: EngineState := EngineState(EMPTY, NoIndex)

  datatype Call =
    | AddNode(content: string, tags: seq<string>, source: nat, cell: nat, canon: nat, embedding: Vector)
    | SetNodeAffect(id: Id, valence: real, arousal: real, intensity: real)
    | Feedback(id: Id, helpful: int)
    | PromoteConfirmed(minConfirmations: nat, level: nat)
    | Enforce(maxNodes: nat)
    | Search(query: Vector, topK: nat)
    | NodeCount

  datatype Reply = Name(id: Id) | Code(code: int) | Count(n: nat) | Rows(rows: seq<Row>)

  function DraftOf(content: string, tags: seq<string>, source: nat, cell: nat, canon: nat): Draft {
    Draft(content, tags, SourceFromByte(source), cell, CanonFromByte(canon))
  }

  // The first embedding fixes the dimension; a later one of another length is not indexed.
  function WithEmbedding(index: Index, id: Id, embedding: Vector): Index {
    if embedding == [] then index
    else
      var ready := if index.NoIndex? then Indexed(|embedding|, []) else index;
      if |embedding| == ready.dimension then ready.(entries := ready.entries + [Entry(id, embedding)]) else ready
  }

  function EntryLives(live: set<Id>): Entry -> bool {
    (e: Entry) => e.id in live
  }

  function LiveEntries(entries: seq<Entry>, live: set<Id>): seq<Entry> {
    Filter(entries, EntryLives(live))
  }

  function Shed(index: Index, live: set<Id>): Index {
    if index.NoIndex? then index else index.(entries := LiveEntries(index.entries, live))
  }

  function ClampAffect(valence: real, arousal: real, intensity: real): Affect {
    Affect(Clamp(valence, -1.0, 1.0), Clamp(arousal, 0.0, 1.0), Clamp(intensity, 0.0, 1.0))
  }

  function Known(g: State, id: Id): Reply {
    Code(if id in g.nodes then 0 else 2)
  }

  function Found(s: EngineState, query: Vector, topK: nat): seq<Row> {
    if query == [] || topK == 0 || s.index.NoIndex? then []
    else Answer(s.graph, s.index.entries, s.index.dimension, query, topK)
  }

  function After(s: EngineState, call: Call): EngineState {
    match call
    case AddNode(content, tags, source, cell, canon, embedding) =>
      EngineState(CreateNode(s.graph, DraftOf(content, tags, source, cell, canon)),
                  WithEmbedding(s.index, FreshId(s.graph), embedding))
    case SetNodeAffect(id, valence, arousal, intensity) =>
      s.(graph := SetAffect(s.graph, id, ClampAffect(valence, arousal, intensity)))
    case Feedback(id, helpful) =>
      s.(graph := RecordFeedback(s.graph, id, helpful != 0))
    case PromoteConfirmed(minConfirmations, level) =>
      s.(graph := Promote(s.graph, minConfirmations, CanonFromByte(level)))
    case Enforce(maxNodes) =>
      var g := Eviction.EnforceCapacity(s.graph, maxNodes);
      EngineState(g, if |g.nodes| < |s.graph.nodes| then Shed(s.index, g.nodes.Keys) else s.index)
    case Search(_, _) => s
    case NodeCount => s
  }

  function ReplyTo(s: EngineState, call: Call): Reply {
    match call
    case AddNode(_, _, _, _, _, _) => Name(FreshId(s.graph))
    case SetNodeAffect(id, _, _, _) => Known(s.graph, id)
    case Feedback(id, _) => Known(s.graph, id)
    case PromoteConfirmed(minConfirmations, level) =>
      Count(|PromotedIds(s.graph, minConfirmations, CanonFromByte(level))|)
    case Enforce(maxNodes) =>
      Count(|Eviction.Evicted(s.graph, maxNodes)|)
    case Search(query, topK) => Rows(Found(s, query, topK))
    case NodeCount => Count(|s.graph.nodes|)
  }

  function RunCalls(s: EngineState, calls: seq<Call>): EngineState {
    if calls == [] then s else After(RunCalls(s, calls[..|calls| - 1]), calls[|calls| - 1])
  }

  lemma LiveEntriesKeep(entries: seq<Entry>, live: set<Id>)
    ensures forall e :: e in LiveEntries(entries, live) <==> e in entries && e.id in live
  {
    FilterKeeps(entries, EntryLives(live));
  }

  // Retaining by a test on ids is retaining the ids that pass it.
  lemma RetainedIsLive(entries: seq<Entry>, keep: Id -> bool, live: set<Id>)
    requires forall id :: keep(id) <==> id in live
    ensures Retained(entries, keep) == LiveEntries(entries, live)
  {
    FilterSame(entries, EntryPasses(keep), EntryLives(live));
  }
}
