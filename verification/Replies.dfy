// The text a search hands to its caller, over every run of an engine opened fresh.
module Replies {
  import opened Cosine
  import opened Engine
  import opened EngineHistory
  import opened Graph
  import H = GraphHistory
  import opened IdGenerator
  import opened Json
  import opened JsonReading
  import J = JsonText
  import opened Provenance
  import opened Recall
  import RecallCertificate
  import opened SearchCertificate
  import opened SelfEcho
  import opened Shortlist
  import opened StableSort
  import opened VectorIndex

  lemma IssuedIsPlain(seed: nat, ids: nat, id: Id)
    requires H.Issued(H.SupplyFrom(seed), ids, id)
    ensures Plain(id)
  {
    var k: nat :| k < ids && id == H.SupplyFrom(seed).idAt(k);
    assert id == IssuedId(seed, k);
    IssuedIsHex(seed, k);
  }

  lemma IssuedIsHex(seed: nat, k: nat)
    ensures Plain(IssuedId(seed, k))
  {
    HexIsPlain(Mix(SeedAfter(seed, k + 1)), 16);
  }

  // A row names a live node and carries its content.
  predicate Names(g: State, row: Row) {
    row.id in g.nodes && row.content == g.nodes[row.id].content
  }

  lemma FoundNames(s: H.Supply, c: Session, query: Vector, k: nat)
    requires EngineOk(s, c)
    ensures forall row :: row in Found(c.s, query, k) ==> Names(c.s.graph, row)
  {
    HealthyKeyed(s, c);
    if c.s.index.Indexed? {
      RecallCertificate.AnswerSound(c.s.graph, c.s.index.entries, c.s.index.dimension, query, k);
      forall row | row in Found(c.s, query, k) ensures Names(c.s.graph, row) {
        assert RecallCertificate.Honest(c.s.graph, c.s.index.entries, query, row);
      }
    }
  }

  lemma LiveIsIssued(s: H.Supply, c: Session, id: Id)
    requires EngineOk(s, c) && id in c.s.graph.nodes
    ensures H.Issued(s, c.ids, id)
  {
  }

  lemma FoundIdsPlain(seed: nat, c: Session, query: Vector, k: nat)
    requires EngineOk(H.SupplyFrom(seed), c)
    ensures PlainIds(Found(c.s, query, k))
  {
    FoundNames(H.SupplyFrom(seed), c, query, k);
    forall row | row in Found(c.s, query, k) ensures Plain(row.id) {
      LiveIsIssued(H.SupplyFrom(seed), c, row.id);
      IssuedIsPlain(seed, c.ids, row.id);
    }
  }

  // Every run: what a search returns reads back as exactly the rows found, if and only if none of
  // the found contents holds a control character.
  lemma ReachableReply(calls: seq<Call>, query: Vector, k: nat, decimal: real -> string)
    requires H.WithinBudget(GraphPart(RunSession(OPENED, calls))) && WritesNumerals(decimal)
    ensures var rows := Found(RunSession(OPENED, calls).s, query, k);
            J.Decode(Returned(rows, decimal)) == J.Document(J.Array(RowValues(rows, decimal))) <==> AllClean(rows)
  {
    SessionFromFresh(calls);
    FoundIdsPlain(INITIAL_SEED, RunSession(OPENED, calls), query, k);
    ReplyFaithful(Found(RunSession(OPENED, calls).s, query, k), decimal);
  }

  // ---- Contents come from callers only

  predicate Stores(g: State, kind: string -> bool) {
    forall id :: id in g.nodes ==> kind(g.nodes[id].content)
  }

  predicate Says(call: Call, kind: string -> bool) {
    call.AddNode? ==> kind(call.content)
  }

  lemma CallStores(s: EngineState, call: Call, kind: string -> bool)
    requires Stores(s.graph, kind) && Says(call, kind)
    ensures Stores(After(s, call).graph, kind)
  {
  }

  // What is true of everything callers say is true of everything stored.
  lemma {:induction false} RunStores(calls: seq<Call>, kind: string -> bool)
    requires forall call :: call in calls ==> Says(call, kind)
    ensures Stores(RunSession(OPENED, calls).s.graph, kind)
  {
    if calls != [] {
      RunStores(calls[..|calls| - 1], kind);
      CallStores(RunSession(OPENED, calls[..|calls| - 1]).s, calls[|calls| - 1], kind);
    }
  }

  lemma FoundSays(calls: seq<Call>, query: Vector, k: nat, kind: string -> bool)
    requires H.WithinBudget(GraphPart(RunSession(OPENED, calls)))
    requires forall call :: call in calls ==> Says(call, kind)
    ensures forall row :: row in Found(RunSession(OPENED, calls).s, query, k) ==> kind(row.content)
  {
    var c := RunSession(OPENED, calls);
    RunStores(calls, kind);
    SessionFromFresh(calls);
    FoundNames(H.SupplyFrom(INITIAL_SEED), c, query, k);
    forall row | row in Found(c.s, query, k) ensures kind(row.content) {
      assert Names(c.s.graph, row);
    }
  }

  // Callers who never store a control character always get replies that read back exactly.
  lemma CleanCallersUnderstood(calls: seq<Call>, query: Vector, k: nat, decimal: real -> string)
    requires H.WithinBudget(GraphPart(RunSession(OPENED, calls))) && WritesNumerals(decimal)
    requires forall call :: call in calls ==> Says(call, Clean)
    ensures var rows := Found(RunSession(OPENED, calls).s, query, k);
            J.Decode(Returned(rows, decimal)) == J.Document(J.Array(RowValues(rows, decimal)))
  {
    ReachableReply(calls, query, k, decimal);
    FoundSays(calls, query, k, Clean);
  }

  // ---- Callers of the C interface

  // What a C string can hold.
  predicate CText(content: string) {
    NUL !in content
  }

  // No content that came in as a C string makes the array fall back to an empty one: the reply is
  // the rows, or no JSON at all.
  lemma CCallersReply(calls: seq<Call>, query: Vector, k: nat, decimal: real -> string)
    requires H.WithinBudget(GraphPart(RunSession(OPENED, calls))) && WritesNumerals(decimal)
    requires forall call :: call in calls ==> Says(call, CText)
    ensures var rows := Found(RunSession(OPENED, calls).s, query, k);
            && NUL !in Returned(rows, decimal)
            && J.Decode(Returned(rows, decimal)) ==
               if AllClean(rows) then J.Document(J.Array(RowValues(rows, decimal))) else J.NotJson
  {
    var rows := Found(RunSession(OPENED, calls).s, query, k);
    FoundSays(calls, query, k, CText);
    SessionFromFresh(calls);
    FoundIdsPlain(INITIAL_SEED, RunSession(OPENED, calls), query, k);
    RowsNul(rows, decimal);
    ReplyReads(rows, decimal);
  }

  // ---- One note is enough

  lemma OneEntryFound(g: State, id: Id)
    requires id in g.nodes && g.nodes[id].source == UserUtterance
    ensures Answer(g, [Entry(id, POINT)], 1, POINT, 1) == [RowOf(g, SearchResult(id, 1.0))]
  {
    var entries := [Entry(id, POINT)];
    PointScore();
    FirstSlotsWin(Scores(entries, POINT), 1);
    TopSlots(Scores(entries, POINT), Fetch(1));
    assert TopHits(Scores(entries, POINT), Fetch(1)) == TopHits(Scores(entries, POINT), 1);
    OneHit(g, Ranked(entries, 1, POINT, Fetch(1)), id);
  }

  lemma OneHit(g: State, hits: seq<SearchResult>, id: Id)
    requires hits == [SearchResult(id, 1.0)] && id in g.nodes && g.nodes[id].source == UserUtterance
    ensures Rerank(g, hits, 1) == [RowOf(g, SearchResult(id, 1.0))]
  {
    assert hits[..0] == [];
    assert Weighed(g, hits) == [RowOf(g, hits[0])];
    var row := RowOf(g, hits[0]);
    assert [row][..0] == [] && Sort([row], HigherScore) == [row];
  }

  function NoteOf(content: string): Call {
    AddNode(content, [], 0, 0, 0, POINT)
  }

  lemma NoteFound(content: string)
    ensures H.WithinBudget(GraphPart(RunSession(OPENED, [NoteOf(content)])))
    ensures var s := RunSession(OPENED, [NoteOf(content)]).s;
            && Found(s, POINT, 1) == Answer(s.graph, [Entry(FreshId(FRESH.graph), POINT)], 1, POINT, 1)
            && |Found(s, POINT, 1)| == 1 && Found(s, POINT, 1)[0].content == content
  {
    RunOneMore([], NoteOf(content));
    assert [] + [NoteOf(content)] == [NoteOf(content)];
    var s := RunSession(OPENED, [NoteOf(content)]).s;
    OneEntryFound(s.graph, FreshId(FRESH.graph));
  }

  lemma OneRowClean(rows: seq<Row>)
    requires |rows| == 1
    ensures AllClean(rows) <==> Clean(rows[0].content)
  {
    assert rows == [rows[0]];
  }

  // Whatever is stored: a search that finds this one note is understood exactly when the note is
  // free of control characters, and what a C caller gets otherwise is not JSON.
  lemma OneNoteReply(content: string, decimal: real -> string)
    requires WritesNumerals(decimal) && CText(content)
    ensures var rows := Found(RunSession(OPENED, [NoteOf(content)]).s, POINT, 1);
            && |rows| == 1 && rows[0].content == content
            && J.Decode(Returned(rows, decimal)) ==
               if Clean(content) then J.Document(J.Array(RowValues(rows, decimal))) else J.NotJson
  {
    NoteFound(content);
    CCallersReply([NoteOf(content)], POINT, 1, decimal);
    OneRowClean(Found(RunSession(OPENED, [NoteOf(content)]).s, POINT, 1));
  }

  // In particular a line break is enough to make the reply unreadable.
  lemma LineBreakUnreadable(decimal: real -> string)
    requires WritesNumerals(decimal)
    ensures J.Decode(Returned(Found(RunSession(OPENED, [NoteOf("\n")]).s, POINT, 1), decimal)) == J.NotJson
  {
    OneNoteReply("\n", decimal);
    assert "\n"[0] in "\n" && J.Control('\n');
  }
}
