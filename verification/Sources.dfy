// Who said a fact, as search shows it: the order of sources among equally near nodes, and what a
// search of a single note reports for each source byte.
module Sources {
  import opened Engine
  import opened Graph
  import opened IdGenerator
  import opened Provenance
  import opened Recall
  import opened RecallCertificate
  import SelfEcho
  import opened StableSort
  import opened VectorIndex

  // The retrieval weight of a source, in hundredths.
  function Hundredths(source: SourceType): int {
    if source == UserUtterance then 135
    else if source == VerifiedExternal then 120
    else if source == ExternalDoc then 100
    else if source == UnknownLegacy then 90
    else if source == LlmGeneration then 55
    else 0
  }

  // x is to y as the square of m to the square of n.
  predicate Proportional(x: real, m: int, y: real, n: int) {
    x * (n * n) as real == y * (m * m) as real
  }

  // Two rows of one and the same positive cosine stand to each other as their sources do.
  lemma EqualCosines(x: real, a: SourceType, b: SourceType)
    requires x > 0.0
    ensures x * Weight(a) >= x * Weight(b) <==> Hundredths(a) >= Hundredths(b)
    ensures Proportional(x * Weight(a), Hundredths(a), x * Weight(b), Hundredths(b))
  {
  }

  lemma RowFacts(g: State, entries: seq<Entry>, query: seq<real>, row: Row)
    requires Keyed(g) && Honest(g, entries, query, row)
    ensures row.id in g.nodes && row.score == row.cosine * Weight(g.nodes[row.id].source)
    ensures row.cosine >= 0.0625 && g.nodes[row.id].source != LlmSelfDescription
  {
  }

  lemma InOrder(rows: seq<Row>, i: nat, j: nat)
    requires i < j < |rows| && Sorted(rows, HigherScore)
    ensures rows[i].score >= rows[j].score
  {
    assert HigherScore(rows[i], rows[j]);
  }

  lemma RowsInOrder(g: State, entries: seq<Entry>, query: seq<real>, a: Row, b: Row)
    requires Keyed(g) && Honest(g, entries, query, a) && Honest(g, entries, query, b)
    requires a.cosine == b.cosine && a.score >= b.score
    ensures a.id in g.nodes && b.id in g.nodes
    ensures Hundredths(g.nodes[a.id].source) >= Hundredths(g.nodes[b.id].source) >= 55
    ensures Proportional(a.score, Hundredths(g.nodes[a.id].source), b.score, Hundredths(g.nodes[b.id].source))
  {
    RowFacts(g, entries, query, a);
    RowFacts(g, entries, query, b);
    EqualCosines(a.cosine, g.nodes[a.id].source, g.nodes[b.id].source);
  }

  // In every answer, rows of equal cosine come in the order user, verified, external document, unknown,
  // model, with scores in the ratio of the squared weights; the model's words about itself do not come.
  lemma SourcesInOrder(g: State, entries: seq<Entry>, dimension: nat, query: seq<real>, k: nat, i: nat, j: nat)
    requires Keyed(g) && i < j < |Answer(g, entries, dimension, query, k)|
    requires Answer(g, entries, dimension, query, k)[i].cosine == Answer(g, entries, dimension, query, k)[j].cosine
    ensures var a, b := Answer(g, entries, dimension, query, k)[i], Answer(g, entries, dimension, query, k)[j];
            && a.id in g.nodes && b.id in g.nodes
            && Hundredths(g.nodes[a.id].source) >= Hundredths(g.nodes[b.id].source) >= 55
            && Proportional(a.score, Hundredths(g.nodes[a.id].source), b.score, Hundredths(g.nodes[b.id].source))
  {
    var rows := Answer(g, entries, dimension, query, k);
    AnswerSound(g, entries, dimension, query, k);
    InOrder(rows, i, j);
    assert rows[i] in rows && rows[j] in rows;
    RowsInOrder(g, entries, query, rows[i], rows[j]);
  }

  // ---- One note

  // The weight squared, by source byte.
  function ByteWeight(source: nat): real {
    if source == 0 then 1.8225
    else if source == 1 then 0.3025
    else if source == 2 then 0.0
    else if source == 3 then 1.0
    else if source == 4 then 1.44
    else 0.81
  }

  lemma NoteWeight(source: nat)
    ensures Weight(SourceFromByte(source)) == ByteWeight(source)
  {
  }

  lemma OneWeighed(g: State, x: Id)
    requires x in g.nodes && g.nodes[x].id == x
    ensures var n := g.nodes[x];
            Weighed(g, [SearchResult(x, 1.0)]) ==
            if Weight(n.source) > 0.0 then [Row(Weight(n.source), 1.0, x, n.content, n.cell)] else []
  {
    assert [SearchResult(x, 1.0)][..0] == [];
  }

  lemma OneRanked(x: Id, n: nat)
    requires n > 0
    ensures Ranked([Entry(x, SelfEcho.POINT)], 1, SelfEcho.POINT, n) == [SearchResult(x, 1.0)]
  {
    var entries := [Entry(x, SelfEcho.POINT)];
    SelfEcho.LastRanked(entries, 0);
    RankedPrefix(entries, 1, SelfEcho.POINT, 0);
    SelfEcho.FullList(entries, n);
  }

  lemma OneAnswer(g: State, x: Id, k: nat)
    requires x in g.nodes && g.nodes[x].id == x && k > 0
    ensures var n := g.nodes[x];
            Answer(g, [Entry(x, SelfEcho.POINT)], 1, SelfEcho.POINT, k) ==
            if Weight(n.source) > 0.0 then [Row(Weight(n.source), 1.0, x, n.content, n.cell)] else []
  {
    var n := g.nodes[x];
    OneRanked(x, Fetch(k));
    OneWeighed(g, x);
    SelfEcho.SortOne(Row(Weight(n.source), 1.0, x, n.content, n.cell));
  }

  lemma NoteIndexed(s: EngineState, add: Call)
    requires s.index.NoIndex? && add.AddNode? && add.embedding == SelfEcho.POINT
    ensures After(s, add).index == Indexed(1, [Entry(FreshId(s.graph), SelfEcho.POINT)])
    ensures FreshId(s.graph) in After(s, add).graph.nodes
    ensures var n := After(s, add).graph.nodes[FreshId(s.graph)];
            && n.id == FreshId(s.graph) && n.content == add.content && n.cell == add.cell
            && n.source == SourceFromByte(add.source)
  {
  }

  // The first embedded note, searched for where it lies: its row carries what the caller gave, the score
  // its source byte earns, and byte 2 is not reported at all.
  lemma OneNoteRow(s: EngineState, add: Call, k: nat)
    requires s.index.NoIndex? && add.AddNode? && add.embedding == SelfEcho.POINT && k > 0
    ensures Found(After(s, add), SelfEcho.POINT, k) ==
            if add.source == 2 then []
            else [Row(ByteWeight(add.source), 1.0, FreshId(s.graph), add.content, add.cell)]
  {
    NoteIndexed(s, add);
    NoteWeight(add.source);
    OneAnswer(After(s, add).graph, FreshId(s.graph), k);
  }
}
