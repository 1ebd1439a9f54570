// What a caller of the engine can rely on in a search result: the certificate, read off the
// candidates, decides whether every run that shows the same candidates got its ideal answer.
module SearchCertificate {
  import AssociativeRecall
  import opened Cosine
  import opened Engine
  import opened EngineHistory
  import opened Graph
  import H = GraphHistory
  import opened IdGenerator
  import opened Provenance
  import opened Recall
  import opened RecallCertificate
  import opened StableSort
  import opened VectorIndex
  import opened Words

  // An index with the dimension of the query.
  ghost predicate Searchable(s: EngineState, query: Vector) {
    s.index.Indexed? && |query| == s.index.dimension
  }

  function Candidates(s: EngineState, query: Vector, k: nat): seq<SearchResult>
    requires s.index.Indexed?
  {
    Ranked(s.index.entries, s.index.dimension, query, Fetch(k))
  }

  ghost predicate Certified(s: EngineState, query: Vector, k: nat)
    requires s.index.Indexed?
  {
    Certificate(s.graph, Candidates(s, query, k), k)
  }

  // The search gives what the pipeline without a limit on candidates would.
  ghost predicate Exact(s: EngineState, query: Vector, k: nat)
    requires s.index.Indexed?
  {
    Answer(s.graph, s.index.entries, s.index.dimension, query, k) ==
    Ideal(s.graph, s.index.entries, s.index.dimension, query, k)
  }

  // The same candidates, with records recall cannot tell apart.
  ghost predicate SameSight(a: EngineState, b: EngineState, query: Vector, k: nat)
    requires a.index.Indexed? && b.index.Indexed?
  {
    Candidates(a, query, k) == Candidates(b, query, k) && SameRecords(a.graph, b.graph, Candidates(a, query, k))
  }

  lemma CertifiedIsExact(a: EngineState, b: EngineState, query: Vector, k: nat)
    requires a.index.Indexed? && b.index.Indexed? && SameSight(a, b, query, k) && Certified(a, query, k)
    ensures Exact(b, query, k)
  {
    WeighedAlike(a.graph, b.graph, Candidates(a, query, k));
    assert Certified(b, query, k);
    CertificateSuffices(b.graph, b.index.entries, b.index.dimension, query, k);
  }

  // ---- Without a certificate, one more call is answered wrongly

  // A user's note.
  function Note(embedding: Vector): Call {
    AddNode("", [], 0, 0, 0, embedding)
  }

  lemma NoteAdds(s: H.Supply, c: Session, v: Vector)
    requires H.ValidSupply(s) && EngineOk(s, c) && c.ids < WORD
    requires c.s.index.Indexed? && |v| == c.s.index.dimension
    ensures var s', x := Next(c, Note(v)).s, FreshId(c.s.graph);
            && x !in c.s.graph.nodes && x in s'.graph.nodes && s'.graph.nodes[x].source == UserUtterance
            && s'.graph.nodes == c.s.graph.nodes[x := s'.graph.nodes[x]]
            && s'.index == Indexed(c.s.index.dimension, c.s.index.entries + [Entry(x, v)])
  {
    FreshNotLive(s, c);
  }

  lemma NoteMissed(s: H.Supply, c: Session, query: Vector, k: nat) returns (v: Vector)
    requires H.ValidSupply(s) && EngineOk(s, c) && c.ids < WORD
    requires Searchable(c.s, query) && !Certified(c.s, query, k)
    ensures Searchable(Next(c, Note(v)).s, query)
    ensures SameSight(c.s, Next(c, Note(v)).s, query, k) && !Exact(Next(c, Note(v)).s, query, k)
  {
    var g, entries, dimension := c.s.graph, c.s.index.entries, c.s.index.dimension;
    var seen, n, x := Candidates(c.s, query, k), Fetch(k), FreshId(c.s.graph);
    Uncertified(g, seen, k);
    RankedWithin(entries, dimension, query, n);
    var i := RankedComesFrom(entries, dimension, query, n, n - 1);
    assert entries[i] in entries;
    v := entries[i].vector;
    NoteAdds(s, c, v);
    var s' := Next(c, Note(v)).s;
    LatecomerUnseen(g, s'.graph, entries, dimension, query, n, i, Entry(x, v));
    WeighedAlike(g, s'.graph, seen);
    StrangerMissed(s'.graph, s'.index.entries, dimension, query, k, x);
  }

  // ---- The certificate decides

  // Every run within budget that shows the same candidates got its ideal answer.
  ghost predicate Assured(s: EngineState, query: Vector, k: nat)
    requires s.index.Indexed?
  {
    forall calls ::
      var s' := RunSession(OPENED, calls).s;
      H.WithinBudget(GraphPart(RunSession(OPENED, calls))) && Searchable(s', query) && SameSight(s, s', query, k) ==>
        Exact(s', query, k)
  }

  lemma CertifiedRuns(s: EngineState, query: Vector, k: nat)
    requires s.index.Indexed? && Certified(s, query, k)
    ensures Assured(s, query, k)
  {
    forall calls | Searchable(RunSession(OPENED, calls).s, query) && SameSight(s, RunSession(OPENED, calls).s, query, k)
      ensures Exact(RunSession(OPENED, calls).s, query, k)
    {
      CertifiedIsExact(s, RunSession(OPENED, calls).s, query, k);
    }
  }

  // One call more, and the same candidates come with the wrong answer.
  lemma UncertifiedRun(calls: seq<Call>, query: Vector, k: nat) returns (v: Vector)
    requires var c := RunSession(OPENED, calls);
             c.ids < WORD && c.ticks + 1 < WORD && Searchable(c.s, query) && !Certified(c.s, query, k)
    ensures var c := RunSession(OPENED, calls + [Note(v)]);
            H.WithinBudget(GraphPart(c)) && Searchable(c.s, query)
            && SameSight(RunSession(OPENED, calls).s, c.s, query, k) && !Exact(c.s, query, k)
  {
    SessionFromFresh(calls);
    H.StartHealthy();
    v := NoteMissed(H.SupplyFrom(INITIAL_SEED), RunSession(OPENED, calls), query, k);
    RunOneMore(calls, Note(v));
  }

  lemma RunOneMore(calls: seq<Call>, call: Call)
    ensures RunSession(OPENED, calls + [call]) == Next(RunSession(OPENED, calls), call)
  {
    assert (calls + [call])[..|calls|] == calls;
  }

  // In every state a run can reach: the certificate holds exactly when every run that shows the
  // same candidates got its ideal answer. No weaker check of the candidates could be trusted.
  lemma CertificateDecides(calls: seq<Call>, query: Vector, k: nat)
    requires var c := RunSession(OPENED, calls);
             c.ids < WORD && c.ticks + 1 < WORD && Searchable(c.s, query)
    ensures Certified(RunSession(OPENED, calls).s, query, k) <==> Assured(RunSession(OPENED, calls).s, query, k)
  {
    if Certified(RunSession(OPENED, calls).s, query, k) {
      CertifiedRuns(RunSession(OPENED, calls).s, query, k);
    } else {
      var v := UncertifiedRun(calls, query, k);
    }
  }

  // ---- What holds of every answer, certified or not

  ghost predicate RowsDistinct(rows: seq<Row>) {
    forall i, j :: 0 <= i < j < |rows| ==> rows[i].id != rows[j].id
  }

  ghost predicate HitsDistinct(hits: seq<SearchResult>) {
    forall i, j :: 0 <= i < j < |hits| ==> hits[i].id != hits[j].id
  }

  lemma {:induction false} WeighedDistinct(g: State, hits: seq<SearchResult>)
    requires Keyed(g) && HitsDistinct(hits)
    ensures RowsDistinct(Weighed(g, hits))
    ensures forall row :: row in Weighed(g, hits) ==> exists r :: r in hits && r.id == row.id
  {
    if hits != [] {
      var front, last := hits[..|hits| - 1], hits[|hits| - 1];
      WeighedDistinct(g, front);
      assert hits == front + [last];
      forall row | row in Weighed(g, front) ensures row.id != last.id {
        var r :| r in front && r.id == row.id;
        var i :| 0 <= i < |front| && front[i] == r;
        assert hits[i].id != hits[|hits| - 1].id;
      }
    }
  }

  lemma SortedDistinct(rows: seq<Row>, k: nat)
    requires RowsDistinct(rows)
    ensures RowsDistinct(Take(Sort(rows, HigherScore), k))
  {
    var r := Sort(rows, HigherScore);
    SortRepeatsNothing(rows, HigherScore);
    SortElements(rows, HigherScore);
    forall i, j | 0 <= i < j < |r| ensures r[i].id != r[j].id {
      assert r[i] in r && r[j] in r && r[i] != r[j];
      var a :| 0 <= a < |rows| && rows[a] == r[i];
      var b :| 0 <= b < |rows| && rows[b] == r[j];
      assert a < b || b < a;
    }
  }

  lemma RankedDistinct(g: State, entries: seq<Entry>, dimension: nat, query: Vector, n: nat)
    requires WellFormed(g, entries, dimension)
    ensures HitsDistinct(Ranked(entries, dimension, query, n))
  {
    var hits, ids := Ranked(entries, dimension, query, n), ResultIds(Ranked(entries, dimension, query, n));
    AssociativeRecall.EntryPointsDistinct(entries, dimension, query, n);
    forall i, j | 0 <= i < j < |hits| ensures hits[i].id != hits[j].id {
      assert ids[i] != ids[j];
    }
  }

  lemma AnswerDistinct(g: State, entries: seq<Entry>, dimension: nat, query: Vector, k: nat)
    requires WellFormed(g, entries, dimension)
    ensures RowsDistinct(Answer(g, entries, dimension, query, k))
  {
    RankedDistinct(g, entries, dimension, query, Fetch(k));
    WeighedDistinct(g, Ranked(entries, dimension, query, Fetch(k)));
    SortedDistinct(Weighed(g, Ranked(entries, dimension, query, Fetch(k))), k);
  }

  // In every reachable state a search names each node at most once, and every row is honest.
  lemma ReachableSearch(calls: seq<Call>, query: Vector, k: nat)
    requires H.WithinBudget(GraphPart(RunSession(OPENED, calls)))
    ensures var s := RunSession(OPENED, calls).s;
            && |Found(s, query, k)| <= k && RowsDistinct(Found(s, query, k))
            && Sorted(Found(s, query, k), HigherScore)
            && (s.index.Indexed? ==>
                  forall row :: row in Found(s, query, k) ==> Honest(s.graph, s.index.entries, query, row))
  {
    var s := RunSession(OPENED, calls).s;
    SessionFromFresh(calls);
    if s.index.Indexed? {
      AnswerSound(s.graph, s.index.entries, s.index.dimension, query, k);
      AnswerDistinct(s.graph, s.index.entries, s.index.dimension, query, k);
    }
  }
}
