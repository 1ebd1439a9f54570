// Over-fetching is not enough: as many quarantined nodes as there are candidates, each as near to the
// query as a user's fact, hide that fact completely.
module SelfEcho {
  import opened Cosine
  import opened Engine
  import opened EngineHistory
  import opened Graph
  import H = GraphHistory
  import opened IdGenerator
  import opened Provenance
  import opened Recall
  import opened SearchCertificate
  import opened Shortlist
  import opened StableSort
  import opened VectorIndex
  import opened Words

  const POINT: Vector := [1.0]

  // The model describing itself.
  const ECHO: Call := AddNode("", [], 2, 0, 0, POINT)

  function Echoes(n: nat): seq<Call> {
    if n == 0 then [] else Echoes(n - 1) + [ECHO]
  }

  ghost predicate AtPoint(entries: seq<Entry>) {
    forall i :: 0 <= i < |entries| ==> entries[i].vector == POINT
  }

  ghost predicate Echoing(g: State, entries: seq<Entry>) {
    forall i :: 0 <= i < |entries| ==> entries[i].id in g.nodes && g.nodes[entries[i].id].source == LlmSelfDescription
  }

  ghost predicate AllEcho(s: EngineState, n: nat) {
    if n == 0 then s == FRESH
    else s.index.Indexed? && s.index.dimension == 1 && |s.index.entries| == n
         && AtPoint(s.index.entries) && Echoing(s.graph, s.index.entries)
  }

  lemma EchoStep(s: EngineState, n: nat)
    requires AllEcho(s, n) && FreshId(s.graph) !in s.graph.nodes
    ensures AllEcho(After(s, ECHO), n + 1)
  {
    var s' := After(s, ECHO);
    assert s'.index.entries == (if n == 0 then [] else s.index.entries) + [Entry(FreshId(s.graph), POINT)];
  }

  ghost predicate EchoSession(c: Session, n: nat) {
    match c case Session(s, ids, ticks) => ids == n && ticks == n && AllEcho(s, n)
  }

  ghost predicate OnlyEchoes(calls: seq<Call>) {
    forall i :: 0 <= i < |calls| ==> calls[i] == ECHO
  }

  lemma {:induction false} EchoesOnly(n: nat)
    ensures |Echoes(n)| == n && OnlyEchoes(Echoes(n))
  {
    if n > 0 {
      EchoesOnly(n - 1);
    }
  }

  lemma EchoNext(calls: seq<Call>)
    requires EchoSession(RunSession(OPENED, calls), |calls|) && |calls| + 1 < WORD
    ensures EchoSession(Next(RunSession(OPENED, calls), ECHO), |calls| + 1)
  {
    var c := RunSession(OPENED, calls);
    SessionFromFresh(calls);
    H.SupplyFromValid(INITIAL_SEED);
    FreshNotLive(H.SupplyFrom(INITIAL_SEED), c);
    EchoStep(c.s, |calls|);
  }

  lemma {:induction false} EchoRun(calls: seq<Call>)
    requires |calls| < WORD && OnlyEchoes(calls)
    ensures EchoSession(RunSession(OPENED, calls), |calls|)
  {
    if calls != [] {
      EchoRun(calls[..|calls| - 1]);
      EchoNext(calls[..|calls| - 1]);
    }
  }

  lemma EchoesFromFresh(n: nat)
    requires n < WORD
    ensures EchoSession(RunSession(OPENED, Echoes(n)), n)
    ensures EngineOk(H.SupplyFrom(INITIAL_SEED), RunSession(OPENED, Echoes(n)))
  {
    EchoesOnly(n);
    EchoRun(Echoes(n));
    SessionFromFresh(Echoes(n));
  }

  lemma PointScore()
    ensures SignedCosine(POINT, POINT) == 1.0
  {
    assert POINT[..0] == [];
  }

  function FirstSlots(n: nat): seq<Hit> {
    seq(n, i requires 0 <= i < n => Hit(1.0, i))
  }

  // Among equal scores the first n slots win.
  lemma FirstSlotsWin(scores: seq<real>, n: nat)
    requires n <= |scores| && forall i :: 0 <= i < |scores| ==> scores[i] == 1.0
    ensures TopHits(scores, n) == FirstSlots(n)
  {
    var r := FirstSlots(n);
    assert forall i :: 0 <= i < n ==> r[i] == Hit(scores[i], i);
    TopHitsCharacterised(r, scores, n);
  }

  // At one point, the candidates are the first entries.
  lemma FirstEntriesFound(entries: seq<Entry>, n: nat, r: SearchResult)
    requires AtPoint(entries) && n <= |entries| && r in Ranked(entries, 1, POINT, n)
    ensures exists i :: 0 <= i < n && r == SearchResult(entries[i].id, 1.0)
  {
    PointScore();
    FirstSlotsWin(Scores(entries, POINT), n);
    TopSlots(Scores(entries, POINT), n);
    var seen := Ranked(entries, 1, POINT, n);
    var j :| 0 <= j < |seen| && seen[j] == r;
    assert TopHits(Scores(entries, POINT), n)[j] == Hit(1.0, j);
  }

  lemma EchoesQuarantined(g: State, entries: seq<Entry>, n: nat)
    requires AtPoint(entries) && n <= |entries| && Echoing(g, entries[..n])
    ensures Weighed(g, Ranked(entries, 1, POINT, n)) == []
  {
    var seen := Ranked(entries, 1, POINT, n);
    WeighedMembers(g, seen);
    forall r | r in seen ensures !Eligible(g, r) {
      FirstEntriesFound(entries, n, r);
      var i :| 0 <= i < n && r == SearchResult(entries[i].id, 1.0);
      assert entries[..n][i] == entries[i];
    }
    NonEmptyHasMember(Weighed(g, seen));
  }

  // The full ranking is the first n entries and then the last.
  lemma LastRanked(entries: seq<Entry>, n: nat)
    requires AtPoint(entries) && |entries| == n + 1
    ensures Ranked(entries, 1, POINT, n + 1) == Ranked(entries, 1, POINT, n) + [SearchResult(entries[n].id, 1.0)]
  {
    PointScore();
    FirstSlotsWin(Scores(entries, POINT), n + 1);
    TopSlots(Scores(entries, POINT), n + 1);
    RankedPrefix(entries, 1, POINT, n);
    var all := Ranked(entries, 1, POINT, n + 1);
    assert TopHits(Scores(entries, POINT), n + 1)[n] == Hit(1.0, n);
    assert all == all[..n] + [all[n]];
  }

  function NoteRow(g: State, x: Id): Row
    requires x in g.nodes
  {
    RowOf(g, SearchResult(x, 1.0))
  }

  lemma OnlyLastWeighed(g: State, entries: seq<Entry>, n: nat, x: Id)
    requires AtPoint(entries) && |entries| == n + 1 && Echoing(g, entries[..n])
    requires x == entries[n].id && x in g.nodes && g.nodes[x].source == UserUtterance
    ensures Weighed(g, Ranked(entries, 1, POINT, n + 1)) == [NoteRow(g, x)]
  {
    LastRanked(entries, n);
    EchoesQuarantined(g, entries, n);
    WeighedConcat(g, Ranked(entries, 1, POINT, n), [SearchResult(x, 1.0)]);
    assert [SearchResult(x, 1.0)][..0] == [];
    assert Weighed(g, [SearchResult(x, 1.0)]) == [NoteRow(g, x)];
  }

  // What the search sees once the user's note has been added behind n echoes.
  lemma NoteBehindEchoes(s: EngineState, s': EngineState, n: nat, x: Id)
    requires n > 0 && AllEcho(s, n) && x !in s.graph.nodes
    requires x in s'.graph.nodes && s'.graph.nodes == s.graph.nodes[x := s'.graph.nodes[x]]
    requires s'.graph.nodes[x].source == UserUtterance
    requires s'.index == Indexed(1, s.index.entries + [Entry(x, POINT)])
    ensures Weighed(s'.graph, Ranked(s'.index.entries, 1, POINT, n)) == []
    ensures Weighed(s'.graph, Ranked(s'.index.entries, 1, POINT, n + 1)) == [NoteRow(s'.graph, x)]
  {
    var entries := s'.index.entries;
    assert entries[..n] == s.index.entries;
    EchoesQuarantined(s'.graph, entries, n);
    OnlyLastWeighed(s'.graph, entries, n, x);
  }

  lemma NothingOrNote(g: State, entries: seq<Entry>, k: nat, row: Row)
    requires k > 0 && |entries| == Fetch(k) + 1
    requires Weighed(g, Ranked(entries, 1, POINT, Fetch(k))) == []
    requires Weighed(g, Ranked(entries, 1, POINT, Fetch(k) + 1)) == [row]
    ensures Answer(g, entries, 1, POINT, k) == [] && Ideal(g, entries, 1, POINT, k) == [row]
    ensures !Certificate(g, Ranked(entries, 1, POINT, Fetch(k)), k)
  {
    SortOne(row);
    if Certificate(g, Ranked(entries, 1, POINT, Fetch(k)), k) {
      CertificateSuffices(g, entries, 1, POINT, k);
    }
  }

  lemma SortOne(row: Row)
    ensures Sort([row], HigherScore) == [row]
  {
    assert [row][..0] == [];
  }

  lemma NoteHidden(c: Session, k: nat) returns (x: Id)
    requires k > 0 && Fetch(k) < WORD && EchoSession(c, Fetch(k)) && EngineOk(H.SupplyFrom(INITIAL_SEED), c)
    ensures var s := Next(c, Note(POINT)).s;
            && Searchable(s, POINT) && Found(s, POINT, k) == [] && !Certified(s, POINT, k)
            && x !in c.s.graph.nodes && x in s.graph.nodes && s.graph.nodes[x].source == UserUtterance
            && Ideal(s.graph, s.index.entries, 1, POINT, k) == [NoteRow(s.graph, x)]
  {
    var s := Next(c, Note(POINT)).s;
    x := FreshId(c.s.graph);
    H.SupplyFromValid(INITIAL_SEED);
    NoteAdds(H.SupplyFrom(INITIAL_SEED), c, POINT);
    NoteBehindEchoes(c.s, s, Fetch(k), x);
    NothingOrNote(s.graph, s.index.entries, k, NoteRow(s.graph, x));
  }

  // For every k: after as many self-descriptions as a search for k takes candidates, a user's fact x
  // at the very same point is not found, though without the limit it alone would be.
  lemma EchoesHide(k: nat) returns (x: Id)
    requires k > 0 && Fetch(k) < WORD
    ensures var c := RunSession(OPENED, Echoes(Fetch(k)) + [Note(POINT)]); var s := c.s;
            && (Fetch(k) + 1 < WORD ==> H.WithinBudget(GraphPart(c)))
            && Searchable(s, POINT) && Found(s, POINT, k) == [] && !Certified(s, POINT, k)
            && x !in RunSession(OPENED, Echoes(Fetch(k))).s.graph.nodes
            && x in s.graph.nodes && s.graph.nodes[x].source == UserUtterance
            && Ideal(s.graph, s.index.entries, 1, POINT, k) == [NoteRow(s.graph, x)]
  {
    EchoesFromFresh(Fetch(k));
    x := NoteHidden(RunSession(OPENED, Echoes(Fetch(k))), k);
    RunOneMore(Echoes(Fetch(k)), Note(POINT));
    if Fetch(k) + 1 < WORD {
      NoteBudget(RunSession(OPENED, Echoes(Fetch(k))), Fetch(k));
    }
  }

  lemma NoteBudget(c: Session, n: nat)
    requires EchoSession(c, n) && n + 1 < WORD
    ensures H.WithinBudget(GraphPart(Next(c, Note(POINT))))
  {
  }

  // ---- The exact threshold

  // A user's fact with nothing to say, at the point of the query: the cosine is 1 and the score 1.35
  // squared.
  function FactRow(x: Id): Row {
    Row(1.8225, 1.0, x, "", 0)
  }

  // The engine after n echoes and a note named x.
  ghost predicate Noted(s: EngineState, n: nat, x: Id) {
    && s.index.Indexed? && s.index.dimension == 1 && |s.index.entries| == n + 1
    && AtPoint(s.index.entries) && Echoing(s.graph, s.index.entries[..n])
    && s.index.entries[n].id == x && x in s.graph.nodes
    && s.graph.nodes[x].source == UserUtterance && s.graph.nodes[x].id == x
    && s.graph.nodes[x].content == "" && s.graph.nodes[x].cell == 0
  }

  lemma NoteOnFresh()
    ensures Noted(After(FRESH, Note(POINT)), 0, FreshId(FRESH.graph))
  {
  }

  lemma NoteOnEchoes(s: H.Supply, c: Session, n: nat)
    requires H.ValidSupply(s) && EngineOk(s, c) && c.ids < WORD && n > 0 && AllEcho(c.s, n)
    ensures Noted(After(c.s, Note(POINT)), n, FreshId(c.s.graph))
  {
    NoteAdds(s, c, POINT);
    NoteStored(c.s.graph, POINT);
    var entries := After(c.s, Note(POINT)).index.entries;
    assert entries[..n] == c.s.index.entries;
  }

  lemma NoteStored(g: State, v: Vector)
    ensures var n := CreateNode(g, DraftOf("", [], 0, 0, 0)).nodes[FreshId(g)];
            n.id == FreshId(g) && n.content == "" && n.cell == 0
  {
  }

  lemma FullList(entries: seq<Entry>, k: nat)
    requires |entries| <= k
    ensures Ranked(entries, 1, POINT, k) == Ranked(entries, 1, POINT, |entries|)
  {
    RankedPrefix(entries, 1, POINT, k);
    RankedDescends(entries, 1, POINT);
  }

  lemma SomeNotes(g: State, entries: seq<Entry>, k: nat, row: Row)
    requires Weighed(g, Ranked(entries, 1, POINT, Fetch(k))) == [row] && k > 0
    ensures Answer(g, entries, 1, POINT, k) == [row]
  {
    SortOne(row);
  }

  lemma NoNotes(g: State, entries: seq<Entry>, k: nat)
    requires Weighed(g, Ranked(entries, 1, POINT, Fetch(k))) == []
    ensures Answer(g, entries, 1, POINT, k) == []
  {
  }

  lemma NotedAnswer(s: EngineState, n: nat, x: Id, k: nat)
    requires Noted(s, n, x) && k > 0 && 4 * k <= 0xFFFF_FFFF_FFFF_FFFF
    ensures Answer(s.graph, s.index.entries, 1, POINT, k) == if n < 4 * k then [FactRow(x)] else []
  {
    var g, entries := s.graph, s.index.entries;
    if n < 4 * k {
      OnlyLastWeighed(g, entries, n, x);
      FullList(entries, 4 * k);
      SomeNotes(g, entries, k, FactRow(x));
    } else {
      assert entries[..n][..4 * k] == entries[..4 * k];
      EchoesQuarantined(g, entries, 4 * k);
      NoNotes(g, entries, k);
    }
  }

  // Exactly four times as many echoes as results asked for hide the user's fact x: with one fewer it
  // is still found, and found alone.
  lemma EchoThreshold(n: nat, k: nat) returns (x: Id)
    requires n < WORD && k > 0 && 4 * k <= 0xFFFF_FFFF_FFFF_FFFF
    ensures Found(RunSession(OPENED, Echoes(n) + [Note(POINT)]).s, POINT, k) == if n < 4 * k then [FactRow(x)] else []
    ensures x in RunSession(OPENED, Echoes(n) + [Note(POINT)]).s.graph.nodes
    ensures x !in RunSession(OPENED, Echoes(n)).s.graph.nodes
  {
    var c := RunSession(OPENED, Echoes(n));
    EchoesFromFresh(n);
    H.SupplyFromValid(INITIAL_SEED);
    x := FreshId(c.s.graph);
    FreshNotLive(H.SupplyFrom(INITIAL_SEED), c);
    if n == 0 {
      NoteOnFresh();
    } else {
      NoteOnEchoes(H.SupplyFrom(INITIAL_SEED), c, n);
    }
    RunOneMore(Echoes(n), Note(POINT));
    NotedAnswer(After(c.s, Note(POINT)), n, x, k);
  }
}
