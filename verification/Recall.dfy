// Weighted recall: over-fetch by cosine, drop what is below the floor or quarantined, weigh by
// provenance, sort, cut. Cosines and scores are signed squares, so the floor is 0.25 squared and
// weights are squared.
module Recall {
  import opened Cosine
  import opened Graph
  import opened IdGenerator
  import opened Provenance
  import opened Shortlist
  import opened StableSort
  import opened VectorIndex

  const FLOOR: real := 0.0625
  const USIZE_MAX: nat := 0xFFFF_FFFF_FFFF_FFFF

  datatype Row = Row(score: real, cosine: real, id: Id, content: string, cell: nat)

  function Weight(source: SourceType): real {
    source.RankMultiplier() * source.RankMultiplier()
  }

  // Ranking rows by their score is ranking them by cosine times provenance multiplier.
  lemma ScoreOrder(c: real, a: SourceType, d: real, b: SourceType)
    ensures c * a.RankMultiplier() >= d * b.RankMultiplier() <==>
            SignedSquare(c) * Weight(a) >= SignedSquare(d) * Weight(b)
  {
    WeightedSignedSquare(c, a.RankMultiplier());
    WeightedSignedSquare(d, b.RankMultiplier());
    SignedSquareOrder(c * a.RankMultiplier(), d * b.RankMultiplier());
  }

  // The floor of 1/16 admits exactly the cosines of at least 0.25.
  lemma FloorIsQuarter(c: real)
    ensures SignedSquare(c) >= FLOOR <==> c >= 0.25
  {
    SignedSquareOrder(c, 0.25);
  }

  const TOP_WEIGHT: real := 1.8225

  predicate Eligible(g: State, r: SearchResult) {
    r.score >= FLOOR && r.id in g.nodes && Weight(g.nodes[r.id].source) > 0.0
  }

  function RowOf(g: State, r: SearchResult): Row
    requires r.id in g.nodes
  {
    var n := g.nodes[r.id];
    Row(r.score * Weight(n.source), r.score, n.id, n.content, n.cell)
  }

  // The filter chain over the candidates.
  function Weighed(g: State, results: seq<SearchResult>): seq<Row> {
    if results == [] then []
    else
      var last := results[|results| - 1];
      Weighed(g, results[..|results| - 1]) + (if Eligible(g, last) then [RowOf(g, last)] else [])
  }

  predicate HigherScore(a: Row, b: Row) {
    a.score >= b.score
  }

  function Rerank(g: State, results: seq<SearchResult>, k: nat): seq<Row> {
    Take(Sort(Weighed(g, results), HigherScore), k)
  }

  // How many candidates a search for k results takes (multiplication saturates).
  function Fetch(k: nat): nat {
    Max(Min(4 * k, USIZE_MAX), k)
  }

  // What the search answers.
  function Answer(g: State, entries: seq<Entry>, dimension: nat, query: seq<real>, k: nat): seq<Row> {
    Rerank(g, Ranked(entries, dimension, query, Fetch(k)), k)
  }

  // What it stands for: the same pipeline with nothing cut off before the weights are applied.
  function Ideal(g: State, entries: seq<Entry>, dimension: nat, query: seq<real>, k: nat): seq<Row> {
    Rerank(g, Ranked(entries, dimension, query, |entries|), k)
  }

  lemma {:induction false} WeighedConcat(g: State, a: seq<SearchResult>, b: seq<SearchResult>)
    ensures Weighed(g, a + b) == Weighed(g, a) + Weighed(g, b)
  {
    if b == [] {
      assert a + b == a;
    } else {
      WeighedConcat(g, a, b[..|b| - 1]);
      assert (a + b)[..|a + b| - 1] == a + b[..|b| - 1];
    }
  }

  lemma {:induction false} WeighedMembers(g: State, results: seq<SearchResult>)
    ensures |Weighed(g, results)| <= |results|
    ensures forall row :: row in Weighed(g, results) <==>
              exists r :: r in results && Eligible(g, r) && row == RowOf(g, r)
  {
    if results != [] {
      var rest, last := results[..|results| - 1], results[|results| - 1];
      WeighedMembers(g, rest);
      assert results == rest + [last];
    }
  }

  lemma HigherScoreTotal()
    ensures TotalPreorder(HigherScore)
  {
  }

  lemma TopHitsPrefix(scores: seq<real>, n: nat)
    ensures TopHits(scores, n) == Take(TopHits(scores, |scores|), n)
  {
  }

  lemma ResolvePrefix(ids: seq<Id>, hits: seq<Hit>, n: nat)
    requires forall h :: h in hits ==> h.slot < |ids|
    ensures forall h :: h in Take(hits, n) ==> h.slot < |ids|
    ensures Resolve(ids, Take(hits, n)) == Take(Resolve(ids, hits), n)
  {
  }

  ghost predicate Descending(results: seq<SearchResult>) {
    forall i, j :: 0 <= i < j < |results| ==> results[i].score >= results[j].score
  }

  lemma ResolveDescends(ids: seq<Id>, hits: seq<Hit>)
    requires (forall h :: h in hits ==> h.slot < |ids|) && Sorted(hits, Precedes)
    ensures Descending(Resolve(ids, hits))
  {
    forall i, j | 0 <= i < j < |hits| ensures Resolve(ids, hits)[i].score >= Resolve(ids, hits)[j].score {
      assert Precedes(hits[i], hits[j]);
    }
  }

  // The cosine candidates are the first n of the full cosine ranking.
  lemma RankedPrefix(entries: seq<Entry>, dimension: nat, query: seq<real>, n: nat)
    ensures Ranked(entries, dimension, query, n) == Take(Ranked(entries, dimension, query, |entries|), n)
  {
    if |query| == dimension {
      var scores := Scores(entries, query);
      TopSlots(scores, |entries|);
      TopHitsPrefix(scores, n);
      ResolvePrefix(Ids(entries), TopHits(scores, |entries|), n);
    }
  }

  // The full ranking lists every entry, and its cosines never rise.
  lemma RankedDescends(entries: seq<Entry>, dimension: nat, query: seq<real>)
    ensures var all := Ranked(entries, dimension, query, |entries|);
            && |all| == (if |query| == dimension then |entries| else 0)
            && Descending(all)
  {
    if |query| == dimension {
      TopHitsIsTop(Scores(entries, query), |entries|);
      ResolveDescends(Ids(entries), TopHits(Scores(entries, query), |entries|));
    }
  }

  // ---- When the answer is the ideal

  // The part of the full ranking the search never looks at.
  function Unseen(entries: seq<Entry>, dimension: nat, query: seq<real>, k: nat): seq<SearchResult> {
    var all := Ranked(entries, dimension, query, |entries|);
    if |all| <= Fetch(k) then [] else all[Fetch(k)..]
  }

  lemma TakeAndRest(all: seq<SearchResult>, n: nat)
    ensures all == Take(all, n) + (if |all| <= n then [] else all[n..])
  {
  }

  lemma SeenAndUnseen(entries: seq<Entry>, dimension: nat, query: seq<real>, k: nat)
    ensures Ranked(entries, dimension, query, |entries|) ==
            Ranked(entries, dimension, query, Fetch(k)) + Unseen(entries, dimension, query, k)
  {
    RankedPrefix(entries, dimension, query, Fetch(k));
    TakeAndRest(Ranked(entries, dimension, query, |entries|), Fetch(k));
  }

  // Exactly when over-fetching was enough: nothing eligible was left unseen, or k results were
  // found and nothing unseen outweighs the last of them.
  lemma ExactIff(g: State, entries: seq<Entry>, dimension: nat, query: seq<real>, k: nat)
    ensures Answer(g, entries, dimension, query, k) == Ideal(g, entries, dimension, query, k) <==>
            !Displaced(Weighed(g, Ranked(entries, dimension, query, Fetch(k))),
                       Weighed(g, Unseen(entries, dimension, query, k)), k, HigherScore)
  {
    var seen, unseen := Ranked(entries, dimension, query, Fetch(k)), Unseen(entries, dimension, query, k);
    SeenAndUnseen(entries, dimension, query, k);
    WeighedConcat(g, seen, unseen);
    HigherScoreTotal();
    TakeUnchanged(Weighed(g, seen), Weighed(g, unseen), k, HigherScore);
  }

  // What can be read off the candidates alone: they ran out, the last one is below the floor, or
  // k results were found and the k-th outweighs anything no nearer than the last candidate.
  predicate Certificate(g: State, candidates: seq<SearchResult>, k: nat) {
    || |candidates| < Fetch(k)
    || (|candidates| > 0 && candidates[|candidates| - 1].score < FLOOR)
    || (|candidates| > 0 && 0 < k <= |Rerank(g, candidates, k)|
        && Rerank(g, candidates, k)[k - 1].score >= TOP_WEIGHT * candidates[|candidates| - 1].score)
    || k == 0
  }

  lemma WeightBounded(source: SourceType)
    ensures 0.0 <= Weight(source) <= TOP_WEIGHT
    ensures Weight(source) > 0.0 <==> !source.IsSelfDescription()
  {
  }

  lemma UnseenAreFarther(entries: seq<Entry>, dimension: nat, query: seq<real>, k: nat, r: SearchResult)
    requires r in Unseen(entries, dimension, query, k)
    ensures var seen := Ranked(entries, dimension, query, Fetch(k));
            |seen| == Fetch(k) && (|seen| > 0 ==> r.score <= seen[|seen| - 1].score)
  {
    RankedPrefix(entries, dimension, query, Fetch(k));
    RankedDescends(entries, dimension, query);
    TailFarther(Ranked(entries, dimension, query, |entries|), Fetch(k), r);
  }

  lemma TailFarther(all: seq<SearchResult>, n: nat, r: SearchResult)
    requires Descending(all) && n < |all| && r in all[n..]
    ensures |Take(all, n)| == n && (n > 0 ==> r.score <= Take(all, n)[n - 1].score)
  {
    var i :| 0 <= i < |all[n..]| && all[n..][i] == r;
    assert all[n + i] == r;
  }

  lemma OutweighedBy(x: real, w: real, last: real)
    requires 0.0 <= w <= TOP_WEIGHT && 0.0 <= x <= last
    ensures x * w <= TOP_WEIGHT * last
  {
    assert x * w <= x * TOP_WEIGHT;
  }

  // At least k rows were found and the k-th is worth as much.
  ghost predicate NotOutweighed(rows: seq<Row>, k: nat, row: Row) {
    0 < k <= |rows| && HigherScore(Sort(rows, HigherScore)[k - 1], row)
  }

  // Under a certificate nothing eligible beyond the candidates can enter the first k.
  lemma FartherNeverEnters(g: State, seen: seq<SearchResult>, r: SearchResult, k: nat)
    requires k > 0 && |seen| == Fetch(k) && Certificate(g, seen, k)
    requires |seen| > 0 && r.score <= seen[|seen| - 1].score && Eligible(g, r)
    ensures NotOutweighed(Weighed(g, seen), k, RowOf(g, r))
  {
    WeightBounded(g.nodes[r.id].source);
    OutweighedBy(r.score, Weight(g.nodes[r.id].source), seen[|seen| - 1].score);
  }

  lemma NothingDisplaced(rows: seq<Row>, late: seq<Row>, k: nat)
    requires forall row :: row in late ==> NotOutweighed(rows, k, row)
    ensures !Displaced(rows, late, k, HigherScore)
  {
    NonEmptyHasMember(late);
  }

  // A certificate, or an index no larger than the fetch, guarantees the ideal answer.
  lemma CertificateSuffices(g: State, entries: seq<Entry>, dimension: nat, query: seq<real>, k: nat)
    requires |entries| <= Fetch(k) || Certificate(g, Ranked(entries, dimension, query, Fetch(k)), k)
    ensures Answer(g, entries, dimension, query, k) == Ideal(g, entries, dimension, query, k)
  {
    var seen, unseen := Ranked(entries, dimension, query, Fetch(k)), Unseen(entries, dimension, query, k);
    ExactIff(g, entries, dimension, query, k);
    RankedDescends(entries, dimension, query);
    if k > 0 && unseen != [] {
      WeighedMembers(g, unseen);
      forall row | row in Weighed(g, unseen) ensures NotOutweighed(Weighed(g, seen), k, row) {
        var r :| r in unseen && Eligible(g, r) && row == RowOf(g, r);
        UnseenAreFarther(entries, dimension, query, k, r);
        FartherNeverEnters(g, seen, r, k);
      }
      NothingDisplaced(Weighed(g, seen), Weighed(g, unseen), k);
    }
  }

  // An index of at most four times the results asked for is searched exactly.
  lemma SmallIndexExact(g: State, entries: seq<Entry>, dimension: nat, query: seq<real>, k: nat)
    requires 1 <= k && 4 * k <= 0xFFFF_FFFF_FFFF_FFFF && |entries| <= 4 * k
    ensures Answer(g, entries, dimension, query, k) == Ideal(g, entries, dimension, query, k)
  {
    CertificateSuffices(g, entries, dimension, query, k);
  }
}
