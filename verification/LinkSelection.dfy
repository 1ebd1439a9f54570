// The loops that choose what to link.
module LinkSelection {
  import opened Cosine
  import opened Linking
  import opened VectorIndex

  lemma LinksOfAppend(entries: seq<Entry>, pairs: seq<(nat, nat)>, p: (nat, nat))
    requires Within(pairs, |entries|) && p.0 < |entries| && p.1 < |entries|
    ensures Within(pairs + [p], |entries|)
    ensures LinksOf(entries, pairs + [p]) == LinksOf(entries, pairs) + [LinkAt(entries, p)]
  {
    assert (pairs + [p])[..|pairs|] == pairs;
  }

  lemma {:induction false} LinksOfConcat(entries: seq<Entry>, a: seq<(nat, nat)>, b: seq<(nat, nat)>)
    requires Within(a, |entries|) && Within(b, |entries|)
    ensures Within(a + b, |entries|)
    ensures LinksOf(entries, a + b) == LinksOf(entries, a) + LinksOf(entries, b)
  {
    if b == [] {
      assert a + b == a;
    } else {
      var front, last := b[..|b| - 1], b[|b| - 1];
      LinksOfConcat(entries, a, front);
      LinksOfAppend(entries, a + front, last);
      assert a + b == a + front + [last] && b == front + [last];
    }
  }

  // In row i, `chosen` holds exactly the pairs that are similar enough.
  ghost predicate ChoosesSimilar(entries: seq<Entry>, threshold: real, i: nat, chosen: set<(nat, nat)>)
    requires i < |entries|
  {
    forall j: nat :: i < j < |entries| ==> ((i, j) in chosen <==> CosineAt(entries, i, j) >= threshold)
  }

  // In row i, `chosen` holds exactly the candidates that are similar enough.
  ghost predicate ChoosesAmong(entries: seq<Entry>, candidates: set<(nat, nat)>, threshold: real, i: nat,
      chosen: set<(nat, nat)>)
    requires i < |entries|
  {
    forall j: nat :: i < j < |entries| ==>
      ((i, j) in chosen <==> (i, j) in candidates && CosineAt(entries, i, j) >= threshold)
  }

  // One more slot of a row.
  lemma RowLinksStep(entries: seq<Entry>, i: nat, j: nat, chosen: set<(nat, nat)>)
    requires i < j < |entries| && Within(Row(i, j, chosen), |entries|)
    ensures Within(Row(i, j + 1, chosen), |entries|)
    ensures LinksOf(entries, Row(i, j + 1, chosen)) ==
            LinksOf(entries, Row(i, j, chosen)) + (if (i, j) in chosen then [LinkAt(entries, (i, j))] else [])
  {
    RowStep(i, j, chosen);
    LinksOfAppend(entries, Row(i, j, chosen), (i, j));
  }

  lemma LinkIs(entries: seq<Entry>, i: nat, j: nat, s: real)
    requires i < |entries| && j < |entries| && s == SignedCosine(entries[i].vector, entries[j].vector)
    ensures s == CosineAt(entries, i, j) && LinkAt(entries, (i, j)) == Link(entries[i].id, entries[j].id, s)
  {
  }

  // The links of one row: every later slot similar enough to slot i.
  method SimilarRow(entries: seq<Entry>, i: nat, threshold: real, ghost chosen: set<(nat, nat)>)
    returns (links: seq<Link>)
    requires i < |entries| && ChoosesSimilar(entries, threshold, i, chosen)
    ensures Within(Row(i, |entries|, chosen), |entries|)
    ensures links == LinksOf(entries, Row(i, |entries|, chosen))
  {
    links := [];
    for j := i + 1 to |entries|
      invariant Within(Row(i, j, chosen), |entries|)
      invariant links == LinksOf(entries, Row(i, j, chosen))
    {
      RowLinksStep(entries, i, j, chosen);
      var s := CosineSimilarity(entries[i].vector, entries[j].vector);
      LinkIs(entries, i, j, s);
      if s >= threshold {
        links := links + [Link(entries[i].id, entries[j].id, s)];
      }
    }
  }

  method SimilarLinks(entries: seq<Entry>, threshold: real) returns (links: seq<Link>)
    ensures links == ChosenLinks(entries, SimilarPairs(entries, threshold))
  {
    ghost var n, chosen := |entries|, SimilarPairs(entries, threshold);
    links := [];
    for i := 0 to |entries|
      invariant Within(Rows(i, n, chosen), n)
      invariant links == LinksOf(entries, Rows(i, n, chosen))
    {
      var row := SimilarRow(entries, i, threshold, chosen);
      LinksOfConcat(entries, Rows(i, n, chosen), Row(i, n, chosen));
      links := links + row;
    }
  }

  method CandidateRow(entries: seq<Entry>, candidates: set<(nat, nat)>, i: nat, threshold: real,
      ghost chosen: set<(nat, nat)>)
    returns (links: seq<Link>)
    requires i < |entries| && ChoosesAmong(entries, candidates, threshold, i, chosen)
    ensures Within(Row(i, |entries|, chosen), |entries|)
    ensures links == LinksOf(entries, Row(i, |entries|, chosen))
  {
    links := [];
    for j := i + 1 to |entries|
      invariant Within(Row(i, j, chosen), |entries|)
      invariant links == LinksOf(entries, Row(i, j, chosen))
    {
      RowLinksStep(entries, i, j, chosen);
      if (i, j) in candidates {
        var s := CosineSimilarity(entries[i].vector, entries[j].vector);
        LinkIs(entries, i, j, s);
        if s >= threshold {
          links := links + [Link(entries[i].id, entries[j].id, s)];
        }
      }
    }
  }

  // Candidates in lexicographic order, kept when similar enough.
  method CandidateLinks(entries: seq<Entry>, candidates: set<(nat, nat)>, threshold: real) returns (links: seq<Link>)
    ensures links == ChosenLinks(entries, candidates * SimilarPairs(entries, threshold))
  {
    ghost var n, chosen := |entries|, candidates * SimilarPairs(entries, threshold);
    links := [];
    for i := 0 to |entries|
      invariant Within(Rows(i, n, chosen), n)
      invariant links == LinksOf(entries, Rows(i, n, chosen))
    {
      var row := CandidateRow(entries, candidates, i, threshold, chosen);
      LinksOfConcat(entries, Rows(i, n, chosen), Row(i, n, chosen));
      links := links + row;
    }
  }

  method Frequencies(tokens: seq<Tokens>) returns (freq: map<string, nat>)
    ensures forall t :: (if t in freq then freq[t] else 0) == Frequency(tokens, t)
  {
    freq := map[];
    for i := 0 to |tokens|
      invariant forall t :: (if t in freq then freq[t] else 0) == Frequency(tokens[..i], t)
    {
      ghost var before := freq;
      var todo := tokens[i].entities;
      ghost var done: set<string> := {};
      while todo != {}
        invariant todo !! done && todo + done == tokens[i].entities
        invariant forall t :: (if t in freq then freq[t] else 0) ==
                              (if t in before then before[t] else 0) + (if t in done then 1 else 0)
        decreases |todo|
      {
        var t :| t in todo;
        freq := freq[t := (if t in freq then freq[t] else 0) + 1];
        todo, done := todo - {t}, done + {t};
      }
      assert done == tokens[i].entities;
      assert tokens[..i + 1][..i] == tokens[..i];
    }
    assert tokens[..|tokens|] == tokens;
  }

  lemma KinLinksAppend(tokens: seq<Tokens>, maxFrequency: nat, pairs: seq<(nat, nat)>, p: (nat, nat))
    requires Within(pairs, |tokens|) && p.0 < |tokens| && p.1 < |tokens|
    ensures Within(pairs + [p], |tokens|)
    ensures KinLinks(tokens, maxFrequency, pairs + [p]) ==
            KinLinks(tokens, maxFrequency, pairs) + [KinLink(tokens, maxFrequency, p)]
  {
    assert (pairs + [p])[..|pairs|] == pairs;
  }

  lemma {:induction false} KinLinksConcat(tokens: seq<Tokens>, maxFrequency: nat,
      a: seq<(nat, nat)>, b: seq<(nat, nat)>)
    requires Within(a, |tokens|) && Within(b, |tokens|)
    ensures Within(a + b, |tokens|)
    ensures KinLinks(tokens, maxFrequency, a + b) ==
            KinLinks(tokens, maxFrequency, a) + KinLinks(tokens, maxFrequency, b)
  {
    if b == [] {
      assert a + b == a;
    } else {
      var front, last := b[..|b| - 1], b[|b| - 1];
      KinLinksConcat(tokens, maxFrequency, a, front);
      KinLinksAppend(tokens, maxFrequency, a + front, last);
      assert a + b == a + front + [last] && b == front + [last];
    }
  }

  lemma KinRowStep(tokens: seq<Tokens>, maxFrequency: nat, i: nat, j: nat, chosen: set<(nat, nat)>)
    requires i < j < |tokens| && Within(Row(i, j, chosen), |tokens|)
    ensures Within(Row(i, j + 1, chosen), |tokens|)
    ensures KinLinks(tokens, maxFrequency, Row(i, j + 1, chosen)) ==
            KinLinks(tokens, maxFrequency, Row(i, j, chosen)) +
            (if (i, j) in chosen then [KinLink(tokens, maxFrequency, (i, j))] else [])
  {
    RowStep(i, j, chosen);
    KinLinksAppend(tokens, maxFrequency, Row(i, j, chosen), (i, j));
  }

  // In row i, `chosen` holds exactly the pairs sharing enough rare tokens.
  ghost predicate ChoosesKin(tokens: seq<Tokens>, maxFrequency: nat, minShared: nat, i: nat, chosen: set<(nat, nat)>)
    requires i < |tokens|
  {
    forall j: nat :: i < j < |tokens| ==> ((i, j) in chosen <==> |RareShared(tokens, maxFrequency, i, j)| >= minShared)
  }

  // How many of the tokens two nodes share the frequency table calls rare.
  method CountShared(tokens: seq<Tokens>, freq: map<string, nat>, maxFrequency: nat, i: nat, j: nat)
    returns (shared: nat)
    requires i < |tokens| && j < |tokens|
    requires forall t :: (if t in freq then freq[t] else 0) == Frequency(tokens, t)
    ensures shared == |RareShared(tokens, maxFrequency, i, j)|
  {
    var rare := set t | t in tokens[i].entities * tokens[j].entities
                        && (if t in freq then freq[t] else 0) <= maxFrequency;
    assert rare == RareShared(tokens, maxFrequency, i, j);
    shared := |rare|;
  }

  lemma KinLinkIs(tokens: seq<Tokens>, maxFrequency: nat, i: nat, j: nat, shared: nat)
    requires i < |tokens| && j < |tokens| && shared == |RareShared(tokens, maxFrequency, i, j)|
    ensures KinLink(tokens, maxFrequency, (i, j)) == Link(tokens[i].id, tokens[j].id, shared as real)
  {
  }

  method EntityRow(tokens: seq<Tokens>, freq: map<string, nat>, i: nat, maxFrequency: nat, minShared: nat,
      ghost chosen: set<(nat, nat)>)
    returns (links: seq<Link>)
    requires i < |tokens| && ChoosesKin(tokens, maxFrequency, minShared, i, chosen)
    requires forall t :: (if t in freq then freq[t] else 0) == Frequency(tokens, t)
    ensures Within(Row(i, |tokens|, chosen), |tokens|)
    ensures links == KinLinks(tokens, maxFrequency, Row(i, |tokens|, chosen))
  {
    links := [];
    for j := i + 1 to |tokens|
      invariant Within(Row(i, j, chosen), |tokens|)
      invariant links == KinLinks(tokens, maxFrequency, Row(i, j, chosen))
    {
      KinRowStep(tokens, maxFrequency, i, j, chosen);
      var shared := CountShared(tokens, freq, maxFrequency, i, j);
      KinLinkIs(tokens, maxFrequency, i, j, shared);
      if shared >= minShared {
        links := links + [Link(tokens[i].id, tokens[j].id, shared as real)];
      }
    }
  }

  method EntityLinks(tokens: seq<Tokens>, maxFrequency: nat, minShared: nat) returns (links: seq<Link>)
    ensures links == ChosenKin(tokens, maxFrequency, KinPairs(tokens, maxFrequency, minShared))
  {
    var freq := Frequencies(tokens);
    ghost var n, chosen := |tokens|, KinPairs(tokens, maxFrequency, minShared);
    links := [];
    for i := 0 to |tokens|
      invariant Within(Rows(i, n, chosen), n)
      invariant links == KinLinks(tokens, maxFrequency, Rows(i, n, chosen))
    {
      var row := EntityRow(tokens, freq, i, maxFrequency, minShared, chosen);
      KinLinksConcat(tokens, maxFrequency, Rows(i, n, chosen), Row(i, n, chosen));
      links := links + row;
    }
  }
}
