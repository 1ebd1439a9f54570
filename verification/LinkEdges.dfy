// The edges a linking pass adds, one by one: what is there already stays in front, and every new edge
// says which relation it stands for and how strong it is.
module LinkEdges {
  import opened Cosine
  import opened Graph
  import opened IdOrder
  import opened Linking
  import opened LinkingLaws
  import opened VectorIndex

  // The edge carries out the link.
  ghost predicate Carries(e: Edge, l: Link, relation: string) {
    e.source == l.a && e.target == l.b && e.weight == l.weight && e.relation == relation
  }

  ghost predicate SomeCarried(e: Edge, links: seq<Link>, relation: string) {
    exists l :: l in links && Carries(e, l, relation)
  }

  // The old edges come first, and each new one carries out one of the links.
  ghost predicate Extends(before: seq<Edge>, after: seq<Edge>, links: seq<Link>, relation: string) {
    && |before| <= |after| && after[..|before|] == before
    && forall i :: |before| <= i < |after| ==> SomeCarried(after[i], links, relation)
  }

  lemma OneMore(start: seq<Edge>, before: seq<Edge>, after: seq<Edge>, rest: seq<Link>, l: Link, relation: string)
    requires Extends(start, before, rest, relation)
    requires after == before || (|after| == |before| + 1 && after[..|before|] == before
                                 && Carries(after[|before|], l, relation))
    ensures Extends(start, after, rest + [l], relation)
  {
    assert after[..|start|] == before[..|start|];
    forall i | |start| <= i < |after| ensures SomeCarried(after[i], rest + [l], relation) {
      if i < |before| {
        assert after[i] == before[i];
        var m :| m in rest && Carries(before[i], m, relation);
        assert m in rest + [l];
      } else {
        assert l in rest + [l];
      }
    }
  }

  lemma {:induction false} AddAllEdges(g: State, links: seq<Link>, relation: string)
    ensures Extends(g.edges, AddAll(g, links, relation).edges, links, relation)
  {
    if links != [] {
      var rest, l := links[..|links| - 1], links[|links| - 1];
      AddAllEdges(g, rest, relation);
      assert links == rest + [l];
      OneMore(g.edges, AddAll(g, rest, relation).edges, AddAll(g, links, relation).edges, rest, l, relation);
    }
  }

  // The edge joins two entries, in index order, that are at least so similar, and weighs their cosine.
  ghost predicate MeaningEdge(e: Edge, entries: seq<Entry>, threshold: real) {
    && e.relation == "relatedMeaning" && e.weight >= threshold
    && exists i, j :: 0 <= i < j < |entries| && e.source == entries[i].id && e.target == entries[j].id
                      && e.weight == SignedCosine(entries[i].vector, entries[j].vector)
  }

  lemma SimilarLink(entries: seq<Entry>, threshold: real, chosen: set<(nat, nat)>, l: Link, e: Edge)
    requires chosen <= SimilarPairs(entries, threshold) && l in ChosenLinks(entries, chosen)
    requires Carries(e, l, "relatedMeaning")
    ensures MeaningEdge(e, entries, threshold)
  {
    RowsMembers(|entries|, |entries|, chosen);
    LinksOfMembers(entries, PairList(|entries|, chosen));
    var p :| p in PairList(|entries|, chosen) && l == LinkAt(entries, p);
    assert p in SimilarPairs(entries, threshold);
  }

  lemma ChosenEdges(g: State, entries: seq<Entry>, threshold: real, chosen: set<(nat, nat)>)
    requires chosen <= SimilarPairs(entries, threshold)
    ensures var edges := AddAll(g, ChosenLinks(entries, chosen), "relatedMeaning").edges;
            && |g.edges| <= |edges| && edges[..|g.edges|] == g.edges
            && forall i :: |g.edges| <= i < |edges| ==> MeaningEdge(edges[i], entries, threshold)
  {
    var links := ChosenLinks(entries, chosen);
    var edges := AddAll(g, links, "relatedMeaning").edges;
    AddAllEdges(g, links, "relatedMeaning");
    forall i | |g.edges| <= i < |edges| ensures MeaningEdge(edges[i], entries, threshold) {
      var l :| l in links && Carries(edges[i], l, "relatedMeaning");
      SimilarLink(entries, threshold, chosen, l, edges[i]);
    }
  }

  // Both semantic passes keep the edges there are and add only edges of related meaning, each between
  // two entries at or above the threshold and as heavy as they are similar.
  lemma MeaningEdges(g: State, entries: seq<Entry>, threshold: real, planes: nat, tables: nat)
    ensures forall edges | edges == LinkSemantic(g, entries, threshold).edges
                           || edges == LinkLsh(g, entries, threshold, planes, tables).edges ::
              && |g.edges| <= |edges| && edges[..|g.edges|] == g.edges
              && forall i :: |g.edges| <= i < |edges| ==> MeaningEdge(edges[i], entries, threshold)
  {
    ChosenEdges(g, entries, threshold, SimilarPairs(entries, threshold));
    ChosenEdges(g, entries, threshold,
                BucketPairs(entries, TableCount(tables), PlaneCount(planes)) * SimilarPairs(entries, threshold));
  }

  // The edge joins two nodes, in key order, that share so many rare tokens, and weighs their number.
  ghost predicate KinEdge(e: Edge, g: State, tokenize: string -> set<string>, maxFrequency: nat, minShared: nat) {
    && e.relation == "sharedEntity" && e.source in g.nodes && e.target in g.nodes && Before(e.source, e.target)
    && e.weight == |SharedEntities(g, tokenize, maxFrequency, e.source, e.target)| as real
    && |SharedEntities(g, tokenize, maxFrequency, e.source, e.target)| >= minShared
  }

  lemma KinAskedIn(tokens: seq<Tokens>, maxFrequency: nat, minShared: nat, l: Link) returns (p: (nat, nat))
    requires l in ChosenKin(tokens, maxFrequency, KinPairs(tokens, maxFrequency, minShared))
    ensures p.0 < p.1 < |tokens| && l == KinLink(tokens, maxFrequency, p)
    ensures |RareShared(tokens, maxFrequency, p.0, p.1)| >= minShared
  {
    var chosen := KinPairs(tokens, maxFrequency, minShared);
    var pairs := PairList(|tokens|, chosen);
    RowsMembers(|tokens|, |tokens|, chosen);
    var i :| 0 <= i < |pairs| && KinLinks(tokens, maxFrequency, pairs)[i] == l;
    KinLinksAt(tokens, maxFrequency, pairs, i);
    p := pairs[i];
  }

  lemma KinLinkEdge(g: State, tokenize: string -> set<string>, maxFrequency: nat, minShared: nat, l: Link, e: Edge)
    requires l in EntityLinksOf(g, tokenize, maxFrequency, minShared) && Carries(e, l, "sharedEntity")
    ensures KinEdge(e, g, tokenize, maxFrequency, minShared)
  {
    var p := KinAskedIn(NodeTokens(g, tokenize), maxFrequency, minShared, l);
    SharedAt(g, tokenize, maxFrequency, p.0, p.1);
    AscendingLists(g.nodes.Keys);
  }

  // The entity pass likewise, with edges of shared entities as heavy as the tokens shared are many.
  lemma KinEdges(g: State, tokenize: string -> set<string>, maxFrequency: nat, minShared: nat)
    ensures var edges := LinkByEntities(g, tokenize, maxFrequency, minShared).edges;
            && |g.edges| <= |edges| && edges[..|g.edges|] == g.edges
            && forall i :: |g.edges| <= i < |edges| ==> KinEdge(edges[i], g, tokenize, maxFrequency, minShared)
  {
    var links := EntityLinksOf(g, tokenize, maxFrequency, minShared);
    var edges := AddAll(g, links, "sharedEntity").edges;
    AddAllEdges(g, links, "sharedEntity");
    forall i | |g.edges| <= i < |edges| ensures KinEdge(edges[i], g, tokenize, maxFrequency, minShared) {
      var l :| l in links && Carries(edges[i], l, "sharedEntity");
      KinLinkEdge(g, tokenize, maxFrequency, minShared, l, edges[i]);
    }
  }
}
