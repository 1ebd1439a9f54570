// Which pairs each linking pass joins, how they compare, and that growth counts new pairs.
module LinkingLaws {
  import opened Cosine
  import opened Graph
  import opened IdGenerator
  import opened IdOrder
  import opened Linking
  import opened Traversal
  import opened VectorIndex

  // The unordered pairs joined by some edge.
  function PairSet(edges: seq<Edge>): set<set<Id>> {
    set e | e in edges :: {e.source, e.target}
  }

  lemma PairSetIsLinked(edges: seq<Edge>, a: Id, b: Id)
    ensures {a, b} in PairSet(edges) <==> Linked(edges, a, b)
  {
    if {a, b} in PairSet(edges) {
      var e :| e in edges && {e.source, e.target} == {a, b};
      PairParts(e.source, e.target, a, b);
      assert Joins(e, a, b);
    }
    if Linked(edges, a, b) {
      var e :| e in edges && Joins(e, a, b);
      assert {e.source, e.target} == {a, b};
    }
  }

  lemma PairParts<T>(a: T, b: T, c: T, d: T)
    requires {a, b} == {c, d}
    ensures (a == c && b == d) || (a == d && b == c)
  {
    assert a in {c, d} && b in {c, d} && c in {a, b} && d in {a, b};
  }

  lemma PairSetAppend(edges: seq<Edge>, e: Edge)
    ensures PairSet(edges + [e]) == PairSet(edges) + {{e.source, e.target}}
  {
  }

  // The pairs a list of links asks for between distinct live nodes.
  function LivePairs(g: State, links: seq<Link>): set<set<Id>> {
    set l | l in links && l.a != l.b && l.a in g.nodes && l.b in g.nodes :: {l.a, l.b}
  }

  // Adding links joins exactly the old pairs and every live pair asked for, leaves nodes alone
  // and never joins a pair twice.
  lemma {:induction false} AddAllJoins(g: State, links: seq<Link>, relation: string)
    ensures var g' := AddAll(g, links, relation);
            && g'.nodes == g.nodes && g'.clock == g.clock
            && PairSet(g'.edges) == PairSet(g.edges) + LivePairs(g, links)
            && |g.edges| <= |g'.edges|
            && (SimpleEdges(g.edges) ==> SimpleEdges(g'.edges))
            && (EdgesLive(g) ==> EdgesLive(g'))
  {
    if links != [] {
      var n := |links| - 1;
      var mid, l := AddAll(g, links[..n], relation), links[n];
      AddAllJoins(g, links[..n], relation);
      assert links == links[..n] + [l];
      PairSetIsLinked(mid.edges, l.a, l.b);
      LivePairsAppend(g, links[..n], l);
      if MayLink(mid, l.a, l.b) {
        var e := Edge(FreshId(mid), l.a, l.b, relation, l.weight);
        PairSetAppend(mid.edges, e);
        SimpleAppend(mid.edges, e);
      }
    }
  }

  lemma LivePairsAppend(g: State, links: seq<Link>, l: Link)
    ensures LivePairs(g, links + [l]) ==
            LivePairs(g, links) + (if l.a != l.b && l.a in g.nodes && l.b in g.nodes then {{l.a, l.b}} else {})
  {
  }

  lemma SimpleAppend(edges: seq<Edge>, e: Edge)
    requires e.source != e.target && !Linked(edges, e.source, e.target)
    ensures SimpleEdges(edges) ==> SimpleEdges(edges + [e])
  {
    var r := edges + [e];
    if SimpleEdges(edges) {
      forall i, j | 0 <= i < j < |r| ensures !Joins(r[i], r[j].source, r[j].target) {
        if j == |edges| {
          assert r[i] in edges;
        }
      }
    }
  }

  // In a simple graph edges and linked pairs are equally many.
  lemma {:induction false} SimpleCount(edges: seq<Edge>)
    requires SimpleEdges(edges)
    ensures |PairSet(edges)| == |edges|
  {
    if edges != [] {
      var n := |edges| - 1;
      var rest, e := edges[..n], edges[n];
      assert edges == rest + [e];
      assert forall x :: x in rest ==> x in edges;
      SimpleCount(rest);
      PairSetAppend(rest, e);
      PairSetIsLinked(rest, e.source, e.target);
    }
  }

  // Growth is the number of pairs newly joined.
  lemma GrowthCountsPairs(g: State, links: seq<Link>, relation: string)
    requires SimpleEdges(g.edges)
    ensures |AddAll(g, links, relation).edges| - |g.edges| == |LivePairs(g, links) - PairSet(g.edges)|
  {
    AddAllJoins(g, links, relation);
    SimpleCount(g.edges);
    SimpleCount(AddAll(g, links, relation).edges);
    var old', new' := PairSet(g.edges), LivePairs(g, links);
    assert old' + new' == old' + (new' - old');
  }

  // ---- What the chosen index pairs ask for

  function IdPair(entries: seq<Entry>, p: (nat, nat)): set<Id>
    requires p.0 < |entries| && p.1 < |entries|
  {
    {entries[p.0].id, entries[p.1].id}
  }

  // The pairs of distinct live nodes named by chosen index pairs.
  function ChosenPairs(g: State, entries: seq<Entry>, chosen: set<(nat, nat)>): set<set<Id>> {
    set p | p in chosen && p.0 < p.1 < |entries| && entries[p.0].id != entries[p.1].id
            && entries[p.0].id in g.nodes && entries[p.1].id in g.nodes :: IdPair(entries, p)
  }

  lemma {:induction false} LinksOfMembers(entries: seq<Entry>, pairs: seq<(nat, nat)>)
    requires Within(pairs, |entries|)
    ensures forall p :: p in pairs ==> LinkAt(entries, p) in LinksOf(entries, pairs)
    ensures forall l :: l in LinksOf(entries, pairs) ==> exists p :: p in pairs && l == LinkAt(entries, p)
  {
    if pairs != [] {
      var rest, last := pairs[..|pairs| - 1], pairs[|pairs| - 1];
      assert pairs == rest + [last];
      LinksOfMembers(entries, rest);
    }
  }

  lemma ChosenLinksAsk(g: State, entries: seq<Entry>, chosen: set<(nat, nat)>)
    ensures LivePairs(g, ChosenLinks(entries, chosen)) == ChosenPairs(g, entries, chosen)
  {
    var n := |entries|;
    RowsMembers(n, n, chosen);
    LinksOfMembers(entries, PairList(n, chosen));
    forall s ensures s in LivePairs(g, ChosenLinks(entries, chosen)) <==> s in ChosenPairs(g, entries, chosen) {
      if s in ChosenPairs(g, entries, chosen) {
        var p :| p in chosen && p.0 < p.1 < n && entries[p.0].id != entries[p.1].id
                 && entries[p.0].id in g.nodes && entries[p.1].id in g.nodes && IdPair(entries, p) == s;
        assert p in PairList(n, chosen);
        var l := LinkAt(entries, p);
        assert l in ChosenLinks(entries, chosen);
      }
    }
  }

  // link_semantic joins exactly the old pairs and all live pairs at or above the threshold.
  lemma SemanticJoins(g: State, entries: seq<Entry>, threshold: real)
    ensures var g' := LinkSemantic(g, entries, threshold);
            && g'.nodes == g.nodes
            && PairSet(g'.edges) == PairSet(g.edges) + ChosenPairs(g, entries, SimilarPairs(entries, threshold))
            && (SimpleEdges(g.edges) ==>
                  |g'.edges| - |g.edges| ==
                  |ChosenPairs(g, entries, SimilarPairs(entries, threshold)) - PairSet(g.edges)|)
  {
    var chosen := SimilarPairs(entries, threshold);
    ChosenLinksAsk(g, entries, chosen);
    AddAllJoins(g, ChosenLinks(entries, chosen), RELATED);
    if SimpleEdges(g.edges) {
      GrowthCountsPairs(g, ChosenLinks(entries, chosen), RELATED);
    }
  }

  function LshChosen(entries: seq<Entry>, threshold: real, planes: nat, tables: nat): set<(nat, nat)> {
    BucketPairs(entries, TableCount(tables), PlaneCount(planes)) * SimilarPairs(entries, threshold)
  }

  lemma LshJoins(g: State, entries: seq<Entry>, threshold: real, planes: nat, tables: nat)
    ensures var g' := LinkLsh(g, entries, threshold, planes, tables);
            && g'.nodes == g.nodes
            && PairSet(g'.edges) ==
               PairSet(g.edges) + ChosenPairs(g, entries, LshChosen(entries, threshold, planes, tables))
  {
    var chosen := LshChosen(entries, threshold, planes, tables);
    ChosenLinksAsk(g, entries, chosen);
    AddAllJoins(g, ChosenLinks(entries, chosen), RELATED);
  }

  lemma ChosenMonotone(g: State, entries: seq<Entry>, a: set<(nat, nat)>, b: set<(nat, nat)>)
    requires a <= b
    ensures ChosenPairs(g, entries, a) <= ChosenPairs(g, entries, b)
  {
  }

  // Hashing only ever misses pairs: what it joins, the exact pass joins.
  lemma LshWithinExact(g: State, entries: seq<Entry>, threshold: real, planes: nat, tables: nat)
    ensures PairSet(LinkLsh(g, entries, threshold, planes, tables).edges)
            <= PairSet(LinkSemantic(g, entries, threshold).edges)
  {
    LshJoins(g, entries, threshold, planes, tables);
    SemanticJoins(g, entries, threshold);
    ChosenMonotone(g, entries, LshChosen(entries, threshold, planes, tables), SimilarPairs(entries, threshold));
  }

  // More tables never lose a pair.
  lemma MoreTablesKeepPairs(g: State, entries: seq<Entry>, threshold: real, planes: nat, few: nat, many: nat)
    requires few <= many
    ensures PairSet(LinkLsh(g, entries, threshold, planes, few).edges)
            <= PairSet(LinkLsh(g, entries, threshold, planes, many).edges)
  {
    LshJoins(g, entries, threshold, planes, few);
    LshJoins(g, entries, threshold, planes, many);
    assert LshChosen(entries, threshold, planes, few) <= LshChosen(entries, threshold, planes, many);
    ChosenMonotone(g, entries, LshChosen(entries, threshold, planes, few), LshChosen(entries, threshold, planes, many));
  }

  // In a single table, more planes never gain a pair.
  lemma MorePlanesGainNothing(g: State, entries: seq<Entry>, threshold: real, few: nat, many: nat)
    requires few <= many
    ensures PairSet(LinkLsh(g, entries, threshold, many, 1).edges)
            <= PairSet(LinkLsh(g, entries, threshold, few, 1).edges)
  {
    LshJoins(g, entries, threshold, few, 1);
    LshJoins(g, entries, threshold, many, 1);
    forall p | p in LshChosen(entries, threshold, many, 1) ensures p in LshChosen(entries, threshold, few, 1) {
      FewerPlanesCollide(entries, PlaneCount(few), PlaneCount(many), p.0, p.1);
    }
    ChosenMonotone(g, entries, LshChosen(entries, threshold, many, 1), LshChosen(entries, threshold, few, 1));
  }

  lemma FewerPlanesCollide(entries: seq<Entry>, few: nat, many: nat, i: nat, j: nat)
    requires i < |entries| && j < |entries| && few <= many && Collide(entries, 1, many, i, j)
    ensures Collide(entries, 1, few, i, j)
  {
    assert SameBucket(entries, 0, many, i, j);
    SignaturePrefix(entries[i].vector, few, many);
    SignaturePrefix(entries[j].vector, few, many);
    assert SameBucket(entries, 0, few, i, j);
  }

  lemma SignaturePrefix(v: Vector, few: nat, many: nat)
    requires few <= many
    ensures Signature(v, 0, few, few) == Signature(v, 0, many, many)[..few]
  {
    forall p | 0 <= p < few ensures PlaneAt(0, p, few, |v|) == PlaneAt(0, p, many, |v|) {
    }
  }

  // With no planes there is one bucket, and hashing is the exact pass: the same edges in the
  // same order with the same ids.
  lemma ZeroPlanesIsExact(g: State, entries: seq<Entry>, threshold: real, tables: nat)
    ensures LinkLsh(g, entries, threshold, 0, tables) == LinkSemantic(g, entries, threshold)
  {
    forall p | p in SimilarPairs(entries, threshold)
      ensures p in BucketPairs(entries, TableCount(tables), PlaneCount(0))
    {
      assert SameBucket(entries, 0, 0, p.0, p.1);
    }
    assert LshChosen(entries, threshold, 0, tables) == SimilarPairs(entries, threshold);
  }

  // ---- Entity links, stated on the nodes themselves

  ghost function Mentions(g: State, tokenize: string -> set<string>, t: string): set<Id> {
    set id | id in g.nodes && t in tokenize(g.nodes[id].content)
  }

  // The rare tokens two nodes share.
  ghost function SharedEntities(g: State, tokenize: string -> set<string>, maxFrequency: nat, a: Id, b: Id): set<string>
    requires a in g.nodes && b in g.nodes
  {
    set t | t in tokenize(g.nodes[a].content) * tokenize(g.nodes[b].content)
            && |Mentions(g, tokenize, t)| <= maxFrequency
  }

  ghost predicate Kin(g: State, tokenize: string -> set<string>, maxFrequency: nat, minShared: nat, a: Id, b: Id) {
    a in g.nodes && b in g.nodes && a != b && |SharedEntities(g, tokenize, maxFrequency, a, b)| >= minShared
  }

  lemma {:induction false} TokensForShape(g: State, ids: seq<Id>, tokenize: string -> set<string>)
    requires forall id :: id in ids ==> id in g.nodes
    ensures forall i :: 0 <= i < |ids| ==>
      TokensFor(g, ids, tokenize)[i] == Tokens(ids[i], tokenize(g.nodes[ids[i]].content))
  {
    if ids != [] {
      TokensForShape(g, ids[..|ids| - 1], tokenize);
    }
  }

  ghost function MentionsAmong(g: State, ids: seq<Id>, tokenize: string -> set<string>, t: string): set<Id> {
    set id | id in ids && id in g.nodes && t in tokenize(g.nodes[id].content)
  }

  lemma FrequencyAppend(tokens: seq<Tokens>, last: Tokens, t: string)
    ensures Frequency(tokens + [last], t) == Frequency(tokens, t) + (if t in last.entities then 1 else 0)
  {
    assert (tokens + [last])[..|tokens|] == tokens;
  }

  lemma MentionsAppend(g: State, ids: seq<Id>, last: Id, tokenize: string -> set<string>, t: string)
    requires last !in ids && last in g.nodes
    ensures |MentionsAmong(g, ids + [last], tokenize, t)| ==
            |MentionsAmong(g, ids, tokenize, t)| + (if t in tokenize(g.nodes[last].content) then 1 else 0)
  {
    assert MentionsAmong(g, ids + [last], tokenize, t) ==
           MentionsAmong(g, ids, tokenize, t) + (if t in tokenize(g.nodes[last].content) then {last} else {});
  }

  lemma {:induction false} FrequencyCounts(g: State, ids: seq<Id>, tokenize: string -> set<string>, t: string)
    requires Distinct(ids) && forall id :: id in ids ==> id in g.nodes
    ensures Frequency(TokensFor(g, ids, tokenize), t) == |MentionsAmong(g, ids, tokenize, t)|
  {
    if ids == [] {
      assert MentionsAmong(g, ids, tokenize, t) == {};
    } else {
      var n := |ids| - 1;
      var rest, last := ids[..n], ids[n];
      assert ids == rest + [last];
      FrequencyCounts(g, rest, tokenize, t);
      MentionsAppend(g, rest, last, tokenize, t);
      FrequencyAppend(TokensFor(g, rest, tokenize), Tokens(last, tokenize(g.nodes[last].content)), t);
    }
  }

  lemma NodeTokensShape(g: State, tokenize: string -> set<string>)
    ensures var ids, tokens := Ascending(g.nodes.Keys), NodeTokens(g, tokenize);
            && |tokens| == |ids| && Distinct(ids) && SetOf(ids) == g.nodes.Keys
            && (forall i :: 0 <= i < |ids| ==>
                  ids[i] in g.nodes && tokens[i] == Tokens(ids[i], tokenize(g.nodes[ids[i]].content)))
            && (forall t :: Frequency(tokens, t) == |Mentions(g, tokenize, t)|)
  {
    var ids := Ascending(g.nodes.Keys);
    AscendingLists(g.nodes.Keys);
    AscendingDistinct(g.nodes.Keys);
    TokensForShape(g, ids, tokenize);
    forall t ensures Frequency(NodeTokens(g, tokenize), t) == |Mentions(g, tokenize, t)| {
      FrequencyCounts(g, ids, tokenize, t);
      assert MentionsAmong(g, ids, tokenize, t) == Mentions(g, tokenize, t);
    }
    forall i | 0 <= i < |ids| ensures ids[i] in g.nodes {
      assert ids[i] in ids;
    }
  }

  lemma {:induction false} KinLinksAt(tokens: seq<Tokens>, maxFrequency: nat, pairs: seq<(nat, nat)>, i: nat)
    requires Within(pairs, |tokens|)
    requires i < |pairs|
    ensures pairs[i] in pairs && KinLinks(tokens, maxFrequency, pairs)[i] == KinLink(tokens, maxFrequency, pairs[i])
  {
    var n := |pairs| - 1;
    if i < n {
      assert pairs[..n][i] == pairs[i];
      KinLinksAt(tokens, maxFrequency, pairs[..n], i);
    }
  }

  lemma KinAskedOnly(g: State, tokenize: string -> set<string>, maxFrequency: nat, minShared: nat, l: Link)
    requires var tokens := NodeTokens(g, tokenize);
             l in ChosenKin(tokens, maxFrequency, KinPairs(tokens, maxFrequency, minShared))
    ensures Kin(g, tokenize, maxFrequency, minShared, l.a, l.b)
  {
    var tokens := NodeTokens(g, tokenize);
    var chosen := KinPairs(tokens, maxFrequency, minShared);
    var pairs := PairList(|tokens|, chosen);
    RowsMembers(|tokens|, |tokens|, chosen);
    var i :| 0 <= i < |pairs| && KinLinks(tokens, maxFrequency, pairs)[i] == l;
    KinLinksAt(tokens, maxFrequency, pairs, i);
    SharedAt(g, tokenize, maxFrequency, pairs[i].0, pairs[i].1);
  }

  lemma KinAskedFor(g: State, tokenize: string -> set<string>, maxFrequency: nat, minShared: nat, i: nat, j: nat)
    requires i < j < |NodeTokens(g, tokenize)|
    requires |RareShared(NodeTokens(g, tokenize), maxFrequency, i, j)| >= minShared
    ensures var tokens := NodeTokens(g, tokenize);
            KinLink(tokens, maxFrequency, (i, j)) in
            ChosenKin(tokens, maxFrequency, KinPairs(tokens, maxFrequency, minShared))
  {
    var tokens := NodeTokens(g, tokenize);
    var chosen := KinPairs(tokens, maxFrequency, minShared);
    var pairs := PairList(|tokens|, chosen);
    RowsMembers(|tokens|, |tokens|, chosen);
    assert (i, j) in pairs;
    var k :| 0 <= k < |pairs| && pairs[k] == (i, j);
    KinLinksAt(tokens, maxFrequency, pairs, k);
  }

  lemma KinIndices(g: State, tokenize: string -> set<string>, a: Id, b: Id) returns (i: nat, j: nat)
    requires a in g.nodes && b in g.nodes && a != b
    ensures i < j < |NodeTokens(g, tokenize)|
    ensures |NodeTokens(g, tokenize)| == |Ascending(g.nodes.Keys)|
    ensures {Ascending(g.nodes.Keys)[i], Ascending(g.nodes.Keys)[j]} == {a, b}
  {
    var ids := Ascending(g.nodes.Keys);
    NodeTokensShape(g, tokenize);
    assert a in SetOf(ids) && b in SetOf(ids);
    i :| 0 <= i < |ids| && ids[i] == a;
    j :| 0 <= j < |ids| && ids[j] == b;
    if j < i {
      i, j := j, i;
    }
  }

  lemma KinAsked(g: State, tokenize: string -> set<string>, maxFrequency: nat, minShared: nat, a: Id, b: Id)
    ensures var tokens := NodeTokens(g, tokenize);
            var links := ChosenKin(tokens, maxFrequency, KinPairs(tokens, maxFrequency, minShared));
            {a, b} in LivePairs(g, links) <==> Kin(g, tokenize, maxFrequency, minShared, a, b)
  {
    var tokens := NodeTokens(g, tokenize);
    var links := ChosenKin(tokens, maxFrequency, KinPairs(tokens, maxFrequency, minShared));
    if {a, b} in LivePairs(g, links) {
      var l :| l in links && l.a != l.b && l.a in g.nodes && l.b in g.nodes && {l.a, l.b} == {a, b};
      PairParts(l.a, l.b, a, b);
      KinAskedOnly(g, tokenize, maxFrequency, minShared, l);
      SharedSymmetric(g, tokenize, maxFrequency, l.a, l.b);
    }
    if Kin(g, tokenize, maxFrequency, minShared, a, b) {
      var i, j := KinIndices(g, tokenize, a, b);
      var x, y := Ascending(g.nodes.Keys)[i], Ascending(g.nodes.Keys)[j];
      PairParts(x, y, a, b);
      SharedSymmetric(g, tokenize, maxFrequency, a, b);
      SharedAt(g, tokenize, maxFrequency, i, j);
      KinAskedFor(g, tokenize, maxFrequency, minShared, i, j);
      var l := KinLink(tokens, maxFrequency, (i, j));
      assert l in links && l.a == x && l.b == y;
    }
  }

  lemma SharedAt(g: State, tokenize: string -> set<string>, maxFrequency: nat, i: nat, j: nat)
    requires i < |NodeTokens(g, tokenize)| && j < |NodeTokens(g, tokenize)|
    ensures var ids := Ascending(g.nodes.Keys);
            && |ids| == |NodeTokens(g, tokenize)| && ids[i] in g.nodes && ids[j] in g.nodes
            && (i != j ==> ids[i] != ids[j])
            && NodeTokens(g, tokenize)[i].id == ids[i] && NodeTokens(g, tokenize)[j].id == ids[j]
            && RareShared(NodeTokens(g, tokenize), maxFrequency, i, j) ==
               SharedEntities(g, tokenize, maxFrequency, ids[i], ids[j])
  {
    NodeTokensShape(g, tokenize);
  }

  lemma SharedSymmetric(g: State, tokenize: string -> set<string>, maxFrequency: nat, a: Id, b: Id)
    requires a in g.nodes && b in g.nodes
    ensures SharedEntities(g, tokenize, maxFrequency, a, b) == SharedEntities(g, tokenize, maxFrequency, b, a)
  {
  }

  // link_by_entities joins two nodes exactly when they were joined already or they are distinct
  // live nodes sharing at least `minShared` tokens that occur in at most `maxFrequency` nodes.
  lemma EntityJoins(g: State, tokenize: string -> set<string>, maxFrequency: nat, minShared: nat, a: Id, b: Id)
    ensures var g' := LinkByEntities(g, tokenize, maxFrequency, minShared);
            && g'.nodes == g.nodes
            && (Linked(g'.edges, a, b) <==>
                  Linked(g.edges, a, b) || Kin(g, tokenize, maxFrequency, minShared, a, b))
  {
    var tokens := NodeTokens(g, tokenize);
    var links := ChosenKin(tokens, maxFrequency, KinPairs(tokens, maxFrequency, minShared));
    AddAllJoins(g, links, SHARED);
    KinAsked(g, tokenize, maxFrequency, minShared, a, b);
    PairSetIsLinked(g.edges, a, b);
    PairSetIsLinked(LinkByEntities(g, tokenize, maxFrequency, minShared).edges, a, b);
  }
}
