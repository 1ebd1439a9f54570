// Linking passes: choose pairs, then add an edge for each in order.
module Linking {
  import opened Cosine
  import opened Graph
  import opened IdGenerator
  import opened IdOrder
  import opened VectorIndex
  import opened Words

  datatype Link = Link(a: Id, b: Id, weight: real)

  function AddAll(g: State, links: seq<Link>, relation: string): State {
    if links == [] then g
    else
      var l := links[|links| - 1];
      AddEdge(AddAll(g, links[..|links| - 1], relation), l.a, l.b, relation, l.weight)
  }

  // ---- Listing chosen index pairs (i, j), i < j, in lexicographic order

  // The chosen pairs (i, i+1) .. (i, end-1).
  function Row(i: nat, end: nat, chosen: set<(nat, nat)>): seq<(nat, nat)>
    decreases end
  {
    if end <= i + 1 then []
    else Row(i, end - 1, chosen) + (if (i, end - 1) in chosen then [(i, end - 1)] else [])
  }

  lemma RowStep(i: nat, j: nat, chosen: set<(nat, nat)>)
    requires i < j
    ensures Row(i, j + 1, chosen) == if (i, j) in chosen then Row(i, j, chosen) + [(i, j)] else Row(i, j, chosen)
  {
  }

  // The chosen pairs in the first `rows` rows of an n x n table.
  function Rows(rows: nat, n: nat, chosen: set<(nat, nat)>): seq<(nat, nat)> {
    if rows == 0 then [] else Rows(rows - 1, n, chosen) + Row(rows - 1, n, chosen)
  }

  function PairList(n: nat, chosen: set<(nat, nat)>): seq<(nat, nat)> {
    Rows(n, n, chosen)
  }

  lemma {:induction false} RowMembers(i: nat, end: nat, chosen: set<(nat, nat)>)
    ensures forall p :: p in Row(i, end, chosen) <==> p in chosen && p.0 == i && i < p.1 < end
    decreases end
  {
    if end > i + 1 {
      RowMembers(i, end - 1, chosen);
    }
  }

  lemma {:induction false} RowsMembers(rows: nat, n: nat, chosen: set<(nat, nat)>)
    ensures forall p :: p in Rows(rows, n, chosen) <==> p in chosen && p.0 < rows && p.0 < p.1 < n
  {
    if rows > 0 {
      RowsMembers(rows - 1, n, chosen);
      RowMembers(rows - 1, n, chosen);
    }
  }

  predicate Within(pairs: seq<(nat, nat)>, n: nat) {
    forall p :: p in pairs ==> p.0 < n && p.1 < n
  }

  // ---- Semantic links

  function CosineAt(entries: seq<Entry>, i: nat, j: nat): real
    requires i < |entries| && j < |entries|
  {
    SignedCosine(entries[i].vector, entries[j].vector)
  }

  // Similarity is at least the threshold (both as signed squares).
  function SimilarPairs(entries: seq<Entry>, threshold: real): set<(nat, nat)> {
    set i, j | 0 <= i < |entries| && i < j < |entries| && CosineAt(entries, i, j) >= threshold :: (i, j)
  }

  function LinkAt(entries: seq<Entry>, p: (nat, nat)): Link
    requires p.0 < |entries| && p.1 < |entries|
  {
    Link(entries[p.0].id, entries[p.1].id, CosineAt(entries, p.0, p.1))
  }

  function LinksOf(entries: seq<Entry>, pairs: seq<(nat, nat)>): (r: seq<Link>)
    requires Within(pairs, |entries|)
    ensures |r| == |pairs|
  {
    if pairs == [] then []
    else LinksOf(entries, pairs[..|pairs| - 1]) + [LinkAt(entries, pairs[|pairs| - 1])]
  }

  function ChosenLinks(entries: seq<Entry>, chosen: set<(nat, nat)>): seq<Link> {
    RowsMembers(|entries|, |entries|, chosen);
    LinksOf(entries, PairList(|entries|, chosen))
  }

  const RELATED: string := "relatedMeaning"

  function LinkSemantic(g: State, entries: seq<Entry>, threshold: real): State {
    AddAll(g, ChosenLinks(entries, SimilarPairs(entries, threshold)), RELATED)
  }

  // ---- Locality-sensitive hashing

  const MAX_PLANES: nat := 63

  // The k-th draw of the hyperplane stream, in [-1, 1).
  function Draw(k: nat): real {
    ShiftRight(Mix(SeedAfter(INITIAL_SEED, k + 1)), 40) as real / 16777216.0 * 2.0 - 1.0
  }

  function Plane(first: nat, dimension: nat): (v: Vector)
    ensures |v| == dimension
  {
    seq(dimension, c requires 0 <= c < dimension => Draw(first + c))
  }

  // Plane p of table t when every table draws `planes` planes.
  function PlaneAt(t: nat, p: nat, planes: nat, dimension: nat): (v: Vector)
    ensures |v| == dimension
  {
    Plane((t * planes + p) * dimension, dimension)
  }

  // On which side of each plane a vector lies.
  function Signature(v: Vector, t: nat, planes: nat, count: nat): (s: seq<bool>)
    ensures |s| == count
  {
    seq(count, p requires 0 <= p < count => Dot(v, PlaneAt(t, p, planes, |v|)) >= 0.0)
  }

  predicate SameBucket(entries: seq<Entry>, t: nat, planes: nat, i: nat, j: nat)
    requires i < |entries| && j < |entries|
  {
    Signature(entries[i].vector, t, planes, planes) == Signature(entries[j].vector, t, planes, planes)
  }

  predicate Collide(entries: seq<Entry>, tables: nat, planes: nat, i: nat, j: nat)
    requires i < |entries| && j < |entries|
  {
    exists t :: 0 <= t < tables && SameBucket(entries, t, planes, i, j)
  }

  function BucketPairs(entries: seq<Entry>, tables: nat, planes: nat): set<(nat, nat)> {
    set i, j | 0 <= i < |entries| && i < j < |entries| && Collide(entries, tables, planes, i, j) :: (i, j)
  }

  function PlaneCount(planes: nat): nat {
    if planes < MAX_PLANES then planes else MAX_PLANES
  }

  function TableCount(tables: nat): nat {
    if tables < 1 then 1 else tables
  }

  // The links hashing chooses: similar pairs that share a bucket in some table.
  function LshLinks(entries: seq<Entry>, threshold: real, planes: nat, tables: nat): seq<Link> {
    ChosenLinks(entries, BucketPairs(entries, TableCount(tables), PlaneCount(planes)) *
                         SimilarPairs(entries, threshold))
  }

  function LinkLsh(g: State, entries: seq<Entry>, threshold: real, planes: nat, tables: nat): State {
    AddAll(g, LshLinks(entries, threshold, planes, tables), RELATED)
  }

  // ---- Entity links

  datatype Tokens = Tokens(id: Id, entities: set<string>)

  const SHARED: string := "sharedEntity"

  // Every node's significant tokens, in key order. How content is split into tokens is a parameter.
  function TokensFor(g: State, ids: seq<Id>, tokenize: string -> set<string>): (r: seq<Tokens>)
    requires forall id :: id in ids ==> id in g.nodes
    ensures |r| == |ids|
  {
    if ids == [] then []
    else TokensFor(g, ids[..|ids| - 1], tokenize) +
         [Tokens(ids[|ids| - 1], tokenize(g.nodes[ids[|ids| - 1]].content))]
  }

  function NodeTokens(g: State, tokenize: string -> set<string>): seq<Tokens> {
    AscendingLists(g.nodes.Keys);
    TokensFor(g, Ascending(g.nodes.Keys), tokenize)
  }

  // In how many nodes a token occurs.
  function Frequency(tokens: seq<Tokens>, t: string): nat {
    if tokens == [] then 0
    else Frequency(tokens[..|tokens| - 1], t) + (if t in tokens[|tokens| - 1].entities then 1 else 0)
  }

  function RareShared(tokens: seq<Tokens>, maxFrequency: nat, i: nat, j: nat): set<string>
    requires i < |tokens| && j < |tokens|
  {
    set t | t in tokens[i].entities * tokens[j].entities && Frequency(tokens, t) <= maxFrequency
  }

  function KinPairs(tokens: seq<Tokens>, maxFrequency: nat, minShared: nat): set<(nat, nat)> {
    set i, j | 0 <= i < |tokens| && i < j < |tokens| && |RareShared(tokens, maxFrequency, i, j)| >= minShared :: (i, j)
  }

  function KinLink(tokens: seq<Tokens>, maxFrequency: nat, p: (nat, nat)): Link
    requires p.0 < |tokens| && p.1 < |tokens|
  {
    Link(tokens[p.0].id, tokens[p.1].id, |RareShared(tokens, maxFrequency, p.0, p.1)| as real)
  }

  function KinLinks(tokens: seq<Tokens>, maxFrequency: nat, pairs: seq<(nat, nat)>): (r: seq<Link>)
    requires Within(pairs, |tokens|)
    ensures |r| == |pairs|
  {
    if pairs == [] then []
    else KinLinks(tokens, maxFrequency, pairs[..|pairs| - 1]) +
         [KinLink(tokens, maxFrequency, pairs[|pairs| - 1])]
  }

  function ChosenKin(tokens: seq<Tokens>, maxFrequency: nat, chosen: set<(nat, nat)>): seq<Link> {
    RowsMembers(|tokens|, |tokens|, chosen);
    KinLinks(tokens, maxFrequency, PairList(|tokens|, chosen))
  }

  // The links this store's contents ask for.
  function EntityLinksOf(g: State, tokenize: string -> set<string>, maxFrequency: nat, minShared: nat): seq<Link> {
    var tokens := NodeTokens(g, tokenize);
    ChosenKin(tokens, maxFrequency, KinPairs(tokens, maxFrequency, minShared))
  }

  function LinkByEntities(g: State, tokenize: string -> set<string>, maxFrequency: nat, minShared: nat): State {
    AddAll(g, EntityLinksOf(g, tokenize, maxFrequency, minShared), SHARED)
  }
}
