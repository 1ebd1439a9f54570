# Memory engine: a verified model

This project models the memory engine that sits behind one C handle - the graph store
(`src/graph_nexus.rs`), the exact and the int8 vector index (`src/vector_index.rs`), provenance and
canon rules, and the C layer that joins them under one spinlock (`src/c_api.rs`) - and proves what
that engine promises, for every input, every run and every interleaving of threads.

How it is laid out:

- Values and laws. `Graph`, `Eviction`, `Linking`, `Pruning`, `Traversal`, `VectorIndex`, `Recall`
  and `Engine` say what each operation makes of the whole state. The `...Laws` modules, `Retention`,
  `Quantization`, `RecallCertificate`, `AssociativeRecall`, `LinkEdges`, `Sources` and `FirstId` prove
  what follows for one state; `GraphHistory`, `TickShift`, `RetentionRuns`, `PruningRuns`,
  `EngineHistory`, `FeedbackRuns`, `Births`, `IndexRuns`, `Permanence`, `SearchCertificate` and
  `SelfEcho` for whole runs.
- Figures. What the code writes as a number or a table is stated a second time in what it does, with
  the number itself: the four-fold over-fetch in `SelfEcho.EchoThreshold`, the curvature in
  `CurvatureLaws`, the draws in `DrawLaws` and `FirstId`, verdict steps and ceilings in `Births`, canon
  bytes in `Permanence`, source weights in `Sources`, the code range in `Quantization.StoredWithin`.
- Code in place. `Nexus.MemoryGraphNexus`, `VectorIndex.SimpleVectorIndex`,
  `VectorIndex.Int8VectorIndex` and `Handle.EngineHandle` update fields with loops as the source
  does (with `Layers`, `Hashing`, `LinkSelection`, `PruningPass`, `Shortlist` holding the loops);
  every method is tied to the value-level operation by its `ensures`.
- Threads. `SpinLock` is the compare-exchange protocol as a machine stepped by any number of
  threads; `SpinLockLaws` proves mutual exclusion and linearizability; `SharedEngine` runs the engine
  behind it, with the graph and the index written in separate steps.
- Text. `Json` prints a reply, `JsonText` reads JSON by RFC 8259 without knowing the printer, and
  `JsonReading` and `Replies` say when the two agree.

Four statements about the source turn out to hold under a condition only. The exact condition is
proved, and so is a run on which the statement fails:

- The reply of a search is a JSON array that reads back as the rows found if and only if no found
  content holds a character below U+0020 (`Replies.ReachableReply`). The escaping covers only
  backslash and quote; section 7 of RFC 8259 also demands control characters to be escaped. One
  stored line break makes the reply unreadable (`Replies.LineBreakUnreadable`). The fallback to `[]`
  for text with a NUL is never taken for contents that came in as C strings
  (`Replies.CCallersReply`); it would need a loaded snapshot, which is left out.
- Over-fetching 4k candidates gives the true weighted top k exactly when nothing unseen displaces a
  found row (`Recall.ExactIff`). As many self-descriptions as there are candidates hide a user's
  fact at the very point of the query (`SelfEcho.EchoesHide`): 4k of them do and 4k - 1 do not
  (`SelfEcho.EchoThreshold`). A certificate computed from the
  candidates alone holds exactly when every run that shows these candidates was answered exactly
  (`SearchCertificate.CertificateDecides`).
- Leaving feedback, promotion and affect calls out of a run that evicts nothing changes no other
  reply if and only if the run without them evicts nothing either
  (`EngineHistory.FeedbackNeverHeard`). Where promotion keeps canon above the limit it can matter
  (`EngineHistory.PromotionHeard`). Search results alone are never moved by such calls
  (`EngineHistory.SearchUnmoved`).
- Pruning spares every bridge in every run if and only if the threshold is not negative
  (`PruningRuns.BridgeSafeRuns`; a path of four nodes is the counterexample below zero).

Conventions. Numbers are reals where the source has `f32`; importance is counted in hundredths.
Cosines, scores, thresholds and semantic edge weights are signed squares of the source's values, so
no root is needed: the relevance floor 0.25 is 1/16 and provenance weights are squared.
`Cosine.SignedSquareOrder`, `Cosine.SignedCosineIsExact`, `Recall.ScoreOrder` and
`Recall.FloorIsQuarter` show that this changes no comparison.
"Within budget" means fewer than 2^64 ids and clock ticks have been drawn.

## Model

| member | source | states |
|---|---|---|
| Words.UnXorShiftUndoes | src/graph_nexus.rs:92-94 | `z ^ (z >> k)` loses nothing on 64-bit words for the shifts used: an inverse recovers z |
| Words.XorShiftUndoes | src/graph_nexus.rs:92-94 | the inverse is two-sided |
| Words.MulInverse | src/graph_nexus.rs:92-93 | multiplying modulo 2^64 by a factor that has an inverse is undone by that inverse |
| IdGenerator.MixBijective | src/graph_nexus.rs:91-95 | the SplitMix64 mix is a bijection on 64-bit words |
| IdGenerator.SeedPeriod | src/graph_nexus.rs:90 | seeds after m and n draws coincide iff m and n agree modulo 2^64: the increment has full period |
| IdGenerator.HexInjective | src/graph_nexus.rs:96 | sixteen hexadecimal digits name a word uniquely |
| IdGenerator.IdFromIssued | src/graph_nexus.rs:89-97 | the id computed from the current seed is the next of the issued sequence |
| IdGenerator.IssuedIdsDistinct | src/graph_nexus.rs:89-97 | the m-th and n-th id coincide iff m and n agree modulo 2^64 |
| IdGenerator.SmallIssuedDistinct | src/graph_nexus.rs:89-97 | the first 2^64 ids are pairwise distinct |
| IdGenerator.HexIsPlain | src/c_api.rs:468-469 | ids need no escaping: no quote, backslash or control character |
| StableSort.PartitionPointSplits | src/vector_index.rs:85 | everything before the partition point ranks no lower than the new score, the element there ranks lower |
| StableSort.SortStable | src/c_api.rs:458 | the sort used throughout keeps the input order of equals |
| StableSort.SortCharacterised | src/c_api.rs:458 | a list is the sort's result iff it has the same elements, sorted, with ties in input order |
| StableSort.InsertThenTake | src/vector_index.rs:85-90 | dropping the overflow of a shortlist never changes the first k after later insertions |
| StableSort.TakeUnchanged | src/c_api.rs:427-459 | appending more input leaves the first k of a stable sort unchanged iff none of it displaces one of them |
| Cosine.CosineSimilarity | src/vector_index.rs:10-30 | the loop over both vectors computes the cosine; 0 for unequal lengths, empty or zero vectors |
| Cosine.CauchySchwarz | src/vector_index.rs:10-30 | the dot product squared never exceeds the product of the squared norms, for vectors of any length |
| Cosine.SignedCosineIsExact | src/vector_index.rs:23-29 | with exact roots the quotient lies in [-1, 1], so the clamp never acts, and its signed square is what the model ranks by |
| Cosine.SignedSquareOrder | src/vector_index.rs:10-30 | ranking by the signed square is ranking by cosine |
| Cosine.WeightedSignedSquare | src/c_api.rs:453 | weighing commutes with the signed square when the weight is squared too |
| Recall.ScoreOrder | src/c_api.rs:453-458 | ranking rows by score is ranking them by cosine times provenance multiplier |
| Recall.FloorIsQuarter | src/c_api.rs:443-446 | the floor admits exactly the cosines of at least 0.25 |
| Shortlist.Offer | src/vector_index.rs:81-92 | one insert-and-pop keeps the shortlist equal to the first k of the full stable descending sort |
| Shortlist.TopHitsCharacterised | examples/recall_int8.rs:68-76 | the result is the one list of k slots that is sorted, breaks ties by insertion order and beats everything left out |
| VectorIndex.SimpleVectorIndex.constructor | src/vector_index.rs:45-50 | a new index is empty with the given dimension |
| VectorIndex.SimpleVectorIndex.Insert | src/vector_index.rs:52-65 | appends the entry iff its length is the dimension, otherwise reports and changes nothing |
| VectorIndex.SimpleVectorIndex.Search | src/vector_index.rs:74-99 | returns the first k of the stable descending sort of all cosines, nothing for a query of another length |
| VectorIndex.SimpleVectorIndex.RetainIds | src/vector_index.rs:117-121 | keeps exactly the entries whose id passes, in order, and returns how many went |
| VectorIndex.RetainedKeeps | src/vector_index.rs:117-121 | an entry is kept iff it was there and its id passes |
| VectorIndex.Int8VectorIndex.constructor | src/vector_index.rs:139-144 | a new int8 index is empty with the given dimension |
| VectorIndex.Int8VectorIndex.Insert | src/vector_index.rs:147-163 | stores scale and codes of the vector iff its length is the dimension |
| VectorIndex.Int8VectorIndex.Search | src/vector_index.rs:169-213 | returns the first k of the stable sort of the scores taken from the codes |
| VectorIndex.Int8VectorIndex.RetainIds | src/vector_index.rs:224-228 | keeps exactly the entries whose id passes, in order, and returns how many went |
| VectorIndex.RetainedCodesKeeps | src/vector_index.rs:224-228 | an entry is kept iff it was there and its id passes |
| VectorIndex.QueryNorm | src/vector_index.rs:173-180 | the loop computes the squared norm of the query |
| VectorIndex.CodeSimilarity | src/vector_index.rs:182-197 | the loop over the codes computes the cosine of query and codes, 0 for zero codes |
| Quantization.StoredComponent | src/vector_index.rs:147-163 | the code clamp never acts, and code times scale is within half a scale of the component |
| Quantization.StoredClose | src/vector_index.rs:147-163 | every component of a stored vector is within half a scale |
| Quantization.LargestCode | src/vector_index.rs:154-160 | the largest component of a non-zero vector gets code 127 or -127, by its sign |
| Quantization.StoredWithin | src/vector_index.rs:154-160 | every component is stored to within a 254th of the largest |
| Quantization.HalvesAway | src/vector_index.rs:159 | codes round halves away from zero |
| Quantization.StoredDotError | src/vector_index.rs:147-163 | the dot product with the stored form is off by at most half the scale times the 1-norm of the query |
| Quantization.StoredDotFromCodes | src/vector_index.rs:182-197 | the stored form's dot product is the codes' one times the scale |
| Quantization.CodeScoreExact | src/vector_index.rs:182-197 | the scale cancels: the score from the codes is the cosine with the dequantized vector |
| Quantization.Int8RefinesExact | src/vector_index.rs:169-213 | int8 search equals exact search on the dequantized vectors - ids, order, scores - iff the query is non-zero or there is nothing to return |
| Quantization.RetentionCommutes | src/vector_index.rs:224-228 | evicting then dequantizing is dequantizing then evicting |
| Eviction.EvictionOrderLists | src/graph_nexus.rs:537-551 | the eviction order lists exactly the ephemeral nodes, cheapest first |
| Eviction.RankIsPosition | src/graph_nexus.rs:537-551 | a node's place in that order is the number of nodes ranked below it |
| Eviction.EvictedIffRank | src/graph_nexus.rs:532-560 | a node is evicted iff it is ephemeral and fewer nodes rank below it than there are in excess |
| EvictionLaws.EvictionSize | src/graph_nexus.rs:532-566 | final size is min(len, max(max_nodes, canon count)) and the count returned is the loss |
| EvictionLaws.CanonSurvives | src/graph_nexus.rs:532-566 | no canon node goes or changes |
| EvictionLaws.NoInversion | src/graph_nexus.rs:532-566 | every evicted node ranks below every ephemeral survivor |
| EvictionLaws.InducedSubgraph | src/graph_nexus.rs:553-564 | the edges left are exactly those between nodes left, in their old order |
| EvictionLaws.SurvivorRank | src/graph_nexus.rs:532-566 | a survivor loses exactly the evicted nodes as rivals |
| EvictionLaws.EvictionPathIndependent | src/graph_nexus.rs:532-566 | shrinking to a then to b gives the same state and total as shrinking to min(a, b) |
| EvictionLaws.AccessCountNeverDecides | src/graph_nexus.rs:539-550 | where last-access ticks are distinct, the access count never decides an eviction |
| Retention.HistoryIsClampedShift | src/graph_nexus.rs:619-637 | any feedback history acts on importance as one clamped shift, within 0 and the provenance cap |
| Retention.InsertedVerdict | src/graph_nexus.rs:619-637 | one more confirmation anywhere never lowers, one more rejection never raises, the final importance |
| Retention.RetentionMonotone | src/graph_nexus.rs:532-566 | inserting a confirmation anywhere in a node's history never gets it evicted, inserting a rejection never saves it |
| Retention.RaisedSurvives | src/graph_nexus.rs:532-566 | a node that survived still survives with a record ranked at least as high |
| Retention.RaisedSavesNobodyElse | src/graph_nexus.rs:532-566 | raising one node never saves another |
| Retention.AccessKeeps | src/graph_nexus.rs:590-596 | an access before clock wrap never costs a node its place |
| RetentionRuns.SameEvicted | src/graph_nexus.rs:532-566 | where a node survives, favoring it changes nothing about which nodes go |
| RetentionRuns.KinAhead | src/graph_nexus.rs:325-371 | two stores that differ in the importance, confirmations, canon or accesses of one node choose the same entity links |
| TickShift.EvictedShifts | src/graph_nexus.rs:539-551 | moving all ticks after a moment later by the same amount changes nothing about which nodes go |
| TickShift.RunShifts | src/graph_nexus.rs:84-668 | every run does the same on shifted ticks: only their order matters |
| RetentionRuns.RunAhead | src/graph_nexus.rs:84-668 | a favored node stays favored and everything else equal, up to a shift of ticks, through any further run at whose end the node lives; each store chooses its own entity links |
| RetentionRuns.ConfirmationInserted | src/graph_nexus.rs:619-637 | one more confirmation anywhere in a whole run, linking, evictions and promotions included: a node live at the end still is, and all other nodes and edges are unchanged |
| RetentionRuns.RejectionInserted | src/graph_nexus.rs:619-637 | one more rejection anywhere in a whole run never saves the node; where it lives all the same, everything else is as without it |
| RetentionRuns.AccessInserted | src/graph_nexus.rs:590-596 | one more access anywhere in a whole run: a node live at the end still is, and everything else is unchanged but for later ticks coming one later |
| Traversal.BallIffWalk | src/graph_nexus.rs:451-483 | expansion by h hops is exactly what a walk of at most h edges from a live seed reaches |
| Traversal.BallUnion | src/graph_nexus.rs:451-483 | expansion distributes over the union of seed sets |
| Traversal.BallComposes | src/graph_nexus.rs:451-483 | expanding by a and then by b is expanding by a + b |
| Traversal.BallStops | src/graph_nexus.rs:477-479 | once a layer adds nothing no later one does: the early exit is sound |
| Traversal.BallIsComponent | src/graph_nexus.rs:451-483 | with as many hops as nodes, expansion is everything reachable |
| AssociativeRecall.EntryPointsDistinct | src/graph_nexus.rs:498-502 | distinct index ids make distinct entry points |
| AssociativeRecall.RecallFromSearch | src/graph_nexus.rs:491-517 | with distinct index ids recall lists the ball around its entry points once each, live entry points first with cosines never rising |
| Layers.AdjacencyLists | src/graph_nexus.rs:453-461 | the loop over the edges collects each node's neighbors |
| Layers.ExpandLayer | src/graph_nexus.rs:465-476 | one layer adds exactly the neighbors of the frontier, and the next frontier is what is new |
| Layers.ExpandLayers | src/graph_nexus.rs:462-480 | the layered loop with early exit computes the ball |
| PruningLaws.PruningIsolatesNobody | src/graph_nexus.rs:379-433 | every node with an edge before still has one after |
| PruningLaws.PrunedWereRedundant | src/graph_nexus.rs:379-433 | every removed edge scored above the threshold on the original graph, and neither endpoint had only that edge |
| PruningLaws.PruningIsMaximal | src/graph_nexus.rs:379-433 | a surviving edge above the threshold has an endpoint of final degree exactly 1 |
| CurvatureLaws.DegreeIsAround | src/graph_nexus.rs:382-391 | in a simple graph the degree of a node is the number of nodes linked to it |
| CurvatureLaws.CurvatureIsRedundancy | src/ricci_curvature.rs:28-30 | the score of an edge (u, v) is 4 - N(u) - N(v) + 3 N(u, v), counting the nodes linked to u, to v and to both |
| CurvatureLaws.RemovedWereRedundant | src/graph_nexus.rs:379-433 | every removed edge exceeds the threshold in those terms, and both its ends had another neighbor |
| CurvatureLaws.KeptWasLast | src/graph_nexus.rs:409-424 | a surviving edge above the threshold is the last one of an end, and every edge removed there scored higher, or as high and came earlier |
| CurvatureLaws.TrianglePruned | src/graph_nexus.rs:379-433 | a triangle loses exactly its first edge below a threshold of 3, and none from 3 on |
| PruningLaws.PruningCount | src/graph_nexus.rs:426-432 | the number returned is the number of edges removed |
| PruningLaws.PrunedClosesTriangle | src/ricci_curvature.rs:28-30 | at a threshold of 0 or more every removed edge lies in a triangle of the original graph |
| PruningLaws.BridgesSurvive | src/graph_nexus.rs:379-433 | so no edge whose removal separates its endpoints is ever removed |
| PruningLaws.BridgeSafeThresholds | src/graph_nexus.rs:379-433 | bridges are safe in all simple graphs iff the threshold is not negative |
| PruningRuns.BridgeSafeRuns | src/graph_nexus.rs:379-433 | bridges are safe in every run of the store iff the threshold is not negative |
| PruningPass.DegreesAndNeighbors | src/graph_nexus.rs:380-390 | the loop counts degrees and collects neighbor sets |
| PruningPass.ScoreEdges | src/graph_nexus.rs:392-406 | the loop scores every edge of the original graph, with its position; `CurvatureLaws.CurvatureIsRedundancy` says what the score is |
| PruningPass.GreedyPass | src/graph_nexus.rs:408-424 | the loop decrementing live degrees selects exactly the greedy set |
| LinkingLaws.AddAllJoins | src/graph_nexus.rs:192-214 | adding links joins exactly the old pairs and the live pairs asked for; nodes untouched, simple stays simple |
| LinkingLaws.SimpleCount | src/graph_nexus.rs:192-214 | in a simple graph edges and linked pairs are equally many |
| LinkingLaws.GrowthCountsPairs | src/graph_nexus.rs:219-239 | the growth returned is the number of pairs newly joined |
| LinkingLaws.SemanticJoins | src/graph_nexus.rs:219-239 | `link_semantic` joins the old pairs and all live pairs at or above the threshold, and returns the growth |
| LinkingLaws.LshJoins | src/graph_nexus.rs:256-316 | `link_semantic_lsh_multi` joins the old pairs and the live similar pairs that share a bucket |
| LinkingLaws.LshWithinExact | src/graph_nexus.rs:256-316 | hashing never joins what the exact pass would not |
| LinkingLaws.MoreTablesKeepPairs | src/graph_nexus.rs:256-316 | more tables never lose a pair |
| LinkingLaws.MorePlanesGainNothing | src/graph_nexus.rs:256-316 | in a single table more planes never gain a pair |
| LinkingLaws.ZeroPlanesIsExact | src/graph_nexus.rs:256-316 | with no planes the result is the exact pass: same edges, order and ids |
| LinkingLaws.EntityJoins | src/graph_nexus.rs:325-371 | two nodes end up joined iff they were, or are distinct live nodes sharing enough rare tokens |
| LinkEdges.MeaningEdges | src/graph_nexus.rs:234-236 | both semantic passes keep the edges there are in front; each new edge is of relation relatedMeaning, between two entries at or above the threshold, as heavy as they are similar |
| LinkEdges.KinEdges | src/graph_nexus.rs:347-371 | the entity pass likewise: each new edge is of relation sharedEntity, between two nodes in key order sharing enough rare tokens, as heavy as those are many |
| DrawLaws.DrawIs | src/graph_nexus.rs:270-276 | a draw is the high 24 bits of the next word, scaled to [-1, 1) |
| DrawLaws.DrawInRange | src/graph_nexus.rs:275 | every draw is j / 2^23 - 1 for some j below 2^24 |
| DrawLaws.DrawAttained | src/graph_nexus.rs:269-276 | each of those values is drawn within 2^64 draws |
| DrawLaws.LshPairIff | src/graph_nexus.rs:280-300 | a pair is linked iff it is similar enough and in one of max(tables, 1) tables lies on the same side of all of min(planes, 63) planes, each made of its own stretch of the draws |
| DrawLaws.HashingSeparates | src/graph_nexus.rs:268-316 | for every threshold below 1 there are two live nodes the exact pass joins and one table of one plane leaves apart |
| FirstId.FirstIdIs | src/graph_nexus.rs:80-97 | the first id of a new store is 161922c645ce50e8 |
| FirstId.FirstDrawIs | src/graph_nexus.rs:269-276 | the first coordinate of the first hyperplane is 1448226 / 2^23 - 1 |
| Hashing.PackInjective | src/graph_nexus.rs:283-295 | equal keys mean equal sides of every plane |
| Hashing.DrawTable | src/graph_nexus.rs:268-282 | the loop makes the planes of a table of the draws of the generator in order; `DrawLaws` says what a draw is |
| Hashing.HashVector | src/graph_nexus.rs:283-295 | the key is the packed signature of the vector |
| Hashing.FillBuckets | src/graph_nexus.rs:283-297 | each bucket holds exactly the slots with its key, ascending |
| Hashing.CollidingPairs | src/graph_nexus.rs:264-306 | the candidates are exactly the pairs sharing a bucket in some table |
| LinkSelection.SimilarLinks | src/graph_nexus.rs:224-236 | the double loop selects exactly the pairs at or above the threshold, in order |
| LinkSelection.CandidateLinks | src/graph_nexus.rs:307-315 | of the candidates exactly the similar ones are linked, in lexicographic order |
| LinkSelection.Frequencies | src/graph_nexus.rs:334-346 | the loop counts in how many nodes each token occurs |
| LinkSelection.EntityLinks | src/graph_nexus.rs:347-369 | the double loop links exactly the pairs sharing enough rare tokens |
| Nexus.MemoryGraphNexus.constructor | src/graph_nexus.rs:73-82 | a new store is empty |
| Nexus.MemoryGraphNexus.NextTick | src/graph_nexus.rs:84-87 | the clock advances by one and wraps at 2^64 |
| Nexus.MemoryGraphNexus.NextId | src/graph_nexus.rs:89-97 | returns the issued id of the current seed and advances the seed only |
| Nexus.MemoryGraphNexus.CreateNode | src/graph_nexus.rs:150-188 | the new state is the old with the new node under its fresh id, clock and seed advanced |
| Nexus.MemoryGraphNexus.AddEdge | src/graph_nexus.rs:192-214 | adds one edge iff the ends are distinct, live and not joined yet |
| Nexus.MemoryGraphNexus.SetNodeAffect | src/graph_nexus.rs:571-579 | sets the affect of a known node, reports an unknown one |
| Nexus.MemoryGraphNexus.RecordAccess | src/graph_nexus.rs:590-596 | ticks the clock, and counts and dates the access of a known node |
| Nexus.MemoryGraphNexus.RecordHumanFeedback | src/graph_nexus.rs:619-637 | moves importance up to the cap or down to 0 and counts the verdict |
| Nexus.MemoryGraphNexus.PromoteConfirmedToCanon | src/graph_nexus.rs:647-668 | the sweep reaches the promoted state and returns how many; `Births.PromotionIff` says who is promoted |
| Nexus.MemoryGraphNexus.EnforceCapacity | src/graph_nexus.rs:532-566 | sorting candidates and removing in a loop reaches the evicted state and returns the loss |
| Nexus.MemoryGraphNexus.LinkSemantic | src/graph_nexus.rs:219-239 | reaches the exact-pass state and returns the growth |
| Nexus.MemoryGraphNexus.LinkSemanticLshMulti | src/graph_nexus.rs:256-316 | reaches the hashed-pass state and returns the growth; `DrawLaws.LshPairIff` says which pairs it links |
| Nexus.MemoryGraphNexus.LinkByEntities | src/graph_nexus.rs:325-371 | reaches the entity-pass state and returns the growth |
| Nexus.MemoryGraphNexus.PruneRedundantEdges | src/graph_nexus.rs:379-433 | reaches the pruned state and returns the number removed; `CurvatureLaws` says which edges go |
| Nexus.MemoryGraphNexus.Expand | src/graph_nexus.rs:451-483 | returns the ball around the live seeds |
| Nexus.MemoryGraphNexus.AssociativeRecall | src/graph_nexus.rs:491-517 | returns the ball around the search hits, hits first |
| GraphHistory.FreshIdIsNew | src/graph_nexus.rs:89-97 | within budget the next id has never been issued to a node or an edge |
| GraphHistory.CreateKeeps | src/graph_nexus.rs:150-188 | creating a node never overwrites one, and keeps the invariant |
| GraphHistory.ConnectKeeps | src/graph_nexus.rs:192-214 | adding an edge keeps the graph simple, on live nodes, with distinct ids |
| GraphHistory.JoinAllKeeps | src/graph_nexus.rs:219-371 | so does every linking pass |
| GraphHistory.ShrinkKeeps | src/graph_nexus.rs:532-566 | eviction keeps the invariant |
| GraphHistory.ThinKeeps | src/graph_nexus.rs:379-433 | pruning keeps the invariant |
| GraphHistory.StepKeeps | src/graph_nexus.rs:84-668 | every mutator keeps: importance within 0 and the cap, ephemeral iff not canon, simple live graph, distinct access ticks up to the clock |
| GraphHistory.StepEvolves | src/graph_nexus.rs:84-668 | every mutator leaves source, content and birth of a node alone, never loses canon, never canonizes a self-description, never revives an id |
| GraphHistory.EvolvesTransitive | src/graph_nexus.rs:84-668 | and these carry over any number of steps |
| GraphHistory.RunKeeps | src/graph_nexus.rs:84-668 | both hold over every run within budget |
| GraphHistory.RunFromEmpty | src/graph_nexus.rs:73-668 | every run from a new store satisfies the invariant |
| Recall.RankedPrefix | src/c_api.rs:427 | the candidates are the first of the full cosine ranking |
| Recall.RankedDescends | src/vector_index.rs:74-99 | the full ranking lists every entry with cosines never rising |
| Recall.ExactIff | src/c_api.rs:426-459 | the search equals the unlimited pipeline iff nothing unseen displaces a found row |
| Recall.CertificateSuffices | src/c_api.rs:426-459 | it does when the index fits the fetch, the last candidate is below the floor, or the k-th score is at least 1.35 times the last candidate's cosine |
| SearchCertificate.CertifiedIsExact | src/c_api.rs:426-459 | states that show the same certified candidates are all answered exactly |
| SearchCertificate.UncertifiedRun | src/c_api.rs:426-459 | without a certificate one further stored note leaves the candidates as they are and makes the answer wrong |
| SearchCertificate.CertificateDecides | src/c_api.rs:426-459 | in every reachable state the certificate holds iff every run that shows the same candidates is answered exactly |
| SearchCertificate.ReachableSearch | src/c_api.rs:407-459 | in every reachable state a search names each node at most once, sorted, at most k, every row honest |
| SelfEcho.EchoesHide | src/c_api.rs:426-459 | for every k, as many self-descriptions at the query point as a search for k takes candidates hide a user's fact there: nothing is found, where the unlimited pipeline finds exactly that fact |
| SelfEcho.EchoThreshold | src/c_api.rs:427 | on the run of n self-descriptions and one fact at the query point, a search for k finds exactly the fact, with cosine 1 and score 1.35 squared, if n < 4k, and nothing otherwise |
| Recall.SmallIndexExact | src/c_api.rs:427 | an index of at most 4k entries is searched exactly |
| RecallCertificate.AnswerSound | src/c_api.rs:442-459 | always: at most k rows, sorted, each live, not quarantined, at or above the floor, with its own cosine and weighted score |
| Sources.SourcesInOrder | src/provenance.rs:37-49 | in every answer rows of equal cosine come in the order user, verified, external document, unknown, model, with scores as 135, 120, 100, 90, 55 (squared); self-descriptions do not come |
| Sources.OneNoteRow | src/c_api.rs:108-117 | for every source byte: a search for the first embedded note where it lies reports its id, content and cell with the score its byte earns, and nothing for byte 2 |
| Engine.LiveEntriesKeep | src/c_api.rs:377-387 | after an eviction exactly the entries of live nodes stay in the index |
| Engine.RetainedIsLive | src/c_api.rs:377-387 | retaining by membership in the node map does just that |
| Handle.EngineHandle.constructor | src/c_api.rs:130-142 | a new handle holds an empty graph and no index |
| Handle.EngineHandle.AddNode | src/c_api.rs:206-254 | creates the node the bytes describe (`Permanence`, `Births.LiveNodeAccounted`) and indexes its embedding (`IndexRuns.IndexIsHistory`) |
| Handle.EngineHandle.SetAffect | src/c_api.rs:266-291 | sets the clamped affect; code 0 for a known node, 2 otherwise |
| Handle.EngineHandle.RecordFeedback | src/c_api.rs:313-329 | records the verdict; code 0 for a known node, 2 otherwise |
| Handle.EngineHandle.PromoteConfirmed | src/c_api.rs:342-354 | promotes and returns how many (`Births.PromotionIff`, `Births.PromotionCounts`) |
| Handle.EngineHandle.EnforceCapacity | src/c_api.rs:369-388 | evicts, drops the index entries of evicted nodes, returns the loss |
| Handle.EngineHandle.NodeCount | src/c_api.rs:159-166 | the number of nodes |
| Handle.EngineHandle.Search | src/c_api.rs:407-459 | over-fetch, filter, weigh, sort and truncate; the four-fold over-fetch is `SelfEcho.EchoThreshold` |
| Handle.EngineHandle.SearchText | src/c_api.rs:407-478 | the rows found, printed |
| Handle.Weigh | src/c_api.rs:444-456 | the filter chain keeps exactly the eligible candidates in order, weighed |
| EngineHistory.CallKeeps | src/c_api.rs:206-388 | every call keeps: index ids distinct and live, vectors of the index dimension, graph invariant |
| EngineHistory.CallProgress | src/c_api.rs:206-388 | every call keeps the dimension once set, identities, canon and dead ids |
| EngineHistory.SessionKeeps | src/c_api.rs:206-459 | both over every run of calls within budget |
| EngineHistory.SessionFromFresh | src/c_api.rs:130-459 | every run of a new handle satisfies the joint invariant |
| IndexRuns.IndexIsHistory | src/c_api.rs:239-388 | after every run the index holds exactly the embeddings supplied that have the length of the first, for the nodes that live, in the order added |
| Births.LiveNodeAccounted | src/c_api.rs:206-330 | after every run a live node goes back to one call that added it: its text, cell, tags and source are that call's, its importance is 45 moved by +15 and -20 within 0 and the ceiling of its source byte, its counters and feeling come from the calls since |
| Births.CanonIsEarned | src/graph_nexus.rs:647-668 | if every promotion of a run asks for at least m confirmations, a node canon at the end was added canon or got at least m helpful verdicts since |
| Births.ConfirmationsCounted | src/graph_nexus.rs:626 | after every run a node's confirmations are its helpful verdicts since it was added, up to 2^32 - 1 |
| Births.PromotionIff | src/graph_nexus.rs:647-668 | a node's canon changes iff the level is canon, the node is not, is no self-description and has the confirmations; it then takes exactly that level |
| Births.PromotionCounts | src/c_api.rs:342-354 | the reply to a promotion is the number of nodes whose canon changed |
| Births.VerdictsOfBothKinds | src/graph_nexus.rs:619-637 | a confirmation then a rejection cost 5 hundredths iff importance is at least 5 and at most 15 below the cap; the other way round iff it is at least 20 |
| Permanence.CanonForGood | src/c_api.rs:119-125 | a node added with canon byte 1 or 2 is live at that level, not evictable, after every further run |
| Permanence.CanonByteDecides | src/c_api.rs:119-125 | shrinking to nothing right after spares a new node iff its canon byte is 1 or 2 |
| Permanence.AnswersTell | src/c_api.rs:266-330 | feedback and affect on it then answer 0, or 2 where it has gone |
| Permanence.AddAnswers | src/c_api.rs:206-254 | in every reachable state the reply to a new node is the one name the store did not know before and knows after |
| Permanence.EnforceAnswers | src/c_api.rs:369-388 | the reply to an eviction is what the node count has gone down by |
| Permanence.FirstVerdict | src/graph_nexus.rs:619-637 | by source byte, the importance of a new node and after its first verdict |
| Permanence.AccessesCounted | src/graph_nexus.rs:590-596 | accesses are counted up to 2^32 - 1 and the last one dates the node |
| Permanence.AccessSaves | src/graph_nexus.rs:537-596 | in every reachable state a node just accessed is evicted only if every other ephemeral node of its importance is |
| EngineHistory.ViewDeterminesAnswer | src/c_api.rs:426-459 | states that agree on index, ids, sources, contents and cells give the same search results |
| EngineHistory.CallKeepsView | src/c_api.rs:206-459 | a call that evicts in neither of two such states gets the same reply in both and keeps them alike |
| EngineHistory.FeedbackNeverHeard | src/c_api.rs:266-354 | taking all feedback, promotion and affect calls out of a run that evicts nothing changes no other reply iff the run left over evicts nothing |
| EngineHistory.PromotionHeard | src/c_api.rs:342-388 | a run without evictions whose promotion is what saves a node: without it the same call evicts and says so |
| EngineHistory.SearchUnmoved | src/c_api.rs:426-459 | any number of feedback, promotion and affect calls leaves the answer to any search unchanged |
| EngineHistory.FeedbackOutOfReach | src/graph_nexus.rs:1040-1097 | the same from one and the same state |
| FeedbackRuns.CallAhead | src/c_api.rs:206-459 | one call on two engines that differ in one node's feedback: same index, same reply but for promotion counts, and they go on differing in that node only |
| FeedbackRuns.ConfirmationMovesRetentionOnly | src/c_api.rs:313-459 | one more confirmation anywhere in a run of a new handle, evictions included: if the node lives at the end, the index and every other reply but promotion counts are unchanged |
| FeedbackRuns.RejectionMovesRetentionOnly | src/c_api.rs:313-459 | the same for one more rejection the node outlives |
| SpinLockLaws.NextKeeps | src/c_api.rs:45-78 | every step of any thread keeps the machine's invariant, given that the steps of a call add up to the call |
| SpinLockLaws.MutualExclusion | src/c_api.rs:45-78 | in every reachable state at most one thread is inside, one iff the lock is taken; a free lock guards the sequential result |
| SpinLockLaws.Linearizable | src/c_api.rs:45-78 | every return answers the sequential reply at the moment its call took the lock, between call and return |
| SpinLockLaws.RealTimeOrder | src/c_api.rs:45-78 | a call that returned before another began precedes it in that order |
| SpinLockLaws.EveryCallAnswered | src/c_api.rs:45-78 | when a thread is idle again each of its calls that took the lock has had its sequential reply |
| SpinLockLaws.NeverStuck | src/c_api.rs:45-78 | while any thread is in a call, some thread can do more than spin |
| SharedEngine.EngineFaithful | src/c_api.rs:206-459 | the writes and reads of a call, made one at a time, add up to the call |
| SharedEngine.SectionEnds | src/c_api.rs:206-459 | a critical section ends after at most two steps, whatever the data |
| SharedEngine.EngineNeverStuck | src/c_api.rs:45-97 | no interleaving of calls on one handle gets stuck |
| SharedEngine.FreeLockSafe | src/c_api.rs:82-97 | in every interleaving, whenever the lock is free the engine is what its calls in lock order leave, and the joint invariant holds |
| SharedEngine.RepliesLinearizable | src/c_api.rs:82-97 | in every interleaving every reply is the sequential engine's |
| SharedEngine.TornInside | src/c_api.rs:369-388 | between the two writes of an eviction the joint invariant fails iff an indexed node went, and the second write restores it |
| Json.TwoReplaces | src/c_api.rs:467 | the two whole-string replaces escape each character once |
| Json.ClosesWhereItShould | src/c_api.rs:467-470 | the first unescaped quote after the content is the closing one, whatever the content |
| Json.LiteralReads | src/c_api.rs:467-470 | a reader recovers the content iff it holds no control character, and otherwise refuses |
| Json.DecimalReads | src/c_api.rs:469 | the printed cell number reads back as itself |
| Json.Print | src/c_api.rs:461-478 | the loop builds the array text, and an interior NUL turns it into an empty array |
| JsonReading.RowReads | src/c_api.rs:467-470 | one printed object reads back as its five fields iff its content is free of control characters |
| JsonReading.ReplyReads | src/c_api.rs:461-478 | what a reader makes of a reply in every case: the rows, an empty array, or not JSON |
| JsonReading.ReplyFaithful | src/c_api.rs:461-478 | the reply reads back as exactly the rows iff no content holds a control character |
| Replies.FoundIdsPlain | src/c_api.rs:468-469 | in every reachable state the ids of rows found need no escaping |
| Replies.ReachableReply | src/c_api.rs:407-478 | over every run of a new handle the reply is faithful iff the found contents are free of control characters |
| Replies.CleanCallersUnderstood | src/c_api.rs:407-478 | callers who never store a control character always get faithful replies |
| Replies.CCallersReply | src/c_api.rs:101-106 | for contents that came in as C strings the NUL fallback is never taken: the reply is the rows, or not JSON |
| Replies.OneNoteReply | src/c_api.rs:407-478 | for every content, a search that finds this one note is understood iff the content is free of control characters |
| Replies.LineBreakUnreadable | src/c_api.rs:467-478 | one stored line break makes the reply not JSON |

## Left out

- Rounding, NaN and infinities of `f32`: components, cosines, scores and weights are reals; no claim is made about bit-exact scores.
- Square roots: values compared are signed squares (see the conventions above).
- Pointers, C strings, NULL-handle guards, allocation and the panic handler: foreign-call plumbing.
- Calls that return before locking: a search with an empty query or `top_k` 0 answers `[]` without the lock (`src/c_api.rs:415-417`); in `SharedEngine` it takes the lock, reads nothing and answers the same.
- Memory ordering and interrupts: the lock takes sequentially consistent steps. Nothing is claimed about fairness or about a spinning thread ever getting in.
- Persistence (`src/persistence.rs`): serialization and files; a handle starts empty, so ids are always generated ones.
- The int8 variant of the handle (`capi-int8`): `Handle` uses the exact index; `Quantization.Int8RefinesExact` relates the two.
- Node fields that no modelled operation reads: confidence, cluster id, bridge flag, summary, affect source and timestamp; also hyperedges, topology, scopes and cluster inference.
- Affect overlay and `PfcGuard`: not called by the engine, or single-branch.
- Splitting of the tag list, tokenization in `link_by_entities` and decimal formatting of scores: parameters of the model. `JsonReading` requires of the formatting only that it yields JSON numerals; scores are read back as the numerals printed.
- The library's `sort_by`, `sort_unstable_by`, `retain` and `partition_point`: modelled as functions; the sort is pinned down by `StableSort.SortCharacterised`.
- Iteration over the node map: ascending ids, which is the map's order.
- `usize` other than 64 bits.
- Behaviour after 2^64 ids or clock ticks: operations wrap as the source does, but the invariants over runs are stated below that number.
- Connectivity under pruning: not preserved by the code in general, so only bridges, triangles and degrees are spoken of.
- `neighbors`, counts and accessors of the store: one-line reads.
