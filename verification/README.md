# Verified model of the graph database's retrieval, deletion and contract core

This project models five components of the native graph database in Dafny and
proves what they promise:

- the **bounded personalised-PageRank request**: deadline and work accounting, the
  interruptible merge sort, the CSR reconstruction, the power iteration, the
  bounded top-k heap, and the per-corpus catalog that admits requests;
- **document replace-delete** over the five stores a document contributes to;
- the **contract interpreter**: schema validation, static and dynamic JSON
  Pointers, the refinement evaluator, and the self-describing response frame;
- **contextual lowercase** under a byte cap;
- the **optimistic transaction manager**.

`dafny verify dfyconfig.toml` checks everything.

## How the model is built

Code that works by changing things in place is modelled in place: arrays and
loops for the sort, the CSR passes and the iteration, classes for the deadline,
the heap, the catalog, the delete server, the bounded writer and the transaction
manager. Each such method is proved equal to a specification function (`Sort`,
`NetworkOf`, `Iterate`, `Delete`, `Step`, ...), and the theorems are lemmas about
those functions.

- `Wrappers`, `Text`, `Json`: results, UTF-16 order, UTF-8 and decimal numerals, JSON values.
- `StableSort`, `CountedSort`: the sort's specification, and the ping-pong merge sort with its exact cost.
- `Deadline`, `Accounting`: deadline runs, session deadlines, work counters and caps.
- `Graph`, `Csr`, `Ranking`, `PprSpec`: what one ranking request computes.
- `PprReal`, `PprGuarantees`: contraction and mass over the reals.
- `PprReference`, `PprOutcome`: the scores by node id straight from the triples, and what a whole request returns.
- `PprOrder`: order independence and cost over any arithmetic.
- `KernelGraph`, `KernelIteration`, `Materialize`, `PprKernel`: the request as array code, stage by stage.
- `Admission`: the caps, the transient budget and the largest admitted request.
- `Catalog`, `CatalogMeaning`, `Retrieval`: the index and counts behind admission, what they say of the stored JSON, and a request answered from them.
- `MapPasses`, `DeleteSpec`, `DeleteJson`, `DeleteProofs`, `DeleteRounds`, `DeleteExamples`, `DeleteServer`: the document delete.
- `DeleteMeaning`, `DeleteOutcome`, `DeleteVectors`, `DeleteReport`: its result, record by record, told from the stores before and after.
- `ContractSchema`, `PointerLaws`, `ContractStars`, `ContractEval`, `EvalLaws`, `ResponseFrame`: the contract interpreter.
- `Lowercase`, `Transactions`.

The scores of a ranking request are an opaque type `S` with uninterpreted
operations (`PprSpec.Arith`), so order independence and cost assume nothing about
addition; mass and contraction instantiate it with `real`. The iteration order of
a hash map is an input: a sequence of edges for ranking, and `orders` for the
delete passes. Time is an input too: any nondecreasing clock.

## What turned out not to hold as stated

- *Other corpora are untouched by a delete.* Keys are `corpus:id`, so corpus `a`
  with id `schema:x` and corpus `a:schema` with id `x` share a key, and two passes
  do not look at the record's corpus. `DeleteExamples.ForeignNodeRemoved` is the
  input. `DeleteProofs.SparesOthersExactly` says exactly when other corpora are
  spared and `KeepsStoreExactly` when the store invariant is. Both hold for every
  document when no node of another corpus has a key that starts with the corpus
  and a colon (`NoForeignKeysSuffice`), which is so in every saved store whose
  corpora have no colon in their names (`ColonFreeCorporaSuffice`).
- *Every entity that lost an edge survives exactly when it is still mentioned.*
  Entities that only lose an edge to an orphan are never candidates and always
  survive. `DeleteExamples.BystanderSurvives` is the input, a store and the delete
  run on it. `DeleteProofs.OrphanRuleExact` gives the exact condition on the store
  before the delete: the rule holds for an entity if and only if no removed node
  has its id and some edge touches it that the delete cuts for a removed node or
  fact, or some mention that it does not cut.
- *A vector of a surviving node survives.* A vector that names the deleted document
  goes when its node was not rewritten, even though the node stays and lists other
  documents: `DeleteExamples.StrayVectorRemoved` is the input.
  `DeleteVectors.VectorsMean` gives the exact condition, and `VectorFollowsNode` the
  rule for every node that named the document itself.
- *A schema-accepted pointer selects conforming values.* An object field named
  `*` is a field to the static check and a wildcard to evaluation:
  `ContractStars.StarFieldUnsound` is such a schema with a value.
  `StarFieldExact`, `StarEndExact` and `StarPathExact` say exactly when this is
  harmless, for one object, for a path that ends in the wildcard and for one that
  goes on from there: if and only if everything that fits some declared field fits
  the field `*`, or is led to the path's target by the rest of the path.
  `PointerSound` holds for every path whose wildcards on objects are harmless in
  the first sense, and `NoStarFieldsSuffice` shows that
  schemas without such a field have it on every path. The program evaluates only
  the contract pinned by its SHA-256 (src/bounded_retrieval_contract.rs:30-31),
  which declares no such field, so the shipped code never meets that schema.
- *The published scan constant.* The comment beside it speaks of a 46-pass edge
  sort; the code makes 45 sorting passes and one full scan
  (src/bounded_retrieval_contract.rs:47-54). The constant is the cost at the
  per-resource caps taken together (`PprOrder.CapIsReached`), and the transient
  budget refuses every request at both (`Admission.CapsRefusedTogether`), so no
  admitted request spends it (`AdmittedStaysBelowCap`). The most that a request
  accepted by the contract can cost is 1,444,980,541 units
  (`LargestCostBounds`, `LargestCostIsReached`).

## Model

| member | source | states |
|---|---|---|
| `Text.Utf16Injective` | src/bin/aira-graphdb-native/bounded_retrieval_runtime.rs:150-152 | two ids with the same UTF-16 code units are the same id |
| `Text.IdOrderIsTotal` | src/bin/aira-graphdb-native/bounded_retrieval_runtime.rs:150-152 | comparing UTF-16 code units is a total order on ids |
| `Text.IdOrderByUnits` | src/bin/aira-graphdb-native/bounded_retrieval_runtime.rs:150-152 | and it is this one: an id is strictly before another if and only if, at their first difference, it has no unit left while the other goes on or it has the smaller unit |
| `Text.Utf16Decodes` | src/bin/aira-graphdb-native/bounded_retrieval_runtime.rs:150-152 | the units are those of UTF-16: a scalar below 0x10000 is its own unit, and a surrogate pair decodes back to its scalar |
| `Text.Utf8Decodes` | src/bin/aira-graphdb-native/bounded_retrieval_runtime.rs:543-550 | a decoder of UTF-8 reads back every scalar from the bytes of a text, in as many bytes as RFC 3629 gives it |
| `Text.DecimalSpells` | src/bounded_retrieval_contract.rs:1612-1617 | a text is the decimal numeral of a number exactly when it is written for it: digit by digit, without leading zeros |
| `Text.StoreKeysCollide` | src/bin/aira-graphdb-native.rs:5155-5161 | records of two corpora can share a store key |
| `StableSort.SortIsPermutation` | src/bin/aira-graphdb-native/bounded_retrieval_runtime.rs:291-349 | the sorted sequence has the same elements |
| `StableSort.SortIsSorted` | src/bin/aira-graphdb-native/bounded_retrieval_runtime.rs:291-349 | it is sorted for any total preorder |
| `StableSort.SortIsStable` | src/bin/aira-graphdb-native/bounded_retrieval_runtime.rs:291-349 | equivalent elements keep their order |
| `StableSort.SortIgnoresInputOrder` | src/bin/aira-graphdb-native/bounded_retrieval_runtime.rs:291-349 | under a total order the result depends only on the multiset |
| `StableSort.MergeOfSorts` | src/bin/aira-graphdb-native/bounded_retrieval_runtime.rs:305-343 | merging two sorted runs, left first on ties, sorts their concatenation |
| `CountedSort.CeilLog2IsLeast` | src/bin/aira-graphdb-native/bounded_retrieval_runtime.rs:291-349 | the number of doubling passes is the least that covers the length |
| `CountedSort.PassDoublesRuns` | src/bin/aira-graphdb-native/bounded_retrieval_runtime.rs:305-343 | one pass over sorted runs leaves sorted runs of twice the width |
| `CountedSort.MergePass` | src/bin/aira-graphdb-native/bounded_retrieval_runtime.rs:305-343 | one pass writes the merged runs into the other buffer and charges two units an element |
| `CountedSort.CopyBack` | src/bin/aira-graphdb-native/bounded_retrieval_runtime.rs:344-349 | after an odd number of passes the result is copied back for one unit an element |
| `CountedSort.CanonicalCountedSort` | src/bin/aira-graphdb-native/bounded_retrieval_runtime.rs:291-349 | the array becomes the stable sort of its old contents for exactly `SortCost(length)` units, whatever the contents; it stops early only when the clock has reached the deadline or a counter would overflow |
| `Deadline.StepIsReady` | src/bin/aira-graphdb-native/bounded_retrieval_runtime.rs:91-147 | one accounting call under a nondecreasing clock keeps the deadline ready or reports expiry |
| `Deadline.RunOnlyExpires` | src/bounded_retrieval_contract.rs:3050-3087 | over any run of unit charges and guards, clock regression, work regression and checkpoint gaps never occur |
| `Deadline.ChargedAfterExpiry` | src/bin/aira-graphdb-native/bounded_retrieval_runtime.rs:91-115 | after expiry at most 1023 further units are accepted |
| `Deadline.SessionOnlyTightens` | src/bin/aira-graphdb-native/bounded_retrieval_runtime.rs:552-585 | over any sequence of requests the accepted owner budget and the absolute deadline never increase, and requests that are not accepted change neither |
| `Deadline.PreviewMeans` | src/bin/aira-graphdb-native/bounded_retrieval_runtime.rs:552-580 | a request is refused exactly when its budget grows or its deadline cannot be represented; otherwise its deadline is the earlier of the session's and arrival plus budget, at most a minute, and the rest is counted in whole milliseconds |
| `Deadline.MonotonicDeadline.New` | src/bounded_retrieval_contract.rs:3025-3035 | the deadline is at most 60 seconds away and fails only on overflow |
| `Deadline.MonotonicDeadline.CheckpointAt` | src/bounded_retrieval_contract.rs:3050-3063 | the five outcomes of a checkpoint and the state each leaves |
| `Deadline.ExecutionDeadline.New` | src/bin/aira-graphdb-native/bounded_retrieval_runtime.rs:72-82 | an execution deadline always starts, ready, at most 60 seconds away |
| `Deadline.ExecutionDeadline.GuardNow` | src/bin/aira-graphdb-native/bounded_retrieval_runtime.rs:108-147 | a guard checks the clock and can only report expiry |
| `Deadline.ExecutionDeadline.AdvanceBy` | src/bin/aira-graphdb-native/bounded_retrieval_runtime.rs:91-106 | a charge raises the counter and checks the clock every 1024 units |
| `Deadline.BoundedSession.PreviewDeadline` | src/bin/aira-graphdb-native/bounded_retrieval_runtime.rs:552-580 | the candidate deadline of a request, without changing the session |
| `Deadline.BoundedSession.Open` | src/bin/aira-graphdb-native/bounded_retrieval_runtime.rs:796-814 | a request is opened, and the session committed, exactly when its budget fits, both clock readings are in time and it is admitted; otherwise it gets the first of these failures and changes nothing |
| `Accounting.AccountGraphScanUnit` | src/bin/aira-graphdb-native/bounded_retrieval_runtime.rs:258-267 | exactly one unit on both counters, or a stop with the clock at the deadline or an overflow |
| `Accounting.BuildCountedGraphVec` | src/bin/aira-graphdb-native/bounded_retrieval_runtime.rs:269-289 | a fresh array of the built values for one unit an element |
| `Accounting.CheckWorkMeans` | src/bounded_retrieval_contract.rs:2862-2874 | the published caps as numbers; behind them the sum is the work and its 64-bit check never fires |
| `Graph.TripleOrderIsTotal` | src/bin/aira-graphdb-native/bounded_retrieval_runtime.rs:359-369 | the canonical edge order is total on (source, target, weight) |
| `Csr.BelowNext` | src/bin/aira-graphdb-native/bounded_retrieval_runtime.rs:1239-1254 | each offset is the previous one plus the out-degree |
| `Csr.CursorInside` | src/bin/aira-graphdb-native/bounded_retrieval_runtime.rs:1259-1284 | a cursor never leaves its own segment |
| `Csr.SegmentsDisjoint` | src/bin/aira-graphdb-native/bounded_retrieval_runtime.rs:1259-1284 | slots of different sources never coincide |
| `Csr.SortedAdjacency` | src/bin/aira-graphdb-native/bounded_retrieval_runtime.rs:1259-1284 | because edges and ids are sorted, adjacency slot i is the image of edge i |
| `Csr.SegmentOwner` | src/bin/aira-graphdb-native/bounded_retrieval_runtime.rs:1259-1284 | every slot between two offsets belongs to that source |
| `Ranking.RankOrderIsTotal` | src/bin/aira-graphdb-native/bounded_retrieval_runtime.rs:154-158 | higher score first, then smaller id, is a total order |
| `Ranking.BinaryHeap.Retain` | src/bin/aira-graphdb-native/bounded_retrieval_runtime.rs:226-250 | the heap keeps the best `limit` of what it held and the offer |
| `Ranking.BinaryHeap.Finish` | src/bin/aira-graphdb-native/bounded_retrieval_runtime.rs:252-256 | the finished ranking is the heap's contents in rank order |
| `Ranking.RetainedIsBest` | src/bin/aira-graphdb-native/bounded_retrieval_runtime.rs:226-256 | after any stream, what is retained is the first `limit` of the fully sorted stream, ties, duplicates and limit 0 included |
| `Ranking.BestIsTop` | src/bin/aira-graphdb-native/bounded_retrieval_runtime.rs:213-256 | sorting and cutting keeps as many offers as there are up to the limit, a higher score first, of equal scores the id with the smaller unit at the first difference, and leaves out none that should come before |
| `Ranking.RankStream` | src/bin/aira-graphdb-native/bounded_retrieval_runtime.rs:213-256 | the heap code computes exactly that: the first `limit` offers, index by index of their ids' UTF-16 units for equal scores |
| `PprSpec.NodeIdsAreEndpoints` | src/bin/aira-graphdb-native/bounded_retrieval_runtime.rs:1159-1190 | the id list is distinct, sorted and names exactly the endpoints |
| `PprSpec.CanonicalArcsSorted` | src/bin/aira-graphdb-native/bounded_retrieval_runtime.rs:1158-1214 | in canonical order the source indices never decrease |
| `PprReal.NextContracts` | src/bin/aira-graphdb-native/bounded_retrieval_runtime.rs:1336-1370 | one iteration shrinks l1 distances by the factor 1-t, for signed vectors |
| `PprReal.NextKeepsMass` | src/bin/aira-graphdb-native/bounded_retrieval_runtime.rs:1336-1370 | one iteration keeps scores nonnegative and total mass at most 1, and exactly 1 when nothing dangles and nothing is damped |
| `PprGuarantees.DeltasContract` | src/bin/aira-graphdb-native/bounded_retrieval_runtime.rs:1336-1395 | successive deltas satisfy d(k+1) <= (1-t) d(k) |
| `PprGuarantees.DeltasGeometric` | src/bin/aira-graphdb-native/bounded_retrieval_runtime.rs:1336-1395 | so the k-th delta is at most (1-t)^k times the first |
| `PprGuarantees.RunConverges` | src/bin/aira-graphdb-native/bounded_retrieval_runtime.rs:1336-1395 | a run whose geometric bound drops below the tolerance within its iterations converges |
| `PprGuarantees.TeleportIsDistribution` | src/bin/aira-graphdb-native/bounded_retrieval_runtime.rs:1299-1330 | nonnegative distinct seeds give a nonnegative teleport vector of mass 1 |
| `PprGuarantees.RequestMass` | src/bin/aira-graphdb-native/bounded_retrieval_runtime.rs:1285-1395 | over whole requests every score stays nonnegative with total mass at most 1, exactly 1 without dangling nodes or damping |
| `PprReference.TeleportIsRef` | src/bin/aira-graphdb-native/bounded_retrieval_runtime.rs:1299-1330 | the teleport vector by node id: every node's last seed over the sum of all seeds in the graph, or the uniform share when that sum is not positive |
| `PprReference.NextIsRefStep` | src/bin/aira-graphdb-native/bounded_retrieval_runtime.rs:1336-1370 | over the reals one iteration by node id, straight from the triples: (1-t) times the inflow along the edges, each with its share of its source's outgoing weight, times the damping of the node, plus t times its teleport |
| `PprOutcome.CanonicalCounts` | src/bin/aira-graphdb-native/bounded_retrieval_runtime.rs:1145-1158 | the canonical triples hold each triple as often as edges of the corpus read as it |
| `PprOutcome.ScoresSucceed` | src/bin/aira-graphdb-native/bounded_retrieval_runtime.rs:1213-1395 | over the reals a run fails exactly on a negative weight, or when it iterates over a source whose outgoing weights are not positive in sum |
| `PprOutcome.ScoresAreReference` | src/bin/aira-graphdb-native/bounded_retrieval_runtime.rs:1285-1400 | a successful run gives every node the score of a reference that knows no index, adjacency or array, after the first iteration whose distance is below epsilon, or at the limit |
| `PprOutcome.HubsAreDamped` | src/bin/aira-graphdb-native/bounded_retrieval_runtime.rs:1286-1296 | the score of a `schema:` node whose edge ends outnumber the threshold is its inflow times the hub factor of that count, plus teleport; every other node has its inflow undamped |
| `PprOutcome.QuietHubsUndamped` | src/bin/aira-graphdb-native/bounded_retrieval_runtime.rs:1286-1296 | over any arithmetic, when every `schema:` id ends at most `hubDegreeThreshold` edges the scores are those of a run whose hub factor is constantly one |
| `PprOutcome.QuietHubsConserve` | src/bin/aira-graphdb-native/bounded_retrieval_runtime.rs:1286-1395 | and over the reals, when moreover every endpoint has an outgoing edge, their mass is exactly one, whatever the hub factor |
| `PprOutcome.AnswerIsTop` | src/bin/aira-graphdb-native/bounded_retrieval_runtime.rs:1397-1420 | the two lists of an answer are the best `passage:` and the best `fact:` nodes up to their own limits, best first, each once, and nothing better is left out |
| `PprOutcome.ReplyMeans` | src/bin/aira-graphdb-native/bounded_retrieval_runtime.rs:1421-1458 | a reply attaches, rank by rank, the object of the passages section to each passage and of the facts section to each fact; a failed one comes from the scores or from the first object that is missing or too large |
| `PprOrder.SeedOrderIrrelevant` | src/bin/aira-graphdb-native/bounded_retrieval_runtime.rs:1299-1312 | distinct seeds are placed the same however they are listed |
| `PprOrder.CanonicalIgnoresOrder` | src/bin/aira-graphdb-native/bounded_retrieval_runtime.rs:1145-1158 | the canonical edges do not depend on map iteration order |
| `PprOrder.AnswerIgnoresOrder` | src/bin/aira-graphdb-native/bounded_retrieval_runtime.rs:1145-1446 | the score vector, rankings, counts and reported work depend only on the multiset of triples and the set of seeds, with an addition that need not associate or commute |
| `PprOrder.SortPasses` | src/bounded_retrieval_contract.rs:47-54 | under the caps the sorts cost at most 44 node passes and 45 edge passes |
| `PprOrder.CostFitsCap` | src/bounded_retrieval_contract.rs:47-54 | every admitted request costs at most the published constant |
| `PprOrder.CapIsReached` | src/bounded_retrieval_contract.rs:47-54 | arithmetic about the per-resource caps: their closed-form cost taken together is the published constant |
| `Admission.CapsRefusedTogether` | src/bin/aira-graphdb-native/bounded_retrieval_runtime.rs:1094-1107 | no request is admitted at the node cap and the edge cap together |
| `Admission.AdmittedStaysBelowCap` | src/bounded_retrieval_contract.rs:2923-2965 | every admitted request costs less than the published constant |
| `Admission.LargestCostBounds` | src/bounded_retrieval_contract.rs:2923-2965 | an admitted request for at least one passage and one entity costs at most 1,444,980,541 units |
| `Admission.LargestCostIsReached` | src/bin/aira-graphdb-native/bounded_retrieval_runtime.rs:1094-1107 | that bound is exact: sizes that fill the transient budget to the byte are admitted and cost it |
| `KernelGraph.CollectEdges` | src/bin/aira-graphdb-native/bounded_retrieval_runtime.rs:1145-1157 | the corpus's edges in visiting order for one unit an edge of any corpus |
| `KernelGraph.DiscoverEndpoints` | src/bin/aira-graphdb-native/bounded_retrieval_runtime.rs:1159-1188 | endpoints in order of first appearance; node, edge and unit counters exact |
| `KernelGraph.BuildIndex` | src/bin/aira-graphdb-native/bounded_retrieval_runtime.rs:1197-1208 | the inverse of the id list; the duplicate check never fires |
| `KernelGraph.CountDegrees` | src/bin/aira-graphdb-native/bounded_retrieval_runtime.rs:1215-1238 | in- and out-degrees and weight sums in canonical order, or an integrity failure exactly when an edge is unacceptable |
| `KernelGraph.BuildOffsets` | src/bin/aira-graphdb-native/bounded_retrieval_runtime.rs:1239-1254 | prefix sums of the out-degrees with the edge total as sentinel |
| `KernelGraph.Scatter` | src/bin/aira-graphdb-native/bounded_retrieval_runtime.rs:1259-1278 | every segment is filled in canonical order; the bounds check never fires |
| `KernelGraph.ScatteredIsFilled` | src/bin/aira-graphdb-native/bounded_retrieval_runtime.rs:1259-1278 | after the pass each segment is exactly the subsequence of its source's edges |
| `KernelGraph.CheckCursors` | src/bin/aira-graphdb-native/bounded_retrieval_runtime.rs:1279-1284 | the cursor check never fires |
| `KernelIteration.BuildTeleport` | src/bin/aira-graphdb-native/bounded_retrieval_runtime.rs:1297-1330 | the specified teleport vector for two units a node |
| `KernelIteration.SpreadAll` | src/bin/aira-graphdb-native/bounded_retrieval_runtime.rs:1339-1367 | the nested loops add what the arcs carry, in canonical order, for n+m units; a source stops them only when its total is unusable |
| `KernelIteration.MeasureDelta` | src/bin/aira-graphdb-native/bounded_retrieval_runtime.rs:1376-1391 | the l1 distance, or an integrity failure exactly when a value is not finite |
| `KernelIteration.OneIteration` | src/bin/aira-graphdb-native/bounded_retrieval_runtime.rs:1336-1391 | the next score vector and its distance for exactly 4n+m units |
| `PprKernel.PrepareEdges` | src/bin/aira-graphdb-native/bounded_retrieval_runtime.rs:1145-1158 | canonical edges for E+S(m) units; the count check fires only when the catalogue is wrong |
| `PprKernel.PrepareNodes` | src/bin/aira-graphdb-native/bounded_retrieval_runtime.rs:1159-1196 | canonical ids for n+m+S(n) units |
| `PprKernel.BuildLayout` | src/bin/aira-graphdb-native/bounded_retrieval_runtime.rs:1197-1330 | the frozen arrays of the specified network for 10n+3m+1 units, or an integrity failure exactly when an edge is unacceptable |
| `PprKernel.RunIterations` | src/bin/aira-graphdb-native/bounded_retrieval_runtime.rs:1329-1400 | the specified scores for n+k(4n+m) units |
| `PprKernel.RankNodes` | src/bin/aira-graphdb-native/bounded_retrieval_runtime.rs:1402-1420 | the best passages and facts for n units |
| `Materialize.MaterializeAll` | src/bin/aira-graphdb-native/bounded_retrieval_runtime.rs:511-525 | the stored objects are attached in rank order, or the first missing or oversized one is reported; the work check never rejects |
| `Materialize.AttachExactly` | src/bin/aira-graphdb-native/bounded_retrieval_runtime.rs:511-525 | the objects of a ranking are attached exactly when under every id, without its prefix, an object of at most 256 KiB is stored |
| `Materialize.CloneJson` | src/bin/aira-graphdb-native/bounded_retrieval_runtime.rs:457-509 | the guarded clone is the value itself, and only the deadline stops it |
| `PprKernel.ExecutePpr` | src/bin/aira-graphdb-native/bounded_retrieval_runtime.rs:1062-1458 | on a catalogued state a request is refused exactly by its caps, or stops with the clock at its deadline, or returns the specified ranking with its objects having charged exactly E+S(m)+S(n)+4m+13n+1+k(4n+m) units, which the final check accepts; a clock below the deadline at every reading always gets that answer |
| `Retrieval.RankCorpus` | src/bin/aira-graphdb-native/bounded_retrieval_runtime.rs:711-738 | the same end to end: counts and objects both come from the catalog, and the answer is the one that scans of the state specify |
| `Catalog.KeyBytesInjective` | src/bin/aira-graphdb-native/bounded_retrieval_runtime.rs:543-550 | length-framed keys of different (corpus, section, id) are different bytes |
| `Catalog.IndexSnapshots` | src/bin/aira-graphdb-native/bounded_retrieval_runtime.rs:624-650 | the index holds exactly the stored items, or the snapshots have a malformed item or a repeated key |
| `Catalog.CountEdges` | src/bin/aira-graphdb-native/bounded_retrieval_runtime.rs:651-693 | edges and distinct endpoints per corpus, or a dangling edge or too many endpoints |
| `Catalog.BoundedCatalog.Ensure` | src/bin/aira-graphdb-native/bounded_retrieval_runtime.rs:596-696 | a build succeeds exactly on a consistent state and then describes it |
| `CatalogMeaning.BuildMeans` | src/bin/aira-graphdb-native/bounded_retrieval_runtime.rs:596-696 | a state is consistent exactly when, in its stored JSON, every snapshot names its corpus, every item of the three sections names it too and has an id of 1 to 4096 bytes under the section's own field, no id has two places, every edge ends at recorded nodes, and there are at most 4,000,000 edges and 1,500,000 endpoints a corpus |
| `Catalog.BoundedCatalog.SnapshotItem` | src/bin/aira-graphdb-native/bounded_retrieval_runtime.rs:711-738 | lookup by key returns what a scan of the section finds; its integrity checks fire only for absent items |
| `CatalogMeaning.LookupMeans` | src/bin/aira-graphdb-native/bounded_retrieval_runtime.rs:711-738 | the lookup finds a value exactly when the corpus's snapshot holds it in that section under that id, by the field `passageId`, `factId` or `schemaId` |
| `Catalog.LookupIsScan` | src/bin/aira-graphdb-native/bounded_retrieval_runtime.rs:711-738 | the lookup by key, with all its checks, finds what a scan of the section finds |
| `Catalog.LookupIsPosition` | src/bin/aira-graphdb-native/bounded_retrieval_runtime.rs:711-738 | a key is indexed exactly when the section holds such an item, at that position |
| `Catalog.ItemsAreUnique` | src/bin/aira-graphdb-native/bounded_retrieval_runtime.rs:624-650 | no two items of a catalogued section share an id |
| `Catalog.EndpointsOfCorpus` | src/bin/aira-graphdb-native/bounded_retrieval_runtime.rs:651-693 | the counted endpoints are the endpoints of the corpus's own edges |
| `CatalogMeaning.CountsMean` | src/bin/aira-graphdb-native/bounded_retrieval_runtime.rs:651-693 | the counts of a catalog are the number of the corpus's edges and of the ids they end at |
| `Catalog.CatalogAdmitsRanking` | src/bin/aira-graphdb-native/bounded_retrieval_runtime.rs:1145-1196 | so ranking's node and edge count checks never fail on a catalogued state |
| `DeleteJson.PruneSchemaLists` | src/bin/aira-graphdb-native/memory_delete_document.rs:644-676 | a pruned schema loses exactly the document and the removed facts and keeps its id |
| `DeleteJson.PruneSchemaCounts` | src/bin/aira-graphdb-native/memory_delete_document.rs:652-676 | its frequency drops once and its state follows the new frequency |
| `DeleteJson.FactAfterLists` | src/bin/aira-graphdb-native/memory_delete_document.rs:319-344 | a shared fact loses exactly the document and the removed passages and keeps its id |
| `DeleteJson.FactsAfterMembers` | src/bin/aira-graphdb-native/memory_delete_document.rs:315-346 | the fact list afterwards holds exactly the kept and pruned facts |
| `DeleteProofs.KeepsStoreExactly` | src/bin/aira-graphdb-native/memory_delete_document.rs:389-611 | endpoints of every edge still exist and vectors and their values keep the same keys, if and only if no edge ends at a foreign node that goes as an unsupported mirror or an orphan |
| `DeleteProofs.SparesOthersExactly` | src/bin/aira-graphdb-native/memory_delete_document.rs:176-611 | every record of another corpus is unchanged if and only if none of its nodes is taken for a mirror or an orphan of this corpus and changed by it |
| `DeleteProofs.DeleteKeepsStore` | src/bin/aira-graphdb-native/memory_delete_document.rs:407-611 | so the store invariant is kept when no foreign node has a key of this corpus |
| `DeleteProofs.DeleteSparesOthers` | src/bin/aira-graphdb-native/memory_delete_document.rs:176-611 | every record of another corpus is unchanged when no foreign node has a key of this corpus |
| `DeleteProofs.ColonFreeCorporaSuffice` | src/bin/aira-graphdb-native.rs:5155-5161 | in a saved store no key is foreign to a corpus when no corpus name holds a colon |
| `DeleteProofs.CountersMatch` | src/bin/aira-graphdb-native/memory_delete_document.rs:407-616 | nodes, edges, vectors and lexical passages shrink by exactly the reported counters |
| `DeleteProofs.OrphanRoundIsFixpoint` | src/bin/aira-graphdb-native/memory_delete_document.rs:503-571 | a candidate entity survives if and only if the final edges still mention it, so one round is enough |
| `DeleteProofs.OrphanRuleExact` | src/bin/aira-graphdb-native/memory_delete_document.rs:503-571 | for every entity of a store, surviving exactly when still mentioned holds if and only if, before the delete, no removed node has its id and a cut edge or an uncut mention touches it |
| `DeleteProofs.DecisionErased` | src/bin/aira-graphdb-native/memory_delete_document.rs:284-387 | no mirror handed to the graph names the document |
| `DeleteProofs.RekeyIsErased` | src/bin/aira-graphdb-native/memory_delete_document.rs:409-501 | no re-keyed vector points back to the document, for any map order |
| `DeleteProofs.DeleteErases` | src/bin/aira-graphdb-native/memory_delete_document.rs:176-616 | no passage, fact, schema, owned node, vector or lexical entry of the corpus names the document afterwards |
| `DeleteRounds.NoopChangesNothing` | src/bin/aira-graphdb-native/memory_delete_document.rs:39-59 | a reported noop means no store changed |
| `DeleteRounds.ErasedIsNoop` | src/bin/aira-graphdb-native/memory_delete_document.rs:176-616 | deleting a document that nothing names is a noop |
| `DeleteRounds.SecondDeleteIsNoop` | src/bin/aira-graphdb-native/memory_delete_document.rs:176-616 | a second delete is a noop and changes nothing, whatever the map orders |
| `DeleteRounds.DeleteKeepsSchemasClosed` | src/bin/aira-graphdb-native/memory_delete_document.rs:315-387 | the facts that schemas list are still stored |
| `DeleteRounds.DeleteKeepsFactsGrounded` | src/bin/aira-graphdb-native/memory_delete_document.rs:290-346 | the passages that facts list are still stored and belong to their source documents |
| `DeleteRounds.FactNodeMirrors` | src/bin/aira-graphdb-native/memory_delete_document.rs:416-460 | a surviving fact node holds what its fact became |
| `DeleteRounds.OntologyNodeMirrors` | src/bin/aira-graphdb-native/memory_delete_document.rs:461-501 | a surviving ontology node holds what its schema became |
| `DeleteRounds.DeleteKeepsMirrors` | src/bin/aira-graphdb-native/memory_delete_document.rs:184-501 | with unique ids, fact and ontology nodes still equal their stored fact or schema |
| `DeleteMeaning.PruneMeans` | src/bin/aira-graphdb-native/memory_delete_document.rs:62-81 | pruning an array drops exactly the listed strings and leaves every other member in its place |
| `DeleteMeaning.FactMeans` | src/bin/aira-graphdb-native/memory_delete_document.rs:318-346 | a stored fact goes exactly when it lists the document and either no other document or only removed passages; one that stays and listed the document loses just that, and one that did not is untouched |
| `DeleteMeaning.SchemaMeans` | src/bin/aira-graphdb-native/memory_delete_document.rs:644-676 | field by field, what a reached schema becomes: two pruned lists, a frequency lowered once, a state that follows it, the update time, and nothing else |
| `DeleteMeaning.ScanMeans` | src/bin/aira-graphdb-native/memory_delete_document.rs:184-405 | what the read-only scan decides, read off the stored JSON: the removed passages and facts, the touched and needed schemas, the mirrors handed to the graph, and the ontology nodes they reach |
| `DeleteOutcome.NodesMean` | src/bin/aira-graphdb-native/memory_delete_document.rs:407-501 | what becomes of every node: untouched unless it names the document or mirrors a reached schema; otherwise it goes exactly when nothing else supports it, and else holds its pruned fact or schema or its own ref pruned in place |
| `DeleteOutcome.EntitiesMean` | src/bin/aira-graphdb-native/memory_delete_document.rs:503-571 | an entity leaves exactly when some edge of it goes with a removed node or fact and no mention of it stays |
| `DeleteOutcome.EdgesMean` | src/bin/aira-graphdb-native/memory_delete_document.rs:503-571 | an edge leaves exactly when it ends at a node that left, is a co-occurrence whose id spells a removed fact, or ends at such an entity; any other edge is unchanged |
| `DeleteOutcome.SnapshotsMean` | src/bin/aira-graphdb-native/memory_delete_document.rs:284-387 | the three sections afterwards, member by member and in order; all other fields and the snapshots of other corpora stay |
| `DeleteOutcome.LexicalMeans` | src/bin/aira-graphdb-native/memory_delete_document.rs:603-611 | a lexical passage leaves exactly when it is the document's |
| `DeleteVectors.RekeyIsHome` | src/bin/aira-graphdb-native/memory_delete_document.rs:407-501 | for an id that did not leave, the re-key map holds the first document of its rewritten node, or of its stored schema when no node was rewritten, and nothing otherwise, for any map order |
| `DeleteVectors.VectorsMean` | src/bin/aira-graphdb-native/memory_delete_document.rs:573-601 | on the stores before and after: a vector whose id left is gone; one that did not name the document is unchanged; one that did stays exactly when a surviving record speaks for it, and then names that record's first document; values follow their vectors |
| `DeleteVectors.VectorFollowsNode` | src/bin/aira-graphdb-native/memory_delete_document.rs:573-601 | a vector that named the document stays when its node was rewritten and survives, under the first document the node still lists, with its values; any other vector of a surviving node that did not name the document is unchanged |
| `DeleteReport.ReportMeans` | src/bin/aira-graphdb-native/memory_delete_document.rs:612-638 | all sixteen counters: each is the number of records that left or changed as its name says, so the removed and the re-keyed vectors are disjoint |
| `DeleteExamples.ForeignNodeRemoved` | src/bin/aira-graphdb-native/memory_delete_document.rs:389-401 | a concrete saved store where deleting a document of one corpus removes a node of another |
| `DeleteExamples.BystanderSurvives` | src/bin/aira-graphdb-native/memory_delete_document.rs:560-569 | a concrete saved store whose delete takes an entity's only edge; nothing mentions the entity and it survives |
| `DeleteExamples.StrayVectorRemoved` | src/bin/aira-graphdb-native/memory_delete_document.rs:588-599 | a concrete saved store whose vector names the document while its node lists another: the node stays untouched and the vector goes |
| `DeleteServer.ScanStore` | src/bin/aira-graphdb-native/memory_delete_document.rs:184-282 | the read-only walks find the fates, passages, facts and schemas the specification decides |
| `DeleteServer.RewriteFacts` | src/bin/aira-graphdb-native/memory_delete_document.rs:318-346 | the fact pass: kept list, touched schemas, dropped ids, mirrors and count |
| `DeleteServer.RewriteSchemas` | src/bin/aira-graphdb-native/memory_delete_document.rs:347-387 | the schema pass: rewritten list, mirrors and counts |
| `DeleteServer.Server.RewriteSnapshot` | src/bin/aira-graphdb-native/memory_delete_document.rs:284-405 | the snapshot and the decision of the specification |
| `DeleteServer.Server.SettleNodes` | src/bin/aira-graphdb-native/memory_delete_document.rs:407-501 | the node passes leave the specified nodes, removed ids, re-key map and counters |
| `DeleteServer.Server.SettleEdges` | src/bin/aira-graphdb-native/memory_delete_document.rs:503-571 | the edge passes and the orphan round leave the specified graph |
| `DeleteServer.Server.RetainStores` | src/bin/aira-graphdb-native/memory_delete_document.rs:573-611 | vectors, their values and lexical passages afterwards, with the counters; `VectorsMean`, `LexicalMeans` and `ReportMeans` say which those are |
| `DeleteServer.Server.Apply` | src/bin/aira-graphdb-native/memory_delete_document.rs:176-638 | the whole delete leaves the stores of `Delete` and the counters of `Report`, whose records the outcome and report lemmas determine one by one, and marks the cache unless it was a noop |
| `ContractSchema.UnwrapConforms` | src/bounded_retrieval_contract.rs:1598-1610 | a conforming value conforms to what optionals and references unwrap to |
| `ContractSchema.CanonicalIndexParses` | src/bounded_retrieval_contract.rs:1612-1617 | a canonical index is refused only when it exceeds 64 bits |
| `PointerLaws.IndexIsNumeral` | src/bounded_retrieval_contract.rs:1612-1617 | the canonical indices are exactly the decimal numerals, and one parses to the number it spells, up to 64 bits |
| `PointerLaws.EscapeDecodes` | src/bounded_retrieval_contract.rs:2014-2029 | a field name written with the two escapes decodes to itself and holds no separator |
| `ContractSchema.PointerValues` | src/bounded_retrieval_contract.rs:2031-2074 | the frontier loop computes the segment-by-segment selection, which `IndexFinds`, `FieldFinds` and `WildcardFinds` determine; its "selected no values" error is unreachable |
| `PointerLaws.IndexFinds` | src/bounded_retrieval_contract.rs:2031-2074 | a path to an array followed by a segment that spells n selects exactly item n, or reports that it is out of range |
| `PointerLaws.FieldFinds` | src/bounded_retrieval_contract.rs:2031-2074 | a path to an object followed by an escaped name selects exactly that member, or reports it missing |
| `PointerLaws.WildcardFinds` | src/bounded_retrieval_contract.rs:2031-2074 | a wildcard selects every item of an array in order and every member of an object in its key order, and nothing else |
| `ContractSchema.SelectSound` | src/bounded_retrieval_contract.rs:1619-1659 | one segment below a conforming value: conforming selections, and no error but its own absent optional field or array index |
| `ContractSchema.WalkSound` | src/bounded_retrieval_contract.rs:2031-2074 | the same for whole frontiers and paths, each error caused by a segment of the path |
| `ContractSchema.PointerSound` | src/bounded_retrieval_contract.rs:701-786 | for a valid document and an accepted pointer, evaluation fails only with the name of an optional field on the path or at an array index on the path, never on a total path; selections conform, and exactly one without a wildcard |
| `ContractStars.NoStarFieldsSuffice` | src/bounded_retrieval_contract.rs:1651-1653 | schemas without a field named `*` satisfy the side condition for every accepted path |
| `ContractStars.StarFieldUnsound` | src/bounded_retrieval_contract.rs:2039-2047 | with such a field a selected value need not conform |
| `ContractStars.StarFieldExact` | src/bounded_retrieval_contract.rs:2039-2047 | for an object with some conforming value, all members of conforming values fit the field `*` if and only if whatever fits a declared field does |
| `ContractStars.Plug` | src/bounded_retrieval_contract.rs:2031-2074 | the value an accepted path reaches can be replaced by any fitting one: the document still conforms, and a path that goes on selects below the new value what it selects from that value alone |
| `ContractStars.StarPathExact` | src/bounded_retrieval_contract.rs:2031-2074 | for the first wildcard a path puts on an object, wherever the path goes on: all selections of all conforming values fit the static target if and only if the rest of the path leads there from whatever a declared field may hold |
| `ContractStars.StarEndExact` | src/bounded_retrieval_contract.rs:2031-2074 | for a path that ends there, if and only if whatever fits a declared field fits the field `*` |
| `ContractEval.CleanOperand` | src/bounded_retrieval_contract.rs:1802-1842 | a clean expression has clean operands, by the declared fields of its opcode |
| `EvalLaws.LessLaw` | src/bounded_retrieval_contract.rs:2271-2281 | `lt` is true exactly when the left number is below the right one, and `lte` also when they are equal |
| `EvalLaws.MultiplyLaw` | src/bounded_retrieval_contract.rs:2282-2286 | `multiply` is the product |
| `EvalLaws.EqualLaw` | src/bounded_retrieval_contract.rs:2267-2270 | `eq`, `field_eq_ref` and `corpus_eq_ref` are true exactly on equal values |
| `EvalLaws.NotLaw` | src/bounded_retrieval_contract.rs:2297-2300 | `not` negates |
| `EvalLaws.PointerLaw` | src/bounded_retrieval_contract.rs:2174-2186 | `pointer` returns the one value its path finds in the request or the result, or all of them behind a wildcard |
| `EvalLaws.IterationLaw` | src/bounded_retrieval_contract.rs:2187-2195 | `iteration_pointer` does so in the current item of its own scope |
| `EvalLaws.QuantifierLaw` | src/bounded_retrieval_contract.rs:2220-2241 | `all` holds exactly when every operand does, and `any` exactly when some does |
| `EvalLaws.MaxLaw` | src/bounded_retrieval_contract.rs:2287-2296 | `max` is one of its operands and no operand is above it; without operands it is an error |
| `EvalLaws.CoalesceLaw` | src/bounded_retrieval_contract.rs:2242-2253 | `coalesce` returns its first operand that is not null |
| `EvalLaws.ConcatLaw` | src/bounded_retrieval_contract.rs:2254-2266 | `concat` joins its strings in order |
| `EvalLaws.LengthLaw` | src/bounded_retrieval_contract.rs:2196-2208 | `array_length` counts the items |
| `EvalLaws.ArrayAtLaw` | src/bounded_retrieval_contract.rs:2209-2219 | `array_at` returns the item at the index, and fails behind the end |
| `EvalLaws.LengthCheckLaw` | src/bounded_retrieval_contract.rs:2410-2431 | `length_eq` and `length_lte_ref` compare the number of items with the bound |
| `EvalLaws.SetContainsLaw` | src/bounded_retrieval_contract.rs:2337-2349 | `set_contains` is membership |
| `EvalLaws.MapLookupLaw` | src/bounded_retrieval_contract.rs:2311-2336 | `map_lookup` returns the value field of the first entry with the key, or null |
| `EvalLaws.RangeLaw` | src/bounded_retrieval_contract.rs:2354-2368 | `finite_range` holds exactly when every value is between the bounds |
| `EvalLaws.SafeRangeLaw` | src/bounded_retrieval_contract.rs:2369-2385 | `safe_integer_range` asks for safe integers between the bounds |
| `EvalLaws.TupleTagsLaw` | src/bounded_retrieval_contract.rs:2386-2409 | `tuple_tags` holds exactly when the items carry the tags in order |
| `EvalLaws.NormalizeLaw` | src/bounded_retrieval_contract.rs:2301-2310 | `normalize_ref` passes its dependency and its text to the normalizer |
| `EvalLaws.PrefixedLaw` | src/bounded_retrieval_contract.rs:2528-2537 | `prefixed_identity` holds exactly when the value is the prefix followed by the identity |
| `EvalLaws.ForEachLaw` | src/bounded_retrieval_contract.rs:2487-2506 | `for_each` holds exactly when its body does for every item |
| `EvalLaws.RankLaw` | src/bounded_retrieval_contract.rs:2507-2527 | `rank_is_index_plus_one` holds exactly when the ranks are 1, 2, 3 and so on |
| `EvalLaws.UniqueLaw` | src/bounded_retrieval_contract.rs:2432-2454 | `unique_by` holds exactly when the keys are pairwise different |
| `EvalLaws.OrderedLaw` | src/bounded_retrieval_contract.rs:2455-2486 | `ordered_score_desc_id_asc` holds exactly when each score falls, or stays while the ids go forward unit by unit |
| `ContractEval.ResultIrrelevant` | src/bounded_retrieval_contract.rs:2156-2543 | an assertion without result pointers evaluates the same for every result and without one, value for value and error message for error message; the opcode laws of `EvalLaws` say which value that is |
| `ContractEval.RequestPartitionIgnoresResult` | src/bounded_retrieval_contract.rs:2545-2563 | a list of such assertions fails at the same one, or with the same error, for every result |
| `ContractEval.RankingPassesOrderCheck` | src/bounded_retrieval_contract.rs:2447-2486 | any stream of offers, sorted by rank and cut to its limit, passes the contract's order check over real scores |
| `ResponseFrame.FourEncodingsSuffice` | src/bounded_retrieval_contract.rs:3280-3297 | whatever the fixed part, the fourth encoding states the third's length, which is the least that agrees |
| `ResponseFrame.AdvertisedGrows` | src/bounded_retrieval_contract.rs:3280-3297 | the advertised lengths never decrease |
| `ResponseFrame.LimitedWriter.Write` | src/bounded_retrieval_contract.rs:3236-3249 | a chunk is taken whole or refused whole |
| `ResponseFrame.SerializeLimited` | src/bounded_retrieval_contract.rs:3256-3261 | serialization succeeds exactly when the whole text fits |
| `ResponseFrame.FrameHasLength` | src/bounded_retrieval_contract.rs:3263-3267 | a frame's length is its fixed part plus the digits of what it states |
| `ResponseFrame.FrameStates` | src/bounded_retrieval_contract.rs:3263-3267 | a frame is the envelope's text around the decimal numeral it states, and one newline |
| `ResponseFrame.ShortestFrame` | src/bounded_retrieval_contract.rs:3280-3297 | the least agreeing length is the length of the shortest frame that states its own length |
| `ResponseFrame.EncodeSuccess` | src/bounded_retrieval_contract.rs:3271-3298 | it succeeds exactly when some frame that states its own length fits the cap, returns the shortest one, and never runs out of attempts |
| `Lowercase.InRanges` | src/unicode16_lowercase.rs:10-22 | binary search over sorted disjoint ranges is membership |
| `Lowercase.IsFinalSigma` | src/unicode16_lowercase.rs:24-49 | true exactly when the nearest non-ignorable scalar before is cased and the nearest after is absent or not cased |
| `Lowercase.FinalSigmaMeans` | src/unicode16_lowercase.rs:24-49 | on texts: what comes before ends in a cased scalar up to ignorable ones, and what follows does not begin with one |
| `Lowercase.PushMapped` | src/unicode16_lowercase.rs:91-104 | a mapping is pushed exactly when the output stays within the cap |
| `Lowercase.LowercaseBounded` | src/unicode16_lowercase.rs:57-107 | unless a checkpoint stops it, it returns the declarative lowercase exactly when that fits the cap |
| `Lowercase.LowerMeans` | src/unicode16_lowercase.rs:57-107 | the lowercase is the one text that is cut, scalar by scalar, into U+03C2 for a final U+03A3, the table's mapping, or the scalar itself |
| `Transactions.NextIdIsFresh` | src/tx.rs:35-46 | a new transaction id is never a live session's |
| `Transactions.RunsAreSerial` | src/tx.rs:35-122 | in every interleaving the state is explained by the history since the last recovery, version by version |
| `Transactions.BaseIsSerial` | src/tx.rs:60-94 | the base graph is the committed edits applied one transaction after another in commit order |
| `Transactions.OneCommitPerVersion` | src/tx.rs:73-94 | at most one transaction begun on a version commits |
| `Transactions.LosersLeaveNoEffect` | src/tx.rs:60-111 | a transaction that never commits might as well not have edited |
| `Transactions.RefusedCommitDrops` | src/tx.rs:60-94 | in any run a commit that storage refuses leaves base and version as they were and drops the session |
| `Transactions.RefusalIsRollback` | src/tx.rs:60-111 | replacing such a commit by a rollback changes nothing in the run |
| `Transactions.TransactionManager.BeginTx` | src/tx.rs:35-46 | the begin step, with a fresh id |
| `Transactions.TransactionManager.CommitTx` | src/tx.rs:60-94 | the commit step; it succeeds exactly for a live session on the current version that storage accepts |
| `Transactions.TransactionManager.RollbackTx` | src/tx.rs:96-111 | the rollback step |
| `Transactions.TransactionManager.RecoverGraph` | src/tx.rs:117-122 | recovery replaces the graph, drops the sessions and starts a new version |

## Left out

- Allocation failures: every fallible reservation is taken to succeed; the guards before and after each reservation of a ranking request still read the clock.
- IEEE rounding, infinities and signed zeros: cost and order results hold over uninterpreted arithmetic, mass and contraction over reals, and the order check of the contract is compared with rankings over reals only.
- `hubFactor` (the reciprocal logarithm of the degree) is any function into (0, 1] in the mass results.
- SHA-256: the catalog's digests are represented by the bytes they digest, so collisions of the digest are not modelled.
- Library containers: hash maps are maps with an arbitrary iteration order, the binary heap's pop removes some greatest element, and `sort_by` is the stable sort.
- The 64-bit width of in-degree counters, transaction numbers and graph versions: degrees are bounded by the edge cap, the other two would need more than 2^64 calls.
- `SessionRemainder` and the remaining-budget getters of the deadline.
- Candidate search and fact expansion: the other two bounded operations reuse the accounting, heap and lookup proved here.
- Materialize.MaterializeAll: the length of an object's JSON encoding is a function of the object that the store supplies.
- PprKernel.ExecutePpr: request fields are already parsed into a plan; missing or ill-typed fields, which the source reports as client errors, are not modelled.
- Error texts of the retrieval runtime and the partial work reported with a failure; an `Explained` stop says that the clock has reached the deadline or that a counter would overflow.
- The cache maps that `ensure_cache` rebuilds, the WAL, batches, checkpoints, vector blob files and RPC dispatch around the delete.
- DeleteServer.Server.Apply: parameters and snapshot shape are validated by the caller in the source; the model tolerates every shape, as the source's apply step does.
- Facts that cite a removed passage without listing its document: the code leaves them untouched, so grounding is stated for facts whose passages belong to their source documents.
- Commutativity of deleting two documents: schema frequencies depend on the order when a shared fact loses all its passages.
- ContractSchema.Conforms: the delegated contracts are ranked by position so that references resolve; the shipped domain contract has no references among its entries.
- Parsing of the contract itself, its digests, its fixtures and the static expression walk; the declared fields of each opcode are a fixed table.
- ContractEval.Eval: numbers are exact reals, so the errors for values that are not finite are left out, except that of a maximum over nothing.
- `encode_error`: the same loop as `encode_success` over a different envelope.
- Equality of the Final_Sigma scan with the Unicode regular expression for scalars that are both cased and case-ignorable: the code skips them, and so does the specification.
- Durability: storage may refuse a commit, and a commit that returned an error may still be in its log; what recovery finds is an input.
- Queries, sockets, authorization, audit events, benchmarks and the SDKs.
