# Verified models of jubatus_core algorithms

A Dafny model of the self-contained algorithms and protocols of jubatus_core, with proofs of what they
promise. `dafny verify dfyconfig.toml` checks the whole project.

Code that updates state is a class or a method with loops, proved against a function of its inputs or of its
old state; what that function promises is proved beside it. Doubles are exact reals, counters are unbounded
integers, feature, label, arm, player and row names are numbers of which only equality (and, where the
program sorts, order) matters. Random draws are arbitrary valid choices. `exp`, `log` and `lgamma` are
given functions, `exp` positive; statements about probabilities ask for the laws of a logarithm and that
`lgamma` is the logarithm of the factorial.

## What is modelled

* **Burst detection.** `BurstEngine` is the two-state search over one window with its forced start state,
  branch cutting, reused prefix and copied state sequences; a path's cost is defined front to back over any
  sequence and the search is compared with all of them. `BurstLikelihood` shows that what a batch costs in a
  state is minus the logarithm of a binomial probability, so that `BurstEngine` can say what a call reports in
  terms of the documents alone. `BurstWindows` is the position arithmetic with the one
  percent tolerance, `BurstGrid` the deque of overlapping windows in whole batches, `BurstAggregator` the code
  on real positions, `BurstResults` the weights handed on from one window's result to the next.
* **Thread pool.** `ThreadPool` is a state machine whose steps are the critical sections; submitters, workers,
  spurious wake-ups, readers of futures and the destructor interleave freely.
* **Density clustering.** `DbscanSpec` and `Dbscan`: the state array and the frontier loops, against core
  points and chains of core points. `DbscanReport` says which components are reported. Clusters hold point
  indices.
* **k-means.** `SparseVectors` are the sorted merges, `Lloyd` the theory of one iteration in any inner product
  space, `KMeans` the loops. Distances are compared through their squares.
* **Coresets.** `Compressor` is the k-means compressor, `CarryCounter` counting in a base,
  `CompressiveStorage` the levels that are carried up like digits.
* **MIX.** `BanditStorage` and `BanditMix`, `ClusteringMix` and `LofMix`: diffs of any number of servers, folded
  and delivered by the mixer's loops, over whole runs. What the bandits answer is compared with the history of
  actions, what the outlier tables hold with the diffs delivered.
* **AROW.** `Arow` is the update with its covariances, `ArowMargins` what it does to margins for any feature
  vector, `ArowClassifier` the code on the weight table.
* **LRU cache.** `LruSpec` is the cache by order of last use and, independently, by time of last use.
  `LruMachine` adds where the head of the list points, in every state the code can get into, and `Lru` is the
  map into a doubly linked list of nodes, proved against that machine in all of them.

`Options` holds the type of a value that may be missing.

## Findings

* A search that starts in the burst state on a batch which is now cut has only infinite costs
  (engine.cpp:217-258) and reports base everywhere. `BurstEngine.CheapestIff` says exactly when the answer is the
  cheapest one: when the start is allowed, or when no run of uncut new batches is worth its switching cost.
  `BurstEngine.BlockedStartCanBeSuboptimal` is a call with three batches where neither holds.
* The question left open at kmeans_compressor.cpp:197 has the answer 1/2: every pass keeps at most half of the
  pool (`Compressor.FractionHalves`).
* The test `mine_[r].size() == get_mine().size()` at compressive_storage.cpp:138 never changes the outcome: when it
  holds, the next level is empty and both branches do the same.
* An expansion that lost its border points to an earlier one can be shorter than the minimum and is then not
  reported, core points included (dbscan.cpp:65). `DbscanReport.ReportedIff` says exactly which components are
  reported, `DbscanReport.CoreNotReported` and `DbscanReport.BatchOnLine` give seven points where one is not.
* An idle worker can stay blocked beside a queued task: a submission that starts a thread notifies nobody, and
  one that finds the queue non-empty does not either (thread_pool.hpp:90-101). `ThreadPool.SleeperIff` says
  exactly which step leads there, `ThreadPool.IdleBesideAQueue` gives a run. Some other worker always proceeds
  (`ThreadPool.WakeupsAreNotLost`).
* storage::mix of the clustering storages takes its end iterators before it inserts (storage.cpp:70-71). For the
  diffs of one entry that the servers offer this is harmless (`ClusteringMix.OneEntryMixes`);
  `ClusteringMix.MixedIff` says exactly for which sorted diffs it is.
* A value that a server computes between get_diff and put_diff of the outlier tables leaves no trace
  (`LofMix.LateValuesVanish`); only removals are carried over (`LofMix.RemovalIsNotLost`).
* AROW's step stays below margin 1 for distinct features, which jubatus/core/driver/classifier.cpp:63 provides. For
  any feature vector `ArowMargins.OvershootIff` says exactly when the step goes past 1;
  `ArowMargins.RepeatedFeatureOvershoots` is a vector where it does.
* Touching the only node of the cache loses the head of its list (lru.hpp:115-134). The list is whole throughout a
  run exactly when every hit finds at least two entries (`LruMachine.WholeIff`, `Lru.Drive`). After a lost head a
  cache of capacity 1 grows to two entries, an eviction takes the wrong node without moving `head_`, and the next
  test of the loop at capacity 1, or the next new key at capacity 2, reads a deleted node
  (`LruMachine.EvictingLostHead`, `LruMachine.LostHeadRuns`).

## Model

| member | source | states |
|---|---|---|
| `BurstEngine.CheapestIff` | jubatus/core/burst/engine.cpp:205-304 | For every window, emission costs and forced start: the answer of the search is cheapest among all sequences that are base on cut and empty batches if and only if the forced start is allowed or no run of uncut new batches is worth its switching cost. |
| `BurstEngine.AllBaseCheapest` | jubatus/core/burst/engine.cpp:205-304 | Reporting base everywhere is cheapest if and only if no run of uncut batches saves more in emissions than switching into burst costs. |
| `BurstEngine.KeptSequences` | jubatus/core/burst/engine.cpp:225-285 | After every batch each kept per-state sequence has one state per batch and ends in its own state, and its recorded cost is the cost of that sequence, or infinite when the forced start is blocked; with an allowed start no cut batch before the last is in burst. |
| `BurstEngine.SearchCostIsCost` | jubatus/core/burst/engine.cpp:241-270 | The cost built up batch by batch is the front-to-back cost of the sequence, or infinite exactly when a cut batch is left in burst. |
| `BurstEngine.FiniteIffStartAllowed` | jubatus/core/burst/engine.cpp:217-256 | The recorded cost of ending in base is finite if and only if the forced start state is allowed on the last reused batch. |
| `BurstEngine.BlockedStartIsAllBase` | jubatus/core/burst/engine.cpp:217-304 | When the forced burst start is cut, every new batch is reported as base. |
| `BurstEngine.BlockedStartCanBeSuboptimal` | jubatus/core/burst/engine.cpp:159-304 | A call, with 100, 0, 10 documents, 1, 0, 10 relevant ones, scaling 2 and two reused weights, whose all-base answer costs strictly more than bursting in the new batch. |
| `BurstEngine.ChosenIsAdmissible` | jubatus/core/burst/engine.cpp:241-304 | In all cases a cut or empty batch is never newly reported as burst. |
| `BurstEngine.KeptIsPrefix` | jubatus/core/burst/engine.cpp:151-155 | From a non-negative prefix followed by negative entries, erasing keeps exactly the prefix. |
| `BurstEngine.EraseUncalcBatches` | jubatus/core/burst/engine.cpp:151-155 | The erasing loop returns the entries that are not negative, in order. |
| `BurstEngine.RunSearch` | jubatus/core/burst/engine.cpp:207-304 | The loop over costs and copied sequences returns the sequence that the optimality results are about. |
| `BurstEngine.FillWeights` | jubatus/core/burst/engine.cpp:306-324 | Reused burst batches get their weight anew, reused base batches keep theirs, new burst batches get their weight and new base batches zero. |
| `BurstEngine.Detect` | jubatus/core/burst/engine.cpp:194-324 | Infinite weights when the burst rate exceeds 1, zeros when nothing is relevant, otherwise the weights of the chosen sequence, always after the reused prefix. |
| `BurstEngine.BurstDetect` | jubatus/core/burst/engine.cpp:159-325 | Rejects exactly the illegal arguments; otherwise returns one non-negative weight per batch, as Detect says. Told by the documents alone: if scaling times the share of relevant documents in the window is above 1, every new batch gets infinite weight. If it is below 1, a new batch whose own share is not above that of the window gets weight zero (so a flat window with nothing reused gets zeros only), and the weights are those of a most likely sequence of states: see DetectedIsReported. |
| `BurstEngine.DetectedIsReported` | jubatus/core/burst/engine.cpp:159-324 | With a burst rate below 1 and some relevant document: the new batches are reported in states that make the binomial probabilities of all batches, less the entry cost of each change into burst, most likely among all sequences that are base on empty batches and on those far less likely in burst; a burst batch gets the logarithm of how much more likely burst makes it, and all new batches are base after a reused burst batch that is now only base. |
| `BurstEngine.QuietBatches` | jubatus/core/burst/engine.cpp:78-94 | No new batch is ever reported whose share of relevant documents is not above that of the whole window. |
| `BurstEngine.HotBatches` | jubatus/core/burst/engine.cpp:194-203 | With a burst rate above 1 every new batch gets infinite weight. |
| `BurstLikelihood.SigmaIsSurprise` | jubatus/core/burst/engine.cpp:65-83 | With lgamma the logarithm of the factorial, the cost of a batch is minus the logarithm of the binomial probability of its relevant documents. |
| `BurstLikelihood.SigmaRises` | jubatus/core/burst/engine.cpp:78-83 | The cost of a batch does not fall when the rate moves away from the share of its relevant documents. |
| `BurstLikelihood.SigmaLeastAtShare` | jubatus/core/burst/engine.cpp:78-83 | Of all rates the share of relevant documents costs a batch least. |
| `BurstWindows.GridIndex` | jubatus/core/burst/input_window.hpp:61-72 | For windows on the grid an index is a difference of grid batches, and the index test agrees with the position test, as the asserts there demand. |
| `BurstWindows.BoundaryIff` | jubatus/core/burst/window_intersection.hpp:73-80 | On the grid or not: a position is taken for the k-th boundary of a window if and only if it is closer to it than one percent of a batch. |
| `BurstWindows.GridIntersection` | jubatus/core/burst/window_intersection.hpp:58-105 | For windows on one grid the tolerance collapses to equality: the intersection is the clipped range of common batches. |
| `BurstGrid.WindowsAreExact` | jubatus/core/burst/aggregator.cpp:39-64 | In every reachable state each stored window holds for each batch exactly the sum of all documents accepted there. |
| `BurstGrid.WindowsAgree` | jubatus/core/burst/aggregator.cpp:114-134 | In every reachable state two stored windows that cover the same batch are neighbours and hold equal counts for it. |
| `BurstGrid.AddReachesAll` | jubatus/core/burst/aggregator.cpp:54-63 | Although the loop stops at the first refusal, every stored window that contains the position is counted up, and no other changes. |
| `BurstGrid.ErasedWindowsAreFinal` | jubatus/core/burst/aggregator.cpp:88-103 | Whatever follows a flush, nothing is ever accepted again for a batch of an erased window. |
| `BurstGrid.NewestAreStored` | jubatus/core/burst/aggregator.cpp:39-103 | After every run the stored windows are the newest of all that were opened, each half a window before a document past the newest window; an older one is missing only if as many newer ones as fit were opened since or if it shares no batch with the newest. |
| `BurstGrid.StoredUpToLimit` | jubatus/core/burst/aggregator.cpp:42-52 | Without a flush exactly as many windows are stored as were opened, up to the limit. |
| `BurstGrid.FlushErases` | jubatus/core/burst/aggregator.cpp:88-101 | A flush erases exactly the windows that share no batch with the newest one. |
| `BurstGrid.PrunedInv` | jubatus/core/burst/aggregator.cpp:88-101 | Erasing keeps a non-empty prefix of the deque and the invariant, and erases only windows that end before the newest one begins. |
| `BurstGrid.StepInv` | jubatus/core/burst/aggregator.cpp:39-103 | Adding and flushing keep the spacing, the bound on stored windows and the exact counts. |
| `BurstAggregator.NewStartOnGrid` | jubatus/core/burst/aggregator.cpp:115-119 | A new window starts on the grid, half a window before the batch of the position. |
| `BurstAggregator.MakeNewWindow` | jubatus/core/burst/aggregator.cpp:114-134 | The new window agrees with the previous one on every common batch and is zero elsewhere. |
| `BurstAggregator.Aggregator.OpenFor` | jubatus/core/burst/aggregator.cpp:42-52 | A window is opened exactly for a position past the newest one; only the oldest windows beyond the limit are dropped. |
| `BurstAggregator.AddToWindow` | jubatus/core/burst/input_window.hpp:137-147 | Adds to the batch of the position, and refuses exactly the positions outside the window. |
| `BurstAggregator.Aggregator.AddToWindows` | jubatus/core/burst/aggregator.cpp:54-63 | The loop changes the stored windows as in whole batches and reports whether the newest one took the document. |
| `BurstAggregator.Aggregator.AddDocument` | jubatus/core/burst/aggregator.cpp:39-64 | On real positions the deque behaves step by step like the windows of whole batches; the document is logged exactly when it is accepted. |
| `BurstAggregator.Aggregator.EraseFinished` | jubatus/core/burst/aggregator.cpp:88-103 | The erasing loop ends, never empties a non-empty deque, and returns how many of the oldest windows it erased. |
| `BurstResults.HandOn` | jubatus/core/burst/burst_result.cpp:60-84 | The weight vector starts with the reusable weights of the previous result, at most the allowed number, and holds -1 elsewhere. |
| `BurstResults.ReuseIsPositional` | jubatus/core/burst/burst_result.cpp:72-84 | What is handed on: for every batch within the limit that the previous result, which starts no later, has too, its weight for the same batch of the grid; -1 for every other batch. |
| `BurstResults.ReuseOnGrid` | jubatus/core/burst/burst_result.cpp:72-84 | As many batches are reused as are within the limit and in the previous result, if that starts no later than the window, and none otherwise. |
| `BurstResults.HandedOnPrefix` | jubatus/core/burst/burst_result.cpp:66-84 | What is handed on is a non-negative prefix followed by -1 entries, so the search keeps exactly the reused weights. |
| `BurstResults.MakeResult` | jubatus/core/burst/burst_result.cpp:49-92 | A result carries the counts of its input and the weights that the search assigns after the reused prefix, all calculated. |
| `BurstResults.MakeResults` | jubatus/core/burst/aggregator.cpp:78-86 | Over the stored windows, oldest first, each result continues the one before it; the loop fails only at a window whose counts the search rejects. |
| `BurstResults.ChainReusesSameBatch` | jubatus/core/burst/burst_result.cpp:60-84 | For the windows of a reachable aggregator state, anywhere in the chain of results: a batch is reused if and only if it is within the limit and the result before, starting no later, has it, and then with the weight there of the same batch of the grid. |
| `ThreadPool.WakeupsAreNotLost` | jubatus/core/common/thread_pool.hpp:82-138 | In every interleaving, while a task is queued some worker is not blocked and its next step is enabled. |
| `ThreadPool.SleeperIff` | jubatus/core/common/thread_pool.hpp:82-138 | If no worker is blocked beside a queued task, a step keeps it so unless and only unless it is a submission that starts a thread, with an empty queue, while some worker is blocked. |
| `ThreadPool.NobodySleepsFromStart` | jubatus/core/common/thread_pool.hpp:82-138 | In every run: no worker is ever blocked beside a queued task, in any state of the run, if and only if the run has no such submission. |
| `ThreadPool.IdleBesideAQueue` | jubatus/core/common/thread_pool.hpp:82-103 | A run of a pool of capacity 3 after which two workers are blocked, one is running and a task is queued. |
| `ThreadPool.SubmissionOrder` | jubatus/core/common/thread_pool.hpp:90-132 | With at least one worker allowed, over every run the tasks handed out followed by the queue are all submitted tasks, once each, in order. |
| `ThreadPool.GetReturnsTheResult` | jubatus/core/common/thread_pool.hpp:51-66 | A get returns only the value its function produced, and never blocks on a finished future. |
| `ThreadPool.ExitsOnlyWhenDrained` | jubatus/core/common/thread_pool.cpp:47-62 | A worker returns only after shutdown and with an empty queue. |
| `ThreadPool.DestructorRunsEverything` | jubatus/core/common/thread_pool.cpp:35-45 | When all joins have returned, every submitted task has run and published its own result. |
| `ThreadPool.ShutdownDrains` | jubatus/core/common/thread_pool.cpp:35-62 | In every run after shutdown, with joins and readers in between, the workers make at most a number of steps known from the state at the start; they have no step left only when all have returned, nothing is queued and every task is finished. |
| `ThreadPool.RestMeansDone` | jubatus/core/common/thread_pool.cpp:47-62 | In every run, with or without shutdown: when no worker has a step left, nothing is queued and every submitted task is finished with the value its function produced. |
| `ThreadPool.StepInv` | jubatus/core/common/thread_pool.hpp:82-138 | Every step of every thread keeps the whole invariant: wake-ups, queue order, one owner per task, published values, readers. |
| `Dbscan.Dbscan.Batch` | jubatus/core/clustering/dbscan.cpp:55-69 | Afterwards a point is classified if and only if it is core or within eps of a core point, and noise otherwise. The expansions partition the classified points; their starts ascend, each is the least core point of its expansion, and a point is in the expansion of the first start that gathers it. The reported clusters are the expansions of at least the minimum size. |
| `Dbscan.Dbscan.ExpandCluster` | jubatus/core/clustering/dbscan.cpp:84-123 | The do-while ends; a core point yields a cluster without repetition of newly classified points that closes the classified ones under regions of core points, another point becomes noise. |
| `Dbscan.Dbscan.ExpandFrontier` | jubatus/core/clustering/dbscan.cpp:93-120 | One pass classifies gathered points only, loses no pending point, and adds to the frontier only if some point was newly classified. |
| `Dbscan.Dbscan.ExpandNeighbours` | jubatus/core/clustering/dbscan.cpp:102-117 | Every neighbour of a core point is classified, appended, or put on the next frontier. |
| `Dbscan.Dbscan.RegionQuery` | jubatus/core/clustering/dbscan.cpp:125-134 | Returns the indices closer than eps, in order. |
| `DbscanSpec.InRegion` | jubatus/core/clustering/dbscan.cpp:125-134 | An index is in a region if and only if its distance is below eps. |
| `DbscanSpec.FinishedCluster` | jubatus/core/clustering/dbscan.cpp:84-123 | A finished expansion holds exactly the core points that a chain of core points links to its start. |
| `Dbscan.FinishedStates` | jubatus/core/clustering/dbscan.cpp:55-69 | The final states do not depend on the order: classified exactly for points core or near a core point. |
| `Dbscan.SameExpansionIffLinked` | jubatus/core/clustering/dbscan.cpp:84-123 | Two core points are gathered by the same expansion if and only if a chain of core points with steps below eps links them. |
| `Dbscan.MinimumOneGivesComponents` | jubatus/core/clustering/dbscan.cpp:55-69 | With a minimum of one the reported clusters are exactly the connected components of the eps graph. |
| `DbscanReport.ReportedIff` | jubatus/core/clustering/dbscan.cpp:55-69 | The component of a least core point is reported if and only if at least the minimum of points are gathered from it and from no component with a smaller least core point; under the same condition each of those points is in a reported cluster. |
| `DbscanReport.ExpansionIsOwned` | jubatus/core/clustering/dbscan.cpp:55-123 | With a symmetric distance an expansion is exactly the set of points gathered from its start and from no component with a smaller least core point. |
| `DbscanReport.StartIsLeast` | jubatus/core/clustering/dbscan.cpp:58-68 | Every expansion starts at the least core point of its component. |
| `DbscanReport.LeastIsStart` | jubatus/core/clustering/dbscan.cpp:58-68 | The least core point of every component starts an expansion. |
| `DbscanReport.CoreNotReported` | jubatus/core/clustering/dbscan.cpp:65-67 | Seven points on a line, eps 1 and minimum 4: point 4 is core and classified and in no reported cluster. |
| `DbscanReport.BatchOnLine` | jubatus/core/clustering/dbscan.cpp:55-69 | The batch over these seven points leaves the core point 4 out of its clusters. |
| `SparseVectors.ScalarMulAndAdd` | jubatus/core/clustering/util.cpp:67-92 | The in-place merge gives right + s * left as a merge of sorted entries. |
| `SparseVectors.AtMulAdd` | jubatus/core/clustering/util.cpp:67-92 | Key by key that merge adds s times the left value to the right value. |
| `SparseVectors.MulAddSorted` | jubatus/core/clustering/util.cpp:67-92 | Sorted vectors stay sorted. |
| `SparseVectors.ScalarDot` | jubatus/core/clustering/util.cpp:156-162 | Scales every entry. |
| `SparseVectors.EuclidDistSquared` | jubatus/core/clustering/util.cpp:165-188 | The three loops compute the squared distance of the merged vectors, before the root. |
| `SparseVectors.SqDistIsDot` | jubatus/core/clustering/util.cpp:165-188 | That squared distance is the one of the inner product. |
| `SparseVectors.SqDistIsSum` | jubatus/core/clustering/util.cpp:165-188 | The merge adds up, feature by feature, the squared differences of the values. |
| `KMeans.SparseIsEuclidean` | jubatus/core/clustering/util.cpp:67-190 | The operations on sorted sparse vectors satisfy the laws of an inner product space. |
| `KMeans.MinDist` | jubatus/core/clustering/util.cpp:228-244 | Returns the first closest center. |
| `Lloyd.NearestIsClosest` | jubatus/core/clustering/util.cpp:228-244 | No center is closer than the returned one, and every earlier one is further. |
| `Lloyd.MeanSaves` | jubatus/core/clustering/kmeans_clustering_method.cpp:113-123 | Moving a center to the mean of its points lowers their weighted squared distances by exactly its weight times the squared move. |
| `Lloyd.MeanIsBest` | jubatus/core/clustering/kmeans_clustering_method.cpp:113-123 | For a cluster with a positive weight any other vector costs its points the weight times the squared distance from the new center more. |
| `Lloyd.NewCenterServes` | jubatus/core/clustering/kmeans_clustering_method.cpp:113-123 | The new center of a cluster with such a point is a vector that no other one serves better; the center of any other cluster stays. |
| `KMeans.NewCenterIsMean` | jubatus/core/clustering/kmeans_clustering_method.cpp:105-123 | In every feature the new center is the weighted mean of the points closest to the old one. |
| `Lloyd.IterationLowersObjective` | jubatus/core/clustering/kmeans_clustering_method.cpp:104-125 | An iteration never raises the weighted squared-distance objective, and one that does not stop lowers it by at least the least positive weight times 1e-18 (one of the weights, if any is positive, and none that is positive is less). |
| `KMeans.Accumulate` | jubatus/core/clustering/kmeans_clustering_method.cpp:105-111 | The loop over the points leaves in every cluster the weighted sum and the weight of the points closest to its center. |
| `KMeans.Iterate` | jubatus/core/clustering/kmeans_clustering_method.cpp:105-124 | One pass: in every feature a center with points becomes their weighted mean, and no other vector has a smaller sum of weighted squared distances from them; a center without weight stays; the pass stops exactly if no center moved further than 1e-9. |
| `KMeans.KMeansClustering.InitializeCenters` | jubatus/core/clustering/kmeans_clustering_method.cpp:81-97 | With at least k points there are k centers, all of them points and the first one the first point; otherwise nothing changes. |
| `KMeans.KMeansClustering.DoBatchUpdate` | jubatus/core/clustering/kmeans_clustering_method.cpp:99-126 | The unbounded loop ends for every input with non-negative weights, with an objective no larger than at the start, at centers that are the means, and so the minimisers, of the points closest to centers no further than the tolerance from them. |
| `KMeans.KMeansClustering.BatchUpdate` | jubatus/core/clustering/kmeans_clustering_method.cpp:72-79 | No points clear the centers, fewer than k leave them, otherwise there are k settled centers: means of an iteration that moved none of them further than the tolerance. |
| `KMeans.KMeansClustering.GetClusters` | jubatus/core/clustering/kmeans_clustering_method.cpp:162-174 | Refuses before any clustering; otherwise every occurrence of a point lies in exactly one cluster, that of its first closest center. |
| `Compressor.Compress` | jubatus/core/clustering/kmeans_compressor.cpp:139-159 | Into an empty destination: small inputs are copied. Otherwise exactly dstsize points come out: rough centers found pass by pass, the samples that they leave room for, and balances at the centers; the total is the source weight before negative weights become zero, which changes nothing else, and never less after. Each point is a source point up to its weight. |
| `Compressor.GetBicriteria` | jubatus/core/clustering/kmeans_compressor.cpp:161-206 | Ends for every input. Pass by pass at most bsize distinct points of the pool, no more than in the pass before, join the rough centers and the pool shrinks to its r-th part, at least one point, none of them closer to the rough centers than a dropped one, until the pool or the room is used up. Returns source points, fewer than dstsize + bsize, and at least one if there is more than one source point and dstsize is at least 1. |
| `Compressor.SmallestScoreIsFurthest` | jubatus/core/clustering/kmeans_compressor.cpp:190-204 | The points kept by the negated scores are those furthest from their closest rough center. |
| `Compressor.FractionHalves` | jubatus/core/clustering/kmeans_compressor.cpp:169-202 | The fraction lies between 0.1 and 0.5, so every pass keeps at least one and at most half of the pool. |
| `Compressor.DrawDistinct` | jubatus/core/clustering/kmeans_compressor.cpp:180-185 | Drawing, sorting and removing repetitions gives ascending valid indices, at least one and no more than drawn. |
| `Compressor.PartialSort` | jubatus/core/clustering/kmeans_compressor.cpp:70-73 | The kept pairs are the smallest, in ascending order, and neither a pair nor a point is lost. |
| `Compressor.PartialSortBy` | jubatus/core/clustering/kmeans_compressor.cpp:55-78 | The pool is split into the points with the smallest scores and the others. |
| `Compressor.Measure` | jubatus/core/clustering/kmeans_compressor.cpp:228-242 | The loop computes the weight sum, the squared distances to the rough centers and their weighted sum. |
| `Compressor.Probabilities` | jubatus/core/clustering/kmeans_compressor.cpp:245-257 | The sampling weights are those of the formula, all at least 1, with their sum. |
| `Compressor.ProbabilityAtLeastOne` | jubatus/core/clustering/kmeans_compressor.cpp:208-217 | A sampling weight is a whole number, between one and two above the weight sum times the share of the point in the weighted squared distances; so it is never below 1 and no point is impossible to draw. |
| `Compressor.BicriteriaToCoreset` | jubatus/core/clustering/kmeans_compressor.cpp:219-271 | Returns the wanted number of samples, each a source point whose weight, times its sampling weight and the number of samples, is its old weight times the sum of the sampling weights; the source itself without rough centers. |
| `Compressor.SamplingIsUnbiased` | jubatus/core/clustering/kmeans_compressor.cpp:259-270 | If every point is drawn with its share of the sampling weights, the expected weight of one sample times the number of samples is the total weight of the source. |
| `Compressor.Attribute` | jubatus/core/clustering/kmeans_compressor.cpp:95-102 | Every center gains or loses exactly the weight of the points closest to it, and so the total changes by the total of the points. |
| `Compressor.BicriteriaAsCoreset` | jubatus/core/clustering/kmeans_compressor.cpp:80-109 | The samples stay; each rough center gets the weight of the source points closest to it less that of the samples closest to it; together this is the source weight, before negative weights become zero. |
| `Compressor.ClampNeverLess` | jubatus/core/clustering/kmeans_compressor.cpp:104-108 | Clamping turns negative weights into zero and keeps all others and all data; it never lowers the total. |
| `Compressor.MinDist` | jubatus/core/clustering/util.cpp:246-261 | Returns the first closest point and its distance. |
| `CarryCounter.DigitOf` | jubatus/core/clustering/util.cpp:42-50 | The dividing loop returns the digit. |
| `CarryCounter.CarryOn` | jubatus/core/clustering/compressive_storage.cpp:126-157 | A carry passes a digit exactly when it is full, leaving zero; otherwise it raises it by one and changes nothing above; the number above gets smaller. |
| `CarryCounter.StopIsFirst` | jubatus/core/clustering/compressive_storage.cpp:126-157 | A carry stops at the first digit, from where it began, that is not full. |
| `CarryCounter.DigitsAfterCarry` | jubatus/core/clustering/compressive_storage.cpp:126-157 | Adding one makes a new digit exactly when the carry stops beyond the last one. |
| `CarryCounter.DigitsAreLogarithm` | jubatus/core/clustering/compressive_storage.cpp:131-157 | The number of levels is logarithmic: the counter lies between two neighbouring powers of bucket_length. |
| `CompressiveStorage.RoomIsProduct` | jubatus/core/clustering/compressive_storage.cpp:151-154 | The room of a level is its digit times the chunk size. |
| `CompressiveStorage.ConcatSizes` | jubatus/core/clustering/compressive_storage.cpp:137-138 | If one level has as many points as all together, the others are empty. |
| `CompressiveStorage.ForgetTotal` | jubatus/core/clustering/compressive_storage.cpp:109-115 | Forgetting multiplies the total weight of a level by the factor. |
| `CompressiveStorage.LandedTotal` | jubatus/core/clustering/compressive_storage.cpp:131-144 | Where a carry stops, its weight arrives discounted once more, on top of what was there unless that is forgotten. |
| `CompressiveStorage.CarriedFits` | jubatus/core/clustering/compressive_storage.cpp:131-157 | After a carry that stops at a digit with room, the levels fit the incremented counter. |
| `CompressiveStorage.CompressiveStorage.Add` | jubatus/core/clustering/compressive_storage.cpp:85-98 | Keeps the invariant: one level more than the counter has digits, level 0 below bucket_size, and level r+1 with exactly as many chunks of Unit points as digit r says, or with the last of them only from the forgetting threshold on; so level 1 holds digit 0 times compressed_bucket_size points unless it is forgotten. A full bucket counts up by one and is carried to the first digit with room: compressed_bucket_size points leave level 0, at each level passed they are merged and compressed, the levels in between end empty, those above are untouched, and the discounted weight gathered on the way arrives. Every stored point carries data that was added. |
| `CompressiveStorage.ExactCarry` | jubatus/core/clustering/compressive_storage.cpp:85-157 | A carry leaves every level above the first with exactly its digit of the incremented counter in chunks, or with the last chunk only if its old points are dropped. |
| `CompressiveStorage.TakenIsUnit` | jubatus/core/clustering/compressive_storage.cpp:145-155 | Through full digits a carry takes exactly one chunk of the next size on. |
| `CompressiveStorage.UnitIsQuadratic` | jubatus/core/clustering/compressive_storage.cpp:88-92 | The chunks that leave the first two levels are of compressed_bucket_size points; with at least four buckets to a level those that leave a higher level r are of 2 (r - 1)^2 times as many, as far up as no level is forgotten. |
| `CompressiveStorage.CompressiveStorage.CompressTo` | jubatus/core/clustering/compressive_storage.cpp:88-92 | Returns exactly the smaller of the number of points and the wanted size, without losing weight. |
| `CompressiveStorage.Push` | jubatus/core/clustering/clustering.cpp:75-82 | However many points are pushed: without discount and with no level past the threshold, the stored total grows by at least the weight of all of them, so it never falls below everything added. |
| `CompressiveStorage.CarryKeepsTotal` | jubatus/core/clustering/compressive_storage.cpp:131-157 | Without discount and with no level past the threshold, a carry leaves at least as much weight in all levels together. |
| `CompressiveStorage.CompressiveStorage.CarryUp` | jubatus/core/clustering/compressive_storage.cpp:131-157 | The recursion ends because the counter without its last r digits gets smaller, and has the effect described for Add. |
| `CompressiveStorage.CompressiveStorage.MoveUp` | jubatus/core/clustering/compressive_storage.cpp:136-144 | A level with room takes the discounted points of the one below, dropping its own from the forgetting threshold on. |
| `CompressiveStorage.CompressiveStorage.MergeUp` | jubatus/core/clustering/compressive_storage.cpp:145-155 | A full level is compressed together with the one below to exactly a chunk of the next level, or to all their points if they are fewer, without losing weight. |
| `CompressiveStorage.CompressiveStorage.GetMine` | jubatus/core/clustering/compressive_storage.cpp:100-107 | All levels, one after the other. |
| `BanditMix.NothingLostOrDoubled` | jubatus/core/bandit/summation_storage.cpp:122-262 | Over every run on any number of servers, of either kind, all mixed tables agree, and a mixed table plus all unmixed tables is, cell by cell, what the history of actions says: since the arm was last dropped, one trial for every accepted selection at a server that assumes unrewarded arms and for every accepted reward at any other, and the sum of all accepted rewards. |
| `BanditMix.ServerAnswersWhatItKnows` | jubatus/core/bandit/summation_storage.cpp:184-194 | After every run a server answers for each player and arm with the trials and rewards of the history up to the last round, at all servers, and with its own after it. |
| `BanditMix.RoundGivesGlobalTotals` | jubatus/core/bandit/summation_storage.cpp:184-194 | Right after a round every server answers with all trials and rewards of the history since the arm was last dropped. |
| `BanditMix.CountsAreSums` | jubatus/core/bandit/summation_storage.cpp:46-58 | Over every run the stored count of every player is the sum of its trial counts, in both tables. |
| `BanditMix.FoldAdds` | jubatus/core/bandit/summation_storage.cpp:246-262 | Folding the diffs adds up all unmixed tables, cell by cell. |
| `BanditMix.StepInv` | jubatus/core/bandit/summation_storage.cpp:31-262 | Arm changes on all servers, rewards, selections and rounds keep the whole invariant, the agreement with the history included. |
| `BanditMix.RunMix` | jubatus/core/common/portable_mixer.hpp:55-72 | The loops of the mixer over storage objects fold the unmixed tables of all and put the result into each. |
| `BanditStorage.InfoOfMix` | jubatus/core/bandit/summation_storage.cpp:246-262 | Mixing adds two tables cell by cell, absent cells counting as zero. |
| `BanditStorage.MixCounted` | jubatus/core/bandit/summation_storage.cpp:246-262 | Mixing keeps the stored counts equal to the sums of the trial counts. |
| `BanditStorage.DeleteCounted` | jubatus/core/bandit/summation_storage.cpp:47-58 | Deleting an arm lowers the stored counts by exactly its trials. |
| `BanditStorage.RecordCounted` | jubatus/core/bandit/summation_storage.cpp:135-161 | Rewards and selections keep the stored counts exact. |
| `BanditStorage.Mix` | jubatus/core/bandit/summation_storage.cpp:246-262 | The nested loops mix one table into another. |
| `BanditStorage.DeleteArmFrom` | jubatus/core/bandit/summation_storage.cpp:47-58 | The loop removes the arm and its trials from every player. |
| `BanditStorage.SummationStorage.Register` | jubatus/core/bandit/summation_storage.cpp:31-44 | A new arm is listed and inserted for all unmixed players; a known arm changes nothing. |
| `BanditStorage.SummationStorage.Delete` | jubatus/core/bandit/summation_storage.cpp:122-133 | The arm leaves both tables and the list; the result says whether it was listed. |
| `BanditStorage.SummationStorage.Selected` | jubatus/core/bandit/summation_storage.cpp:135-146 | If unrewarded selections are assumed, the answer for that player and arm has one trial more and every other is as before; nothing changes otherwise. Fails exactly for an arm the player does not have, after entering the player. |
| `BanditStorage.SummationStorage.Reward` | jubatus/core/bandit/summation_storage.cpp:148-161 | The answer for that player and arm gains the reward, and a trial unless selections count them; every other is as before. Fails exactly for an arm the player does not have. |
| `BanditStorage.SummationStorage.Put` | jubatus/core/bandit/summation_storage.cpp:240-244 | Mixes the diff into the mixed table and clears the unmixed one. |
| `ClusteringMix.RoundGivesUnion` | jubatus/core/clustering/storage.cpp:33-67 | After a round every server sees the coreset points of all servers, each exactly as often as they occur, whatever earlier rounds left. |
| `ClusteringMix.SeesOwnAndOffered` | jubatus/core/clustering/storage.cpp:33-67 | Over every run with changing coresets, a server sees its own present points and the others as offered in the last round. |
| `ClusteringMix.FoldOrderIrrelevant` | jubatus/core/clustering/storage.cpp:69-86 | For distinct names the folded diff is sorted and the same for every fold order. |
| `ClusteringMix.FoldNames` | jubatus/core/clustering/storage.cpp:69-86 | The folded diff is sorted, names each server once and nobody else. |
| `ClusteringMix.FoldHeld` | jubatus/core/clustering/storage.cpp:69-86 | Under the name of a server the folded diff holds its own coreset. |
| `ClusteringMix.Canonical` | jubatus/core/clustering/storage.cpp:69-86 | A sorted diff is determined by its names and what it holds under them. |
| `ClusteringMix.InsertHeld` | jubatus/core/clustering/storage.cpp:73-82 | Mixing an entry in appends its points under its name and leaves all other names alone. |
| `ClusteringMix.Mix` | jubatus/core/clustering/storage.cpp:69-86 | For any two diffs the iterator loop computes the mixed diff, or reports that the loop test would read an end iterator which an insertion has invalidated. |
| `ClusteringMix.OneEntryMixes` | jubatus/core/clustering/storage.cpp:49-53 | A diff of one entry, as get_diff gives it, is always mixed, by insertion at its place. |
| `ClusteringMix.MixedIff` | jubatus/core/clustering/storage.cpp:69-86 | Mixing sorted diffs is defined if and only if every entry of the left one but the last has a name of the right one or is above all of them. |
| `ClusteringMix.MixMerges` | jubatus/core/clustering/storage.cpp:69-86 | Where it is defined, mixing sorted diffs gives a sorted diff with the names of both, holding under each name what both hold. |
| `ClusteringMix.RunMix` | jubatus/core/common/portable_mixer.hpp:55-72 | The loops of the mixer over storage objects leave every server with the folded diff, less its own entry. |
| `ClusteringMix.Storage.PutDiff` | jubatus/core/clustering/storage.cpp:55-67 | Keeps exactly the entries of other servers and counts the revision up. |
| `ClusteringMix.Storage.GetAll` | jubatus/core/clustering/storage.cpp:33-47 | The own points followed by the common ones. |
| `LofMix.FoldTombstones` | jubatus/core/anomaly/lof_storage.cpp:368-376 | The folded diff removes a row if and only if some diff does, and has exactly the rows of all diffs. |
| `LofMix.FoldTakesFirst` | jubatus/core/anomaly/lof_storage.cpp:368-376 | A row that nobody removes gets its entry from the first diff that has it. |
| `LofMix.FoldOrder` | jubatus/core/anomaly/lof_storage.cpp:368-376 | The fold order changes neither which rows are removed nor which rows a master table ends up with. |
| `LofMix.MastersStayEqual` | jubatus/core/anomaly/lof_storage.cpp:319-337 | Over every run equal master tables stay equal. |
| `LofMix.MasterIsLastWord` | jubatus/core/anomaly/lof_storage.cpp:319-337 | Over every run and at every server the master table has for each row what the last delivered diff with that row said, an entry or its removal, or what it had at first. |
| `LofMix.AnswersAfterDelivery` | jubatus/core/anomaly/lof_storage.cpp:258-290 | Right after a delivery both reads answer from the master table, an absent row as missing, and a row that still has to be removed as recently removed. |
| `LofMix.RoundSpreads` | jubatus/core/anomaly/lof_storage.cpp:311-337 | If nobody has removed a row when the diffs are collected, every server answers after the delivery what the first server with a value for it answered then, unless it has removed the row since. |
| `LofMix.RemovalIsNotLost` | jubatus/core/anomaly/lof_storage.cpp:339-363 | A removal waits at its server through any number of deliveries until one of them takes the row from every master table; only a new value there cancels it. |
| `LofMix.LateValuesVanish` | jubatus/core/anomaly/lof_storage.cpp:319-366 | Values computed anywhere between get_diff and put_diff leave no trace: the delivery gives the same state without them. |
| `LofMix.ServersAnswerAlike` | jubatus/core/anomaly/lof_storage.cpp:258-273 | After every delivery of every run, any two servers with equal masters at the start give the same answer for every row that neither of them still has to remove. |
| `LofMix.RoundRemoves` | jubatus/core/anomaly/lof_storage.cpp:319-337 | A row removed at any server when the diffs are collected is absent from every master table after the delivery, whatever happens in between. |
| `LofMix.Mix` | jubatus/core/anomaly/lof_storage.cpp:368-376 | The loop lets removals win and otherwise keeps the entry that is there. |
| `LofMix.LofStorage.Put` | jubatus/core/anomaly/lof_storage.cpp:319-366 | The three loops of put_diff: a row of the mixed diff is removed or taken over, every other row of the master table keeps its presence and its entry, and of the local diff only the removals stay that the mixed diff does not know. |
| `LofMix.LofStorage.LateRemovals` | jubatus/core/anomaly/lof_storage.cpp:340-354 | Finds exactly the rows removed locally but not by the mixed diff. |
| `LofMix.LofStorage.Remove` | jubatus/core/anomaly/lof_storage.cpp:143-146 | From then on both reads answer the row as recently removed, the master table is untouched and all other rows are answered as before. |
| `LofMix.LofStorage.UpdateKdist` | jubatus/core/anomaly/lof_storage.cpp:475-481 | With neighbours the distance of the last one is what get_kdist answers from then on; the master table and all other rows are untouched. |
| `LofMix.LofStorage.UpdateLrd` | jubatus/core/anomaly/lof_storage.cpp:495-515 | The density, 1 for a row alone and otherwise the number of neighbours that count divided by their reachability distances and 1e-15, is what get_lrd answers from then on unless the row is removed. Fails, changing nothing, exactly if the distance of such a neighbour cannot be read. get_kdist of a changed row and all other rows are untouched. |
| `LofMix.LofStorage.Kdist` | jubatus/core/anomaly/lof_storage.cpp:258-273 | Looks in the diff first and then in the master table; a removed or missing row is an error. |
| `LofMix.LofStorage.Lrd` | jubatus/core/anomaly/lof_storage.cpp:275-290 | The same for the density. |
| `LofMix.CollectDiffs` | jubatus/core/common/portable_mixer.hpp:60-67 | The first loop of the mixer folds the diffs of all storages. |
| `LofMix.DeliverDiff` | jubatus/core/common/portable_mixer.hpp:69-71 | The second loop delivers the folded diff to every storage: rows it has are removed or taken over, all others stay as they were. |
| `Arow.RunCovars` | jubatus/core/classifier/arow.cpp:49-101 | Over every training run all covariances stay in (0, 1] and none ever rises. |
| `Arow.UpdateCovars` | jubatus/core/classifier/arow.cpp:68-101 | The updates of one example, repeated features or not, keep each covariance positive and never raise it. |
| `ArowMargins.StepTowardsOne` | jubatus/core/classifier/arow.cpp:55-65 | With distinct features and a rival, 1 - margin is divided by 1 + C * variance; the margin grows and stays below 1. |
| `ArowMargins.NewRivalMargin` | jubatus/core/classifier/arow.cpp:49-66 | With distinct features also the margin against the rival found anew after the step has not fallen and is below 1. |
| `ArowMargins.StepWithoutRival` | jubatus/core/classifier/arow.cpp:55-65 | Without a rival the margin grows too and stays below 1: the variance counts a covariance of 1 for the missing rival, so of the distance to 1 the step covers the part of the label, out of that part, the squared length of the vector and 1/C together. |
| `ArowMargins.EntriesMove` | jubatus/core/classifier/arow.cpp:68-101 | With distinct features each entry of the label and of the rival moves by the share that its own term has in variance + 1/C: the weight up or down by that share of the distance to margin 1, the covariance towards zero. |
| `ArowMargins.OthersStay` | jubatus/core/classifier/arow.cpp:68-101 | A step changes no entry of another label or of a feature that the example does not have. |
| `ArowMargins.PartAloneMakesVariance` | jubatus/core/classifier/linear_classifier.cpp:187-205 | Without a rival the variance is the part of the label and the squared length of the vector. |
| `ArowMargins.OvershootIff` | jubatus/core/classifier/arow.cpp:49-101 | For every feature vector, repeated features or not: the step takes the margin past 1 if and only if the reach of the update is greater than variance + 1/C. |
| `ArowMargins.ReachOfFeature` | jubatus/core/classifier/arow.cpp:75-99 | The reach of an update is, feature by feature, what the shrinking covariances let the weight move times the sum of the values of the feature. |
| `ArowMargins.RepeatedFeatureOvershoots` | jubatus/core/classifier/arow.cpp:75-99 | A concrete example with a repeated feature whose margin goes from 0 to 1.44. |
| `ArowMargins.MarginMoves` | jubatus/core/classifier/arow.cpp:75-99 | For every feature vector an update moves the margin by exactly alpha times its reach over both labels. |
| `ArowMargins.PartsMakeVariance` | jubatus/core/classifier/linear_classifier.cpp:187-205 | The variance is the sum of the parts of the two labels. |
| `Arow.RivalIsOther` | jubatus/core/classifier/linear_classifier.cpp:142-160 | The rival is another label with the largest score, and none only if there is no other label. |
| `ArowClassifier.Inp` | jubatus/core/storage/local_storage.cpp:96-127 | The nested loops compute the score of every registered label. |
| `ArowClassifier.LargestIncorrect` | jubatus/core/classifier/linear_classifier.cpp:142-160 | The loop returns the first of the other labels with the largest score. |
| `ArowClassifier.CalcMargin` | jubatus/core/classifier/linear_classifier.cpp:162-179 | Returns the score of the rival minus the own score, an unregistered label scoring zero. |
| `ArowClassifier.CalcVariance` | jubatus/core/classifier/linear_classifier.cpp:187-205 | Sums both covariances of every feature times its squared value, absent entries counting as 1. |
| `ArowClassifier.GetTwo` | jubatus/core/classifier/classifier_util.hpp:29-42 | Finds the two entries of a row, defaults standing for absent ones. |
| `ArowClassifier.Classifier.UpdateAll` | jubatus/core/classifier/arow.cpp:68-101 | The loop moves both entries of every feature, each from its own old value, and registers the label if there is a feature. |
| `ArowClassifier.Classifier.Learn` | jubatus/core/classifier/arow.cpp:49-66 | A call of train is the training step, registering the label without an update from margin 1 on. |
| `Arow.TrainLabels` | jubatus/core/classifier/arow.cpp:49-66 | Training adds at most its own label, once and only if it is new, and for an example with a feature that label is registered afterwards. |
| `LruMachine.WholeIff` | jubatus/core/common/lru.hpp:52-134 | The list is whole after every operation of a run if and only if every hit of the run finds at least two entries. |
| `LruMachine.RunsAreOrderedByUse` | jubatus/core/common/lru.hpp:52-134 | Over every such run the list is whole, its entries are those of a cache that pushes out the oldest time of use, in order of last use and with the same values, and from capacity 1 on the size stays within the capacity. |
| `LruMachine.FullSetEvictsOldest` | jubatus/core/common/lru.hpp:60-77 | After every such run that leaves the cache full, a new key pushes out the entry with the oldest time of use and no other. |
| `LruMachine.StepWhole` | jubatus/core/common/lru.hpp:52-134 | On a whole list an operation has the effect on entries that order of use asks for, and loses the head if and only if it hits the only entry. |
| `LruMachine.RunBounded` | jubatus/core/common/lru.hpp:60-134 | Over all runs, whole or not, until a deleted node is read, the size never exceeds the larger of the capacity and two. |
| `LruMachine.EvictingLostHead` | jubatus/core/common/lru.hpp:60-126 | With a lost head, an eviction takes the node that head_ points to, which is not the oldest, and leaves head_ pointing at it; another test of the loop or another eviction reads the deleted node. |
| `LruMachine.LostHeadRuns` | jubatus/core/common/lru.hpp:60-134 | Concrete runs: set, get, set gives two entries at capacity 1; one more set reads a deleted node at capacity 1, and at capacity 2 the set after that does. |
| `LruSpec.RunRefines` | jubatus/core/common/lru.hpp:52-102 | The list by order of use and the cache told by times of use stay in step over every run. |
| `Lru.Lru.RemoveLink` | jubatus/core/common/lru.hpp:115-126 | On a whole list, takes one node out; head, tail and all links describe the list of the others. |
| `Lru.Lru.TouchNode` | jubatus/core/common/lru.hpp:127-134 | In every live state moves a node to the end and says where head_ points afterwards: at the first node again if and only if it did and there were at least two nodes. |
| `Lru.Lru.Touch` | jubatus/core/common/lru.hpp:79-83 | In every live state a hit moves the entry to the end, a miss changes nothing; the links and the place of head_ are those of the machine. |
| `Lru.Lru.Get` | jubatus/core/common/lru.hpp:52-58 | In every live state returns the value of a hit and moves it to the end; a miss is an error and changes nothing. |
| `Lru.Lru.Set` | jubatus/core/common/lru.hpp:60-77 | In every live state a known key is left alone and a new one goes last after the eviction loop; fails exactly where that loop reads a deleted node. |
| `Lru.Lru.MakeSpace` | jubatus/core/common/lru.hpp:63-64 | The eviction loop takes the node head_ points to until there is room or no head; fails exactly when that node was deleted. |
| `Lru.Lru.Remove` | jubatus/core/common/lru.hpp:85-93 | In every live state the key leaves the map and the list; the order of the others stays. |
| `Lru.Lru.Index` | jubatus/core/common/lru.hpp:104-112 | In every live state like get for a known key, otherwise like set of the default value. |
| `Lru.Drive` | jubatus/core/common/lru.hpp:29-134 | Any operations on a new cache: the object goes through the states of the machine, fails exactly where a deleted node is read, and if every hit finds two entries it is valid and holds the entries in order of use. |

## Left out

- Floating point: rounding, overflow, NaN and the DBL_MAX start values are not modelled; a window without documents (0/0 rates) is an explicit case of `BurstEngine.BurstDetect`.
- Integer widths: 32-bit counters and the `char` result of `digit` are unbounded here.
- BurstEngine.BurstDetect: requires at least one batch and no more reused weights than batches, which the constructor of burst_result provides; a burst rate of exactly 1, where log(0) appears, is treated like any other rate, and the statements about documents leave it out; those ask that log(1) = 0, log(xy) = log x + log y, log x <= x - 1 and, where probabilities appear, that lgamma is the logarithm of the factorial.
- BurstAggregator.Aggregator.AddDocument: windows are values in a sequence, so sharing and moving of window objects is not modelled.
- BurstResults.MakeResults: the previous result is a parameter, because result_storage is not part of this model; burst_result::mix, which keeps the result with more documents, would only add an easy member.
- ThreadPool.StepInv: the pool is a value and each critical section one step; lifetime of futures, exceptions thrown by tasks and a submission racing with the destructor are not modelled.
- ThreadPool.ShutdownDrains: tasks are assumed to return. A task that waits for the future of a queued task is not modelled; with all workers in such tasks the pool stands still.
- Dbscan.Dbscan.Batch: reported clusters hold indices, not copies of points; the distance is any function, symmetric where the claim needs it (`DbscanReport.ReportedIff` too).
- KMeans.KMeansClustering.InitializeCenters: the draw of a center is any valid index, not weighted by distance.
- KMeans.KMeansClustering.DoBatchUpdate: only the Euclidean distance; the mean is not the minimiser for the cosine distance.
- Compressor.Compress: requires dstsize at least 1 and an empty destination, as compressive_storage calls it; with dstsize 0 the source would index an empty list of centers.
- Compressor.GetBicriteria: which points are drawn is arbitrary; the draws are not tied to the weights.
- Compressor.MinDist: requires a non-empty list; for an empty one the source returns index 0, which its callers could not use.
- CompressiveStorage.CompressiveStorage.Add: requires a non-negative weight, without which sampling weights mean nothing; revision and listeners are not modelled.
- SparseVectors.EuclidDistSquared: the final square root is left out; all comparisons are between squares.
- BanditStorage.SummationStorage.Put: scoring strategies, reset of a player and clear are not modelled.
- BanditMix.StepInv: an arm change reaches all servers in one step and a round is atomic.
- ClusteringMix.Mix: what the program does after reading the stale end iterator of jubatus/core/clustering/storage.cpp:71 is not modelled, only when it does.
- ClusteringMix.Storage.GetAll: the own points are a field; where they come from is modelled by CompressiveStorage alone.
- LofMix.LofStorage.UpdateKdist: the nearest neighbour engine is not modelled; the neighbours it returns are arbitrary, with distances that are not negative where a density is computed (`LofMix.LofStorage.UpdateLrd`).
- LofMix.LofStorage.Put: no unlearner, whose callbacks re-enter the storage.
- ArowClassifier.Classifier.Learn: label counters, unlearner and locks are not modelled; labels come in any fixed order, and a score at or below -DBL_MAX is not treated specially.
- ArowMargins.StepTowardsOne: requires distinct features, as does `ArowMargins.NewRivalMargin`; for other vectors the margin moves as `ArowMargins.OvershootIff` says.
- Lru.Lru.Set: what the program does after reading a deleted node is not modelled; the address of a deleted node is taken not to be used for a new one.
- Lru.Lru.Index: returns the value and not a reference to it.
- Serialisation, configuration, factories, drivers, locks in classifiers, other classifiers, GMM, recommenders and label storages: glue, or easy beside the above.
