# Verified model of the distributed integer sort

This project models the integer-sort benchmark of lci-irregular end to end and proves what it
promises: P ranks, each with any number of worker threads, sort their keys with typed active
messages. The model is parametric in the number of ranks, workers, devices, buckets, the bucket
width, the keys per rank and the batch size.

Verify everything with `dafny verify dfyconfig.toml`.

| file | what it models |
|---|---|
| `NasRandom.dfy` | the random stream: `randlc` in doubles, seed jumping, key generation on P ranks |
| `BucketCounting.dfy` | threads counting buckets privately, and the sum reduction over ranks |
| `BucketPlan.dfy`, `IdleRanks.dfy` | `build_bucket_plan`: greedy ownership of buckets; which ranks it leaves without keys |
| `Workspace.dfy` | the storage of a rank, its key-indexed tables, the handler's increment |
| `AmMessage.dfy`, `SendBuffers.dfy`, `AmBuffers.dfy`, `Batching.dfy` | messages as bytes, send buffers in memory, their abstract behaviour, transparency of batching |
| `WorkerBufferCache.dfy` | the thread-local cache of worker buffers and its generations |
| `AmProtocol.dfy`, `AmSafety.dfy`, `AmProgress.dfy` | the redistribution as a state machine: steps, invariant, progress |
| `AmImplementation.dfy` | the memory, bytes and counters take the steps of that state machine |
| `Ranking.dfy` | the two-pass multithreaded prefix sum |
| `IntegerSort.dfy`, `SortPipeline.dfy` | the plan and the protocol together: sorted result, exact global ranks; every rank planning for itself |
| `MpiBucketSort.dfy`, `MpiBaseline.dfy`, `MpiRanking.dfy`, `MpiRun.dfy` | the MPI baseline and its agreement with the above |
| `FullVerify.dfy`, `Verification.dfy`, `BenchmarkRun.dfy` | the benchmark's own verification: the check of the sorted keys, the partial checks, and exactly when a whole run is accepted |
| `ClassSort.dfy` | a problem class: the same sorted keys on every number of ranks |
| `SmallSort.dfy`, `SmallRun.dfy` | one worked example: eight keys on four ranks, sorted correctly and rejected |
| `Powers.dfy`, `Collections.dfy`, `Histograms.dfy` | arithmetic, sums, and counting keys by value |

## How the pieces fit

- `AmProtocol` runs any number of phases on all ranks at once. A step is one call of
  `set_am_handler`, one rank leaving its barrier, one `post_am`, one destination of a flush, one
  delivery of any message in the network, one handler invocation, one increment of `recv_count`,
  one worker leaving its wait loop, or `clear_am_handler`. Any enabled step of anybody may come
  next. A failure flag stands for every exception, abort or terminate of the modelled code.
- `AmSafety.WellFormed` is the protocol's hypothesis: records have destinations, every rank
  expects exactly the records sent to it, and every device that carries messages to a rank has a
  worker of that rank. `IntegerSort.SortProgramsAreWellFormed` derives the first two from the
  bucket plans, `IntegerSort.DevicesAreServed` the third from the assignment of devices to workers.
- `SortPipeline` connects the counting threads, the reduction and the planner to the protocol.
  Every rank calls `build_bucket_plan` on its own arrays and expects what its own call returns;
  `SortPipeline.RanksPlanAlike` and `SortPipeline.EveryRankRoutesAlike` show that they all act on
  one plan, and `SortPipeline.IterationsSort` goes from these calls to the sorted result.
- `AmProgress.EveryRunExtends` shows that there always are maximal runs, and
  `ClassSort.ResultIndependentOfRanks` that the keys they leave depend only on the problem class.
- `AmImplementation` relates the buffers in memory, the messages as bytes and the receiver's counter
  to the protocol's steps, one call at a time.
- `BenchmarkRun.RunVerdict` takes tables, test keys and snapshots from the states that a run
  reaches, so that the verdict is a statement about runs: whether they are accepted depends only on
  the expected ranks, the slots below the tables and what the key arrays began with.
- `BucketPlan.BuildBucketPlan`, `MpiBaseline.PlanSegments`, `Ranking.ComputeLocalRanks`,
  `SendBuffers.WorkerBuffers` and the random generator are imperative, as in the source; the
  lemmas about their specification functions carry the results further.

## Where the code differs from what one expects

- `randlc` is exact for every rounding mode that is exact on representable numbers, also when
  seed and multiplier are the same variable.
- The comment at `benchmarks/npb-is/mpi-baseline/is.c:723-724` says that no processor is left idle.
  The loop below it, which the model follows, can leave ranks without keys in two ways: a rank in
  the middle of the plan closes on an empty bucket (`SmallSort.PlanWithEmptyMiddleRank`), or the
  buckets run out and a tail of ranks gets none (`SmallSort.PlanWithIdleTail`).
  `IdleRanks.Closing` computes from the counts and the average load alone the bucket at which each
  rank would close. A rank has keys if and only if that bucket exists and is not empty
  (`IdleRanks.RankHasKeys`), so that no rank is idle if and only if this holds for all
  (`IdleRanks.NoRankIsIdle`). It holds for all if no bucket counts more keys than the average
  (`IdleRanks.SmallBucketsLeaveNoRankIdle`).
- A rank without keys sends the stale first entry of its key array to its successor. `full_verify`
  can therefore reject a correctly sorted result. `FullVerify.FullCheckAfterPhase` is the exact
  condition, in terms of what was there before the call. `SmallSort.StaleKeyRejectsSortedRanks` is
  a sort on four ranks, two keys each and three slots in every key array, that is rejected;
  `SmallSort.SortedRanksAreRejected` carries this to the verdict, and
  `SmallRun.SmallRunIsRejected` to every maximal run. `FullVerify.SmallBucketsPass`
  shows that it cannot happen if no bucket holds more keys than a rank's average.
- The neighbour checks look at adjacent ranks only. With keys on every rank they are sound
  (`FullVerify.PassingMeansSorted`); a disorder across a rank without keys can go unnoticed
  (`FullVerify.DisorderBehindEmptyRank`), and `FullVerify.PassingIsSound` says exactly when.
- `cumulative_by_key[key - 1]` for the smallest key of a rank's interval reads the slot below the
  table, and the result is off by what that slot holds. The looked-up rank is exact if and only if
  the key is larger than the smallest one or that slot is zero (`IntegerSort.LookupIsExact`);
  `SmallSort.FirstKeyOfIntervalMisranked` is a key that is looked up wrongly for every other value
  of the slot. The verdict is stated with this term (`Verification.FromBelow`).
- No barrier follows `clear_am_handler`. `AmSafety.PhasesAreIsolated` shows that the one barrier
  in `set_am_handler` is enough.

## Model

| member | source | states |
|---|---|---|
| NasRandom.Randlc | benchmarks/npb-is/lci-openmp/nas/key_generation.cpp:47-65 | for all states below 2^46, aliased or not: the new seed is a*x mod 2^46, the result is the seed scaled into [0, 1), every int conversion fits 32 bits and every intermediate is exact in a double |
| NasRandom.StreamClosedForm | benchmarks/npb-is/lci-openmp/nas/key_generation.cpp:64-65 | n calls multiply the seed by the n-th power of the multiplier |
| NasRandom.RaiseByPowerOfTwo | benchmarks/npb-is/lci-openmp/nas/key_generation.cpp:78-84 | the squaring loop computes the multiplier to the power 2^mq |
| NasRandom.JumpAhead | benchmarks/npb-is/lci-openmp/nas/key_generation.cpp:84-101 | the binary exponentiation loop reaches the seed after `rank` big steps and always leaves by its break |
| NasRandom.FindMySeed | benchmarks/npb-is/lci-openmp/nas/key_generation.cpp:68-102 | the rank's seed is the stream after rank times the power of two below the numbers per rank |
| NasRandom.GenerateKeys | benchmarks/npb-is/lci-openmp/nas/key_generation.cpp:104-115 | key i is a quarter of max_key times the sum of the states after draws 4i+1 to 4i+4, divided by 2^46 and truncated, each state being a power of the multiplier times the seed modulo 2^46; all keys lie in [0, max_key) |
| NasRandom.KeyBelowMaximum | benchmarks/npb-is/lci-openmp/nas/key_generation.cpp:105-113 | four uniform numbers scaled by max_key/4 stay below max_key |
| NasRandom.KeyFromPowers | benchmarks/npb-is/lci-openmp/nas/key_generation.cpp:107-113 | a key in plain arithmetic: four powers of the multiplier times the seed modulo 2^46, summed, scaled and truncated |
| NasRandom.ScaledSumIsExact | benchmarks/npb-is/lci-openmp/nas/key_generation.cpp:108-113 | scaling the sum of four uniforms loses nothing in a double |
| NasRandom.StreamPartitionIndependence | benchmarks/npb-is/lci-openmp/nas/key_generation.cpp:68-115 | the keys of all ranks, in rank order, are the one-rank key sequence |
| NasRandom.ShareIsPowerOfTwo | benchmarks/npb-is/lci-openmp/nas/run_rules.cpp:47-66 | on power-of-two sizes the numbers per rank are a power of two and four per key |
| NasRandom.ClassKeysIndependentOfRankCount | benchmarks/npb-is/lci-openmp/nas/run_rules.cpp:47-66 | a class generates the same keys for every power-of-two rank count |
| NasRandom.ClassKeyFromPowers | benchmarks/npb-is/lci-openmp/nas/key_generation.cpp:68-115 | key i of rank r of a class in the same arithmetic, at position r times the local key count plus i |
| NasRandom.GreatestPowerOfTwoAtMost | benchmarks/npb-is/lci-openmp/nas/run_rules.cpp:25-33 | the loop finds the greatest power of two not above the process count |
| BucketCounting.CountLocalBuckets | benchmarks/npb-is/lci-openmp/integer_sort/bucket_plan.cpp:10-28 | for every assignment of iterations to threads and every merge order each bucket's counter grows by its keys, and the slots after the buckets stay |
| BucketCounting.SumOpInt | benchmarks/npb-is/lci-openmp/benchmark_support/reduction_operations.cpp:7-14 | pointwise sum, also in place |
| BucketCounting.ReductionIsSum | benchmarks/npb-is/lci-openmp/benchmark_support/nas_integer_sort_run.cpp:136-141 | however partial sums are combined, a slot ends with the sum over all ranks |
| BucketCounting.ChainCovers | benchmarks/npb-is/lci-openmp/benchmark_support/nas_integer_sort_run.cpp:138-144 | there is such a reduction for every number of ranks |
| BucketPlan.BuildBucketPlan | benchmarks/npb-is/lci-openmp/integer_sort/bucket_plan.cpp:31-81 | the arrays are the greedy plan and its owners; lesser keys, local keys and expected records are the keys routed to lower ranks and to this rank |
| BucketPlan.AssignBuckets | benchmarks/npb-is/lci-openmp/integer_sort/bucket_plan.cpp:42-56 | one close per bucket, never more owners than ranks, every bucket has its owner |
| BucketPlan.PlanningEnds | benchmarks/npb-is/lci-openmp/integer_sort/bucket_plan.cpp:42-61 | after the loop no key lies outside the intervals |
| BucketPlan.BucketsArePartitioned | benchmarks/npb-is/lci-openmp/integer_sort/bucket_plan.cpp:42-61 | a bucket's owner and its interval determine each other; a nonempty bucket is owned by a rank |
| BucketPlan.PlanCountsOwnedKeys | benchmarks/npb-is/lci-openmp/integer_sort/bucket_plan.cpp:73-76 | the keys counted in a rank's interval are the keys routed to it |
| BucketPlan.PlanCountsLesserKeys | benchmarks/npb-is/lci-openmp/integer_sort/bucket_plan.cpp:66-71 | the keys counted before the interval are the keys routed to lower ranks |
| BucketPlan.LoadBalance | benchmarks/npb-is/lci-openmp/integer_sort/bucket_plan.cpp:42-56 | a rank that closes an interval reaches its share and overshoots the average by less than its last bucket |
| BucketPlan.PlannersAgree | benchmarks/npb-is/mpi-baseline/is.c:734-764 | counts and average leave a single greedy plan, so all ranks and both versions plan alike |
| BucketPlan.OwnersAgree | benchmarks/npb-is/lci-openmp/integer_sort/bucket_plan.cpp:42-56 | two planners on the same counts give every bucket the same owner |
| IdleRanks.ClosingIsMaximum | benchmarks/npb-is/lci-openmp/integer_sort/bucket_plan.cpp:42-61 | the bucket at which a rank would close, computed from counts and average: the greatest of the buckets that reach a lower rank's share, pushed one further per rank |
| IdleRanks.PlanClosesThere | benchmarks/npb-is/lci-openmp/integer_sort/bucket_plan.cpp:42-61 | the planner closes the interval of every used rank at that bucket |
| IdleRanks.NoTail | benchmarks/npb-is/lci-openmp/integer_sort/bucket_plan.cpp:42-61 | every rank closes an interval if and only if the last rank's bucket exists |
| IdleRanks.RankHasKeys | benchmarks/npb-is/lci-openmp/integer_sort/bucket_plan.cpp:42-61 | any rank, used or in the tail, gets keys if and only if its closing bucket exists and is not empty |
| IdleRanks.NoRankIsIdle | benchmarks/npb-is/mpi-baseline/is.c:719-724 | no rank is left idle if and only if, on the counts alone, every rank's closing bucket exists and is not empty |
| IdleRanks.SmallBucketsUseAll | benchmarks/npb-is/lci-openmp/integer_sort/bucket_plan.cpp:42-61 | if no bucket counts more than the average and the counts add up to the shares, there is no tail |
| IdleRanks.SmallBucketsLeaveNoRankIdle | benchmarks/npb-is/mpi-baseline/is.c:719-724 | and then every rank gets keys |
| Workspace.IntegerSortWorkspace.ClearBucketMetadata | benchmarks/npb-is/lci-openmp/integer_sort/workspace.cpp:70-81 | all five metadata arrays are zero afterwards |
| Workspace.IntegerSortWorkspace.ClearFrequencyRange | benchmarks/npb-is/lci-openmp/integer_sort/workspace.cpp:83-95 | the table represents no keys; an empty range changes nothing |
| Workspace.IntegerSortWorkspace.CountKey | benchmarks/npb-is/lci-openmp/integer_sort/key_redistribution.cpp:29 | the handler adds one key to what the shifted table represents and touches one slot |
| Workspace.IntegerSortWorkspace.ApplyIterationKeyChanges | benchmarks/npb-is/lci-openmp/nas/run_rules.cpp:68-73 | on rank 0 the slot of the iteration gets its number and the slot max_iterations later the key bound less that number; every other slot, and every slot of the other ranks, stays; all keys stay in range |
| AmMessage.RecordCountFromMessageBytes | include/lci-irregular/detail/am_message.hpp:15-21 | succeeds exactly on a positive whole number of records and returns it |
| AmMessage.UnpackPack | include/lci-irregular/detail/am_message.hpp:11-26 | unpacking packed records gives the records |
| AmMessage.PackUnpack | include/lci-irregular/detail/am_message.hpp:11-26 | packing unpacked records gives the bytes |
| AmMessage.PackedAt | include/lci-irregular/detail/am_message.hpp:11-26 | byte j of record i is byte i times the record size plus j of the message |
| SendBuffers.ChooseBatchRecords | include/lci-irregular/detail/am_phase.hpp:35-48 | both errors exactly when they apply; a chosen batch fits an eager message, and the default is the largest that does |
| SendBuffers.SendBuffer.Append | include/lci-irregular/detail/am_send_buffer.hpp:59-66 | the record is appended to the packed records; no byte outside the buffer's part is written |
| SendBuffers.WorkerBuffers.PostRecord | include/lci-irregular/detail/am_phase.hpp:124-141 | a batch leaves exactly when the record fills its buffer to capacity; it goes to that destination, unpacks to the buffered records and the new one, and empties the buffer; otherwise the record is appended; a destination out of range is rejected without a trace |
| SendBuffers.WorkerBuffers.FlushDest | include/lci-irregular/detail/am_phase.hpp:244-257 | the buffered records leave for that destination as one message that unpacks to them, and the buffer is empty; an empty buffer posts nothing |
| SendBuffers.WorkerBuffers.FlushWorker | include/lci-irregular/detail/am_phase.hpp:143-150 | visit j concerns rank + j modulo the rank count and posts what that buffer held to that destination; afterwards nothing is buffered |
| SendBuffers.WorkerBuffers.HasBufferedRecords | include/lci-irregular/detail/am_phase.hpp:152-165 | true exactly if some destination's buffer holds a record |
| SendBuffers.Receiver.ReceiveMessage | include/lci-irregular/detail/am_phase.hpp:193-204 | the handler sees the records in order, then the count grows by their number; a malformed message aborts without a trace |
| SendBuffers.PostMessage | include/lci-irregular/detail/am_send_buffer.hpp:74-101 | loopback hands the batch to the own handler, otherwise the message enters the network once after the retries |
| SendBuffers.BatchSize | include/lci-irregular/detail/am_send_buffer.hpp:55-57 | a posted batch is received as a batch of the same number of records |
| AmImplementation.PostKey | include/lci-irregular/detail/am_phase.hpp:124-141 | post_record in memory with the send that it may cause is the protocol's step Post: same exception, same buffers, same packets in the network with destination, device and bytes, and with loopback the same receipt |
| AmImplementation.FlushNext | include/lci-irregular/detail/am_phase.hpp:147-149 | one visit of flush_worker with its send is the step Flush: same buffers, same packets, same receipt |
| AmImplementation.SendBatch | include/lci-irregular/detail/am_send_buffer.hpp:74-101 | a posted message is the step's packet in the network, over the worker's device, or with loopback the whole receipt of its batch |
| AmImplementation.ProgressTakesOwnDevice | include/lci-irregular/detail/am_phase.hpp:239-242 | a worker can take exactly the packets for its rank that came over its own device |
| AmImplementation.ReceiveBatch | src/irregular_runtime.cpp:258-279 | an incoming message ends the program exactly if the step of its delivery fails, without a registered handler or with an empty batch; otherwise it is the delivery, the handler steps for its keys, and the completion |
| AmImplementation.ReceiptAddsBatch | include/lci-irregular/detail/am_phase.hpp:193-204 | these steps add the batch to the histogram and its size to recv_count, and change nothing in the network |
| AmImplementation.CountHandled | benchmarks/npb-is/lci-openmp/integer_sort/key_redistribution.cpp:29 | the handler on the frequency table is the step Handle |
| AmImplementation.HoldsRecords | include/lci-irregular/detail/am_phase.hpp:152-165 | the test for buffered records tells for each worker whether the protocol's buffers hold a key |
| AmImplementation.ClearFails | src/irregular_runtime.cpp:127-133 | the step of clear_am_handler fails exactly if some worker of the rank holds one |
| AmImplementation.FourByteKeys | include/lci-irregular/detail/am_message.hpp:23-26 | nonnegative 32-bit keys survive being copied into records and back |
| Batching.BatchingIsTransparent | include/lci-irregular/detail/am_phase.hpp:124-150 | for every sequence of posts and flushes: batches in order followed by the buffered rest are the posted records; batch sizes lie between one and the capacity; buffers stay strictly below capacity |
| Batching.PostSendsFullBatchOnly | include/lci-irregular/detail/am_phase.hpp:137-140 | after any operations, a post sends the full buffer with the new record, exactly `capacity` records, or keeps the record below that |
| Batching.BufferFill | include/lci-irregular/detail/am_phase.hpp:137-140 | a buffer holds the number of records posted since its last flush, modulo the capacity |
| Batching.PostsAggregate | include/lci-irregular/detail/am_phase.hpp:137-140 | without flushes, a destination is sent one batch of exactly `capacity` records for every `capacity` records posted to it |
| WorkerBufferCache.CacheAgreesWithTable | include/lci-irregular/detail/am_phase.hpp:214-237 | in every reachable state the cached lookup answers what the table would, and the answer is live and belongs to that worker and phase |
| WorkerBufferCache.LookupFillsCache | include/lci-irregular/detail/am_phase.hpp:229-231 | after a lookup the thread's next lookup for that worker hits the cache and changes nothing |
| WorkerBufferCache.GenerationsAreNeverReused | src/irregular_runtime.cpp:219-230 | however the compare-exchange loops interleave, phases get different generations |
| WorkerBufferCache.GenerationsAreConsecutive | src/irregular_runtime.cpp:219-230 | the counter is one more than the number of generations handed out, and none of them is zero |
| WorkerBufferCache.WorkersDoNotShare | include/lci-irregular/detail/am_phase.hpp:220-228 | two workers of a phase never have the same buffers |
| WorkerBufferCache.RunKeepsInv | include/lci-irregular/detail/am_phase.hpp:26-33 | tickets, table and caches stay consistent over every run, with reuse of addresses |
| AmSafety.StepKeepsInv | include/lci-irregular/detail/am_phase.hpp:124-257 | every step conserves every record, keeps the counters exact, the messages in phase and the workers consistent |
| AmSafety.RunKeepsInv | benchmarks/npb-is/lci-openmp/integer_sort/key_redistribution.cpp:31-53 | so does every run; no run fails |
| AmSafety.RecordsAreConserved | include/lci-irregular/detail/am_phase.hpp:124-257 | for every key and destination in every reachable state: owed, in flight and handled records add up to the initial count |
| AmSafety.LocalCompletionIsSafe | benchmarks/npb-is/lci-openmp/integer_sort/key_redistribution.cpp:46-48 | in every reachable state: a rank whose recv_count reached its expectation has the exact records of its phase, and nothing for it is unposted, buffered, in flight or half handled anywhere |
| AmSafety.PhasesAreIsolated | include/lci-irregular/detail/am_phase.hpp:280-300 | a message in flight always finds its destination registered in the message's own phase |
| AmSafety.RecvCountIsBounded | include/lci-irregular/detail/am_phase.hpp:193-204 | recv_count never exceeds the handled records, which never exceed the expected count |
| AmSafety.TeamDoneMeansComplete | src/irregular_runtime.cpp:127-138 | when clear_am_handler runs, the rank is complete and its workers hold nothing |
| AmProgress.Progress | benchmarks/npb-is/lci-openmp/integer_sort/key_redistribution.cpp:34-53 | every state that is not final has a step the program takes: no deadlock |
| AmProgress.StepUsesWeight | benchmarks/npb-is/lci-openmp/integer_sort/key_redistribution.cpp:34-53 | every step decreases a measure of unposted, buffered, in-flight and half-handled records |
| AmProgress.RunsAreBounded | benchmarks/npb-is/lci-openmp/integer_sort/key_redistribution.cpp:34-53 | the length of a run is bounded by the measure of its start |
| AmProgress.MaximalRunsComplete | src/irregular_runtime.cpp:127-138 | a run that cannot continue has completed every phase, with an empty network, empty buffers and exact histograms, and recv_count at its expectation |
| AmProgress.EveryRunExtends | benchmarks/npb-is/lci-openmp/integer_sort/key_redistribution.cpp:34-53 | every run continues, by steps the program really takes, to a run that cannot go on |
| Ranking.SumChunks | benchmarks/npb-is/lci-openmp/integer_sort/ranking.cpp:25-32 | for every interleaving the chunk sums are in place at the barrier |
| Ranking.ScanPartialSums | benchmarks/npb-is/lci-openmp/integer_sort/ranking.cpp:34-42 | in-place exclusive scan |
| Ranking.StoreRanks | benchmarks/npb-is/lci-openmp/integer_sort/ranking.cpp:44-49 | for every interleaving the stored ranks are the inclusive prefix sums |
| Ranking.ComputeLocalRanks | benchmarks/npb-is/lci-openmp/integer_sort/ranking.cpp:10-51 | for every team size, contiguous static schedule and interleaving the cumulative ranks are the sequential inclusive prefix sums, and nothing else changes |
| IntegerSort.ReceivesItsInterval | benchmarks/npb-is/lci-openmp/integer_sort/key_redistribution.cpp:27 | a rank receives every copy of the keys in its interval and no other key |
| IntegerSort.ExpectedIsReceived | benchmarks/npb-is/lci-openmp/integer_sort/bucket_plan.cpp:46-48 | expected_recv_count is the number of records the ranks send |
| IntegerSort.SortProgramsAreWellFormed | benchmarks/npb-is/lci-openmp/integer_sort/key_redistribution.cpp:22-31 | plans and counts provide the hypotheses of the protocol |
| IntegerSort.DevicesAreServed | include/lci-irregular/detail/am_phase.hpp:239-242 | with worker modulo device count, for any positive number of workers and devices, every device that some worker uses has a worker on every rank |
| IntegerSort.HandlerStaysInInterval | benchmarks/npb-is/lci-openmp/integer_sort/key_redistribution.cpp:29 | in every run the handler only touches slots of its rank's interval |
| IntegerSort.EndToEndSort | benchmarks/npb-is/lci-openmp/benchmark_support/nas_integer_sort_run.cpp:279-288 | for every assignment of keys and every interleaving: a maximal run leaves, in rank order, a sorted permutation of all keys |
| IntegerSort.CompletedPhaseIsSorted | benchmarks/npb-is/lci-openmp/integer_sort/key_redistribution.cpp:38-48 | the same already holds once every rank's own completion test has succeeded |
| IntegerSort.LookupIsExact | benchmarks/npb-is/lci-openmp/nas/verification.cpp:157-163 | the looked-up rank is the number of smaller keys on all ranks if and only if the key is not the smallest of its interval or the slot below is zero |
| IntegerSort.ExactGlobalRank | benchmarks/npb-is/lci-openmp/nas/verification.cpp:157-163 | the same in every reachable state in which the owner's completion test has succeeded |
| SortPipeline.RanksHoldAllKeys | benchmarks/npb-is/lci-openmp/integer_sort/key_redistribution.cpp:38-42 | the workers' shares of the loop are the ranks' key arrays |
| SortPipeline.ReducedCountsAreGlobal | benchmarks/npb-is/lci-openmp/benchmark_support/nas_integer_sort_run.cpp:124-144 | after the reduction every bucket's slot counts its keys on all ranks |
| SortPipeline.CountsAddUpToShares | benchmarks/npb-is/lci-openmp/benchmark_support/nas_integer_sort_run.cpp:146-154 | the reduced counts meet what the planner relies on |
| SortPipeline.PipelineMakesSortPhase | benchmarks/npb-is/lci-openmp/benchmark_support/nas_integer_sort_run.cpp:279-288 | counting, reducing and planning make the redistribution a sort phase |
| SortPipeline.RanksPlanAlike | benchmarks/npb-is/lci-openmp/benchmark_support/nas_integer_sort_run.cpp:146-154 | two ranks that plan on the reduced counts, each in its own arrays, get the same intervals and owners, and each expects what the other's owners give it |
| SortPipeline.EveryRankRoutesAlike | benchmarks/npb-is/lci-openmp/integer_sort/key_redistribution.cpp:27 | route_key on any rank, by the rank's own table, is the one route of the phase |
| SortPipeline.IterationsMakeSortProgram | benchmarks/npb-is/lci-openmp/benchmark_support/nas_integer_sort_run.cpp:279-288 | iterations in which every rank counts, reduces and plans for itself satisfy the hypotheses of the protocol and of the sorting theorems |
| SortPipeline.IterationsSort | benchmarks/npb-is/lci-openmp/benchmark_support/nas_integer_sort_run.cpp:279-288 | so every maximal run of them leaves a sorted permutation of the last iteration's keys, in rank order |
| ClassSort.PhaseHoldsClassKeys | benchmarks/npb-is/lci-openmp/nas/run_rules.cpp:68-73 | generated on any power-of-two number of ranks, the keys after any iterations are those of the class with the changes in their front |
| ClassSort.SlotAfterIterations | benchmarks/npb-is/lci-openmp/nas/run_rules.cpp:68-73 | after any iterations each slot holds the number of an iteration, the key bound less such a number, or its old key |
| ClassSort.ClassKey | benchmarks/npb-is/lci-openmp/nas/key_generation.cpp:107-113 | key x of a class in plain arithmetic |
| ClassSort.PhaseKeysAreKnown | benchmarks/npb-is/lci-openmp/main.cpp:58-74 | the keys of a phase are those of the class with the changes of the iterations so far in their slots, however many ranks there are |
| ClassSort.ResultIndependentOfRanks | benchmarks/npb-is/lci-openmp/main.cpp:58-81 | two programs for one class, with different power-of-two rank counts, workers, buckets and batch sizes, leave the same sorted sequence on every maximal run |
| MpiBucketSort.SortIntoBuckets | benchmarks/npb-is/mpi-baseline/is.c:682-698 | bucket sizes are the keys per bucket and the send buffer is the stable concatenation of the buckets |
| MpiBucketSort.BucketSortIsPermutation | benchmarks/npb-is/mpi-baseline/is.c:693-698 | the bucket sort loses and invents no key |
| MpiBucketSort.KeyLandsAt | benchmarks/npb-is/mpi-baseline/is.c:693-698 | the bucket sort is stable: a key's slot is the number of keys in lower buckets plus the earlier keys of its own bucket |
| MpiBaseline.PlanSegments | benchmarks/npb-is/mpi-baseline/is.c:734-764 | the greedy plan, with every used rank's segment of the send buffer and zero counts for the others |
| MpiBaseline.SegmentIsRouted | benchmarks/npb-is/mpi-baseline/is.c:683-764 | the segment for each rank is the multiset of local keys that the active-message version routes to it |
| MpiBaseline.ReceiveDisplacements | benchmarks/npb-is/mpi-baseline/is.c:779-782 | displacements are the lengths of what lower ranks send |
| MpiBaseline.ExchangeIsConcatenation | benchmarks/npb-is/mpi-baseline/is.c:785-794 | a vector exchange at these displacements delivers the segments one after the other |
| MpiBaseline.ExchangeDeliversTotal | benchmarks/npb-is/mpi-baseline/is.c:785-794 | every rank receives what the active-message redistribution delivers to it |
| MpiBaseline.BaselineAgrees | benchmarks/npb-is/mpi-baseline/is.c:682-794 | from the bucket sort to the exchange: the segments sent to a rank are together the keys that the active-message redistribution delivers to it |
| MpiRun.ReceivesPlannedKeys | benchmarks/npb-is/mpi-baseline/is.c:785-822 | the local key count read off the plan is the number of keys at the front of the receive buffer, and these are the keys of the active-message version |
| MpiRanking.CountKeys | benchmarks/npb-is/mpi-baseline/is.c:806-836 | the work array holds the population of every key |
| MpiRanking.AccumulatePopulation | benchmarks/npb-is/mpi-baseline/is.c:845-846 | and then, for every key, the keys up to and including it |
| MpiRanking.ScatterKeys | benchmarks/npb-is/mpi-baseline/is.c:581-584 | the decrementing scatter writes each slot exactly once, yields the expansion in key order and keeps the rest of the array |
| MpiRun.SortReceived | benchmarks/npb-is/mpi-baseline/is.c:806-846 | ranking and then scattering what was received (is.c:581-584) leaves the key array, stale rest included, that the active-message version leaves by expanding its histogram |
| FullVerify.ExpandHistogram | benchmarks/npb-is/lci-openmp/nas/verification.cpp:209-216 | the key array starts with the expansion and keeps its stale rest |
| FullVerify.CountOutOfOrder | benchmarks/npb-is/lci-openmp/nas/verification.cpp:242-263 | the number of positions with a key smaller than the one before, plus one for a neighbour violation; zero exactly if the rank is in order |
| FullVerify.FullCheckCondition | benchmarks/npb-is/lci-openmp/nas/verification.cpp:225-247 | on sorted ranks a check passes if and only if the rank is first, has no keys, follows a rank with keys, or the predecessor's key array began with a key that is not larger |
| FullVerify.FullChecksPass | benchmarks/npb-is/lci-openmp/nas/verification.cpp:242-263 | with no empty rank before a nonempty one all checks pass |
| FullVerify.SentKeyIsGreatest | benchmarks/npb-is/lci-openmp/nas/verification.cpp:225-227 | a rank with sorted keys sends one of them that none is above |
| FullVerify.FullCheckIsExact | benchmarks/npb-is/lci-openmp/nas/verification.cpp:225-257 | for arbitrary keys and key arrays: a rank passes exactly if its keys are sorted and the predecessor's last key, or without keys its old first entry, is not above the first one |
| FullVerify.PassingIsSound | benchmarks/npb-is/lci-openmp/nas/verification.cpp:225-263 | when all ranks pass, their keys are in order over all ranks exactly if they are across the ranks without keys |
| FullVerify.PassingMeansSorted | benchmarks/npb-is/lci-openmp/nas/verification.cpp:225-263 | with keys on every rank, passing on all ranks means that the keys of all ranks, in rank order, are sorted |
| FullVerify.DisorderBehindEmptyRank | benchmarks/npb-is/lci-openmp/nas/verification.cpp:225-247 | an input with a disorder behind a rank without keys that all checks accept |
| FullVerify.DeliveredByCounts | benchmarks/npb-is/lci-openmp/integer_sort/bucket_plan.cpp:42-61 | a rank of a sort phase is delivered keys if and only if its closing bucket exists and is not empty |
| FullVerify.FullCheckAfterPhase | benchmarks/npb-is/lci-openmp/nas/verification.cpp:209-263 | after a sort phase the same condition on the delivered keys and the key arrays before the call: it can be evaluated before full_verify |
| FullVerify.SmallBucketsPass | benchmarks/npb-is/lci-openmp/nas/verification.cpp:225-263 | if no bucket counts more than the average every check passes, whatever the key arrays held |
| SmallSort.PlanWithEmptyMiddleRank | benchmarks/npb-is/lci-openmp/integer_sort/bucket_plan.cpp:42-56 | the plan for four ranks whose third rank has no keys |
| SmallSort.PlanWithIdleTail | benchmarks/npb-is/lci-openmp/integer_sort/bucket_plan.cpp:58-61 | with all keys in one bucket three of four ranks form the tail |
| SmallSort.ProgramIsSmall | benchmarks/npb-is/lci-openmp/integer_sort/key_redistribution.cpp:22-31 | the program with eight keys on four ranks, for every batch size, with and without loopback |
| SmallSort.IsSortProgram | benchmarks/npb-is/lci-openmp/integer_sort/bucket_plan.cpp:42-56 | a program of eight keys with this plan meets all hypotheses of the protocol |
| SmallSort.StaleKeyRejectsSortedRanks | benchmarks/npb-is/lci-openmp/nas/verification.cpp:225-247 | its phase leaves the ranks in order, within the work buffers, and the check of the last rank fails |
| SmallSort.SortedRanksAreRejected | benchmarks/npb-is/lci-openmp/nas/reporting.cpp:29-35 | whatever the partial checks recorded, the verdict on it is a failure |
| SmallSort.FirstKeyOfIntervalMisranked | benchmarks/npb-is/lci-openmp/nas/verification.cpp:157-163 | the first key of rank 1's interval: the check for its true global rank fails unless the slot below the table is zero |
| SmallRun.SmallIterationsRun | benchmarks/npb-is/lci-openmp/benchmark_support/nas_integer_sort_run.cpp:279-288 | counting, reducing and planning on every rank of the small program meet the hypotheses of the pipeline |
| SmallRun.SmallRunsSort | benchmarks/npb-is/lci-openmp/benchmark_support/nas_integer_sort_run.cpp:279-288 | the small program has a maximal run, and it leaves its keys in order |
| SmallRun.SmallTimedRun | benchmarks/npb-is/lci-openmp/benchmark_support/nas_integer_sort_run.cpp:279-288 | every maximal run of it, with its counters, tables and test key, is a timed run in the sense of the theorem about verdicts |
| SmallRun.SmallFinalSnapshot | benchmarks/npb-is/lci-openmp/nas/verification.cpp:209-216 | and leaves a final snapshot in the sense of that theorem |
| SmallRun.SmallRunIsRejected | benchmarks/npb-is/lci-openmp/nas/reporting.cpp:29-35 | in every maximal run of it the ranks are in order, the partial check passes and the verdict is a failure |
| FullVerify.ExpandedRanksAreInOrder | benchmarks/npb-is/lci-openmp/nas/verification.cpp:209-216 | the expansions of a delivered phase are in order over all ranks |
| Verification.CaptureTestKeys | benchmarks/npb-is/lci-openmp/nas/verification.cpp:169-178 | exactly the test keys in the rank's part are captured, and no bucket counter changes |
| Verification.TestKeySurvives | benchmarks/npb-is/lci-openmp/nas/verification.cpp:172-177 | one rank captures a test key and the sum reduction leaves it unchanged |
| Verification.VerifyPartialKeys | benchmarks/npb-is/lci-openmp/nas/verification.cpp:180-199 | the counter grows by the test keys that are checked here and found at their expected rank |
| Verification.OneRankChecks | benchmarks/npb-is/lci-openmp/nas/verification.cpp:157-161 | every key is checked by exactly one rank |
| Verification.PrefixSumsRank | benchmarks/npb-is/lci-openmp/integer_sort/ranking.cpp:44-49 | the prefix sums of a rank's frequency table count, for every key of its interval, the keys up to and including it |
| Verification.PartialCheckIsExact | benchmarks/npb-is/lci-openmp/nas/verification.cpp:147-165 | the owner computes the number of smaller keys on all ranks, plus, for the smallest key of its interval, what the slot below the table holds; its check passes exactly if that is the expected rank |
| Verification.CounterIsExact | benchmarks/npb-is/lci-openmp/nas/reporting.cpp:29-35 | the reduced counter is tests plus ranks exactly if every test and every full check passed |
| Verification.VerdictIsExact | benchmarks/npb-is/lci-openmp/nas/reporting.cpp:29-35 | over all iterations, for any test keys among the sorted ones and any slots below the tables: the verdict is success if and only if every expected rank is the true global rank plus what the slot below adds for the first key of an interval, and no rank with keys follows a keyless one whose key array began with a larger key |
| BenchmarkRun.TestKeyIsAKey | benchmarks/npb-is/lci-openmp/nas/verification.cpp:169-178 | a test key read from the reduced counters is the key at its test index over all ranks |
| BenchmarkRun.RunVerdict | benchmarks/npb-is/lci-openmp/benchmark_support/nas_integer_sort_run.cpp:279-288 | the same verdict for every run of the protocol, with tables and snapshots read when a rank's own completion test has succeeded and test keys read from the reduction |
| BenchmarkRun.RecordedTestKeys | benchmarks/npb-is/lci-openmp/nas/verification.cpp:152 | the test keys of that verdict are the keys at the test indices, in every timed iteration |

## Left out

- LCI itself: devices, packet pools, completion objects and zero-copy receipt. A post is a finite number of retries and then one message in an unordered network; progress delivers any one message of the device.
- Progress inside a post: while a post retries it may deliver other messages. The state machine lets a worker receive between any two of its own steps and treats the post itself as one step.
- Interleaving inside one receipt in memory: `AmImplementation` runs the handler for one batch without other steps in between; the state machine interleaves every single step.
- Handlers that post further messages: the handler of the integer sort only counts.
- MPI collectives are their mathematical meaning: sums, transposed counts, segments placed at displacements.
- Memory orders: steps of the state machines are sequentially consistent.
- Integer widths: counts, displacements and keys are unbounded integers and assumed to fit; the conversions to `int` inside the random generator are proved to fit.
- Work buffer size: that a rank's key range and its keys fit the work buffer is a precondition.
- The loops that initialise the four constants of `randlc`: the constants are literals.
- Parallel clearing loops and the parallel descent count of `full_verify` are written as sequential loops; their iterations are independent.
- The send of the last key to the neighbour through LCI is the value that the neighbour's check reads.
- The partial verification of the MPI baseline: it repeats the one modelled for the active-message version.
- Test index and rank tables and the class-dependent adjustments: the expected ranks are parameters.
- Ranks beyond a power of two, environment variables, timers, profiling, reports and printing.
- Failure paths of allocation and of registering transports, and the destructor of the runtime.
