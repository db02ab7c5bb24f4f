# A model of the inference server's batching engine

The repository is an HTTP inference server: requests are parsed from a byte stream, rate limited, given a pooled
slot, queued per model and input size, batched by a dynamic scheduler, run on bounded executors and answered through
promises. This project models its stateful and algorithmic parts in Dafny and proves what they are for.

The **batching engine** comes first. `BatchConfig`, `BatchConfigLaw`, `BatchScheduler`, `SchedulerRuns`,
`SchedulerClock` and `DynamicBatchScheduler` hold the configuration rules, the three-way batch decision, the locked
scan, the sleep and the shutdown drain, as functions and as the object that refines them. `InferenceExecutor` is the
back-pressure gate over the thread pool as atomic steps. `Engine` composes handlers with their slots, the scheduler
thread, any number of executors and shutdown, the second `stop()` of the destructor included, into one step system;
`Places`, `EngineInvariants`, `EngineRuns`, `EngineAnswers`, `EngineTheorems`, `EngineReplies` and `EngineResults`
prove that every submitted request is answered exactly once, with which reply, and with its own result, over every
interleaving; `EngineProgress` that no run ends in a deadlock. `RequestSlotPool` is the slot pool under unlocked
releases; `SlotLending` puts handlers, pool and engine together under reference counting alone and proves that they
keep the engine's slot rules. `Pipeline` shows that running a batch works image by image, and the end-to-end result
rests on it.

The other components:

- `HttpParser`, `HttpContext`, `HttpRoundTrip`, `HttpConnection`, `HttpVerdicts`: the resumable request parser (a
  subset of RFC 9112), the objects that implement it, print/parse round trips, what a connection hands on, and exactly
  which header blocks are accepted, refused or end in an exception.
- `RateLimiter`, `RateLimiterLaw`: the token bucket with eviction, over real arithmetic, and which requests it denies.
- `ImageLayout`, `Pipeline`, `Segmentation`: tensor layouts and normalisation loops, the batched pipeline against the
  single-image path, per-pixel argmax.
- `Base64` (RFC 4648 section 4), `Nms` (greedy suppression), `ModelFactory` (the versioned registry) with
  `VersionOrder`, `ConversionManager` (the conversion queue), `Metrics` (lock-free recorders).
- `Common` and `Arithmetic` hold shared vocabulary.

Objects that the original updates in place are classes whose methods are proved equal to functions on values;
everything about whole runs is then proved of those functions, and what the functions themselves compute is stated
once more in terms of the inputs alone. Threads are step systems: a step is one critical section or one atomic
operation, and a theorem about a run holds for every interleaving. Clock readings, decoding, the model itself and the
order of hash maps and unstable sorts are parameters or choices, over which the theorems quantify.

## What the proofs found

Some expectations hold only under a condition; the condition is proved exact.

- The scan's dispatch test and the batch decision disagree, and a lone request starves, exactly when the smallest
  preferred size is below 1, 1 is not among them and the maximum is above 1 (`DispatchTestSound`, `StuckForever`).
  The configuration loader accepts such sizes (`LoadedUnstuckIff`, `LoaderLetsStickIn`).
- `stop()` answers everything accepted before its drain; a request accepted afterwards is answered exactly when
  another drain follows, as the destructor's `stop()` makes (`UnansweredIffNoDrainFollows`).
- The executor can hold `maxTotal + workers` tasks, one per worker more than its limit, for every positive limit
  (`BackPressureTight`).
- With a limit of zero or below the executor's gate never opens (`GateShut`), while its pool replaces a thread count of
  zero or below by a default.
- The handler looks for its reply in the result buffer, which is empty exactly for the requests that were refused or
  cancelled (`BufferEmptyIff`).
- One parse call is made per arriving segment, so a request that arrives in the same segment as its predecessor waits
  for further bytes (`OneRequestPerSegment`).
- Evicting idle rate-limit buckets is invisible exactly for `burst <= 60 * rate` or `burst <= 0`, and the window bound
  holds exactly for `0 <= burst <= 60 * rate`; otherwise a second full burst is allowed after a minute. Under the
  first condition a request is denied exactly when too many of its requester's earlier ones were allowed in some window
  ending with it (`ExactLawIff`).
- The default batch slicing by the second dimension is right exactly when that dimension is the sample's length
  (`SlicesMatchIff`); for outputs of shape {1, C, H, W} an image is given a piece of another image's output
  (`StackedBatch`).
- A batched image that does not decode is replaced by zeros and given a result, where the single-image path gives an
  error (`BatchIsSinglesIff`).
- A conversion is run with its own options exactly when no other queued job has its model path (`RightJobIff`); two
  queued conversions of one model can be run with each other's.
- The exported histogram counts strictly below each bound although the format means "at most".
- A bare-name model lookup takes its lock twice and misses a loaded name exactly when the version it read as the
  latest is unloaded in between and not registered again (`TwoLockLookup`).
- The class count a mask reports is its own output's exactly when no other count was configured or told by an earlier
  output (`MaskReportsOwnIff`).

Where documentation and code disagree the code is followed: a maximum queue size of 0 is documented as unlimited, but
means 1024.

## Model

| member | source | states |
|---|---|---|
| EngineTheorems.AnsweredExactlyOnce | WebApps/InferenceServer/src/DynamicBatchScheduler.cpp:59-500 | over every interleaving of handlers, scheduler, executors and shutdown, for every request ever submitted: its promise has no answer while it waits in its queue or at a plan position not reached yet, and exactly one otherwise; if it was not accepted the answer is "queue full" |
| EngineTheorems.ShutdownAnswersAll | WebApps/InferenceServer/src/DynamicBatchScheduler.cpp:59-85 | once shutdown has drained the queues, a submitted request has exactly one answer if and only if it is not in a queue |
| EngineTheorems.DrainAnswersEarlier | WebApps/InferenceServer/src/DynamicBatchScheduler.cpp:71-84 | any drain, the first or a later one, leaves no queue; right after it every request submitted before has exactly one answer, "shutting down" if it waited and the one it had otherwise |
| EngineTheorems.UnansweredIffNoDrainFollows | WebApps/InferenceServer/src/DynamicBatchScheduler.cpp:30-85 | in a stopped and drained engine a request accepted at some point of the run is unanswered if and only if no drain came after it; the second stop(), which the destructor makes, answers those accepted after the first |
| EngineTheorems.AnswersKept | WebApps/InferenceServer/src/DynamicBatchScheduler.cpp:59-500 | in every run an answer, once given, never changes |
| EngineTheorems.LateSubmissionAccepted | WebApps/InferenceServer/src/DynamicBatchScheduler.cpp:153-207 | submitting after a drain is accepted as before: submit does not look at the running flag |
| EngineTheorems.EnginePlansLawful | WebApps/InferenceServer/src/DynamicBatchScheduler.cpp:219-281 | under every configuration the loader accepts, every plan of every engine run obeys the batch-size law |
| EngineReplies.RepliesByOutcome | WebApps/InferenceServer/src/DynamicBatchScheduler.cpp:401-500 | over every run, said without the functions that compute replies: a completed plan whose results came back has promise i answered "ok" if and only if i is below their number, and "missing result" otherwise; one whose model threw has all answered "ok", one whose model was unknown "unknown model", and a refused plan "executor threw" |
| EngineReplies.TextsByOutcome | WebApps/InferenceServer/src/DynamicBatchScheduler.cpp:459-498 | and the text each slot that is still lent holds: result i, the exception's text, or the failure |
| EngineReplies.NeverMissing | WebApps/InferenceServer/src/DynamicBatchScheduler.cpp:425-484 | under models with regular outputs no request of a run is ever told that its result is missing |
| EngineReplies.FoundModelAnswersOk | WebApps/InferenceServer/src/DynamicBatchScheduler.cpp:425-484 | every completed request whose task found its model is answered "ok" |
| EngineReplies.QueuesStayWithinLimit | WebApps/InferenceServer/src/DynamicBatchScheduler.cpp:179-188 | in every state of every run no queue holds more than the configured maximum, or 1024 when that is not positive |
| EngineReplies.RefusedIffFull | WebApps/InferenceServer/src/DynamicBatchScheduler.cpp:179-188 | in every reached state a submission is answered "queue full" if and only if its queue holds exactly that many |
| EngineProgress.SchedulerNeverStuck | WebApps/InferenceServer/src/DynamicBatchScheduler.cpp:519-628 | no deadlock: in every state of every run the scheduler thread, its submissions to executors included, can take a step unless it has ended |
| EngineProgress.PlansNeverStuck | WebApps/InferenceServer/src/InferenceExecutor.cpp:24-48 | and if a plan has been handed to an executor and is not over, a worker of that executor can take a step |
| EngineProgress.ShutdownNeverStuck | WebApps/InferenceServer/src/DynamicBatchScheduler.cpp:59-85 | from the request to stop until the thread is joined, the scheduler thread or a worker can go on or the thread can be joined; afterwards the queues can be drained |
| EngineResults.OwnResult | WebApps/InferenceServer/src/DynamicBatchScheduler.cpp:357-484 | end to end: a request answered "ok" that still has its slot reads there the exception's text if its batch threw, and otherwise what the single-image path of the model it named makes of the very image it stored (of zeros, when in a batch it does not decode), however it was batched and interleaved |
| EngineResults.BufferEmptyIff | WebApps/InferenceServer/src/DynamicBatchScheduler.cpp:184-188 | an answered request that still has its slot finds the result buffer empty if and only if the reply is "queue full" or "shutting down"; otherwise the buffer holds the text that belongs to the reply |
| EngineResults.RunsOutcomes | WebApps/InferenceServer/src/DynamicBatchScheduler.cpp:425-457 | in every run each started batch holds what its model's batch method returns for the images collected for it, or the unknown-model outcome |
| EngineResults.BatchIsPredicted | WebApps/InferenceServer/src/ModelPipeline.cpp:174-274 | the batch method may be called for such models and returns what running the samples one by one gives |
| SlotLending.RunsRefine | WebApps/InferenceServer/src/RequestSlotPool.cpp:20-49 | refinement: handlers that take, copy and drop reference-counted slots, the pool under concurrency and the scheduler together only ever make steps the engine's slot rules allow, so every result about engine runs applies to them |
| SlotLending.StepRefines | WebApps/InferenceServer/src/RequestSlotPool.cpp:20-49 | each acquire, copy, submission, and drop of a reference is a legal step of the engine, or none; in particular a slot the scan finds free is nobody's, and the last reference goes only when no queue or unfinished plan knows the request |
| SlotLending.RunsLent | WebApps/InferenceServer/src/RequestSlotPool.cpp:20-49 | in every run each lease's count is the number of references held by handlers plus that of the travelling request |
| SlotLending.SlotsExclusive | WebApps/InferenceServer/src/RequestSlotPool.cpp:20-49 | no buffer is behind two live loans, so two requests on their way, or a request and another handler, never share one; a buffer somebody refers to is its own request's |
| SlotLending.TravelsWithSlot | WebApps/InferenceServer/src/DynamicBatchScheduler.cpp:357-366 | a request in an unfinished plan still refers to its buffer, whatever its handler has let go of |
| SlotLending.HandlerReads | WebApps/InferenceServer/src/DynamicBatchScheduler.cpp:465-478 | a handler that still refers to the buffer of an answered request reads there what belongs to the reply |
| EngineTheorems.RunsGood | WebApps/InferenceServer/src/DynamicBatchScheduler.cpp:59-628 | all invariants below hold in every state of every run from a freshly started engine |
| EngineTheorems.StepGood | WebApps/InferenceServer/src/DynamicBatchScheduler.cpp:59-628 | every single step keeps all of them |
| EngineTheorems.FreshGood | WebApps/InferenceServer/src/DynamicBatchScheduler.cpp:59-85 | a freshly started engine satisfies them |
| EngineRuns.KeepOrdered | WebApps/InferenceServer/src/DynamicBatchScheduler.cpp:519-583 | plans are handed over in order, one at a time, and shutdown goes through its stages in order |
| EngineRuns.KeepLinked | WebApps/InferenceServer/src/InferenceExecutor.cpp:11-48 | every task in an executor, its pool or its workers belongs to exactly the plan that is at that stage |
| EngineRuns.KeepNothingLost | WebApps/InferenceServer/src/DynamicBatchScheduler.cpp:405-500 | a plan accepted by an executor is always in its pool or in a worker's hands until it is completed |
| EngineRuns.MoveEffect | WebApps/InferenceServer/src/DynamicBatchScheduler.cpp:401-500 | a dispatch, hand-over, refusal, start, answer or end of a task moves exactly one plan one stage on and touches no queue |
| EngineRuns.StayEffect | WebApps/InferenceServer/src/DynamicBatchScheduler.cpp:519-583 | every other step leaves all plans' stages alone |
| EngineAnswers.KeepPromisesRight | WebApps/InferenceServer/src/DynamicBatchScheduler.cpp:425-499 | each promise of a plan is set to the reply its position calls for, in order, and each queued request is unanswered |
| EngineAnswers.KeepSlotsRight | WebApps/InferenceServer/src/DynamicBatchScheduler.cpp:357-366 | each lent slot holds the image its own request stored and the result, and no other, of that request |
| EngineAnswers.ResolveMove | WebApps/InferenceServer/src/DynamicBatchScheduler.cpp:459-478 | announcing the next result sets one promise, and that one was unset |
| EngineAnswers.RejectMove | WebApps/InferenceServer/src/DynamicBatchScheduler.cpp:486-499 | when the executor throws, every promise of the plan was unset and is set, once |
| EngineAnswers.ScanItems | WebApps/InferenceServer/src/DynamicBatchScheduler.cpp:539-575 | whatever a scan puts into plans or leaves behind was waiting in that very queue |
| Places.AllApart | WebApps/InferenceServer/src/DynamicBatchScheduler.cpp:153-207 | no request is in two places: plans, queues and cancellations never share an id |
| SchedulerRuns.EveryRun | WebApps/InferenceServer/src/DynamicBatchScheduler.cpp:153-281 | over every run of submissions, scans and drains: per key, taken plans followed by cancelled requests followed by the queue are the accepted submissions in order; every plan obeys the batch-size law for the queue its decision saw: MAX_BATCH the maximum, PREFERRED the largest preferred size that fitted, TIMEOUT the whole queue with no preferred size fitting and its head over age |
| SchedulerRuns.LoadedRuns | WebApps/InferenceServer/src/DynamicBatchScheduler.cpp:104-281 | the same from the empty scheduler under every configuration the loader accepts |
| SchedulerRuns.ExactlyOnePlace | WebApps/InferenceServer/src/DynamicBatchScheduler.cpp:153-281 | an accepted request occurs exactly once over plans, cancellations and queue |
| SchedulerRuns.PlansHomogeneous | WebApps/InferenceServer/src/DynamicBatchScheduler.cpp:297-301 | every plan the loop makes holds requests of one model and one input size only (224, 224 and 3 where none is given), so the split in executeBatch is never taken from there |
| SchedulerRuns.SubmitOutcome | WebApps/InferenceServer/src/DynamicBatchScheduler.cpp:179-203 | a submission in terms of the configured maximum alone: appended and counted when the queue holds fewer, answered "queue full" and counted as dropped otherwise |
| SchedulerRuns.EveryRunWithinLimit | WebApps/InferenceServer/src/DynamicBatchScheduler.cpp:179-188 | over every run of the scheduler no queue grows beyond that maximum |
| SchedulerRuns.ScanConserves | WebApps/InferenceServer/src/DynamicBatchScheduler.cpp:539-575 | one scan takes a prefix of each queue: plan followed by remainder is the old queue |
| SchedulerRuns.TakenLawful | WebApps/InferenceServer/src/DynamicBatchScheduler.cpp:219-281 | what a scan takes from a queue obeys that law |
| SchedulerRuns.TakenWhenWanted | WebApps/InferenceServer/src/DynamicBatchScheduler.cpp:553-564 | a queue passing the scan's test is given a non-empty plan, for every pair of clock readings |
| SchedulerRuns.IdleScan | WebApps/InferenceServer/src/DynamicBatchScheduler.cpp:534-575 | a scan that dispatches nothing changes nothing, and its deadline is the earliest of the waiting heads', strictly in the future |
| SchedulerClock.GuardNeverNeeded | WebApps/InferenceServer/src/DynamicBatchScheduler.cpp:618-623 | in every state that a run with a steady clock reaches under a loaded configuration with positive written sizes, the branch marked as unreachable is unreachable |
| SchedulerClock.SleepEndsInTime | WebApps/InferenceServer/src/DynamicBatchScheduler.cpp:584-617 | in every such state a sleep ends no later than max delay - min delay after the deadline of any request waiting before it or queued during it; in time for all when delays agree |
| SchedulerClock.WakesToWork | WebApps/InferenceServer/src/DynamicBatchScheduler.cpp:602-616 | in every such state, at the wake-up time some queue does want a batch, whatever was submitted meanwhile |
| SchedulerClock.IdleMeansNothingDue | WebApps/InferenceServer/src/DynamicBatchScheduler.cpp:545-574 | a scan of such a state that dispatches nothing leaves each waiting queue below its maximum and below every preferred size, with its head younger than the delay |
| SchedulerClock.ReachedSound | WebApps/InferenceServer/src/DynamicBatchScheduler.cpp:153-207 | every queue of such a state is sound and holds its requests in arrival order, none from the future |
| SchedulerClock.EveryTimedRun | WebApps/InferenceServer/src/DynamicBatchScheduler.cpp:153-575 | submissions, scans and drains with non-decreasing clock readings keep the queues in arrival order |
| SchedulerRuns.LatenessAttained | WebApps/InferenceServer/src/DynamicBatchScheduler.cpp:566-573 | the bound for mixed delays is reached |
| SchedulerRuns.GrownBySubmissions | WebApps/InferenceServer/src/DynamicBatchScheduler.cpp:166-203 | submissions during a sleep only append younger requests |
| BatchScheduler.BatchSizeLaw | WebApps/InferenceServer/src/DynamicBatchScheduler.cpp:219-281 | each decision takes exactly max when that many wait, else the largest preferred size that fits, else all once the head is over age, else nothing |
| BatchScheduler.LargestFittingIs | WebApps/InferenceServer/src/DynamicBatchScheduler.cpp:249-256 | the loop over sorted sizes ends at the largest one that fits |
| BatchScheduler.DispatchTestSound | WebApps/InferenceServer/src/DynamicBatchScheduler.cpp:219-281 | the scan's dispatch test implies a non-empty plan, for all queue lengths and clock readings, exactly when the smallest preferred size is at least 1, or 1 is among them, or the maximum is 1 |
| BatchScheduler.StuckForever | WebApps/InferenceServer/src/DynamicBatchScheduler.cpp:245-263 | in every other configuration a lone request is offered an empty batch however long it waits |
| BatchScheduler.LoadedUnstuckIff | HttpServer/include/utils/ConfigLoader.h:344-425 | without per-model overrides a written list of sizes leaves the queues unstuck if and only if all are positive, or 1 is among them, or the maximum is 1 |
| BatchScheduler.LoaderLetsStickIn | HttpServer/include/utils/ConfigLoader.h:344-425 | the loader accepts sizes 0 and 4, with which a lone request of any model is offered an empty batch however long it waits |
| BatchScheduler.PositiveNeverStuck | WebApps/InferenceServer/src/DynamicBatchScheduler.cpp:245-263 | preferred sizes of at least 1 exclude that |
| BatchScheduler.MicrosReached | WebApps/InferenceServer/src/DynamicBatchScheduler.cpp:229-230 | the truncating conversion reaches a delay exactly at the deadline |
| BatchConfig.LoadedQueueConfigLaw | HttpServer/include/utils/ConfigLoader.h:344-425 | every queue configuration produced by loading and resolving is sorted and bounded by its maximum; positive when no size below 1 was written |
| BatchConfig.LoadedSizesPositive | HttpServer/include/utils/ConfigLoader.h:397-425 | derivation and inheritance produce sizes of at least 1 from written sizes of at least 1 |
| BatchConfig.DerivedSizesLaw | HttpServer/include/utils/ConfigLoader.h:399-415 | sizes derived from a legacy batch size are increasing, within 1..batch size and contain it |
| BatchConfig.UsableSizesLaw | WebApps/InferenceServer/src/DynamicBatchScheduler.cpp:139-146 | the usable sizes are sorted, at most the maximum, and come from the list (or are the maximum) |
| BatchConfig.PreferredCanVanish | WebApps/InferenceServer/src/DynamicBatchScheduler.cpp:139-146 | when all written sizes exceed the maximum the queue is left without any preferred size |
| BatchConfig.CompleteOverrides | HttpServer/include/utils/ConfigLoader.h:416-425 | the in-place pass completes each override from the global values |
| BatchConfig.ResolveConfig | WebApps/InferenceServer/src/DynamicBatchScheduler.cpp:104-147 | the in-place resolution is Resolve |
| BatchConfig.DropAbove | WebApps/InferenceServer/src/DynamicBatchScheduler.cpp:143-146 | the remove_if pass keeps, in order, what is at most the maximum |
| BatchConfig.SortUniqueIncreasing | HttpServer/include/utils/ConfigLoader.h:350-356 | sort followed by unique: strictly increasing, same members |
| BatchConfigLaw.QueueConfigLaw | WebApps/InferenceServer/src/DynamicBatchScheduler.cpp:104-147 | the configuration a queue gets, from the written fields alone: the model's own override (by full name, else by the name before the last colon) wins field by field over the section's value, and that over the default; the sizes are the written ones no larger than the maximum, each once, in order |
| BatchConfigLaw.OverrideLaw | HttpServer/include/utils/ConfigLoader.h:363-425 | what loading leaves in an override |
| BatchConfigLaw.RejectedIff | HttpServer/include/utils/ConfigLoader.h:326-342 | the loader lets through exactly what leaves it with a positive batch size and delay |
| DynamicBatching.DynamicBatchScheduler.constructor | WebApps/InferenceServer/src/DynamicBatchScheduler.cpp:59-85 | an empty scheduler |
| DynamicBatching.DynamicBatchScheduler.FindOrCreate | WebApps/InferenceServer/src/DynamicBatchScheduler.cpp:169-176 | finds the queue of a key or creates it with its resolved configuration |
| DynamicBatching.DynamicBatchScheduler.Submit | WebApps/InferenceServer/src/DynamicBatchScheduler.cpp:153-207 | promise, queue creation, capacity check, append: the new shared state is SubmitTo of the old |
| DynamicBatching.DynamicBatchScheduler.PopFront | WebApps/InferenceServer/src/DynamicBatchScheduler.cpp:235-239 | the popping loop takes exactly the prefix |
| DynamicBatching.DynamicBatchScheduler.DecideBatch | WebApps/InferenceServer/src/DynamicBatchScheduler.cpp:219-281 | takes the prefix Decide calls for and leaves the rest |
| DynamicBatching.DynamicBatchScheduler.VisitQueue | WebApps/InferenceServer/src/DynamicBatchScheduler.cpp:543-574 | one queue of the scan |
| DynamicBatching.DynamicBatchScheduler.CollectReady | WebApps/InferenceServer/src/DynamicBatchScheduler.cpp:539-575 | the locked scan is ScanIn for some order of the map |
| DynamicBatching.DynamicBatchScheduler.ExecuteBatch | WebApps/InferenceServer/src/DynamicBatchScheduler.cpp:287-323 | an ordinary plan is dispatched as it is; a mixed one is split into one plan per model, and the recursion ends |
| DynamicBatching.DynamicBatchScheduler.GroupByModel | WebApps/InferenceServer/src/DynamicBatchScheduler.cpp:307-314 | grouping keeps each model's requests in order |
| DynamicBatching.DynamicBatchScheduler.ExecuteParts | WebApps/InferenceServer/src/DynamicBatchScheduler.cpp:315-319 | each part is dispatched once |
| DynamicBatching.DynamicBatchScheduler.Refuse | WebApps/InferenceServer/src/DynamicBatchScheduler.cpp:76-80 | one queue's requests are told of the shutdown |
| DynamicBatching.DynamicBatchScheduler.RejectRemaining | WebApps/InferenceServer/src/DynamicBatchScheduler.cpp:71-84 | the drain is DrainAll |
| DynamicBatching.SplitConserves | WebApps/InferenceServer/src/DynamicBatchScheduler.cpp:306-319 | splitting any plan dispatches each request exactly once, in a batch of its own model |
| DynamicBatching.PartAt | WebApps/InferenceServer/src/DynamicBatchScheduler.cpp:307-314 | each part carries the plan's input size and reason under its own model's name, and holds requests of that model only |
| DynamicBatching.OfModelHomogeneous | WebApps/InferenceServer/src/DynamicBatchScheduler.cpp:306-314 | a part holds one model only and is empty exactly when the model does not occur |
| InferenceExecutor.BackPressure | WebApps/InferenceServer/src/InferenceExecutor.cpp:11-48 | outstanding tasks never exceed the limit (or zero) plus the number of threads, which is the configured one, else the machine's, else 4, although the gate reads two counters separately |
| InferenceExecutor.BackPressureTight | WebApps/InferenceServer/src/InferenceExecutor.cpp:11-48 | and that bound is reached, for every pool size, whenever the limit is positive |
| InferenceExecutor.GateShut | WebApps/InferenceServer/src/InferenceExecutor.cpp:3-22 | a limit of zero or below never lets a task through, although the pool then starts threads of its own accord |
| InferenceExecutor.EveryReachable | WebApps/InferenceServer/src/InferenceExecutor.cpp:11-48 | counters, gate, first-in-first-out pool and drain hold in every reachable state |
| InferenceExecutor.NextCounters | WebApps/InferenceServer/src/InferenceExecutor.cpp:24-46 | every step, the rollback included, keeps the counters exact |
| InferenceExecutor.NextGate | WebApps/InferenceServer/src/InferenceExecutor.cpp:16-22 | what the gate has read of the queue counter stays an upper bound |
| InferenceExecutor.PoolDrains | WebApps/InferenceServer/src/ThreadPool.cpp:12-44 | tasks are started in the order they were enqueued, each at most once; when all workers are gone every task enqueued before the stop has run |
| InferenceExecutor.NextPool | WebApps/InferenceServer/src/ThreadPool.cpp:12-30 | every step keeps the pool first in, first out |
| InferenceExecutor.NextDraining | WebApps/InferenceServer/src/ThreadPool.cpp:21-22 | a worker leaves only an empty, stopped pool |
| RequestSlotPools.EveryPoolRun | WebApps/InferenceServer/src/RequestSlotPool.cpp:20-49 | over every interleaving of slot-by-slot scans, reference drops and unlocked releases: no slot behind two live leases, free plus lent is the capacity, a failed acquire began with all slots in use, a count lies between the free slots at its two ends |
| RequestSlotPools.StepSound | WebApps/InferenceServer/src/RequestSlotPool.cpp:20-49 | every step keeps that |
| RequestSlotPools.LendingDiscipline | WebApps/InferenceServer/src/RequestSlotPool.cpp:20-49 | a slot comes into someone's hands only while it is in nobody's and leaves them only with the last reference |
| RequestSlotPools.SlotGivenBackBehindTheScanIsMissed | WebApps/InferenceServer/src/RequestSlotPool.cpp:23-34 | a slot given back after the scan passed it is missed although free when acquire returns |
| RequestSlotPools.RequestSlotPool.constructor | WebApps/InferenceServer/src/RequestSlotPool.cpp:3-18 | all slots free, numbered |
| RequestSlotPools.RequestSlotPool.Acquire | WebApps/InferenceServer/src/RequestSlotPool.cpp:20-35 | hands out the first free slot, emptied, and changes no other; null exactly when none is free |
| RequestSlotPools.RequestSlotPool.Available | WebApps/InferenceServer/src/RequestSlotPool.cpp:37-44 | counts the free slots |
| RequestSlotPools.RequestSlotPool.Release | WebApps/InferenceServer/src/RequestSlotPool.cpp:46-49 | frees that slot only |
| RequestSlotPools.RequestSlot.Reset | WebApps/InferenceServer/include/RequestSlotPool.h:30-37 | clears the buffers, not the flag |
| HttpParser.SplitIndependent | HttpServer/src/http/HttpContext.cpp:10-123 | parsing A and then B behind the rest is parsing A ++ B in one call: state, request, verdict and unread bytes; a verdict reached is not changed by later bytes |
| HttpParser.AnySegmentation | HttpServer/src/http/HttpContext.cpp:10-123 | the same for any number of segments |
| HttpParser.ParseAgain | HttpServer/src/http/HttpContext.cpp:10-123 | calling again without new bytes changes nothing |
| HttpParser.Advance | HttpServer/src/http/HttpContext.cpp:14-121 | every round that goes on has fewer unread bytes, so each call ends |
| HttpParser.AdvanceExtends | HttpServer/src/http/HttpContext.cpp:14-121 | a round that does not wait for bytes does the same with more bytes behind it |
| HttpRoundTrip.PrintParse | HttpServer/src/http/HttpContext.cpp:10-168 | printing a well-formed request (RFC 9112 sections 3, 5 and 6.2) and parsing it gives back the same request and leaves exactly the bytes that followed; a body above the limit is refused unread |
| HttpRoundTrip.SegmentedRoundTrip | HttpServer/src/http/HttpContext.cpp:10-168 | the same however the bytes are cut |
| HttpRoundTrip.LineReadsBack | HttpServer/src/http/HttpContext.cpp:126-168 | the request line is read back: method, target, query map, version |
| HttpRoundTrip.QueryReadsBack | HttpServer/src/http/HttpRequest.cpp:75-106 | the query text is read back as the map of its pairs, later ones winning |
| HttpRoundTrip.FieldsReadBack | HttpServer/src/http/HttpContext.cpp:38-46 | the header block is read back field by field |
| HttpRoundTrip.BodyReadsBack | HttpServer/src/http/HttpContext.cpp:47-119 | the body is framed by the stated length |
| HttpRoundTrip.DecimalReadsBack | HttpServer/src/http/HttpContext.cpp:58-58 | the decimal text of a length is read as that length |
| HttpConnection.OneRequestPerSegment | HttpServer/src/http/HttpServer.cpp:126-207 | whatever well-formed requests are sent and however their bytes are cut: those handed on are the first ones sent, in order, unaltered, and their number is the one got by counting bytes, at most one per segment |
| HttpConnection.PipelinedRequestWaits | HttpServer/src/http/HttpServer.cpp:157-190 | of two requests in one segment the second stays unread until more bytes arrive |
| HttpConnection.SeparateRequestsAllAnswered | HttpServer/src/http/HttpServer.cpp:157-190 | requests arriving one per segment are all handed on |
| HttpConnection.AnswersInOrder | HttpServer/src/http/HttpServer.cpp:157-190 | the requests handed on are the first ones sent, in order |
| HttpConnection.IncompleteWaits | HttpServer/src/http/HttpContext.cpp:10-123 | a proper prefix of a message never yields a verdict |
| HttpConnection.CompleteIsRead | HttpServer/src/http/HttpContext.cpp:10-123 | a complete message in front is read exactly |
| HttpVerdicts.BlockVerdictIff | HttpServer/src/http/HttpContext.cpp:14-102 | over printed header blocks, naming no parsing function: the verdict is "bad" if and only if the line is not one of five methods, a target without blanks and one of two versions, or a field line has no colon, or a POST or PUT states no length; and an exception if and only if the stated length is no number of 64 bits |
| HttpVerdicts.BlockBody | HttpServer/src/http/HttpContext.cpp:52-119 | with a readable length: refused as too large above the limit, else the next so many bytes are the body, waited for if need be |
| HttpVerdicts.BlockSays | HttpServer/src/http/HttpContext.cpp:38-46 | the request read from an accepted block: method, path, query as its pieces say with later ones winning, version, and each header as its last line says, without the space around it |
| HttpVerdicts.RefusedHandsNothingOn | HttpServer/src/http/HttpServer.cpp:157-190 | a block with a bad or exceptional verdict is never handed on, however it and what follows are cut |
| HttpVerdicts.TooLargeIsLast | HttpServer/src/http/HttpServer.cpp:157-190 | a request with too large a body is handed on once, marked and without body, and nothing after it is, however the bytes are cut |
| HttpVerdicts.BadLineRefused | HttpServer/src/http/HttpContext.cpp:126-168 | a request line of any other form is refused as soon as it is complete, whatever follows |
| HttpVerdicts.StoulIff | HttpServer/src/http/HttpContext.cpp:58-58 | the length conversion succeeds exactly on an optional sign and digits below 2^64 in front |
| HttpContexts.HttpRequest.SetMethod | HttpServer/src/http/HttpRequest.cpp:12-42 | recognises exactly the five names |
| HttpContexts.HttpRequest.SetQueryParameters | HttpServer/src/http/HttpRequest.cpp:75-106 | the splitting loop is ParseQuery |
| HttpContexts.HttpRequest.SetPair | HttpServer/src/http/HttpRequest.cpp:87-95 | a piece without "=" is dropped |
| HttpContexts.HttpRequest.SetTargetText | HttpServer/src/http/HttpContext.cpp:136-145 | path and query split at the first question mark |
| HttpContexts.HttpRequest.SetVersionText | HttpServer/src/http/HttpContext.cpp:147-164 | accepts exactly the two versions |
| HttpContexts.HttpContext.TargetAndVersion | HttpServer/src/http/HttpContext.cpp:131-166 | target and version, with what a refused line leaves behind |
| HttpContexts.HttpRequest.AddHeaderLine | HttpServer/src/http/HttpRequest.cpp:108-122 | the trimming loops store the trimmed value |
| HttpContexts.HttpRequest.Swap | HttpServer/src/http/HttpRequest.cpp:135-147 | exchanges all fields, path parameters and receive time included |
| HttpContexts.HttpContext.Reset | HttpServer/include/http/HttpContext.h:36-42 | a fresh request, ready for the next call |
| HttpContexts.HttpContext.ProcessRequestLine | HttpServer/src/http/HttpContext.cpp:126-168 | accepts and stores exactly what RequestLine says, also on failure |
| HttpContexts.HttpContext.EndOfHeaders | HttpServer/src/http/HttpContext.cpp:47-96 | the blank line: body, completion, missing length, unreadable length, too large |
| HttpContexts.HttpContext.OneLine | HttpServer/src/http/HttpContext.cpp:16-102 | one complete line |
| HttpContexts.HttpContext.ReadBody | HttpServer/src/http/HttpContext.cpp:103-120 | the body once it has arrived |
| HttpContexts.HttpContext.ParseRequest | HttpServer/src/http/HttpContext.cpp:10-123 | the loop is Parse, it ends, and the object may be called again unless complete or failed |
| RateLimiter.EvictionInvisibleIff | HttpServer/src/middleware/RateLimitMiddleware.cpp:16-57 | answers of the evicting limiter equal those of one that never evicts, in every run of every requester, if and only if burst <= 60 * rate or burst <= 0 |
| RateLimiter.WindowBoundIff | HttpServer/src/middleware/RateLimitMiddleware.cpp:16-57 | in every run and window at most burst + rate * length requests of a requester are allowed, if and only if 0 <= burst <= 60 * rate |
| RateLimiterLaw.ExactLawIff | HttpServer/src/middleware/RateLimitMiddleware.cpp:16-57 | a request at t is denied if and only if for some s not after t more than burst + rate * (t - s) - 1 of that requester's earlier requests were allowed in [s, t]; this holds in every run of every requester exactly when burst <= 60 * rate or burst <= 0 |
| RateLimiter.IdleIsFull | HttpServer/src/middleware/RateLimitMiddleware.cpp:44-57 | what eviction forgets would be a full bucket at its next use |
| RateLimiter.InsideWindow | HttpServer/src/middleware/RateLimitMiddleware.cpp:16-42 | without eviction no more is drawn from a bucket than it holds plus what flows in |
| RateLimiter.BothBurstsAllowed | HttpServer/src/middleware/RateLimitMiddleware.cpp:44-57 | the run that shows eviction: a full burst twice, just over a minute apart |
| RateLimiter.SecondBurstDenied | HttpServer/src/middleware/RateLimitMiddleware.cpp:16-42 | which a limiter without eviction does not allow |
| RateLimiter.RateLimitMiddleware.Allow | HttpServer/src/middleware/RateLimitMiddleware.cpp:16-42 | refill, draw, clean up: the answer and the new state |
| RateLimiter.RateLimitMiddleware.MaybeCleanup | HttpServer/src/middleware/RateLimitMiddleware.cpp:44-57 | erases exactly the entries idle for more than a minute, at most once a minute |
| ImageLayout.LayoutBijection | WebApps/InferenceServer/src/ImagePreprocessor.cpp:100-108 | the pixel-major to channel-major index map is a bijection of the tensor's positions, with its inverse |
| ImageLayout.LayoutsAgree | WebApps/InferenceServer/src/ImagePreprocessor.cpp:75-110 | both layouts hold the same values, rearranged by that bijection |
| ImageLayout.ImagePreprocessor.Preprocess | WebApps/InferenceServer/src/ImagePreprocessor.cpp:36-112 | fails exactly on an invalid size or an image that does not decode; else every value is the decoded byte times its channel's scale plus its bias, at the place the layout asks for |
| ImageLayout.ImagePreprocessor.PreprocessInto | WebApps/InferenceServer/src/ImagePreprocessor.cpp:114-196 | the same values at the offset and nothing else written; fails without writing exactly when it does not fit, has no size or does not decode |
| ImageLayout.ImagePreprocessor.PreparedStands | WebApps/InferenceServer/src/ImagePreprocessor.cpp:36-112 | from the configured sizes, scale and bias alone: there is a tensor exactly when the size is positive and the image decodes, and channel c of row y, column x is the decoded byte times scale[c] plus bias[c], at (c*H+y)*W+x or (y*W+x)*C+c |
| ImageLayout.ImagePreprocessor.NormalisedOnce | WebApps/InferenceServer/src/ImagePreprocessor.cpp:75-110 | and no other tensor of that size has these values |
| ImageLayout.NormalizeHwc | WebApps/InferenceServer/src/ImagePreprocessor.cpp:75-87 | the three-at-a-time loop and the general loop compute the same tensor |
| ImageLayout.HwcThree | WebApps/InferenceServer/src/ImagePreprocessor.cpp:76-81 | three-channel loop |
| ImageLayout.HwcGeneral | WebApps/InferenceServer/src/ImagePreprocessor.cpp:82-87 | general loop |
| ImageLayout.NormalizeChw | WebApps/InferenceServer/src/ImagePreprocessor.cpp:88-109 | the three-plane fast path and the general triple loop compute the same tensor |
| ImageLayout.ThreeChannels | WebApps/InferenceServer/src/ImagePreprocessor.cpp:90-98 | three-plane fast path, one pixel |
| ImageLayout.AllChannels | WebApps/InferenceServer/src/ImagePreprocessor.cpp:100-107 | general loop, one pixel: the index (c*H+y)*W+x is the channel-major one |
| ImageLayout.ChwGeneral | WebApps/InferenceServer/src/ImagePreprocessor.cpp:100-108 | the loops over rows, columns and channels fill all planes |
| ImageLayout.ChwThree | WebApps/InferenceServer/src/ImagePreprocessor.cpp:90-98 | three-plane fast path, all pixels |
| ImageLayout.TripleIndex | WebApps/InferenceServer/src/ImagePreprocessor.cpp:104-104 | (c*H+y)*W+x is plane c, pixel y*W+x |
| Pipeline.ModelPipeline.BatchIsSinglesIff | WebApps/InferenceServer/src/ModelPipeline.cpp:174-274 | for every model with outputs of one shape, what the batch method returns is the single-image results, one by one, if and only if the model takes one image at a time, or there is no image, or the shape is valid, no sample throws and each image decodes (or zeros happen to give the decode error's text) |
| Pipeline.ModelPipeline.StackedBatch | WebApps/InferenceServer/src/Postprocessor.cpp:31-39 | for outputs of shape {1, C, H, W} the default slicing gives image i the text of piece i mod HW of length C of the output of the image at a HW-th of its place in the chunk, its own if and only if HW is 1 or it is the first of its chunk |
| Pipeline.ModelPipeline.BatchIsMapIff | WebApps/InferenceServer/src/ModelPipeline.cpp:174-274 | for any number of images and any chunk size the batch equals the single-image path, image by image, if and only if each image does so on its own |
| Pipeline.ModelPipeline.SameAsSingleWhen | WebApps/InferenceServer/src/ModelPipeline.cpp:243-251 | and an image does exactly when the model does not throw on its sample and it decodes (or a sample of zeros happens to give the decode error's text) |
| Pipeline.ModelPipeline.ResultsIndependent | WebApps/InferenceServer/src/ModelPipeline.cpp:243-251 | result i depends on image i only, also when other images do not decode |
| Pipeline.ModelPipeline.PredictBatch | WebApps/InferenceServer/src/ModelPipeline.cpp:174-274 | for any model whose outputs are long enough to be cut up: the maxBatch <= 1 fallback, invalid shapes, and otherwise the chunks' results in order up to the first exception |
| Pipeline.ModelPipeline.PredictChunks | WebApps/InferenceServer/src/ModelPipeline.cpp:198-272 | the chunk loop |
| Pipeline.ModelPipeline.RegularBatch | WebApps/InferenceServer/src/ModelPipeline.cpp:174-274 | when all outputs of the model have one shape, that is one result per image in order, or the first exception; chunks do not show |
| Pipeline.ModelPipeline.PredictChunk | WebApps/InferenceServer/src/ModelPipeline.cpp:210-272 | one chunk: run, concatenate, cut up again |
| Pipeline.ModelPipeline.PrepareChunk | WebApps/InferenceServer/src/ModelPipeline.cpp:213-252 | the batch buffer is the concatenation of the samples, zeros where one does not decode |
| Pipeline.ModelPipeline.PredictOne | WebApps/InferenceServer/src/ModelPipeline.cpp:95-149 | the single-image path with its two error results |
| Pipeline.ModelPipeline.SingleLaw | WebApps/InferenceServer/src/ModelPipeline.cpp:112-172 | the single-image path from the configured sizes: the decode error's text, the exception's, or the postprocessor's of the model run on a batch of one in the preprocessor's layout, dimension by dimension |
| Pipeline.ModelPipeline.SampleLaw | WebApps/InferenceServer/src/ModelPipeline.cpp:174-232 | in a batch an image that decodes gives its own tensor, any other one zeros |
| Pipeline.ModelPipeline.NoSizeLaw | WebApps/InferenceServer/src/ModelPipeline.cpp:174-200 | without a usable size every image of a batch is answered with that |
| Pipeline.ModelPipeline.InferBatch | WebApps/InferenceServer/src/InferenceBackend.cpp:30-61 | the default batch inference concatenates the samples' outputs and rewrites the first shape; it throws what the first throwing sample throws |
| Pipeline.ModelPipeline.BatchOutputLaw | WebApps/InferenceServer/src/InferenceBackend.cpp:30-61 | the batch output is the first exception, or the single outputs one behind the other under the first one's shape with the number of samples in front |
| Pipeline.ModelPipeline.PerSample | WebApps/InferenceServer/src/InferenceBackend.cpp:41-43 | the product of the dimensions behind the first |
| Pipeline.ModelPipeline.PostprocessBatch | WebApps/InferenceServer/src/Postprocessor.cpp:20-41 | both batch postprocessors: equal slices by the second dimension or of an even share, each treated as a single output, whenever they lie within the output |
| Pipeline.SlicesMatchIff | WebApps/InferenceServer/src/Postprocessor.cpp:31-39 | slices of a given length give the samples' outputs back if and only if that length is theirs (so the default slicing is wrong for shapes like {1, C, H, W}) |
| Pipeline.SliceOfConcat | WebApps/InferenceServer/src/InferenceBackend.cpp:48-52 | cutting a concatenation of equal parts gives the parts back |
| Segmentation.LayoutDoesNotMatter | WebApps/InferenceServer/src/SegmentationPostprocessor.cpp:80-104 | the class map is the same for channel-major and pixel-major buffers of the same logits |
| Segmentation.SameMaskForBothLayouts | WebApps/InferenceServer/src/SegmentationPostprocessor.cpp:44-149 | so is the whole mask |
| Segmentation.FirstMax | WebApps/InferenceServer/src/SegmentationPostprocessor.cpp:93-100 | the chosen class has the largest value, and is the first such |
| Segmentation.BestClass | WebApps/InferenceServer/src/SegmentationPostprocessor.cpp:93-101 | the running maximum finds it, kept to eight bits |
| Segmentation.ArgmaxMap | WebApps/InferenceServer/src/SegmentationPostprocessor.cpp:89-103 | the loops visit every pixel once, in row order |
| Segmentation.SegmentationPostprocessor.Postprocess | WebApps/InferenceServer/src/SegmentationPostprocessor.cpp:18-151 | the mask, and what the call leaves in the two members |
| Segmentation.MaskDecodes | WebApps/InferenceServer/src/SegmentationPostprocessor.cpp:119-139 | decoding the mask's text gives the class map |
| Segmentation.MaskLaw | WebApps/InferenceServer/src/SegmentationPostprocessor.cpp:41-149 | a mask made of four dimensions, as its reader sees it: height and width from the layout's dimensions, and in the decoded data, for each row and column, the first class with the largest logit, kept to eight bits |
| Segmentation.ClassMapLaw | WebApps/InferenceServer/src/SegmentationPostprocessor.cpp:59-109 | of three or two dimensions: height and width as the shape says, and the values without what is behind the point |
| Segmentation.MaskReportsOwnIff | WebApps/InferenceServer/src/SegmentationPostprocessor.cpp:112-116 | over any sequence of outputs the k-th mask reports the class count settled by the configuration or an earlier output, and its own output's count if and only if none was settled before, or the same |
| Segmentation.ClassCountSticks | WebApps/InferenceServer/src/SegmentationPostprocessor.cpp:112-112 | the member holds the settled count from then on, for any configured count and any output ranks |
| Segmentation.SettledByFirst | WebApps/InferenceServer/src/SegmentationPostprocessor.cpp:34-67 | without a configured count the settled one is that of the first non-empty output telling a positive count |
| Base64.RoundTrip | HttpServer/include/utils/Base64.h:25-60 | decoding an encoding with blanks inserted anywhere gives the bytes back (RFC 4648 section 4) |
| Base64.RoundTripBehindHeader | HttpServer/include/utils/Base64.h:27-32 | also behind any "data:" header |
| Base64.PlainRoundTrip | WebApps/InferenceServer/src/SegmentationPostprocessor.cpp:119-137 | decode after encode is the identity on all byte strings |
| Base64.RefusedTexts | HttpServer/include/utils/Base64.h:25-60 | a character that is no letter, no blank and not behind a "=" gives no bytes at all, nor does a data header without a comma |
| Base64.StandardExamples | WebApps/InferenceServer/src/SegmentationPostprocessor.cpp:119-137 | the examples of section 10 of RFC 4648 |
| Base64.EncodedLength | WebApps/InferenceServer/src/SegmentationPostprocessor.cpp:119-137 | the encoded length is 4 * ceil(n / 3) |
| Base64.MachineIsGroups | HttpServer/include/utils/Base64.h:38-58 | the accumulator gives the bytes of the four-character groups, whatever was left in it before |
| Base64.WrappingIsHarmless | HttpServer/include/utils/Base64.h:38-58 | a wrapping 32-bit accumulator gives the same bytes as an unbounded one |
| Base64.BlanksAreSkipped | HttpServer/include/utils/Base64.h:44-45 | blanks make no difference |
| Base64.AlphabetLetter | HttpServer/include/utils/Base64.h:16-17 | the alphabet lists the letters by value |
| Base64.LetterValue | HttpServer/include/utils/Base64.h:11-23 | a letter stands for its value, no other character does |
| Base64.DecodeTable | HttpServer/include/utils/Base64.h:11-23 | the filled table holds every letter's value and -1 elsewhere |
| Base64.DecodeText | HttpServer/include/utils/Base64.h:38-59 | the decoding loop |
| Base64.Base64Decode | HttpServer/include/utils/Base64.h:25-60 | the decoder with its header and error cases is Decode |
| Base64.Base64Encode | WebApps/InferenceServer/src/SegmentationPostprocessor.cpp:119-137 | the encoder's loop and padding patch give the encoding |
| Base64.PatchedIsEncoded | WebApps/InferenceServer/src/SegmentationPostprocessor.cpp:134-137 | overwriting the last letters by "=" is the padding |
| Base64.FourValues | WebApps/InferenceServer/src/SegmentationPostprocessor.cpp:126-132 | the shifts and masks of the 24-bit word pick the four values |
| Nms.Nms | WebApps/InferenceServer/src/DetectionPostprocessor.cpp:24-42 | the loop is the greedy selection for the order its sort produced |
| Nms.GreedyIsUnique | WebApps/InferenceServer/src/DetectionPostprocessor.cpp:24-42 | the selection is the only set without clashes in which every other box of sufficient score is beaten by an earlier chosen one |
| Nms.GreedyIsCanonical | WebApps/InferenceServer/src/DetectionPostprocessor.cpp:24-42 | the selection is such a set |
| Nms.Survivors | WebApps/InferenceServer/src/DetectionPostprocessor.cpp:33-40 | survivors: non-increasing scores, at least the threshold, pairwise overlap below the limit |
| Nms.Rejected | WebApps/InferenceServer/src/DetectionPostprocessor.cpp:33-40 | a rejected box of sufficient score overlaps a survivor of at least its score |
| Nms.Idempotent | WebApps/InferenceServer/src/DetectionPostprocessor.cpp:24-42 | running again on the survivors rejects none, whatever order the second sort picks |
| Nms.IouSymmetric | WebApps/InferenceServer/src/DetectionPostprocessor.cpp:15-22 | overlap ratio is symmetric |
| Nms.IouInUnitInterval | WebApps/InferenceServer/src/DetectionPostprocessor.cpp:15-22 | and lies in [0, 1] for well-formed boxes |
| Nms.IouIsRatio | WebApps/InferenceServer/src/DetectionPostprocessor.cpp:15-22 | the common area over the areas of both less what they share, 0 when they have no area |
| Nms.IouOfItself | WebApps/InferenceServer/src/DetectionPostprocessor.cpp:15-22 | 1 for a box of positive area and itself |
| Nms.IouOfDisjoint | WebApps/InferenceServer/src/DetectionPostprocessor.cpp:15-22 | 0 for boxes one of which ends where the other begins |
| Nms.SortByScore | WebApps/InferenceServer/src/DetectionPostprocessor.cpp:29-31 | the indices by non-increasing score |
| Nms.Cut | WebApps/InferenceServer/src/DetectionPostprocessor.cpp:117-121 | at most the limit are kept, and none dropped scores more than one kept |
| ModelFactories.CompareTotalPreorder | WebApps/InferenceServer/src/ModelFactory.cpp:15-42 | version comparison is a total preorder |
| ModelFactories.CompareEqual | WebApps/InferenceServer/src/ModelFactory.cpp:35-41 | equal exactly when all components agree, missing ones counting as 0 |
| ModelFactories.CompareTransitive | WebApps/InferenceServer/src/ModelFactory.cpp:15-42 | transitive, also strictly |
| ModelFactories.CompareAntisymmetric | WebApps/InferenceServer/src/ModelFactory.cpp:15-42 | swapping the versions negates the result |
| ModelFactories.ParseComponents | WebApps/InferenceServer/src/ModelFactory.cpp:17-31 | the loop finds the maximal digit runs |
| ModelFactories.CompareVersions | WebApps/InferenceServer/src/ModelFactory.cpp:33-41 | the comparing loop |
| VersionOrder.NumberInBaseTen | WebApps/InferenceServer/src/ModelFactory.cpp:17-31 | each digit of a run stands at its power of ten |
| VersionOrder.Separated | WebApps/InferenceServer/src/ModelFactory.cpp:17-31 | what is not a digit separates the numbers in front of it from those behind |
| VersionOrder.FirstDifferenceDecides | WebApps/InferenceServer/src/ModelFactory.cpp:33-41 | the first number that differs decides, the smaller one being the earlier version |
| VersionOrder.LastNumberDecides | WebApps/InferenceServer/src/ModelFactory.cpp:15-42 | versions differing in the last number only are ordered by that number |
| VersionOrder.TenAfterNine | WebApps/InferenceServer/src/ModelFactory.cpp:15-42 | 1.10 comes after 1.9 |
| ModelFactories.ParseNamed | WebApps/InferenceServer/src/ModelFactory.cpp:7-13 | a printed "name:version" is split back; a name without a colon has no version |
| ModelFactories.ModelFactory.RegisterModel | WebApps/InferenceServer/src/ModelFactory.cpp:75-91 | registers in all maps; the latest version is replaced exactly by one that is greater |
| ModelFactories.ModelFactory.UnloadModel | WebApps/InferenceServer/src/ModelFactory.cpp:126-155 | unloads exactly a loaded version, drops a name with its last one, recomputes the latest |
| ModelFactories.ModelFactory.Get | WebApps/InferenceServer/src/ModelFactory.cpp:93-110 | the lookup by spec |
| ModelFactories.NewLatest | WebApps/InferenceServer/src/ModelFactory.cpp:146-151 | the pass finds a version than which none is greater |
| ModelFactories.EveryRegistryRun | WebApps/InferenceServer/src/ModelFactory.cpp:75-155 | over every run: the four maps agree, no name is empty, the latest version is loaded and none loaded is greater |
| ModelFactories.RegisterSound | WebApps/InferenceServer/src/ModelFactory.cpp:75-91 | registering keeps that |
| ModelFactories.UnloadSound | WebApps/InferenceServer/src/ModelFactory.cpp:126-155 | unloading keeps that |
| ModelFactories.LookupFindsIff | WebApps/InferenceServer/src/ModelFactory.cpp:93-110 | in every reachable registry a lookup succeeds if and only if the version named, or any when none is named, is loaded |
| ModelFactories.BareNameFindsLatest | WebApps/InferenceServer/src/ModelFactory.cpp:93-110 | a bare name finds a version than which none loaded is greater |
| ModelFactories.TwoLockLookup | WebApps/InferenceServer/src/ModelFactory.cpp:93-98 | the lookup of a bare name locks twice: with any operations in between it fails for a loaded name if and only if the version that was latest was unloaded and not registered again; otherwise it gives that version's engine; without an unloading of that version it cannot fail |
| ModelFactories.LoadedThroughoutButMissed | WebApps/InferenceServer/src/ModelFactory.cpp:93-98 | so one unloading of the latest of two versions makes it miss a name that is loaded throughout |
| ModelFactories.FollowsEngine | WebApps/InferenceServer/src/ModelFactory.cpp:75-155 | after any operations the engine behind a version is decided by the last one that concerns it |
| ModelFactories.LoadedAsRegistered | WebApps/InferenceServer/src/ModelFactory.cpp:75-155 | in every run a loaded version has the engine and the metadata it was last registered with |
| ConversionManagers.QueueMatchesJobs | WebApps/InferenceServer/src/ConversionManager.cpp:54-146 | in every run with fresh ids: at the top of the worker's loop each model path has as many queue entries as queued jobs, a dequeued entry finds a job, and the skip never happens |
| ConversionManagers.StatusOnlyAdvances | WebApps/InferenceServer/src/ConversionManager.cpp:115-145 | a job goes Queued, Running, then Completed or Failed, one at a time, and then never changes |
| ConversionManagers.RightJobIff | WebApps/InferenceServer/src/ConversionManager.cpp:102-110 | in every reached state the entry to be dequeued is the options of the job it was submitted with, and the job found is that job, for every scan order, if and only if no other queued job has its path |
| ConversionManagers.OneMatchRunsRightJob | WebApps/InferenceServer/src/ConversionManager.cpp:92-146 | in every run that never dequeues while two queued jobs have the entry's path, however often a model is converted again, each job is built with its own options, oldest first |
| ConversionManagers.DistinctPathsRunRightJob | WebApps/InferenceServer/src/ConversionManager.cpp:92-146 | in every run with distinct paths each job is built with its own options, oldest first |
| ConversionManagers.SameModelMayBeMixedUp | WebApps/InferenceServer/src/ConversionManager.cpp:102-110 | with two submissions of one model the second job may be run with the first one's options |
| ConversionManagers.RunBalanced | WebApps/InferenceServer/src/ConversionManager.cpp:54-146 | the counting invariant over every run |
| ConversionManagers.ConversionEnds | WebApps/InferenceServer/src/ConversionManager.cpp:130-145 | in every run a build that succeeds leaves its job completed, at 100 percent and with its file's size; one that fails leaves it failed with the last message as error; the worker is free and no other job touched |
| ConversionManagers.JobsTell | WebApps/InferenceServer/src/ConversionManager.cpp:54-146 | in every run what a client reads off a job agrees with its status |
| ConversionManagers.ConversionManager.SubmitJob | WebApps/InferenceServer/src/ConversionManager.cpp:54-68 | records and queues the job |
| ConversionManagers.ConversionManager.TakeNext | WebApps/InferenceServer/src/ConversionManager.cpp:100-111 | dequeues and finds a match, or nothing exactly when there is none |
| ConversionManagers.ConversionManager.StartJob | WebApps/InferenceServer/src/ConversionManager.cpp:115-119 | marks the job running |
| ConversionManagers.ConversionManager.FinishJob | WebApps/InferenceServer/src/ConversionManager.cpp:130-144 | marks the job completed, with the engine file's size, or failed |
| Metrics.NothingLost | HttpServer/include/utils/MetricsCollector.h:223-253 | however the atomic steps of racing recorders interleave, once all are done totals, errors and sums are exact and minimum and maximum are the true ones |
| Metrics.EveryMetricsRun | HttpServer/include/utils/MetricsCollector.h:195-253 | at every moment each counter is what the recorders have put in so far |
| Metrics.HistogramIsCumulative | HttpServer/include/utils/MetricsCollector.h:439-458 | each cumulative line counts exactly what is strictly below its bound, the last one everything |
| Metrics.BoundIsInclusiveIff | HttpServer/include/utils/MetricsCollector.h:454-458 | reading a line as "at most its bound" is right if and only if nothing recorded equals the bound |
| Metrics.StepExtremes | HttpServer/include/utils/MetricsCollector.h:232-244 | every step of the compare-exchange loops keeps minimum and maximum sound |
| Metrics.StepCounted | HttpServer/include/utils/MetricsCollector.h:226-252 | every step keeps the counters exact |
| Metrics.BucketOf | HttpServer/include/utils/MetricsCollector.h:247-251 | the bucket is the first whose bound is above the latency |
| Metrics.BoundsIncrease | HttpServer/include/utils/MetricsCollector.h:209-251 | the bounds of endpoint and model metrics are increasing |

## Left out

- The event loop, sockets, TLS, connection lifetime after shutdown, routing, sessions, databases and page handlers.
- Decoding and resizing of images, the model itself and JSON text: functions from bytes or tensors to values, without memory.
- Floating point: scores, tokens, pixels and times are reals. Division by a zero standard deviation is excluded by taking the per-channel scale and bias as given.
- Integer widths are unbounded except where they matter: `std::stoul`, the base64 accumulator and the eight-bit class value are modelled at their width. Counters that overflow after 2^63 events and digit runs beyond `int` are not modelled.
- A float class value outside 0..255 has no defined conversion in the original; `Segmentation.Truncate` gives 0.
- Condition variables are modelled by their predicates: a sleep changes nothing, and a lost wake-up is not excluded. Progress is proved as the absence of deadlock: some step is always possible. That a run does come to an end, under a fair scheduler and with an executor whose gate opens at all, is not proved.
- Weak memory: shared variables outside `Metrics` are read and written one step at a time; in `Metrics` a load may give any older value.
- InferenceExecutor.BackPressure: one submitting thread and tasks that end normally, as in the scheduler's use of it.
- EngineResults.OwnResult: a model name stands for one pipeline, loaded or not when a task starts; its postprocessor has no memory, so the segmentation postprocessor's members are left to `Segmentation`. A task that throws something other than a standard exception is not modelled; the executor choice by model name is any choice.
- EngineAnswers.KeepSlotsRight: a slot keeps its image after it has been collected for a batch, where the original moves the bytes out; nothing reads them again.
- EngineTheorems.UnansweredIffNoDrainFollows: a submission after the scheduler has been destroyed is not modelled.
- SlotLending.RunsRefine: when exactly the finished task drops its references is left open; it is some time after the request's last use of the slot.
- HttpConnection.OneRequestPerSegment: after a parse error or too large a body the connection is taken as ended, although a half-closed connection may still deliver bytes.
- HttpContexts.HttpContext.ParseRequest: the receive time, which one round sets from a parameter, and the trace object are not set; the assertion in `setMethod` is a precondition, so a context whose request line failed may not be parsed again.
- HttpParser: header names are compared as written, there is no chunked coding, and HEAD is never produced, as in the original.
- Pipeline.ModelPipeline.PredictBatch: the serial preparation loop is the definition; the pooled one, whose workers see a thread-local buffer, is not modelled. Slices that reach beyond the output, which the original reads all the same, are excluded. Logging, timing and metrics calls are dropped.
- ImageLayout.ImagePreprocessor.Preprocess: pairs of negative dimensions are excluded.
- Pipeline.ModelPipeline.PredictChunks: the same holds of its slices.
- Pipeline.ModelPipeline.PredictChunk: the same holds of its slices.
- Pipeline.ModelPipeline.PostprocessBatch: slices that reach beyond the output, where the original reads foreign memory, are excluded. `DetectionPostprocessor::postprocessBatch`, which does not slice, is not modelled; nor is the decoding of detection grids and of their legacy shapes.
- Nms.Nms: the sort is an insertion sort here; the results quantify over every order a sort may give.
- ModelFactories.NewLatest: which of several equally great versions becomes the latest depends on the map's order and is left open.
- ModelFactories.ModelFactory.Get: engines are non-null numbers; listing models and reading metadata fields are left out.
- ConversionManagers.QueueMatchesJobs: job ids are fresh (the original draws 64 random bits); building an engine is its outcome; a missing engine file, on which the worker thread ends, is not modelled.
- Metrics: `recordBatchMetrics` follows the same protocol without buckets and has no model of its own; the JSON exporter is left out.
- RateLimiter: both clock readings are parameters and lie after the clock's epoch.
- The superseded request batcher, trace timestamps, logging, hardware detection and configuration advice.
