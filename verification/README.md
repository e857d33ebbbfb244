# A verified model of the branch-prediction simulator

The repository simulates a processor cycle by cycle to measure a TAGE-SC-L branch predictor. This project
models its stateful components and the `step` function that drives them, and proves what each keeps over
every run. The pipeline, the lanes, the caches, the store queue and the prefetcher are composed in one
simulator object; the checkpoint protocol between history and TAGE's tables is driven by what that
simulator tells the predictor. The loop predictor, the statistical corrector and the dependency graph are
verified on their own.

| files | what they model |
|---|---|
| `pipeline*.dfy` | `step` and the four `eval_*` functions as a state machine over window, queues and the log of notifications; its invariant and the theorems about whole runs |
| `fetch_bundle.dfy` | which micro-ops share a fetch cycle, and exactly when fetch moves on |
| `uarchsim.dfy` | the simulator object: the same `step` in place, refining the state machine and composed with the back end |
| `execution_rules.dfy`, `backend.dfy` | the cycles of a micro-op: operands, lanes, caches, store queue, prefetch draining, lane base cycles; as rules on values, and in place |
| `back_run.dfy` | the back end over whole runs: its lanes, its memory and its store queue |
| `dataflow.dfy`, `admission.dfy` | that micro-ops execute after the producers of their sources, and which latencies keep the pipeline's order |
| `store_queue.dfy`, `memory_system.dfy` | store-to-load forwarding, and the caches as the simulator connects them |
| `resource_schedule.dfy`, `first_fit.dfy` | the lane scheduler's ring, and when it is first-fit allocation over all cycles |
| `lru_set.dfy`, `cache_levels.dfy`, `cache.dfy`, `cache_runs.dfy`, `cache_arrival.dfy` | one set under LRU, the hierarchy as values, the cache object, and whole request sequences: what is held, and when it arrived |
| `stride_table.dfy`, `stride_learning.dfy`, `stride_prefetcher.dfy` | the prediction table, what it learns over runs, and the prefetcher object with its queue |
| `folded_history.dfy`, `tage_history.dfy`, `history_bits.dfy` | the folded registers, the history ring with `HistoryUpdate`, and what one branch leaves in it bit by bit |
| `tage_index.dfy`, `tage_hash.dfy`, `tage_row.dfy`, `tage_learning.dfy`, `tage.dfy` | bank interleaving and hashes, the entries one branch addresses with lookup and allocation, what an update teaches them, and the predictor object |
| `cond_predictor.dfy`, `replay.dfy`, `predictor_run.dfy` | the checkpoint protocol, the replay of a run's log, and the predictor object driven by it |
| `loop_predictor.dfy`, `loop_table.dfy` | learning of one loop entry, and the skewed table |
| `stat_corrector.dfy` | the statistical corrector's sums and the training of its weights |
| `dependency_graph.dfy` | the register dependency graph and the loads in flight |
| `bits.dfy`, `common.dfy`, `micro_op.dfy` | shared vocabulary |

Each component that the repository updates in place is a class whose methods have the loops of the
original; every method states its new state as a function of the old one, and the lemmas are about those
functions. `UArchSims.Simulator.Step` takes exactly one step of the pipeline's state machine and one step of
the back end beside it (`BackRuns.Steps`), so the theorems of `PipelineRuns`, `BackRuns` and `CacheRuns` apply
to every simulated trace (`UArchSims.Simulator.Simulate`), and those of `FirstFits` to its lanes while they
stay faithful. `Replays.EveryRunReplays` turns the log of any run into calls on the predictor, none of which
is made wrongly (`PredictorRuns.ReplayRun`).

Widths, lengths, associativities, window size and latencies are parameters, except where the repository's
numbers are what makes a property true: TAGE's banks, the loop predictor's widths and the counter widths.

## What is false of the code, and when it holds

- For sources B and C the simulator compares the register of source A with the zero register. With A the
  zero register, B register 3 and 100 in register 3, a micro-op that could start in cycle 10 starts then
  instead of waiting until 100 (`ZeroFirstSkipsOthers`). Over all register files in which the zero register
  is ready, it waits as it is meant to exactly when A is not the zero register or neither B nor C is a valid
  non-zero source (`WaitsAsMeantIff`); for those micro-ops no lane is taken before the producers of the
  sources have executed, in any run (`Dataflow.DataflowExtends`, `UArchSims.Simulator.Simulate`).
- The pipeline's order is kept for every micro-op the back end computes cycles for exactly when the decode
  latency is at most the pipeline fill; otherwise a store generates its address before it has been decoded
  (`AdmissibleIffDecodeFits`). In programs without memory accesses every lookup in the window succeeds
  exactly when the decode latency is at most the pipeline fill and the shortest execution together; otherwise
  the first micro-op can commit before it is decoded (`LookupsSucceedIff`).
- The macro MOD_S of the lane scheduler reads as a remainder but masks a cycle with depth - 1. Distinct
  cycles of a window have distinct slots exactly at power-of-two depths (`OneSlotPerCycleIffPow2`); growing
  goes through any multiple of 256, and at 768 slots cycle 256 is refused although no lane is taken there
  (`AliasAt768`).
- Growing the ring keeps every count exactly when the cycles in sight keep their slots and the cycles that
  come into sight get new ones (`GrowthPreservesExactly`). Between powers of two that is when the base cycle
  is a multiple of the new depth (`GrowthPreservesIff`); at a base aligned to a power of two at least the
  new depth it is when both depths are powers of two (`AlignedGrowthIffPow2`).
- Two equal strides settle exactly the prefetcher entries that are fresh or hold the stride already; three
  settle every entry in use (`TwoStridesSettleIff`, `ThreeStridesSettle`).
- The prefetcher's unused entries carry the tag 0xdeadbeef, so training a load with that tag meets an
  unexpected state exactly while an unused entry remains (`UnexpectedStateIff`).
- The predictor marks registers that loads in flight will write. The marks are right at every moment exactly
  when no load commits while another load of the same register is uncommitted (`MarkedRightIff`); with two
  loads of one register the first commit removes the mark of both (`SharedRegisterFails`).
- The loop predictor learns exactly the loops of 3 to 1023 iterations (`LearnsIff`).

## Model

| member | source | states |
|---|---|---|
| PipelineRuns.EveryStageOnceOnTime | lib/uarchsim.cc:282-381 | in every run each micro-op passes each of its stages at most once and in its recorded cycle; after a step it has passed exactly the stages whose cycle is no later than the last fetch, but that a decode in that very cycle may still be to come |
| PipelineRuns.StagesAndCommitsInOrder | lib/uarchsim.cc:312-381 | a notification of one stage comes after those of all earlier stages of the same micro-op, and commits come in program order |
| PipelineRuns.WaitingIsFound | lib/uarchsim.cc:256-266 | whatever waits in DQ, AQ or EQ is in the window, with its piece and the queued cycle |
| PipelineRuns.WindowWithinCapacity | lib/uarchsim.cc:681-691 | in every run the window stays within its capacity and no queue is longer than the window |
| PipelineRuns.RetireIsPrefixMaximum | lib/uarchsim.cc:664-678 | the recorded retirement is the latest execution of the whole program so far, though the code restarts from 0 when the window is empty |
| PipelineSteps.LastRetireSound | lib/uarchsim.cc:672 | when the window is empty the last micro-op has retired by now, so restarting from 0 loses nothing |
| PipelineRuns.StepKeeps | lib/uarchsim.cc:383-826 | one step keeps the invariant between steps, records one micro-op, and changes the history only by its branch |
| PipelineRuns.RunKeeps | lib/uarchsim.cc:383-826 | the invariant holds after every run of steps with admissible cycles |
| PipelineCycles.DecodeCycle | lib/uarchsim.cc:282-307 | evaluating decode in a cycle keeps the structure and leaves no decode of that cycle behind |
| PipelineCycles.AgenCycle | lib/uarchsim.cc:312-336 | the same for address generation, wherever in the queue the due entries are |
| PipelineCycles.ExecCycle | lib/uarchsim.cc:342-362 | the same for execution, with the checkpoints of resolved branches used and dropped |
| PipelineCycles.RetireCycle | lib/uarchsim.cc:367-381 | the same for retirement, in program order |
| PipelineCycles.CheckpointResolved | cbp2016_tage_sc_l.h:1260-1274 | the checkpoint of a branch being resolved is there and is the history of its prediction; dropping it leaves exactly the other unresolved branches |
| PipelineRuns.NoWrongPathPrediction | lib/uarchsim.cc:766-779 | before any prediction or history update of a later micro-op a mispredicted one is resolved, and only after everything asked about it |
| PipelineRuns.CheckpointsAreUnresolvedBranches | cbp2016_tage_sc_l.h:1021-1035 | after every step a checkpoint is held exactly for each conditional branch in the execute queue, and is the history of the branches before it in program order |
| PipelineRuns.TrainedWithPredictionHistory | cbp2016_tage_sc_l.h:1260-1274 | a conditional branch trains the predictor once, exactly when it has been resolved, with the history of the branches before it whatever happened in between |
| PipelineRuns.RunKeepsHistory | lib/bp.cc:83-158 | the running history and every recorded one depend only on the branches in program order |
| Admission.AdmissibleIffDecodeFits | lib/uarchsim.cc:323-324 | all cycles the back end can compute keep the pipeline's order exactly when the decode latency is at most the pipeline fill; otherwise a store is the witness |
| Admission.LookupsSucceedIff | lib/uarchsim.cc:282-307 | in runs without memory accesses all lookups in the window succeed in all cycles exactly when the decode latency is at most the pipeline fill plus the shortest execution latency |
| Admission.FoundWhenever | lib/uarchsim.cc:256-266 | after a step, in whatever later cycle, everything that waits in a queue is in the window |
| UArchSims.Simulator.LocateEntry | lib/uarchsim.cc:256-266 | the binary search finds the entry with the sequence number and piece that is there |
| UArchSims.Simulator.EvalDecode | lib/uarchsim.cc:282-307 | the loop does what the state machine does, with its assertions proved |
| UArchSims.Simulator.EvalAq | lib/uarchsim.cc:312-336 | the loop that erases while iterating does what the state machine does, with its assertions proved |
| UArchSims.Simulator.EvalExecute | lib/uarchsim.cc:342-362 | likewise, and every checkpoint looked up is there |
| UArchSims.Simulator.EvalRetirement | lib/uarchsim.cc:367-381 | likewise for retirement |
| UArchSims.Simulator.CatchUp | lib/uarchsim.cc:397-408 | the catch-up loop evaluates every cycle in its range once |
| UArchSims.Simulator.NewEntry | lib/uarchsim.cc:659-680 | the window entry of a micro-op, with the direction recorded for its resolution |
| UArchSims.Simulator.Dispatch | lib/uarchsim.cc:664-696 | window, queues and counters after dispatch |
| UArchSims.Simulator.Bundle | lib/uarchsim.cc:707-764 | the fetch cycle after the bundle constraints or a full window |
| FetchBundles.BundlesFit | lib/uarchsim.cc:717-763 | in every run at most FETCH_WIDTH instructions end and at most FETCH_NUM_BRANCH branches are fetched in any one cycle |
| FetchBundles.FetchInOrder | lib/uarchsim.cc:740-779 | in every run fetch never goes back; what follows a taken branch or an unconditional indirect one that stops a bundle has a later fetch cycle, and what follows a misprediction is not fetched before it has executed |
| FetchBundles.WindowLimitsFetch | lib/uarchsim.cc:707-714 | in every run no micro-op is fetched before the one a window's capacity earlier has retired |
| FetchBundles.CountersCount | lib/uarchsim.cc:717-775 | the bundle counters count the instructions and branches since fetch last moved on; a full window does not restart the count of branches |
| FetchBundles.FetchMovesExactly | lib/uarchsim.cc:699-779 | after any run fetch stays in the cycle of the last micro-op unless the bundle is complete, then it is one cycle later; with a full window it is the front's retirement; after a misprediction the later of that and the execution |
| FetchBundles.RunRecords | lib/uarchsim.cc:659-796 | the window entries of a run hold the inputs' micro-ops and cycles, decode a fixed latency after fetch, and the predicted direction: the taken one exactly when it was not mispredicted |
| UArchSims.Simulator.Predict | lib/bp.cc:83-158 | checkpoint and prediction of a conditional branch, then the history update of any branch |
| UArchSims.Simulator.Enter | lib/uarchsim.cc:659-784 | window, queues, bundle and prediction together, with the assertions on capacity, on retirement after fetch and on fetch after a misprediction |
| UArchSims.Simulator.Step | lib/uarchsim.cc:383-826 | the pipeline steps on a fetch cycle that is the instruction cache's answer and on admissible address and execution cycles; the back end does for that micro-op exactly what it has to on lanes, caches, store queue, registers and prefetcher, and both lane rings then forget up to a horizon that never moves back |
| UArchSims.Simulator.Simulate | lib/cbp.cc:333-342 | any trace whose instructions have at most sixteen pieces is an admissible run of the pipeline on its own micro-ops, pieces and mispredictions, with a run of the back end beside it: the lanes, memory and store queue are accounted for as the rows of `BackRuns` say, and no micro-op that waits for all its sources executes before their producers |
| UArchSims.PiecesInOrder | lib/uarchsim.cc:383-396 | the pieces of each instruction of a trace are numbered from 0 upwards |
| BackRuns.FetchedWhenAnswered | lib/uarchsim.cc:422-440 | a micro-op is fetched in the cycle in which the instruction cache answers the request made when fetch got there |
| BackRuns.RunRunsLanes | lib/uarchsim.cc:496-615 | over any run each kind of lane goes through exactly the calls of the micro-ops and their prefetches, step by step |
| BackRuns.GrantsAreStarts | lib/uarchsim.cc:496-503 | of these calls the ones without a limit are the micro-ops' own, in program order, one for each micro-op of that kind, each from its readiness and granted its own start |
| BackRuns.StartsAtFirstFreeLane | lib/uarchsim.cc:496-503 | after any run in which its ring stays faithful, a micro-op starts in the first cycle from its readiness on that first-fit allocation over all cycles has a lane for |
| BackRuns.RunAsksMemory | lib/uarchsim.cc:422-648 | over any run the memory serves exactly the steps' fetches, loads, served prefetches and stores, in order, and every miss is an access one level down |
| BackRuns.ByteOfRun | lib/uarchsim.cc:635-648 | after any run the store queue holds of each byte what the youngest store to it left: its execution, and the later of its data and the youngest retirement when it was fetched |
| BackRuns.LoadWaitsForStores | lib/uarchsim.cc:537-548 | after any run a load executes no earlier than any store that it takes a byte from, and when it takes them all from one store it waits for that store alone |
| ExecutionRules.WaitsAsMeantIff | lib/uarchsim.cc:471-494 | the operands' readiness is what it is meant to be, whatever the registers hold, exactly when the first source is not the zero register or the others need no waiting |
| ExecutionRules.ZeroFirstSkipsOthers | lib/uarchsim.cc:480-494 | with the zero register first the second source is not waited for |
| Backends.Backend.ReadSources | lib/uarchsim.cc:471-494 | the three tests compute the readiness that the two lemmas above compare with the intended one |
| Dataflow.RegisterTime | lib/uarchsim.cc:622-632 | a register is ready when its youngest writer has executed, and always when nothing wrote it |
| Dataflow.DataflowExtends | lib/uarchsim.cc:471-498 | a micro-op that waits for all its sources executes after their producers, and the register file follows the program |
| Backends.Backend.PickLane | lib/uarchsim.cc:496-503 | the first cycle with a free lane of the right kind, never before the base cycle |
| Backends.Backend.Prefetching | lib/uarchsim.cc:514-525 | a load's lookahead queues the table's prefetch, and its training changes the table as one training does |
| Backends.Backend.Load | lib/uarchsim.cc:507-559 | a load's data-cache access, and its execution when the latest byte is there |
| Backends.Backend.ForwardStores | lib/uarchsim.cc:537-548 | a load is done when the latest of its bytes is, each from the store queue or the cache |
| Backends.Backend.PlacePrefetch | lib/uarchsim.cc:584-609 | retrying cycle by cycle finds what one bounded search from the later of the previous fetch and the prefetch's own cycle finds |
| Backends.Backend.Drain | lib/uarchsim.cc:579-615 | the old queue is the stale prefetches, then the served ones in order, then what remains; the lane ring has granted exactly the served ones, each at its cycle, after at most one search that found no lane; each served one makes one cache access |
| Backends.Backend.WriteBack | lib/uarchsim.cc:622-648 | the destination register's time, and the store's bytes in the store queue |
| Backends.Backend.Execute | lib/uarchsim.cc:471-648 | everything that one micro-op does to the back end: lane calls, address and execution cycles, registers, store queue, prefetch queue and table, and memory requests |
| ExecutionRules.StartIsFirstFree | lib/uarchsim.cc:496-503 | what a micro-op does to the lanes has it start in the first cycle from its readiness on that its ring has room in |
| ExecutionRules.ExecutedTimes | lib/uarchsim.cc:471-564 | it starts after the pipeline fill, not before the intended readiness when it waits for all sources, and executes at least its latency later |
| ExecutionRules.ExecutedByClass | lib/uarchsim.cc:505-577 | from the cycle of its lane: when each kind of micro-op generates its address and has executed, with its own latency, and for a load the cache's answer |
| ExecutionRules.ExecutedWrites | lib/uarchsim.cc:622-648 | the destination register alone changes, and in the store queue the store's bytes alone |
| ExecutionRules.ExecutedAsks | lib/uarchsim.cc:527-645 | exactly which memory accesses a micro-op makes, in which order and cycle |
| ExecutionRules.ServedInTime | lib/stride_prefetcher.h:330-352 | draining drops exactly the prefetches more than eight cycles old; a served one gets a lane no earlier than the last fetch and its own cycle |
| ExecutionRules.LookedExactly | lib/stride_prefetcher.h:159-170 | a load queues a prefetch exactly when its entry is steady with a stride and the line is not queued: for this cycle, two strides ahead |
| Backends.Backend.AdvanceLanes | lib/uarchsim.cc:801-806 | both lane schedules advance to the earlier of fetch and the oldest queued prefetch, which is never before their base cycle, and nothing else changes |
| ExecutionRules.LookedSince | lib/stride_prefetcher.h:286-326 | queueing for the current fetch never puts a prefetch before the base cycle |
| StoreQueues.LoadReadyIsLatest | lib/uarchsim.cc:537-548 | a load ends exactly with its latest byte |
| StoreQueues.StoreForwards | lib/uarchsim.cc:537-548 | a load within an earlier store still in the queue ends with the later of its search and the store, whatever the cache does |
| StoreQueues.StoreElsewhere | lib/uarchsim.cc:635-648 | a store does not affect a load that shares no byte with it |
| StoreQueues.WrittenAt | lib/uarchsim.cc:635-648 | a store writes exactly its bytes |
| FirstFits.OneSlotPerCycleIffPow2 | lib/resource_schedule.h:26 | cycles of a window have distinct slots exactly at power-of-two depths |
| FirstFits.GrowthPreservesExactly | lib/resource_schedule.cc:41-63 | for any depths and base, growing keeps every count whatever the counts exactly when slots in sight are kept and new ones are new |
| FirstFits.AlignedGrowthIffPow2 | lib/resource_schedule.cc:41-63 | at a base aligned to a power of two at least the new depth, exactly between powers of two |
| FirstFits.GrowthPreservesIff | lib/resource_schedule.cc:41-63 | growing between powers of two keeps every in-window count, new cycles empty, exactly when the base is a multiple of the new depth |
| FirstFits.AliasAt768 | lib/resource_schedule.cc:50-60 | a ring grown to 768 slots refuses a free cycle |
| ResourceSchedules.SearchEnds | lib/resource_schedule.cc:65-91 | the unbounded search always ends, at every depth, because growth opens an empty slot ahead |
| ResourceSchedules.ResourceSchedule.Resize | lib/resource_schedule.cc:41-63 | the ring keeps its slots and appends empty ones up to the next multiple of 256 |
| ResourceSchedules.ResourceSchedule.Search | lib/resource_schedule.cc:65-114 | the first cycle with room in the range, or none when all are full; no count changes |
| ResourceSchedules.ResourceSchedule.Schedule | lib/resource_schedule.cc:65-91 | the found cycle's slot alone is incremented; slots stay within the width and account for all grants |
| ResourceSchedules.ResourceSchedule.TrySchedule | lib/resource_schedule.cc:93-114 | finds what an unbounded schedule would, changing no count |
| ResourceSchedules.ResourceSchedule.AdvanceBaseCycle | lib/resource_schedule.cc:116-121 | the slots of the cycles left behind are emptied and counted as cleared |
| FirstFits.AdvanceRefines | lib/resource_schedule.cc:116-121 | at power-of-two depths advancing keeps every count at or after the new base |
| FirstFits.GrantCounts | lib/resource_schedule.cc:73-90 | while the ring stays faithful a grant adds one to its cycle and nothing elsewhere |
| FirstFits.RunRefinesFirstFit | lib/resource_schedule.cc:65-121 | any sequence of calls is answered as first-fit allocation over all cycles, as long as the ring stays faithful at the cycles that first-fit allocation itself would look at |
| FirstFits.AllocationCounts | lib/resource_schedule.cc:65-91 | the allocator that the refinement speaks of counts exactly the grants of each cycle |
| ResourceSchedules.SeenAfterGrowth | lib/resource_schedule.cc:73-78 | growing in two steps of a search is growing in one |
| LruSets.HitKeepsRepresentation | lib/cache.cc:104-109 | after a hit the counters stay a permutation and represent the recency stack with the hit block first |
| LruSets.MissKeepsRepresentation | lib/cache.cc:110-128 | after a miss likewise, the least recent block gone when the set was full and an unused way taken otherwise |
| LruSets.VictimExists | lib/cache.cc:114-115 | some way always has the greatest counter |
| LruSets.ResidentIffOnStack | lib/cache.cc:91-103 | a valid way holds the tag exactly when the recency stack does |
| LruSets.HitIffFewUsedSince | lib/cache.cc:133-141 | a set holds a tag exactly when it was used and fewer than assoc distinct tags were used since |
| LruSets.MoreWaysHitMore | lib/cache.cc:133-141 | whatever is held with fewer ways is held with more |
| CacheRuns.RunFollows | lib/cache.cc:79-131 | after any requests each set of a cold cache holds exactly its most recent distinct tags, in order |
| CacheRuns.HoldsIffRecent | lib/cache.cc:79-131 | the same for one block of the whole cache |
| CacheRuns.ChainAccessFollows | lib/cache.cc:79-131 | an access asks each level exactly when all before it miss, and every level goes on holding its own most recent tags |
| CacheRuns.EveryLevelHoldsRecent | lib/uarchsim.cc:44-48 | after any requests every cache of the system, L2 and L3 included, holds in each set exactly the most recent distinct tags it was itself asked for |
| CacheArrivals.MissThenHit | lib/cache.cc:79-131 | if an access misses and is answered in cycle t, one to the same block at c is answered in the later of t and c plus the latency, whatever comes between while the block is held |
| CacheArrivals.EveryLevelAnswers | lib/cache.cc:79-131 | over any run, in every cache of the system: a held block has arrived when the miss that last brought it in was answered, and every hit was answered in the later of that and the end of its search |
| CacheArrivals.MissTakesFromBelow | lib/cache.cc:110-126 | a miss is answered by what the next level answers after this one's search, or by the memory |
| CacheArrivals.ArrivalAfter | lib/cache.cc:104-128 | an access leaves its block held, with its old arrival or the new one, and changes no other block's arrival |
| CacheRuns.MoreWaysNeverHurt | lib/cache.cc:79-131 | with equal sets, every hit at one associativity is a hit at a higher one, after any requests |
| CacheRuns.SetAndTagNameTheBlock | lib/cache.cc:82-83 | two addresses share set and tag exactly when they share the block |
| CacheLevels.AccessTiming | lib/cache.cc:79-131 | an access returns between the end of its search and the later of every stored arrival and a full trip to memory |
| CacheLevels.IsHitForeseesAccess | lib/cache.cc:65-77 | `is_hit` holds exactly when the access would find the tag and return cycle plus latency |
| CacheLevels.AccessBalanced | lib/cache.cc:110-119 | one access adds one access below for each miss above, demand and prefetch apart |
| CacheRuns.RunConserves | lib/uarchsim.cc:44-48 | over any run L2's accesses are the misses of L1 and the instruction cache, L3's are L2's, demand and prefetch apart, as differences |
| Caches.Cache.Scan | lib/cache.cc:89-103 | the hitting way, or the way with the greatest counter |
| Caches.Cache.UpdateLru | lib/cache.cc:133-141 | the counters below the most recent way's age by one, and no other set changes |
| Caches.Cache.IsHit | lib/cache.cc:65-77 | the scan computes the predicate of the hierarchy |
| Caches.Cache.Access | lib/cache.cc:79-131 | the recursion through the levels returns and leaves what the hierarchy's access says |
| MemorySystems.MemorySystem.constructor | lib/uarchsim.cc:44-48 | both first-level caches are cold and share L2 and L3 |
| MemorySystems.MemorySystem.DataAccess | lib/uarchsim.cc:527-532 | a data access leaves the instruction cache as it was and the shared levels as one request does |
| MemorySystems.MemorySystem.Fetch | lib/uarchsim.cc:422-424 | an instruction access likewise, and never answers before it was asked |
| StrideTables.ThreeStridesSettle | lib/stride_prefetcher.h:191-283 | from any entry in use three equal strides reach the steady state with that stride, and it stays there while they continue |
| StrideTables.TwoStridesSettleIff | lib/stride_prefetcher.h:191-283 | which entries two equal strides settle |
| StrideTables.LookaheadIsOneAhead | lib/stride_prefetcher.h:286-294 | the prefetch of a lookahead before training targets the access after the one being fetched |
| StrideTables.TrainingKeepsTable | lib/stride_prefetcher.h:172-283 | training keeps the ranks a permutation and the tags in use distinct |
| StrideTables.VictimExists | lib/stride_prefetcher.h:139-147 | a victim way exists in every table |
| StrideTables.UnexpectedStateIff | lib/stride_prefetcher.h:172-283 | training meets an unused entry exactly for the sentinel while one remains |
| StrideTables.OthersUntouched | lib/stride_prefetcher.h:172-283 | training one load leaves every other alone but the victim |
| StrideLearning.EntryFollowsItsLoad | lib/stride_prefetcher.h:172-283 | in any run that does not replace it, a load's entry stays where it is and holds what the load's own accesses taught it |
| StrideLearning.NewLoadSettles | lib/stride_prefetcher.h:172-283 | a load new to the table is settled by two more accesses at one stride, with other loads in between, and a lookahead then asks for the access after the next |
| StrideLearning.RefreshedKeepsOrder | lib/stride_prefetcher.h:149-157 | a refreshed entry ranks above all others, which keep their order |
| StridePrefetchers.InsertedOk | lib/stride_prefetcher.h:299-320 | queueing keeps the order by cycle and address and the cache lines distinct |
| StridePrefetchers.SortedUnique | lib/stride_prefetcher.h:307-318 | the queue's order is the only sorted one |
| StridePrefetchers.QueuedMembers | lib/stride_prefetcher.h:286-327 | queueing loses nothing, adds the new prefetch exactly when its stride is not zero and its line not queued, and covers its line |
| StridePrefetchers.StridePrefetcher.TrainEntry | lib/stride_prefetcher.h:191-275 | the switch over the state does what the learning function says |
| StridePrefetchers.StridePrefetcher.Train | lib/stride_prefetcher.h:172-283 | training updates or replaces one entry and the ranks as the table functions say |
| StridePrefetchers.StridePrefetcher.UpdateLru | lib/stride_prefetcher.h:149-157 | everything ranked above the entry drops by one and the entry gets the top rank |
| StridePrefetchers.StridePrefetcher.Lookahead | lib/stride_prefetcher.h:159-170 | a steady entry queues its prefetch, anything else queues nothing |
| StridePrefetchers.StridePrefetcher.Issue | lib/stride_prefetcher.h:330-352 | exactly the stale prefetches are dropped, then the oldest existing one is handed out; the counters keep generated plus put back equal to issued plus dropped plus queued |
| StridePrefetchers.StridePrefetcher.PutBack | lib/stride_prefetcher.h:354-358 | putting back what was just issued restores the queue and its order |
| DependencyGraphs.DeletionAvoids | cond_branch_predictor_interface.cc:91-99 | after deleting a register, every other reaches exactly what it reached by paths avoiding it |
| DependencyGraphs.LoadDependencies | cond_branch_predictor_interface.cc:241-273 | after a load its register depends on its address registers and all they depended on without it |
| DependencyGraphs.LoadLeavesOthers | cond_branch_predictor_interface.cc:241-273 | every other register loses exactly what it had only through the overwritten one |
| DependencyGraphs.MarkedRightIff | cond_branch_predictor_interface.cc:241-427 | the marked registers are at every moment those that uncommitted loads will write, exactly when no load commits before another of the same register |
| DependencyGraphs.SharedRegisterFails | cond_branch_predictor_interface.cc:419-427 | with two loads of one register, the first commit leaves it unmarked though the other is uncommitted |
| DependencyGraphs.LoadTracker.DecodeLoad | cond_branch_predictor_interface.cc:241-253 | decoding a load replaces the sources of its register and marks it; a load without a destination register makes the original throw, and changes nothing |
| DependencyGraphs.LoadTracker.CommitLoad | cond_branch_predictor_interface.cc:419-427 | committing a load takes its register out of the graph and its mark away, likewise |
| DependencyGraphs.LoadTracker.LoadDependent | cond_branch_predictor_interface.cc:310-318 | whether some source is marked; when none is, the branch counts no dependency either |
| DependencyGraphs.DependencyGraph.DecodeBranch | cond_branch_predictor_interface.cc:254-268 | a conditional branch counts the dependencies of its sources in 16 bits, or none when flags are its only source |
| DependencyGraphs.DependenciesAreNodes | cond_branch_predictor_interface.cc:101-120 | whatever a register depends on is a node of the graph |
| DependencyGraphs.DependencyGraph.DeleteDestination | cond_branch_predictor_interface.cc:91-99 | the loop removes the node and every edge into it, with that effect on dependencies |
| DependencyGraphs.DependencyGraph.Dfs | cond_branch_predictor_interface.cc:111-120 | depth-first search ends on any graph, cycles included, and visits only reachable nodes with all their sources |
| DependencyGraphs.DependencyGraph.GetAllDependencies | cond_branch_predictor_interface.cc:101-107 | exactly the nodes other than the start that it reaches |
| FoldedHistories.UpdateFolds | cbp2016_tage_sc_l.h:303-309 | one update of a register holding the fold of its window gives the fold of the next window |
| FoldedHistories.FoldIsParity | cbp2016_tage_sc_l.h:282-309 | bit j of a fold is the parity of the history bits that land on it |
| TageHistories.RegistersAlwaysFold | cbp2016_tage_sc_l.h:1159-1250 | after any branches every bank's three registers are the folds of their windows of all directions recorded, and the ring holds the last 4096 |
| TageHistories.PushTracks | cbp2016_tage_sc_l.h:1229-1245 | one direction pushed keeps that |
| HistoryBits.DirectBranchRecords | cbp2016_tage_sc_l.h:1215-1250 | a direct branch, conditional or not, records two direction bits: the older is address bit 0 xor bit 2 xor the outcome, the newer bit 1 xor bit 3; all others move back by two, and every bit of the path history is given |
| HistoryBits.IndirectBranchRecords | cbp2016_tage_sc_l.h:1215-1250 | an indirect branch records three, likewise |
| HistoryBits.OutcomeIsRecorded | cbp2016_tage_sc_l.h:1224 | histories that differ in the outcome of the last branch alone differ in exactly one direction bit |
| HistoryBits.BranchOfMicroOp | lib/bp.cc:83-158 | the kind and the outcome that the history learns of a branch |
| HistoryBits.YoungestOutcome | lib/bp.cc:83-158 | in every run the outcome of the youngest conditional branch is in the history that the next branch is predicted with |
| HistoryBits.OthersUnrecorded | lib/bp.cc:83-158 | what is no branch leaves the history alone |
| TageHistories.TageHistory.HistoryUpdate | cbp2016_tage_sc_l.h:1159-1250 | the loops over directions and banks compute the history after a branch |
| TageHistories.TageHistory.UpdateRegisters | cbp2016_tage_sc_l.h:1239-1245 | every bank's three registers take the newest bit |
| TageIndexing.PhysicalBanksDistinct | cbp2016_tage_sc_l.h:905-926 | for every branch and history the looked-up banks of a group have distinct physical banks |
| TageIndexing.EntriesDisjoint | cbp2016_tage_sc_l.h:905-926 | no two looked-up banks of a group share an entry, and all positions are in bounds |
| TageIndexing.TurnsDistinctIff | cbp2016_tage_sc_l.h:905-926 | counting round gives distinct banks exactly when there are at least as many as turns |
| TageIndexing.RankBounds | cbp2016_tage_sc_l.h:533-544 | the looked-up banks of each group number no more than its physical banks |
| TageHashes.LookedUpBanks | cbp2016_tage_sc_l.h:533-544 | which 21 of the 36 banks are looked up |
| TageHashes.TagBits | cbp2016_tage_sc_l.h:838-842 | every bit of a tag is the address's bit xor the two folded registers' bits |
| TageHashes.IndexBits | cbp2016_tage_sc_l.h:828-836 | every bit of an index is two address bits xor the folded register's bit xor the path hash's bit |
| TageHashes.PairsShareTags | cbp2016_tage_sc_l.h:899-903 | the two banks of a pair share one tag |
| TageHashes.IndexesSeparate | cbp2016_tage_sc_l.h:828-836 | histories that an index register tells apart, with the same path, are looked up at different places |
| TageHashes.TagsSeparate | cbp2016_tage_sc_l.h:838-842 | histories that one tag register tells apart and the other does not have different tags |
| TageIndexing.ComputePositions | cbp2016_tage_sc_l.h:896-927 | the three loops compute the positions and tags |
| TageRows.AllocateThenLookup | cbp2016_tage_sc_l.h:1431-1600 | after an allocation pass and the rest of the update, looking the same branch up again finds the highest re-tagged bank, predicting the outcome |
| TageRows.AllocationPassEffect | cbp2016_tage_sc_l.h:1441-1534 | a pass re-tags at most two entries, all free, in pairs above the hitting bank's and at least two apart; all else keeps tag, usefulness and direction |
| TageLearning.PassTakesFirstFree | cbp2016_tage_sc_l.h:1441-1534 | from one or two pairs above the hitting bank's on, a pass re-tags an entry exactly when one is free, of the lowest such pair, and a second exactly when one is free at least two pairs further |
| TageLearning.PassWeakens | cbp2016_tage_sc_l.h:1441-1534 | up to the first entry taken a pass weakens what is not useful and spares what is; when it takes none the useful entries are its penalty |
| TageRows.SettledKeepsTags | cbp2016_tage_sc_l.h:1541-1600 | the rest of an update changes no tag |
| TageLearning.SettledTeaches | cbp2016_tage_sc_l.h:1541-1600 | the hitting counter moves one step towards the outcome, the alternate's only in protection of a weak and wrong hit, the useful counter as stated, and no other counter moves |
| TageLearning.BaseMovesIff | cbp2016_tage_sc_l.h:1553-1580 | the base counter trains exactly without a hit, or for a weak and wrong hit that has no alternate |
| Tage.AllocatesIff | cbp2016_tage_sc_l.h:1392-1430 | an update allocates exactly when both the prediction of TAGE and its longest match were wrong, there is a longer bank, and the whole prediction was wrong or a coin says so |
| Tage.EntryLearns | cbp2016_tage_sc_l.h:1571 | an entry that keeps being hit predicts an outcome after at most four updates with it, and goes on to while the outcome stays |
| Tage.BaseLearns | cbp2016_tage_sc_l.h:868-882 | a base counter counts equal outcomes up to its bound and predicts them from the second on |
| Tage.ChoiceLearns | cbp2016_tage_sc_l.h:1399-1424 | of the choice counters exactly the one looked at learns, when a weak longest match and the alternate disagree, towards the one that was right |
| Tage.ChoiceFollowsExperience | cbp2016_tage_sc_l.h:969-985 | a strong longest match is believed; a weak one after sixteen updates in which the alternate was wrong, and not after sixteen in which it was right |
| TageRows.BankZeroUnused | cbp2016_tage_sc_l.h:896-975 | what table 0 holds decides no lookup, no allocation and no update, and none of them writes it |
| Tage.PositionsOwnEntries | cbp2016_tage_sc_l.h:905-926 | the positions of a branch name distinct entries within the two arrays |
| Tage.WriteIsRowUpdate | cbp2016_tage_sc_l.h:564-573 | writing through one bank's position changes that bank's entry and no other the branch addresses |
| Tage.TagePredictor.Tagepred | cbp2016_tage_sc_l.h:896-1005 | longest and alternate matching banks, their predictions, the alternate's confidence, and the choice between them |
| Tage.TagePredictor.SetEntry | cbp2016_tage_sc_l.h:564-573 | a write changes one entry of the branch and no entry that no looked-up bank addresses |
| Tage.TagePredictor.AllocateEntries | cbp2016_tage_sc_l.h:1431-1536 | the loop is the allocation pass, with its effect on the ageing counter; entries the branch does not address are kept |
| Tage.TagePredictor.DecideAllocation | cbp2016_tage_sc_l.h:1392-1430 | exactly when to allocate, and the training of the choice between the matches |
| Tage.TagePredictor.BaseUpdate | cbp2016_tage_sc_l.h:868-882 | the two-bit counter, its hysteresis bit shared by four entries, steps and saturates |
| Tage.TagePredictor.Update | cbp2016_tage_sc_l.h:1392-1600 | the whole TAGE part of an update: allocation, ageing, counters, usefulness, base counter and choice counter; every entry the branch does not address is kept, or halved when the update ages the tables |
| Tage.TagePredictor.LearnThenLookUp | cbp2016_tage_sc_l.h:1260-1600 | on the tables themselves: after predicting a branch and updating it, the next lookup with the same history hits the highest re-tagged bank, predicting the outcome, or the same bank as before |
| CondPredictors.CondPredictor.Predict | cbp2016_tage_sc_l.h:1021-1035 | the history is kept under the branch's key, and explains where the prediction looked |
| CondPredictors.CondPredictor.HistoryUpdate | cbp2016_tage_sc_l.h:1148-1157 | the history moves on and no checkpoint moves with it |
| CondPredictors.CondPredictor.Update | cbp2016_tage_sc_l.h:1260-1274 | training looks at the same entries for the same tags as the prediction did, whatever other branches did in between; the tables learn the outcome there as one lesson (allocation, ageing, counters, usefulness, base and choice counters), all other entries are kept but for ageing, and the checkpoint is dropped |
| Tage.SameLook | cbp2016_tage_sc_l.h:896-928 | two lookups with one history address the same entries for the same tags |
| Replays.EveryRunReplays | cbp2016_tage_sc_l.h:1021-1274 | in every run the log can be replayed on the predictor: no prediction meets a key in use, every training finds the checkpoint of that very branch, and the history and checkpoints come out as the pipeline has them |
| PredictorRuns.Replay | cbp2016_tage_sc_l.h:1021-1274 | driven by such a log, the predictor object can be called throughout; every prediction looks where the history of its moment says, every training looks where the last prediction of its branch looked and teaches the tables the outcome of that branch there, no other event changes a table, and it ends with the replayed history and checkpoints |
| PredictorRuns.ReplayRun | cond_branch_predictor_interface.cc:192-332 | so it does for every run of the pipeline, where a branch is predicted before it trains, its training looks at the same positions for the same tags, and what it teaches is its own outcome |
| LoopPredictors.LearnsIff | cbp2016_tage_sc_l.h:1696-1762 | a fresh entry driven by the true outcomes is right forever after 16 traversals exactly for 3 to 1023 iterations |
| LoopPredictors.LoopLearned | cbp2016_tage_sc_l.h:1661-1762 | from 16 traversals on the entry is valid and right at every iteration and exit |
| LoopPredictors.TrustedFrom | cbp2016_tage_sc_l.h:1674-1678 | exactly from when it is valid, long loops sooner |
| LoopPredictors.CountedSoFar | cbp2016_tage_sc_l.h:1696-1762 | what the entry has counted at every point of every traversal |
| LoopPredictors.LongLoopFails | cbp2016_tage_sc_l.h:1725-1733 | no entry predicts a whole traversal of 1024 iterations or more |
| LoopPredictors.ShortLoopUntrusted | cbp2016_tage_sc_l.h:1735-1757 | a loop of one or two iterations never earns confidence |
| LoopPredictors.WrongFrees | cbp2016_tage_sc_l.h:1702-1712 | a trusted entry that is wrong is freed |
| LoopPredictors.RightCounts | cbp2016_tage_sc_l.h:1713-1757 | a trusted entry that is right keeps its length, counts on, and ages or gains confidence by a step |
| LoopTables.SteppingKeepsHits | cbp2016_tage_sc_l.h:1661-1762 | an update moves and hides no entry: every branch still hits the same way |
| LoopTables.ApartKeeps | cbp2016_tage_sc_l.h:1696-1790 | a call of another branch that neither hits nor replaces the entry, nor hides it, leaves it as it is |
| LoopTables.DrivenAmongOthers | cbp2016_tage_sc_l.h:1696-1790 | among such calls an entry of the table is where its own loop's updates alone would have it |
| LoopTables.LearnedInTable | cbp2016_tage_sc_l.h:1661-1790 | so a loop of 3 to 1023 iterations is learned in the table too |
| LoopTables.MissAllocates | cbp2016_tage_sc_l.h:1763-1788 | a miss that may allocate ages one way by a step, or replaces it once aged by a fresh entry whose body goes against the missed outcome, which the next lookup hits |
| LoopTables.MissedLoopIsLearned | cbp2016_tage_sc_l.h:1696-1790 | so a loop whose exit was missed while a way was free is trusted and right from its sixteenth traversal on |
| LoopTables.TagBits | cbp2016_tage_sc_l.h:1667-1669 | every bit of a tag is one address bit xor the one ten above it |
| LoopTables.PositionBits | cbp2016_tage_sc_l.h:1665-1673 | every bit of a position in a way |
| LoopTables.LoopTable.GetLoop | cbp2016_tage_sc_l.h:1661-1693 | the first way with the tag, its validity and its prediction |
| LoopTables.LoopTable.LoopUpdate | cbp2016_tage_sc_l.h:1696-1790 | a hit steps its entry; a miss ages or replaces one way |
| StatCorrectors.WeightTrainsOnSignFlip | cbp2016_tage_sc_l.h:1625-1646 | a weight moves only when doubling its component would flip the sign of the whole prediction, and towards the right sign |
| StatCorrectors.CountersTrain | cbp2016_tage_sc_l.h:1625-1646 | every selected counter moves one step towards the outcome, and the component's sum with them |
| StatCorrectors.CorrectorLearns | cbp2016_tage_sc_l.h:1344-1385 | after 63 trainings of one selection with the same outcome the total has its sign, whatever was held before |
| StatCorrectors.TotalWithOnce | cbp2016_tage_sc_l.h:1344-1385 | XSUM is the prediction with the component weighted once, and XSUM plus the partial sum the one weighted twice |
| StatCorrectors.TotalBounded | cbp2016_tage_sc_l.h:1055-1084 | the sum is within 126 per counter, 2520 for twenty |
| StatCorrectors.Component.Predict | cbp2016_tage_sc_l.h:1607-1622 | one component's contribution |
| StatCorrectors.Component.Update | cbp2016_tage_sc_l.h:1625-1646 | its selected counters and weight train together, and nothing else changes |
| StatCorrectors.Corrector.Train | cbp2016_tage_sc_l.h:1344-1385 | training the components in turn gives each what the prediction alone decides |

## Left out

- Cycle counts, sequence numbers and addresses are unbounded; only the prefetcher's strides and targets wrap at 64 bits. MAX_CYCLE is the value None, and a load's bytes do not wrap around the address space.
- UArchSims.Simulator.Step: takes whether a prediction fails as an input, since nothing here depends on how good the predictor is; the trace is taken to satisfy the simulator's assertions on its branches. The epochs of the statistics, with their assertion, are not modelled.
- UArchSims.Simulator.Simulate: takes instructions of at most sixteen pieces, as the predictor's keys assert.
- Backends.Backend.Execute: takes loads whose tag is not the table's sentinel; the tag is harmless once no unused entry remains, which `UnexpectedStateIff` states exactly.
- UArchSims.Simulator.Predict: the history is the part that TAGE's tables are indexed with; GHIST, the local and IMLI histories and the speculative loop table travel in the original's checkpoint beside it.
- Tage.TagePredictor.Update: random choices are inputs; the useful counter's increment is assumed to fit a signed byte.
- Tage.TagePredictor.Tagepred: the history lengths are inputs, not computed with `pow`.
- TageHistories.TageHistory.HistoryUpdate: covers the ring, the path history and the folded registers; GHIST, the local and IMLI histories and the speculative loop update in the same function are not modelled.
- StatCorrectors.Component.Update: takes the selected counters' positions as inputs; the index hashes, the update thresholds and the final choice between TAGE, loop predictor and corrector are not modelled.
- LoopTables.LoopTable.LoopUpdate: takes the test for ageing a valid entry and the random way as inputs.
- CondPredictors.CondPredictor.Update: takes the final direction, which the loop predictor and the corrector may have overridden, as an input.
- ResourceSchedules.ResourceSchedule.Search: one loop stands for the identical search loops of `schedule` and `try_schedule`.
- StridePrefetchers.InsertedOk: the sort after appending is insertion into the sorted queue, which `SortedUnique` shows to be the only sorted order.
- Caches.Cache.Access: the prefetch counters start at arbitrary values, because the original does not set them; the read flag decides nothing there.
- Backends.Backend.Prefetching: `is_hit` is modelled in the cache, but its result is not passed on, since training ignores it.
- Value prediction, indirect target prediction (`lib/ittage.h`), perfect branch prediction and statistics are not modelled; without checkpointed predictions there would be nothing to look up at resolution.
- Trace reading, argument parsing and logging are not modelled; a trace is a sequence of micro-ops.
