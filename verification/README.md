# Verified core of hrx-rs

This project models the ordering, ownership and admission logic of hrx-rs, a
Rust runtime that records GPU work, keeps models resident under a byte budget,
and shares buffers between the host and several engines. It proves what that
logic is for:

1. **Recorded graphs keep their meaning.** Edges are inferred from declared byte
   ranges (`Frontier.dfy`, `Hazards.dfy`), each node keeps only its largest
   predecessor and finishing emits commands with barrier flags from one
   watermark (`Graphs.dfy`). Running the emitted commands in any order the
   barriers allow leaves the memory of recording-order execution
   (`Execution.dfy`, `AccessGraphs.dfy`), also after failed recordings, exactly as
   far as `Meanings.dfy` says. `Summaries.dfy` covers the event sweep that
   canonicalises a prepared graph's uses and the two-pointer conflict test.
2. **Submissions are scheduled safely and never get stuck.** `Schedulers.dfy` is
   the step system of the submission queue, its lanes and native stages;
   `Regions.dfy` adds the byte uses of each region, and `Dispatching.dfy` is the
   code.
3. **Resident bytes are conserved and nothing in use is evicted.**
   `Residency.dfy` has one step per critical section or atomic update,
   `ResidencyRuns.dfy` the theorems over whole runs, `Managers.dfy` and
   `Reserving.dfy` the code.
4. **Single-flight caches and job admission lose nothing.** `PlanCaches.dfy`,
   `Kernels.dfy`, `Compiling.dfy`, `Jobs.dfy`.
5. **Host guards, handoffs and engines see the latest write.** `HostLeases.dfy` has
   the steps, `HostInvariants.dfy` and `HostRuns.dfy` the proofs, `HostStorage.dfy`
   the code.
6. **Index arithmetic.** `Shapes.dfy`, `TensorLayouts.dfy` (strided layouts) and
   `Broadcasting.dfy` (the "Multidirectional Broadcasting" section of the ONNX
   Broadcasting document).

`Accesses.dfy`, `Totals.dfy` and `Recency.dfy` hold shared vocabulary, sums and
the choice of a victim.

`dafny verify dfyconfig.toml` checks everything.

## How the model is built

- A concurrent component is a datatype of states, a datatype of events, an
  `Enabled` predicate and a `Step` function. One event is one critical section
  or one atomic update, so a run interleaves them in any way the locks allow. A
  victim scan is different: it reads the entries at different moments, while
  references drop without the lock. Its eviction step therefore asks only that the
  victim is unclaimed, and `ScanVictimIsUnclaimed` and `RecentlyUsedOutlives` are
  about scans spread over a run. `IsRun`
  describes a whole run, and the main theorems quantify over every run and every
  state in it. Fields named after the past (`named`, `received`, `started`,
  `version`, lane owners) record history that the code leaves implicit.
- The code of a critical section is a class method or a loop whose `ensures`
  ties the new state to `Step`, so what is proved of every run holds of it.
- Clocks, loader outcomes, device results, idle predicates and the order of
  threads are inputs: events or parameters.
- An operation on memory is any function that reads and writes only its declared
  bytes. A command is a list of such steps; a kernel's steps may interleave with
  those of other commands between two barriers.

## Where the code falls short of the property

- A recording that fails after its uses entered the frontier
  (src/access_graph.rs:87-88) leaves a phantom. `Hazards.OrderSurvivesFailureIff`
  gives the exact condition under which hazards stay ordered, and
  `Hazards.FailedWriteLosesHazard` the smallest history that loses one. The
  emitted commands can keep their meaning even so, because a barrier separates all
  that came before it: `Meanings.MeaningSurvivesFailureIff` gives the exact
  condition, that the failed attempt wrote no byte used since the last barrier, and
  `Meanings.SafeHistoryIff` extends it to whole histories.
  `AccessGraphs.FailedCopyLosesMeaning` is a recording that loses its meaning. The
  end-to-end theorem holds for every run that meets the condition, which
  includes every run without failures.
- A failed submission poisons its allocations, and the comment there asks that every
  later access is rejected, reads included (src/execution/scheduler.rs:349-350). A
  read guard that had reserved its lease but not finished its maintenance is still
  granted, since nothing looks at the poison again (src/execution/buffer.rs:197-210).
  `HostRuns.GrantableIffReadPending` says that this is the only way, and
  `HostRuns.PoisonedReadIsGranted` is a run in which it happens.
- The pairwise view test and the sweep disagree on an empty range strictly inside
  another view (src/execution/buffer.rs:263-275): the pairwise test reports a
  conflict although no byte is shared. `Summaries.ViewTestIsByteTest` says for a
  pair and `Summaries.SweepIsPairwise` for two lists exactly when the tests agree;
  `Summaries.EmptyViewDisagrees` is a witness.
- The documentation of `strided` says that overlapping layouts are rejected. They
  are, but the test also refuses some layouts that do not overlap:
  `TensorLayouts.InterleavedIsRefused`.
- `broadcast` turns a zero against a one into a one. Its operand then does not fit
  the result (`Broadcasting.OperandFits`, `Broadcasting.ZeroMeetsOne`) and
  grouping matters (`Broadcasting.BroadcastAssociates`). Both lemmas give the
  exact condition; positive shapes always meet it.

## Model

| member | source | states |
|---|---|---|
| `Frontiers.SplitAt` | src/dependency_frontier.rs:39-50 | splitting at a point keeps the segments sorted, disjoint and nonempty, keeps every byte's cell, and leaves no segment across the point |
| `Frontiers.Walk` | src/dependency_frontier.rs:51-76 | after one use every byte in its range holds exactly the cell a per-byte update gives, every other byte is unchanged, and the nodes collected are exactly the per-byte hazards of the range |
| `Frontiers.Frontier.Dependencies` | src/dependency_frontier.rs:29-82 | refines a per-byte map: each byte's cell is folded over the uses that cover it; the predecessors returned are those met at some byte, without the node itself, in increasing order |
| `Hazards.CoveredIffUsed` | src/dependency_frontier.rs:39-76 | a byte lies in a segment exactly when some operation used it |
| `Hazards.DescribesStep` | src/dependency_frontier.rs:62-76 | a cell that holds the last writer and the readers since stays so when a further operation touches the byte |
| `Hazards.ReturnedEdges` | src/dependency_frontier.rs:29-82 | an index is returned exactly when it used a byte the new operation uses, one of them writes it, and no operation in between wrote it |
| `Hazards.EdgesIgnoreUseOrder` | src/dependency_frontier.rs:35-38 | the returned edges do not depend on the order of an operation's own uses |
| `Hazards.LaterEdgesIgnoreUseOrder` | src/dependency_frontier.rs:35-38 | nor do the edges returned to later operations |
| `Hazards.HazardsAreOrdered` | src/dependency_frontier.rs:29-82 | every pair of operations that share a byte with a writer is connected by a path of returned edges |
| `Hazards.SparseOrderIsDenseOrder` | src/dependency_frontier.rs:29-82 | the returned edges have the same transitive closure as the dense graph of all hazards: nothing is lost and nothing is spurious |
| `Hazards.OrderSurvivesFailureIff` | src/access_graph.rs:86-90 | after a failed recording, whatever is recorded next stays ordered if and only if the failed attempt declared no write to a byte used so far |
| `Hazards.FailedWriteLosesHazard` | src/access_graph.rs:86-90 | otherwise a one-byte write recorded next gets no predecessor although it conflicts |
| `Graphs.Graph.ValidateDependencies` | src/runtime.rs:1657-1669 | accepts exactly the predecessors that belong to this recording and exist |
| `Graphs.Graph.Record` | src/runtime.rs:1670-1678 | appends one node that stores the largest declared predecessor, or none |
| `Graphs.Graph.AddJoin` | src/runtime.rs:1733-1736 | a join is recorded exactly when its predecessors are valid and an index is left, and changes nothing otherwise |
| `Graphs.Graph.AddCommand` | src/runtime.rs:1680-1731 | likewise for a prepared fill, copy or dispatch, which may also be refused while being prepared |
| `Graphs.Graph.Finish` | src/runtime.rs:1748-1761 | emits every command once in recording order, each with a barrier exactly when its largest predecessor is at or past the watermark |
| `Graphs.ReachingNodesAreSeparated` | src/runtime.rs:1733-1761 | although only the largest predecessor is stored, a barrier lies between each command and every node that reaches it, joins included |
| `Graphs.FewestBarriers` | src/runtime.rs:1748-1761 | the emitted barriers separate every recorded edge into a command, and no placement that does so has fewer |
| `Graphs.FewestForCommands` | src/runtime.rs:1748-1761 | without joins, no placement that merely separates reaching commands has fewer barriers |
| `Graphs.JoinCostsABarrier` | src/runtime.rs:1733-1761 | with a join that is no longer so: a four-node graph gets two barriers where one separates every reaching command |
| `Execution.Commute` | src/access_graph.rs:18-23 | steps of operations without a hazard commute on every memory |
| `Execution.RecordingOrderIsAdmissible` | src/runtime.rs:1764-1777 | recording order is itself one of the schedules the barriers admit |
| `Execution.MeaningPreserved` | src/runtime.rs:1764-1777 | if hazards are separated, every schedule the barriers admit ends in the memory of recording-order execution, for all programs confined to their declared bytes |
| `Execution.SeparationIsMeaning` | src/runtime.rs:1764-1777 | and only then: separation of hazards is equivalent to keeping the meaning under every admissible schedule |
| `Execution.MissingBarrierIsVisible` | src/runtime.rs:1764-1777 | a hazard without a barrier has confined programs and a schedule whose final memory differs |
| `Meanings.SafeKeepsMeaning` | src/access_graph.rs:63-97 | a history whose failed attempts wrote no byte used since what was then the last barrier keeps its meaning under every admissible schedule |
| `Meanings.MeaningSurvivesFailureIff` | src/access_graph.rs:86-90 | after such a history and one more failed attempt, whatever is recorded next keeps the meaning if and only if that attempt wrote no byte used since the last barrier |
| `Meanings.SafeHistoryIff` | src/access_graph.rs:63-97 | over whole histories: every failed attempt met the condition if and only if at none of them a next recording could have lost the meaning |
| `AccessGraphs.AccessGraph.constructor` | src/access_graph.rs:27-33 | an empty recording is valid |
| `AccessGraphs.AccessGraph.Infer` | src/access_graph.rs:63-78 | the predecessors are exactly the inferred edges of the next operation, and the frontier describes its uses whether or not it is then recorded |
| `AccessGraphs.AccessGraph.Operate` | src/access_graph.rs:80-97 | one recording attempt keeps the frontier a refinement of the history and the graph equal to the inferred edges; a refused attempt keeps the history and leaves its uses behind |
| `AccessGraphs.AccessGraph.Fill` | src/access_graph.rs:86-90 | records one write of the destination, unless it is empty or refused |
| `AccessGraphs.AccessGraph.Copy` | src/access_graph.rs:93-97 | records a read of the source and a write of the destination of equal nonzero length |
| `AccessGraphs.AccessGraph.Dispatch` | src/access_graph.rs:105-123 | records one use per binding with its declared access |
| `AccessGraphs.AccessGraph.Finish` | src/access_graph.rs:126-128 | for every history whose failed attempts wrote no byte used since the last barrier, the emitted commands separate every hazard and keep the meaning under every admissible schedule |
| `AccessGraphs.FailedCopyLosesMeaning` | src/access_graph.rs:86-97 | fill a view, fail to copy another length over it and fill it again: the emitted graph does not keep its meaning |
| `Summaries.Collect` | src/execution/dependencies.rs:36-57 | per allocation, running totals of the events count the reads and writes of every byte |
| `Summaries.Summarize` | src/execution/dependencies.rs:36-90 | the summary is nonempty intervals sorted by allocation and offset, disjoint, never two touching ones with equal access, whose read and written bytes are exactly those of the uses, shared allocations whole |
| `Summaries.Conflicts` | src/execution/dependencies.rs:93-114 | the two-pointer sweep reports a conflict exactly when some pair of intervals overlaps with a writer |
| `Summaries.ClashesAreSharedBytes` | src/execution/dependencies.rs:93-114 | summaries clash exactly when the original uses share a byte with a writer |
| `Summaries.ViewTestIsByteTest` | src/execution/buffer.rs:263-275 | the pairwise view test finds a shared byte exactly unless one range is empty strictly inside the other |
| `Summaries.SweepIsPairwise` | src/execution/dependencies.rs:93-114 | the sweep agrees with comparing every pair of uses if and only if a written byte is shared or no pair with a writer has an empty range inside the other view |
| `Summaries.EmptyViewDisagrees` | src/execution/buffer.rs:263-275 | the two tests disagree on an empty view inside a written one |
| `Summaries.CanonicalIsUnique` | src/execution/dependencies.rs:36-90 | two canonical lists with the same bytes and accesses are equal |
| `Summaries.SummaryIsUnique` | src/execution/dependencies.rs:36-90 | the summary depends only on which bytes are read and written, not on order, grouping or overlap of the uses |
| `Schedulers.WithoutCounts` | src/execution/scheduler.rs:108-119 | removing a submission, even a blocked one out of order, leaves every blocker count equal to the number of earlier pending conflicts |
| `Schedulers.RunKeepsInv` | src/execution/scheduler.rs:60-408 | in every run: occupancy within capacity, exact blocker counts, lanes held exactly by running regions or a native stage, known producers, FIFO native tickets |
| `Schedulers.ConflictsRunInOrder` | src/execution/scheduler.rs:88-119 | a submission that conflicts with an earlier pending one has started nothing |
| `Schedulers.ProducersSucceedFirst` | src/execution/scheduler.rs:200-229 | a submission that has started had every producer succeed first, whether a submission of this runtime or a completion that had already ended |
| `Schedulers.FailureIsFinal` | src/execution/scheduler.rs:329-401 | once a region fails or the submission is cancelled, its completion never reports success |
| `Schedulers.DependentsNeverRun` | src/execution/scheduler.rs:200-216 | and no submission that names it as a producer ever starts anything |
| `Schedulers.LaneIsExclusive` | src/execution/scheduler.rs:230-276 | no lane runs two regions, nor a region beside a native stage |
| `Schedulers.SubmissionIsNeverLost` | src/execution/scheduler.rs:88-119 | an accepted submission stays pending, then finishing, then published, in every later state |
| `Schedulers.NativeEntersLast` | src/execution/scheduler.rs:67-72 | a native stage enters in ticket order, and every submission made before its ticket has been published |
| `Schedulers.NoOvertaking` | src/execution/scheduler.rs:230-240 | work submitted after a native stage asked starts on the compute lane only after that stage had its turn |
| `Schedulers.NeverStuck` | src/execution/scheduler.rs:185-278 | with no lane held and nothing left to publish, a pending submission or waiting stage always has an enabled next step: submissions, producers and native stages cannot deadlock |
| `Regions.JobKeepsClosed` | src/execution/scheduler.rs:200-244 | every step of a submission keeps all direct and indirect predecessors of a running region done, also when regions are skipped |
| `Regions.RunningRegionsShareNothing` | src/execution/graph.rs:560-566 | in every run of prepared graphs, two running regions of one submission or of two share no byte that either writes |
| `Regions.WritersShareAnEngine` | src/execution/graph.rs:560-624 | in every such run, running regions that use one allocation with a writer run on one engine |
| `Dispatching.QuietMeansNativeIsNext` | src/execution/scheduler.rs:185-278 | when a worker finds nothing to do although no lane is held and nothing is left to publish, a native stage is ready to enter or there is no work |
| `Dispatching.ReadyGetsATurn` | src/execution/scheduler.rs:245-255 | in every run whose starts are the scheduler's choices, between two turns of one submission on a lane every other submission that was ready whenever the lane was given away has had a turn |
| `Dispatching.EveryLaneIsServed` | src/execution/scheduler.rs:259-274 | and between two starts on one lane, every other lane that had something to start at each start in between was served |
| `Dispatching.CountBlockers` | src/execution/scheduler.rs:94-98 | counts exactly the earlier submissions whose uses conflict |
| `Dispatching.Unblock` | src/execution/scheduler.rs:113-117 | lowers the count of exactly the later submissions that conflict with the removed one |
| `Dispatching.Scan` | src/execution/scheduler.rs:230-257 | each lane's choice stays a startable region that no startable region seen so far ranks before |
| `Dispatching.Survey` | src/execution/scheduler.rs:189-258 | settles the queue in order and stops at the first wanted finished submission; otherwise every lane has its best candidate |
| `Dispatching.Pick` | src/execution/scheduler.rs:259-269 | the first wanted choice in rotation order: no lane served earlier in the rotation has one |
| `Dispatching.Validate` | src/execution/graph.rs:812-822 | rejects exactly completions of another live runtime and unfinished ones of a dropped runtime, and keeps the rest in order |
| `Dispatching.Scheduler.Enqueue` | src/execution/graph.rs:809-852 | bad completions are an error, then a full runtime is busy, and otherwise exactly one submission step is taken that keeps the invariant |
| `Dispatching.Scheduler.Remove` | src/execution/scheduler.rs:108-119 | exactly the removal step, with every count updated |
| `Dispatching.Scheduler.StartBest` | src/execution/scheduler.rs:259-277 | starts the fairest region of the first lane in rotation order that is wanted; starts nothing only when every wanted region that could start has another submission's before it on its lane |
| `Dispatching.Scheduler.NextAction` | src/execution/scheduler.rs:185-278 | settles, then retires a finished submission or starts a region fair to its lane and, without a target, to every lane; returns nothing only when nothing wanted is finished and nothing wanted is next on its lane |
| `Residency.StepKeepsInv` | src/residency.rs:155-572 | every critical section and atomic update keeps the ledger, registry, loaders, references and idle countdowns consistent |
| `ResidencyRuns.RunKeepsInv` | src/residency.rs:155-572 | so does every interleaving |
| `ResidencyRuns.BudgetIsConserved` | src/residency.rs:155-191 | the counter is the sum of standalone, loading (peak), resident (shrunk) and retiring reservations, never exceeds the limit, and a live value stays charged its size |
| `ResidencyRuns.HeldKeyStaysMapped` | src/residency.rs:431-551 | while the manager lives, a lease, clone, pin or keepalive keeps its key mapped to that same resource |
| `ResidencyRuns.OneResourcePerKey` | src/residency.rs:446-551 | two live references to one key share one resource |
| `ResidencyRuns.OneLoaderPerKey` | src/residency.rs:446-507 | at most one loader runs per key, and none for a key someone holds |
| `ResidencyRuns.TimeoutIsSafe` | src/residency.rs:71-108 | a sweep removes a resource only if an earlier sweep, at least the timeout before, saw it evictable, every sweep between did too, and nobody held it at any moment between |
| `ResidencyRuns.TimeoutIsPrompt` | src/residency.rs:71-108 | a resource that stays evictable is removed by the first sweep that reaches the timeout |
| `ResidencyRuns.ScanVictimIsUnclaimed` | src/residency.rs:193-210 | a victim scan reads the entries at different moments while references change; whatever it found evictable is still unheld when it removes it |
| `ResidencyRuns.RecentlyUsedOutlives` | src/residency.rs:193-210 | in every run, an entry that was hit is not the victim of a scan that found another entry unused since before the hit, short of a saturated clock |
| `Managers.CollectExpired` | src/residency.rs:76-98 | one pass over the entries updates every idle mark and lists exactly the entries idle for the timeout, in any iteration order |
| `Recency.FindOldest` | src/residency.rs:194-204 | of the entries kept by the filter, one that none is older than, or none if there are none, in any iteration order |
| `Managers.ResidencyManager.Evict` | src/residency.rs:431-444 | absent keys report false, entries in use are busy, idle ones take exactly the eviction step |
| `Managers.ResidencyManager.Sweep` | src/residency.rs:71-108 | exactly the sweep step |
| `Managers.ResidencyManager.Admit` | src/residency.rs:454-491 | one pass of a load: ready entries are leased, loading ones joined, missing ones elected if they fit, else one least recently used victim goes or the load is refused |
| `Managers.ResidencyManager.MakeRoom` | src/residency.rs:470-476 | evicts one least recently used idle entry, and refuses only when none is idle |
| `Reserving.ReclaimedSplits` | src/residency.rs:193-210 | the bytes victims give back and those the remaining idle entries hold make up all reclaimable bytes |
| `Reserving.Budget.EvictIdle` | src/residency.rs:193-210 | removes the oldest idle entry and counts it |
| `Reserving.Budget.Reserve` | src/residency.rs:226-248 | terminates; evicts the shortest least recently used prefix that makes room; succeeds exactly when the bytes not held by idle entries leave room; busy only when no idle entry remains |
| `Reserving.ReclaimableIsCharged` | src/residency.rs:155-210 | in every reachable state the byte counter covers what the idle entries would give back |
| `Reserving.EvictionsAreARun` | src/residency.rs:226-248 | evicting the loop's victims in its order is a run of the protocol that ends with the loop's entries and the loop's bytes |
| `PlanCaches.RunKeepsInv` | src/plan_cache.rs:89-179 | in every interleaving: entries within capacity, entries = misses - evictions - failures, hits + misses = calls not refused, one loader per loading entry, one outcome per flight, nothing referenced evicted |
| `PlanCaches.SharersAgree` | src/plan_cache.rs:137-178 | all sharers of a flight get the same outcome |
| `PlanCaches.OneLoaderPerKey` | src/plan_cache.rs:89-136 | two running loaders never share a key |
| `PlanCaches.OnlyUnclaimedEntriesLeave` | src/plan_cache.rs:104-125 | no referenced and no loading entry is evicted: an entry leaves only as an unreferenced victim or because its own loader failed |
| `PlanCaches.ScanVictimIsUnclaimed` | src/plan_cache.rs:104-125 | however references change while the scan reads the entries, its victim is unreferenced when it is removed |
| `PlanCaches.RecentlyUsedOutlives` | src/plan_cache.rs:92-125 | in every run, a plan that was hit is not the victim of a scan that found another plan unused since before the hit |
| `PlanCaches.PlanCache.Request` | src/plan_cache.rs:89-136 | takes exactly one of the four steps hit, join, elect or refuse and reports which; a victim is least recently used, and refusal means nothing is evictable |
| `PlanCaches.PlanCache.Finish` | src/plan_cache.rs:137-164 | after publication every sharer can take exactly this outcome, a prepared plan is in the table and cannot be evicted, a refused one is gone, no other entry changed and the invariant holds |
| `Kernels.RunKeepsInv` | src/loom.rs:1513-1634 | every key ever requested is ready, active or waiting; waiting has no duplicates and nothing ready or active |
| `Kernels.FailuresRequeueFirst` | src/loom.rs:1576-1634 | failures return in their original order ahead of newer requests, and a build reports failure exactly when some drained request is not loaded |
| `Kernels.CleanBuildLoadsEverything` | src/loom.rs:1379-1394 | a build without failure has loaded everything requested before it started |
| `Kernels.EmptyBuildLoadsEverything` | src/loom.rs:1576-1634 | when nothing is waiting, everything requested is loaded |
| `Kernels.ResolveFindsItsKernel` | src/loom.rs:1379-1394 | if the build a handle ran returned no error, the handle's kernel is loaded in every later state, so resolving never reports one that was never requested |
| `Kernels.Cache.RequestKernel` | src/loom.rs:1513-1530 | queues a request once, unless it is loaded, being built or queued |
| `Kernels.Cache.Drain` | src/loom.rs:1581-1596 | refuses a second device and changes nothing; otherwise takes the whole queue |
| `Kernels.Cache.PublishBatch` | src/loom.rs:1607-1623 | running the loop over the outcomes is the sequence of build steps, with the failures collected in drained order |
| `Kernels.Cache.Requeue` | src/loom.rs:1624-1629 | the queue is exactly the drained requests that are not loaded, in their order, ahead of newer ones; every key ever named is loaded or queued and the invariant holds |
| `Kernels.Cache.PublishDirect` | src/loom.rs:1475-1507 | a direct load becomes ready and its queued request is withdrawn |
| `Compiling.EverySlotIsFilled` | src/loom.rs:343-376 | once every worker has left, each slot holds the outcome of its own request, claimed once |
| `Compiling.RunKeepsInv` | src/loom.rs:343-376 | in every interleaving a claimed index is held by one worker or filled |
| `Jobs.RunKeepsInv` | src/jobs.rs:42-155 | the live count is the queued, running and notifying jobs, within capacity, and flags agree with phases |
| `Jobs.SendNeverFails` | src/jobs.rs:112-155 | after admission the bounded channel is never full |
| `Jobs.CallbackRunsOnce` | src/jobs.rs:126-145 | each accepted job's callback runs at most once |
| `Jobs.CancelIsHonoured` | src/jobs.rs:42-53 | a cancel that returned true means the callback receives Cancelled |
| `Jobs.LateCancelChangesNothing` | src/jobs.rs:42-53 | a cancel that returned false means the work had already drained |
| `Jobs.EarlyCancelSkipsWork` | src/jobs.rs:126-145 | a job cancelled before a worker checks it never runs its work |
| `Jobs.JobPool.SubmitJob` | src/jobs.rs:112-155 | busy exactly at capacity; otherwise admitted and sent, with room in the channel |
| `Jobs.JobPool.CancelJob` | src/jobs.rs:42-53 | true means the work has not drained and nothing was delivered; false means it has and nothing changes; the invariant holds |
| `Jobs.JobPool.DrainJob` | src/jobs.rs:134-142 | the result is discarded exactly when some cancel returned true, a kept result comes from work that ran, and no later cancel can return true |
| `HostRuns.RunKeepsInv` | src/execution/buffer.rs:146-211 | in every run of guards, handoffs and device uses, a lease flag is set exactly while a writer or a handoff is live, reader counts are exact, exclusion holds, and visible engines are up to date |
| `HostRuns.WriterOrHandoffIsAlone` | src/execution/buffer.rs:146-211 | a write guard or a handoff is the only access to its allocation |
| `HostRuns.AccessSeesLatestWrite` | src/execution/buffer.rs:285-317 | every granted guard, open handoff and executing device use reads the latest published write |
| `HostRuns.FailedMaintenanceRestores` | src/execution/buffer.rs:189-211 | a lease whose maintenance fails is given back without a trace: views, other guards and device uses are untouched and the flags are those of the remaining accesses, whatever other threads did since it was reserved |
| `HostRuns.PoisonIsPermanent` | src/execution/handoff.rs:10-30 | poison stays, and every guard on a poisoned allocation was already there when the poison came |
| `HostRuns.OnlyPendingReadsAreGranted` | src/execution/buffer.rs:146-211 | after poison the allocation is granted only to a read guard that was then waiting for its maintenance, never to a writer, a handoff, a device use or a later reader |
| `HostRuns.GrantableIffReadPending` | src/execution/buffer.rs:189-211 | a poisoned allocation can still be granted if and only if such a read is waiting |
| `HostRuns.PoisonedReadIsGranted` | src/execution/scheduler.rs:345-360 | a run in which a read reserved beside a device read is granted after the device failed |
| `HostStorage.Storage.AcquireWith` | src/execution/buffer.rs:146-211 | the lease is granted exactly without conflict, device use or failed maintenance; every refusal leaves the state as it was and has its own error |
| `HostStorage.Storage.MakeVisible` | src/execution/buffer.rs:298-317 | the engine then reads the latest published write; failed maintenance changes nothing; no other engine's freshness changes |
| `HostStorage.Storage.DropWriteGuard` | src/execution/buffer.rs:380-397 | a new version is published that the host alone reads, every other engine needs maintenance first, and only poison refuses the next host access |
| `HostStorage.ReserveHandoff` | src/execution/handoff.rs:61-86 | a handoff over several buffers reserves all of them or none |
| `Shapes.CheckedProduct` | src/tensor.rs:90-98 | the element count, unless some leading product overflows |
| `Shapes.Strides` | src/artifacts/onnx.rs:550-560 | row-major strides, unless some trailing product overflows |
| `TensorLayouts.Strided` | src/tensor.rs:85-129 | accepted exactly when lengths match, no stride is zero, and the tensor is empty or every long axis steps over all finer ones without sharing a stride and its bytes fit isize |
| `TensorLayouts.Extent` | src/tensor.rs:107-117 | the loop over sorted axes computes one past the last offset, and fails exactly on an overlap or an overflow |
| `TensorLayouts.ChainedIffSeparated` | src/tensor.rs:106-117 | on sorted axes the running check accepts exactly the separated layouts |
| `TensorLayouts.AcceptedNeverOverlaps` | src/tensor.rs:83-129 | distinct multi-indices of an accepted layout have distinct offsets, all inside the byte extent, which the last element attains |
| `TensorLayouts.AxisOrderIsIrrelevant` | src/tensor.rs:85-129 | acceptance, element count and byte extent do not depend on the order of the axes |
| `TensorLayouts.ElementsFitExtent` | src/tensor.rs:90-98 | a separated layout has room for all its elements, so the count is never what overflows |
| `TensorLayouts.InterleavedIsRefused` | src/tensor.rs:107-110 | some layouts without overlap are refused |
| `TensorLayouts.New` | src/tensor.rs:66-81 | succeeds exactly when elements times element size fit isize, and yields a contiguous layout of exactly that many bytes |
| `TensorLayouts.IsContiguous` | src/tensor.rs:173-188 | true exactly for empty tensors and row-major strides on every long axis |
| `TensorLayouts.ContiguousBytes` | src/tensor.rs:173-188 | contiguous layouts have bytes = elements x element size |
| `TensorLayouts.AcceptedCountFits` | src/tensor.rs:85-129 | an accepted layout's element count always fits, so the contiguity test never stops on an overflow |
| `Broadcasting.BroadcastDims` | src/artifacts/onnx.rs:563-589 | right-aligned, each dimension pair is equal or has a one, and the result is the larger; the rank is the larger rank |
| `Broadcasting.BroadcastCommutes` | src/artifacts/onnx.rs:563-589 | operands may be swapped, errors included |
| `Broadcasting.BroadcastAssociates` | src/artifacts/onnx.rs:563-589 | if either grouping succeeds, both agree exactly when no dimension absorbs a zero into a one before a longer dimension arrives |
| `Broadcasting.PositiveShapesAssociate` | src/artifacts/onnx.rs:563-589 | on positive shapes broadcasting is associative as a partial operation |
| `Broadcasting.BroadcastIsLeast` | src/artifacts/onnx.rs:563-589 | the result is the least shape both operands fit |
| `Broadcasting.OperandFits` | src/artifacts/onnx.rs:563-589 | an operand fits the result exactly when no zero of it met a one |
| `Broadcasting.ZeroMeetsOne` | src/artifacts/onnx.rs:563-589 | [0] against [1] gives [1], which [0] does not fit |
| `Broadcasting.BroadcastIndex` | src/artifacts/onnx.rs:592-628 | succeeds exactly for an index inside a representable output the input fits, and equals unflatten, project, flatten, below the input size |
| `Broadcasting.SumCoordinates` | src/artifacts/onnx.rs:609-627 | the loop's checked sums never overflow for a fitting input |
| `Broadcasting.CoordinateAt` | src/artifacts/onnx.rs:616 | dividing by the stride and reducing by the dimension reads that coordinate of the flat index |
| `Broadcasting.FlattenUnflatten` | src/artifacts/onnx.rs:609-627 | flattening undoes unflattening |
| `Broadcasting.UnflattenFlatten` | src/artifacts/onnx.rs:609-627 | unflattening undoes flattening |
| `Broadcasting.BroadcastIsReadable` | src/artifacts/onnx.rs:563-628 | after a broadcast of positive shapes whose size fits, every output index reads one element of each operand without an error |
| `Broadcasting.EveryElementIsRead` | src/artifacts/onnx.rs:592-628 | every element of a fitting input is read by some output index |
| `Broadcasting.ReadsCompose` | src/artifacts/onnx.rs:592-628 | broadcasting through an intermediate shape reads the same element as broadcasting at once |

## Left out

- Native code: device behaviour, the fabric and the C bridge; only that a barrier waits for every earlier command.
- The AQL and SDMA submission paths of a finished graph, which run commands in order and ignore barrier flags.
- Memory ordering below atomic steps, mutex poisoning, real time and thread spawn failure.
- Condition variables: waiting loops appear as steps that are not enabled yet; wake-ups are not modelled, so `NeverStuck` is about enabled steps and not about notified threads.
- The inference slot pool, run slots of a prepared graph, completion observers and wakers.
- Bundle provisioning, disk caches, Hugging Face resolution, the CLI, the runner, benchmarks and examples.
- `onnx_proto.rs`, stream staging, scratch and buffer pools, constant packing, target parsing, statistics snapshots.
- HostRuns.RunKeepsInv: device uses are per allocation and start only beside uses of their own engine where a writer is involved; that the scheduler keeps to this is `Regions.WritersShareAnEngine`, and the two step systems are not run together.
- Regions.WritersShareAnEngine: that storage which is not shared is used by one engine only is a premise; it comes from the address lookups of the engines, which are outside the model.
- Schedulers.RunKeepsInv: sequence numbers do not run out, as the code itself insists.
- Summaries.Summarize: owners retained by a view are not modelled, and event counts do not overflow 64 bits.
- Dispatching.Scheduler.Enqueue: host conflicts and free run slots are checked before it by the caller and are not repeated here.
- Reserving.Budget.Reserve: one caller without interference; each eviction gives back a fixed charge, and memory that an evicted value reserved for itself is not counted. Interleaved reservations are the steps of `Residency`.
- ResidencyRuns.TimeoutIsSafe: a sweep reads every entry in one step. Spread over time under the lock it would decide each entry at its own moment; what it found evictable stays unclaimed until removal (`ResidencyRuns.StepKeepsUnclaimed`).
- Managers.ResidencyManager.MakeRoom: states its choice for a scan during which nothing else runs; scans during which references drop are `ResidencyRuns.ScanVictimIsUnclaimed` and `ResidencyRuns.RecentlyUsedOutlives`.
- PlanCaches.PlanCache.Request: likewise; spread scans are `PlanCaches.ScanVictimIsUnclaimed` and `PlanCaches.RecentlyUsedOutlives`.
- Weak references of callers: a caller may turn a returned reference into a weak one and upgrade it while a victim scan runs; neither cache has such a step, so both `ScanVictimIsUnclaimed` lemmas are about runs without it.
- Dispatching.EveryLaneIsServed: about starts chosen by background workers; a caller that helps its own submission takes the first lane it can use and owes the other lanes nothing.
- Kernels: artifact contents, launch signatures and the disk cache are outside the model; a request is its key and source, and the caller-key index (src/loom.rs:1661-1733) appears only through the requests and direct loads it makes.
