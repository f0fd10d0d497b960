# A verified model of the Ductile job engine

Ductile runs plugins as jobs kept in SQLite tables. A dispatch loop claims queued jobs for worker
goroutines, workers write results and route events to child jobs, a scheduler enqueues timed jobs and
repairs the tables after a crash, and synchronous callers wait for whole trees of jobs. This project
models that engine in Dafny and proves what its operations keep true over every run.

* **Job queue protocol.** `JobTables` gives the four job tables as values with one function per SQL
  transaction; `Queue` is the mutable queue object, proved against them. `Protocol` is the state machine
  in which dispatch loop, workers, crash, recovery, cancel, prune and waiters interleave step by step.
  `JobFacts` and `ProtocolInvariant` hold the inductive invariant; `JobSafety`, `RoutedChildren`,
  `RetryTiming`, `TreeFinality`, `Wakeup` and `DedupePrune` the theorems about runs; `LostWakeups` and `WitnessRuns`
  concrete runs that show which conditions those theorems need; `EnqueueEdges` two edge cases;
  `RecoveryGap` what a crash in the middle of a recovery kill leaves behind.
* **Context ledger and loop guard.** `ContextJson` (deep accretion as a partial join), `ContextLedger`
  (append-only contexts), `ControlPlane`, `Router`, `RouteResolution` (what a route leads to) and
  `LoopGuard` (the bound on chains of transitions).
* **Scheduler entries.** `CircuitBreaker`, `Schedule` (cron and one-shot entries) and `CatchUp`.
* **Algorithms.** `GraphCycle` (three-colour walk) and `WithTemplate` (parser, evaluation, remapping).

Time is an integer clock that never goes back. Ids are natural numbers that are drawn fresh. A plugin
run, an enqueue outcome, the schedule constraints and the encoded size limit are inputs.

## Where the code and its own text differ

The model follows the code in each case.

* A dead row is not final: a cancel marks a running row dead while its worker lives on, and neither the
  retry nor the completion write looks at the current status. It can be left exactly while that worker
  executes.
* A cancel notifies no waiter. One that takes the last outstanding jobs of a tree, with no worker about to
  notify, leaves its waiters asleep; any other cancel does not matter to them.
* A second waiter on the same root job takes over the map entry of the first, or takes it away when it
  returns; the first is then never told. Without either, and without a prune of the tree, a waiter is woken.
* A time to live given with an enqueue request is not checked against the queue retention; only the
  configured default is.
* A failure that meets a raised threshold closes an open breaker and is logged as a success.
* When no cron slot lies within five years of a firing, the entry is not advanced and fires on every tick.
* `detectGraphCycle` reports the first start node that reaches a cycle, not "a node on a cycle". The two
  agree exactly on graphs in which every node that reaches a cycle lies on one.
* Crash recovery gives up on a job in two transactions. A crash between them leaves a dead row without
  completion time and log row, which no prune ever removes.
* An insert that is ignored for a blank source event id answers with the id of a row that does not
  exist. No caller in the program passes one.
* Dedupe lookups trim the key of a request but the row keeps it as it came, so a padded key is never
  recognised.

## Model

| member | source | states |
|---|---|---|
| `JobQueue.Queue.FindDuplicate` | internal/queue/queue.go:403-449 | Finds a job exactly when one of the two dedupe lookups does: the newest outstanding one, otherwise the latest recent success |
| `JobQueue.Queue.FindOutstandingByDedupeKey` | internal/queue/queue.go:549-568 | Finds the newest queued or running job of the key and target, if there is any |
| `JobQueue.Queue.FindRecentSucceededByDedupeKey` | internal/queue/queue.go:525-547 | Finds the latest succeeded job of the key and target within the time to live, if there is any |
| `JobQueue.Queue.Enqueue` | internal/queue/queue.go:393-523 | Which field is missing, the job that makes the request a duplicate, insert-or-ignore on the unique child index, the first transition: the new tables and the answer, for every request |
| `EnqueueEdges.AnswerIs` | internal/queue/queue.go:393-523 | In plain fields: which answer a request gets, and that at most one row is added, queued at its first attempt with the limit asked for or else 4 |
| `EnqueueEdges.PhantomIff` | internal/queue/queue.go:492-522 | The answer names a row that does not exist exactly when the insert was ignored for a blank source event |
| `EnqueueEdges.CallersGetRows` | internal/dispatch/dispatcher.go:1419-1425 | That never happens to the program's own callers |
| `EnqueueEdges.BlankEventAnswersPhantom` | internal/queue/queue.go:492-522 | It happens to a repeated child request with a blank event id |
| `EnqueueEdges.PaddedKeyIsNeverFound` | internal/queue/queue.go:403-411 | A row can make a request a duplicate only if its stored key has no white space around it |
| `EnqueueEdges.RepeatIsDroppedIff` | internal/queue/queue.go:403-484 | Of two equal keyed requests the second is dropped exactly when it asks for the outstanding lookup and its key is not padded |
| `JobQueue.Queue.DequeueEligible` | internal/queue/queue.go:592-684 | Claims the (created_at, row id)-least job among all eligible ones, finds nothing exactly when none is eligible, and fails without a change if the attempt fact exists |
| `JobQueue.Queue.CancelOutstandingJobs` | internal/queue/queue.go:317-391 | Refuses an empty plugin or command; otherwise marks exactly the queued and running rows of the target dead, logs each once, in some order, and counts them |
| `JobQueue.Queue.UpdateJobForRecovery` | internal/queue/queue.go:1509-1563 | Stores status, attempt and retry time in the row whatever its current status is, changes no other row, and logs only a change of status |
| `JobQueue.Queue.CompleteWithResult` | internal/queue/queue.go:1676-1763 | Refuses non-terminal statuses, writes the terminal status and the first job_log row of the attempt, and overwrites no job_log row |
| `JobQueue.Queue.PruneJobQueue` | internal/queue/queue.go:1590-1606 | Exactly the terminal rows completed before the cutoff go, the others stay as they are; a retention of zero removes none |
| `JobFacts.Append` | internal/queue/queue.go:67-83 | Recording a legal transition from a job's last status keeps every job's walk connected |
| `JobFacts.InsertKeeps` | internal/queue/queue.go:441-516 | An insert keeps the table invariant: attempt facts, transition walks, key exclusion, unique children, job_log |
| `JobFacts.ClaimKeeps` | internal/queue/queue.go:592-684 | A claim keeps the table invariant and adds the next attempt fact |
| `JobFacts.RequeueKeeps` | internal/queue/queue.go:1509-1563 | A requeue of a running or cancelled row below its limit keeps the table invariant |
| `JobFacts.CompleteKeeps` | internal/queue/queue.go:1676-1763 | A completion of a running or cancelled row keeps the table invariant |
| `JobFacts.CancelKeeps` | internal/queue/queue.go:317-391 | A cancel of any set of outstanding rows keeps the table invariant |
| `JobFacts.PruneKeeps` | internal/queue/queue.go:1590-1606 | A prune keeps the table invariant |
| `RetryTiming.RetryDecidedIff` | internal/dispatch/retry_policy.go:30-72 | A retry is decided exactly when the exit code is not 78, the plugin did not answer an error with a veto, and the attempt is below the first positive of job limit, plugin limit and 4 |
| `RetryTiming.RetryableIff` | internal/dispatch/dispatcher.go:527-606 | In any run a worker's failed job can be retried exactly while the failure allows it and the job was started less often than its limit |
| `RetryTiming.OrphanRequeuedIff` | internal/scheduler/scheduler.go:1077-1132 | Recovery queues an orphan again, without delay, exactly while it was started less often than its limit, and otherwise gives up on it |
| `RetryTiming.NotBeforeDelay` | internal/dispatch/dispatcher.go:539-544 | In any run a retried job is not started again before its delay is over |
| `RetryTiming.OfferedAfterDelay` | internal/queue/queue.go:592-684 | Once it is over, with lane and key free, the loop does not come away empty, and takes this job if the other queued rows are younger |
| `RetryTiming.ClaimsOldestReady` | internal/queue/queue.go:592-684 | What the loop claims is ready, has lane and key free, and is older than every other job of which that is true |
| `RetryTiming.TakesIff` | internal/queue/queue.go:592-684 | A dequeue takes a job exactly if it is ready, its plugin and key are neither excluded nor busy, and no such job is older |
| `RetryTiming.EndIsStamped` | internal/queue/queue.go:1713-1728 | A write that ends a job stamps the time of the step, but for the first half of a recovery kill |
| `RetryTiming.CancelTakes` | internal/queue/queue.go:317-391 | In any run a cancel makes exactly the queued and running rows of its plugin and command dead and logs each; all others stay |
| `RetryTiming.FirstLogRowStays` | internal/queue/queue.go:1729-1755 | No completion overwrites the job_log row of an attempt |
| `RetryTiming.NotifiesOnlyAtEnd` | internal/dispatch/dispatcher.go:1648-1653 | A worker notifies only after a completion, or after a retry whose row was gone |
| `ProtocolInvariant.LanesAfterClaim` | internal/dispatch/dispatcher.go:119-163 | A claim outside the lanes counted as full leaves every lane within its parallelism, although the counts are old |
| `ProtocolInvariant.StepKeepsInv` | internal/dispatch/dispatcher.go:101-185 | Every step of the machine keeps the whole invariant, and a claim never meets an existing attempt fact |
| `ProtocolInvariant.RunInv` | internal/scheduler/scheduler.go:1052-1159 | The invariant holds in every state of every run, through crashes and recovery |
| `JobSafety.StartsAreBounded` | internal/queue/queue.go:85-93 | Over any run the attempt facts of a job are exactly 1..number of starts, and starts never exceed max_attempts |
| `JobSafety.AttemptNumber` | internal/scheduler/scheduler.go:1077-1132 | A running row's attempt is its number of starts, a queued row's one more |
| `JobSafety.FinishedIsFinal` | internal/queue/queue.go:1713-1728 | Succeeded, skipped, failed and timed_out rows never change again; they can only be pruned |
| `JobSafety.LogMatchesRows` | internal/queue/queue.go:1539-1558 | Each job's transitions are a connected legal walk from queued that ends in the row's status |
| `JobSafety.WorkerOfDead` | internal/queue/queue.go:365-376 | A worker still executing a dead row was executing it when a cancel hit it, and the row has been dead since |
| `JobSafety.DeadIsLeftByItsWorker` | internal/dispatch/dispatcher.go:527-606 | A dead row gets another status only by the worker that was executing it when it was cancelled |
| `JobSafety.DeadCanBeLeftIff` | internal/dispatch/dispatcher.go:527-606 | In every state of the invariant a step can take a dead row to another status exactly if some worker executes its job |
| `WitnessRuns.DeadRowIsLeft` | internal/queue/queue.go:1676-1763 | A run in which a cancelled, dead job becomes succeeded |
| `RecoveryGap.UnfinishedArisesIff` | internal/scheduler/scheduler.go:1118-1131 | A terminal row without completion time arises exactly from the first transaction of a recovery kill |
| `RecoveryGap.KillingStep` | internal/scheduler/scheduler.go:1118-1131 | The second transaction completes the row and its log; a crash before it strands the row; no other step matters |
| `RecoveryGap.UnfinishedIsKilled` | internal/scheduler/scheduler.go:1052-1159 | In every reachable state a terminal row without completion time is being killed or stranded |
| `RecoveryGap.StrandedForever` | internal/queue/queue.go:1590-1606 | A stranded row is never written, logged or pruned in any continuation |
| `RecoveryGap.StrandedRow` | internal/scheduler/scheduler.go:1118-1131 | A run that strands a row |
| `JobSafety.LanesHold` | internal/dispatch/dispatcher.go:101-206 | In every reachable state a plugin with a positive entry n has at most n running rows and any other plugin at most one, all together at most max_workers (at least one), and a leaving worker's send never blocks |
| `JobSafety.LaneSkippedIff` | internal/dispatch/dispatcher.go:119-136 | A count skips exactly the plugins with as many running rows as their configured limit |
| `JobSafety.CountsWithFreeWorker` | internal/dispatch/dispatcher.go:119-127 | The loop may count exactly while it has a worker to spare |
| `JobSafety.ConfigIs` | internal/dispatch/dispatcher.go:101-110 | The limits in force are those of the latest start |
| `JobSafety.RowsStayApart` | internal/queue/queue.go:592-684 | At most one running row per (dedupe key, plugin, command); no two rows are the same routed child |
| `RoutedChildren.IdentityStays` | internal/queue/queue.go:478-484 | No step changes a row's target, key, limit, age or place in the tree |
| `RoutedChildren.DeliveredOnce` | internal/dispatch/dispatcher.go:771-843 | However often each target of an event is routed, it ends with exactly one child row, and older children are untouched |
| `RoutedChildren.RoutedExactlyOnce` | scripts/migrate-fanout-dedupe-index.py:31-35 | In any run a routed (parent, event, target) has exactly one row until that row is pruned, whatever else is pruned and even if it is routed again after a crash |
| `RoutedChildren.ChildLostIff` | internal/queue/queue.go:1590-1606 | A served request stops being served exactly by a prune of its child row |
| `WitnessRuns.PrunedChildReturns` | internal/dispatch/dispatcher.go:771-843 | A run in which the same request is inserted under two ids because its first row was pruned in between |
| `JobTree.TreeAfterInsert` | internal/queue/queue.go:1766-1783 | An insert adds at most its row to a tree, exactly when its parent is in it or it is the root |
| `TreeFinality.TreeStep` | internal/dispatch/dispatcher.go:468-510 | Under any step that prunes no tree row, a tree grows only by a child that a live worker of one of its jobs routes |
| `TreeFinality.DoneStep` | internal/queue/queue.go:1766-1783 | A complete tree with no job in execution keeps its ids and statuses under every step but a prune |
| `TreeFinality.CompleteTreeIsFinal` | internal/dispatch/dispatcher.go:1762-1803 | If no job of the tree was cancelled or pruned, an all-terminal snapshot is final across every continuation that does not prune it |
| `TreeFinality.BusyTreeCanGrow` | internal/dispatch/dispatcher.go:701-869 | Conversely, a tree with a job in execution can always take one more child |
| `Wakeup.MovedWaiterOk` | internal/dispatch/dispatcher.go:1711-1760 | While no job of the tree was cancelled or pruned, a waiter confirms only a tree that is done |
| `Wakeup.PendingLostIff` | internal/dispatch/dispatcher.go:1610-1654 | While the tree is kept, something to wait for (an outstanding job, or a worker about to notify) is lost before a notify exactly by a cancel that takes every outstanding job of the tree with nobody about to notify |
| `Wakeup.CompleteStays` | internal/dispatch/dispatcher.go:1762-1793 | A complete tree keeps its size until it has an outstanding job again |
| `Wakeup.NoLostWakeup` | internal/dispatch/dispatcher.go:1806-1820 | A registered waiter blocked on an empty channel although its tree is complete is about to be woken by a worker between its write and its notify, if since it registered no job of the tree was pruned and no such cancel came |
| `Wakeup.RegisteredIffUndisplaced` | internal/dispatch/dispatcher.go:1715-1723 | A waiter owns the map entry of its root exactly if no other waiter of that root has registered or returned since its own registration |
| `Wakeup.AloneIsUndisplaced` | internal/dispatch/dispatcher.go:1715-1723 | The only waiter of a root is never displaced |
| `Wakeup.WokenIffUndisplaced` | internal/dispatch/dispatcher.go:1711-1760 | Under that condition a waiter asleep on a complete tree is about to be woken exactly if it was not displaced |
| `Wakeup.SleepsOn` | internal/dispatch/dispatcher.go:1736-1760 | A displaced waiter blocked on an empty channel stays so in every continuation, as long as its caller waits |
| `Wakeup.ReturnsIff` | internal/dispatch/dispatcher.go:1762-1793 | A look or confirmation returns exactly if the root is gone, or if the second reading is complete and has the size of the first; otherwise the waiter confirms a complete tree and blocks on any other |
| `Wakeup.SignalledByNotify` | internal/dispatch/dispatcher.go:1806-1820 | In any run a signal in a channel comes from a notify since which the waiter was there and was not woken |
| `Wakeup.ConfirmedTreeIsFinal` | internal/dispatch/dispatcher.go:1762-1793 | The second reading never disagrees with the first, and the tree returned is the final one |
| `LostWakeups.CancelLosesWakeup` | internal/queue/queue.go:317-391 | A run in which a cancel leaves a waiter asleep on a dead tree with no worker left |
| `LostWakeups.SecondWaiterLosesWakeup` | internal/dispatch/dispatcher.go:1711-1723 | A run without cancel that ends with the first of two waiters displaced and blocked on an empty channel, its tree complete and nobody about to notify |
| `LostWakeups.CancelledTreeGrows` | internal/queue/queue.go:365-376 | A run in which a cancelled, complete tree gains a child |
| `DedupePrune.LookupAgrees` | internal/queue/queue.go:525-547 | With ttl at most the retention, the recent-success lookup finds a match on the pruned table iff it does on the full one |
| `DedupePrune.LookupAgreesIff` | internal/config/loader.go:678-680 | The lookup agrees on all pairs of tables exactly when pruning is off or the ttl is at most the retention |
| `DedupePrune.DequeueAgrees` | internal/queue/queue.go:592-684 | A dequeue takes the same job from the pruned and the full table |
| `DedupePrune.EnqueueAgreesIff` | internal/queue/queue.go:393-523 | One enqueue is answered alike by both engines exactly if it is no redelivery to a pruned child |
| `DedupePrune.PruneIsInvisibleIff` | internal/queue/queue.go:1590-1606 | Over any interleaving with ttls within the retention and no late keyed success for a pruned row, both engines answer every enqueue alike exactly if no event is redelivered to a pruned child |
| `DedupePrune.RedeliveryIsVisible` | internal/queue/queue.go:492-510 | For every retention, a redelivery to a pruned child is answered differently |
| `DedupePrune.LongTtlIsVisible` | internal/queue/queue.go:405-429 | For every retention and every greater request ttl, a run from the empty tables is answered differently |
| `DedupePrune.LateResultIsVisible` | internal/queue/queue.go:1676-1763 | For every ttl and retention, a late success of a cancelled and pruned keyed job makes a run from the empty tables be answered differently |
| `DedupePrune.LateRetryIsVisible` | internal/queue/queue.go:1509-1563 | So does a late retry of one |
| `ContextJson.DeepAccrete` | internal/state/context_store.go:282-317 | The in-place merge gives the specified result in every iteration order of the updates |
| `ContextJson.AccreteIsUpper` | internal/state/context_store.go:282-317 | A successful accretion extends the updates and everything inherited from the parent |
| `ContextJson.AccreteIsLeast` | internal/state/context_store.go:282-317 | If a common extension exists, accretion succeeds and its result lies below it |
| `ContextJson.AccreteSucceedsIff` | internal/state/context_store.go:282-332 | Accretion succeeds exactly when parent and updates have a common extension |
| `ContextJson.StripAccrete` | internal/state/context_store.go:282-332 | Accretion commutes with leaving out the mutable path |
| `ContextJson.UpdatesCommute` | internal/state/context_store.go:282-332 | Any two update sets give the same outcome in either order: both conflict, or both succeed with results equal off the mutable path |
| `ContextJson.SameResultIff` | internal/state/context_store.go:282-332 | When both orders succeed, the results are equal exactly if the sets agree on every mutable path that both write |
| `ContextJson.MutableUpdatesDoNotCommute` | internal/state/context_store.go:295-298 | The exception compares the joined path: on every destination, two sets that differ under a top-level key spelled ductile.route_depth succeed in both orders and end differently |
| `ControlPlane.DepthUpdatesDoNotCommute` | internal/state/context_store.go:295-298 | So do two different depths nested in the namespace, as the program writes them, wherever they succeed |
| `ControlPlane.ReadBack` | internal/state/pipeline_instance.go:25-170 | Each writer succeeds exactly on an acceptable value for which the namespace is free, its reader gives that value back, and a missing field reads as blank or zero |
| `ContextLedger.ContextStore.CreateContext` | internal/state/context_store.go:85-149 | Decode, parent lookup, accretion, size limit and append, with every error path; keeps the ledger invariant |
| `ContextLedger.CreatedIff` | internal/state/context_store.go:85-149 | A context is created exactly if the updates are an object, null or missing, the parent exists, both have a common extension, and the least one fits; that one is appended at the given place, and otherwise the named error changes nothing |
| `ContextLedger.CreateAllKeeps` | internal/state/context_store.go:85-149 | Any sequence of creates only appends and keeps the ledger invariant |
| `ContextLedger.LineageKeeps` | internal/state/context_store.go:170-212 | Every ancestor in a lineage is inherited by the leaf |
| `ContextLedger.ValuesAreInherited` | internal/state/context_store.go:170-212 | Over any sequence of creates, a value of an ancestor is found unchanged in each descendant unless its path runs through route_depth |
| `Router.DedupeDispatches` | internal/router/engine.go:335-347 | Keeps the first dispatch of each key, in order |
| `Router.FirstsAreDistinct` | internal/router/engine.go:335-347 | The result has every key of the input exactly once and nothing else |
| `Router.FirstsAreFirst` | internal/router/engine.go:335-347 | What is kept is, in order, exactly the dispatches before which none has the same key |
| `RouteResolution.SameKeyIff` | internal/router/engine.go:335-347 | Two dispatches have one key exactly if pipeline, step, instance, plugin, command and event agree |
| `RouteResolution.ResolveLists` | internal/router/engine.go:270-318 | A resolved route yields exactly one dispatch for each plugin step that chains of calls lead to, in manifest order, with that step's plugin, command, step and pipeline |
| `RouteResolution.ResolveFailsIff` | internal/router/engine.go:270-318 | Resolving fails exactly if calls lead to one whose target is blank, unknown or without entry routes |
| `RouteResolution.TakenIff` | internal/router/engine.go:360-392 | A transition is taken exactly from its own step, for its event type or any, within an instance, while the depth is below the job's budget or else the route's limit |
| `LoopGuard.ResolveCarries` | internal/router/engine.go:270-318 | Every dispatch, through any nesting of calls, has depth one more, the same instance and a nonzero budget unchanged |
| `LoopGuard.UpdatesAreStamped` | internal/dispatch/dispatcher.go:1145-1164 | Claims outside the reserved namespace are stamped without error with budget, instance and depth |
| `LoopGuard.StampAccretes` | internal/state/pipeline_instance.go:25-69 | Stamping neither causes nor hides an immutability error, and overrides just the namespace |
| `LoopGuard.PassAgrees` | internal/dispatch/dispatcher.go:871-897 | The cache of root contexts that a routing pass builds from nothing agrees with every dispatch of the same budget |
| `LoopGuard.PassHasOneBudget` | internal/router/engine.go:270-318 | A pass sends one budget into each pipeline instance: the job's, or else the pipeline's limit |
| `LoopGuard.ContextSucceeds` | internal/dispatch/dispatcher.go:871-926 | Wherever a hop comes in its pass, its control-plane updates never fail; its context is refused only if its claims alone would be |
| `LoopGuard.PassKeepsPlanes` | internal/dispatch/dispatcher.go:701-869 | Every context that a routing pass creates, by transition, call, trigger or hook, has a well-formed namespace |
| `LoopGuard.HopStep` | internal/dispatch/dispatcher.go:717-760 | Wherever it comes in its pass, a hop's context is exactly one level deeper, with the same instance and the same positive budget |
| `LoopGuard.TriggerStep` | internal/dispatch/dispatcher.go:871-926 | A triggered pipeline's first context has its own depth, instance and budget, whether or not the triggering job has a context |
| `LoopGuard.PlacedAt` | internal/dispatch/dispatcher.go:899-926 | A new context is for the dispatched step and has its claims; it goes on from the sender's context within one pipeline instance, and otherwise from a root context of the dispatched pipeline |
| `LoopGuard.SharedRoot` | internal/dispatch/dispatcher.go:871-897 | Two dispatches of one pass into the same new pipeline instance share its root context |
| `LoopGuard.HopConnects` | internal/dispatch/dispatcher.go:717-760 | A hop leaves from the step its job's context is for and arrives at the context of the dispatched step |
| `LoopGuard.LoopGuardHolds` | internal/router/engine.go:360-392 | Once a context has a positive budget, every chain of consecutive transitions is no longer than what is left of it |
| `CircuitBreaker.BreakerStore.ReconcileCircuitBreaker` | internal/scheduler/scheduler.go:828-905 | The new breaker row and log entry for every latest result |
| `CircuitBreaker.BreakerStore.CanSchedule` | internal/scheduler/scheduler.go:933-965 | A job is admitted exactly if the breaker is not open or at least the reset time has passed since it opened; an open one then becomes half-open |
| `CircuitBreaker.BreakerStore.ResetCircuitBreaker` | internal/queue/queue.go:1479-1505 | A reset closes the breaker, clears its counters, logs the previous state, and keeps the invariant with no result counted |
| `CircuitBreaker.BreakerInvariant` | internal/scheduler/scheduler.go:828-965 | With a fixed threshold: closed iff failures are below it, failures are the trailing ones counted since the last reset, last job, last failure and opening time are those of the last counted result, the log replays to the state |
| `CircuitBreaker.AdmittedIff` | internal/scheduler/scheduler.go:1044-1049 | In any run an open breaker admits and logs the end of its cooldown exactly from the completion of the last counted failure plus the reset time on |
| `CircuitBreaker.ObservedIs` | internal/scheduler/scheduler.go:828-905 | In any run what an observed result does to the state, and the log entry with reason, failure count and job |
| `CircuitBreaker.ResetIs` | internal/queue/queue.go:1479-1505 | A reset forgets all results and is always logged |
| `CircuitBreaker.MislabelledIff` | internal/scheduler/scheduler.go:868-886 | A failure is logged as a success exactly when it closes a breaker that was not closed |
| `CircuitBreaker.SuccessIsTrue` | internal/scheduler/scheduler.go:868-886 | With a fixed threshold a change labelled success comes from a succeeded result |
| `CircuitBreaker.RaisedThresholdMislabels` | internal/scheduler/scheduler.go:1030-1035 | Raising the threshold of an open breaker produces the wrong label |
| `Schedule.FindNextAfter` | internal/scheduleexpr/cron.go:93-103 | The minute-by-minute search computes the specified slot |
| `Schedule.NextAfterIff` | internal/scheduleexpr/cron.go:93-103 | It is the least matching minute strictly after the argument; failure means none up to the deadline |
| `Schedule.EntryStore.EvaluateCronDue` | internal/scheduler/scheduler.go:652-670 | Due, next slot and error of a cron entry at an instant |
| `Schedule.EntryStore.ProcessCron` | internal/scheduler/scheduler.go:510-632 | What a tick does to a cron entry and whether it inserts a job, also when the time zone or the next slot is not found or the first slot cannot be written |
| `Schedule.EntryStore.ProcessOneShot` | internal/scheduler/scheduler.go:558-644 | The same for a one-shot entry |
| `Schedule.NextRunIsNextSlot` | internal/scheduler/scheduler.go:672-682 | In every reachable state NextRunAt is a whole matching minute, the least after the minutes dealt with |
| `Schedule.DueIffSlotCame` | internal/scheduler/scheduler.go:652-670 | A stored entry is due exactly when a matching minute has come since: none missed, none served twice |
| `Schedule.FiresIff` | internal/scheduler/scheduler.go:510-632 | In any run a tick fires exactly if the entry is live, the time zone is found, it is allowed, the enqueue does not fail, and a matching minute has come since those dealt with |
| `Schedule.StatusIs` | internal/scheduler/scheduler.go:355-372 | Which status a tick leaves: manual pauses and exhaustion stay, and an entry is paused as invalid exactly on a missing time zone or when no slot exists |
| `Schedule.FiringsIncrease` | internal/scheduler/scheduler.go:652-682 | After a recorded firing every later firing is in a later minute, with a matching minute in between |
| `Schedule.FiringLeavesMinuteIff` | internal/scheduler/scheduler.go:624-632 | A firing takes the entry off its minute and stores its time exactly when the time zone and a next slot are found and the write is made |
| `Schedule.SparseSlotRepeats` | internal/scheduleexpr/cron.go:93-103 | Any slot with no successor up to the deadline is fired again by the next tick, however late |
| `Schedule.OneShotOnce` | internal/scheduler/scheduler.go:633-644 | A one-shot entry inserts at most one job ever, plus one per stop between insertion and marking it exhausted |
| `Schedule.OneShotNotEarly` | internal/scheduler/scheduler.go:558-581 | The run time is fixed by the first tick that can write it and nothing is inserted before it |
| `Schedule.OneShotFiresIff` | internal/scheduler/scheduler.go:558-644 | In any run a tick fires exactly if the entry is live, that time has come, it is allowed and the enqueue does not fail |
| `Schedule.CutInsertsAgain` | internal/scheduler/scheduler.go:633-644 | A firing exhausts the entry exactly when the write after it is made; otherwise every later allowed tick fires again |
| `CatchUp.CatchUpStore.CatchUpSchedule` | internal/scheduler/scheduler.go:230-313 | The slots one pass submits, in order, and the timing it stores, for every policy and every enqueue outcome |
| `CatchUp.MissedIff` | internal/scheduler/scheduler.go:1196-1210 | The k-th slot after the last firing has come exactly when k is at most countMissedRuns |
| `CatchUp.SubmitsIff` | internal/scheduler/scheduler.go:230-273 | A pass submits something exactly if the policy is not skip, there is a last firing or else a last success, and the first slot after it has come; otherwise it changes nothing |
| `CatchUp.PassesAreConsecutive` | internal/scheduler/scheduler.go:269-310 | Any sequence of run_all passes submits consecutive slots: no gap, none twice |
| `CatchUp.PassDrains` | internal/scheduler/scheduler.go:275-301 | A pass submits at most 100 slots, all of them past, and leaves some only if it submitted 100 |
| `CatchUp.OnceClears` | internal/scheduler/scheduler.go:275-301 | A run_once pass submits the first missed slot, if any, and leaves nothing missed |
| `CatchUp.NextRunNotBehind` | internal/scheduler/scheduler.go:296-306 | A pass that submits moves the last firing forward, not beyond now, and leaves NextRunAt at or after it |
| `CatchUp.KeysDistinctIff` | internal/scheduler/scheduler.go:285-287 | Slots never share a dedupe key exactly when the interval is at least a second |
| `GraphCycle.Walker.Walk` | internal/doctor/doctor.go:279-291 | A walk ends; it finds a path back to the stack, or finishes its node with edges only to nodes finished before |
| `GraphCycle.DetectGraphCycle` | internal/doctor/doctor.go:272-299 | For every graph and order: true iff there is a cycle, and the node reported is the first that reaches one |
| `GraphCycle.FinishedReachesNone` | internal/doctor/doctor.go:272-299 | No finished node reaches a cycle |
| `GraphCycle.ReportsOnCycleIff` | internal/doctor/doctor.go:269-271 | The report lies on a cycle in every iteration order exactly if every node of the graph that reaches a cycle lies on one |
| `GraphCycle.ReportedMayLieOffCycle` | internal/doctor/doctor.go:269-271 | On a -> b -> b, started from a, the only node that can be reported is a, which lies on no cycle |
| `WithTemplate.ParseWithTemplate` | internal/dispatch/with.go:69-103 | The loop gives the specified segments or error |
| `WithTemplate.AcceptedIff` | internal/dispatch/with.go:69-103 | A template is accepted exactly when it prints a list of brace-free literals and nonblank brace-free paths with no two literals in a row; its segments are that list, trimmed |
| `WithTemplate.ParseInvertsPrint` | internal/dispatch/with.go:69-103 | Parsing inverts printing on every canonical list |
| `WithTemplate.ReprintKeepsSegments` | internal/dispatch/with.go:69-103 | Every accepted template reprints to one with the same segments |
| `WithTemplate.CloseIsUnexpected` | internal/dispatch/with.go:72-76 | Behind any well-formed part, a closing brace outside a path is that error |
| `WithTemplate.OpenIsUnclosed` | internal/dispatch/with.go:84-87 | So is an opening brace with no closing one behind it |
| `WithTemplate.PathIsRefused` | internal/dispatch/with.go:88-95 | So are a blank path and one with an opening brace, each with its own error |
| `WithTemplate.TextStaysText` | internal/dispatch/with.go:37-62 | Text without braces evaluates to itself |
| `WithTemplate.MixedIsText` | internal/dispatch/with.go:37-62 | A path with text around it is replaced by the text of its value, and fails if there is none |
| `WithTemplate.EvalWithTemplate` | internal/dispatch/with.go:37-62 | A single path yields its value, anything else the concatenated texts; any unresolved path fails |
| `WithTemplate.SinglePathKeepsValue` | internal/dispatch/with.go:34-47 | A template that is one padded path yields the resolved value untouched |
| `WithTemplate.ApplyWithRemap` | internal/dispatch/with.go:13-32 | For every key order: the payload with each key evaluated on the original payload, or the first key that fails |
| `WithTemplate.RemapExistsIff` | internal/dispatch/with.go:13-32 | Success and failure exclude each other: a result exists iff every key evaluates |
| `WithTemplate.RemapIsUnique` | internal/dispatch/with.go:13-32 | That result is unique, so key order does not show |
| `WithTemplate.RemapIs` | internal/dispatch/with.go:13-32 | In plain terms: each key of the map has its template's value on the original payload, every other key its old value |
| `WithTemplate.FailureIs` | internal/dispatch/with.go:23-28 | In plain terms: the failure named is the first key, in order, whose template does not evaluate |

## Left out

- Atomicity of an enqueue: its two lookups and its insert are separate statements; the protocol takes the insert alone as its step and so allows more interleavings.
- Pruning of job_log, job_transitions, job_attempts and breaker transitions, and job lineage queries.
- Failing database writes: the program only logs them; the model assumes that they succeed, except in a scheduler tick, where a failed write or a stop cuts the tick short.
- DedupePrune.PruneIsInvisibleIff: leaves out runs with a late keyed success or a late retry of a pruned row, which LateResultIsVisible and LateRetryIsVisible show to be visible; whether a given one shows depends on the enqueues after it.
- More than one runtime on the same database.
- Text order of RFC 3339 timestamps; logs are ordered by insertion.
- Plugin subprocesses, timeouts, signals, output capture and retry delays: a run has any outcome and a retry any delay.
- HTTP API, CLI, webhooks, relay transport, authentication, events and log output.
- The pipeline compiler, step conditions and the resolution of paths; compiled routes are data with a rank that falls along calls, and path resolution is a parameter.
- Root triggers and hooks beyond their first context: the depth guard does not apply to them, so no bound holds. The index maps built by the router's New and the loops of Next and NextHook over them.
- The router joins the parts of a dispatch key with NUL bytes; the model compares the parts.
- JSON text, number formats and the byte count of the size limit; numbers are integers and the limit a predicate.
- Cron field syntax and the calendar: an expression is a predicate on minutes, and "five years later" a function.
- Timing of every-interval schedules by jitter and success time, schedule constraints, and the part of canSchedule that counts outstanding jobs.
- A schedule whose command or expression changes, or that an operator pauses.
- Saturation of very large durations in countMissedRuns, and a stop in the middle of a catch-up pass, after which the same slots are submitted again.
- The two statements of a manual breaker reset are taken as one.
- Configuration loading, integrity manifests, the other doctor checks, migrations, backups and inspection reports.
- Event hub, bounded buffer, byte sizes and redaction: small members that would add nothing hard.
