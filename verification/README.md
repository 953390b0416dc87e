# The fine-tuning harness's task-lease protocol, verified

The harness runs grids of fine-tuning tasks. Workers lease tasks from a shared store, count an attempt, mark the task
running, call a handler, and write the outcome; leases that run out are taken over, tasks of dead workers are
recovered, and tasks that ran out of GPU memory go back to the queue. After each of these the worker refreshes the
run's status, which folds the statuses of the run's tasks. This project models that protocol and proves what it keeps,
together with the two smaller cores that have real content of their own: the early-stopping hook, and result validation
with run comparison.

`dafny verify dfyconfig.toml` checks everything.

## How the model is laid out

| module | what it holds |
|---|---|
| `Lifecycle`, `Records` | the statuses, the transition tables, and the records of the store |
| `Numerals`, `Order`, `Clock` | numerals, text order, sorted listings, UTC timestamps and their `isoformat()` text |
| `StoreOps` | every store operation as a function on the whole state: one atomic transaction each |
| `MemoryStore`, `SqlStore` | the in-memory store as a class with mutable tables, and the SQLite store's queries as relations on rows |
| `RunStatusFold`, `Runner`, `RefreshRace` | the fold of task statuses, creating a run and the refresh as methods, and refreshes split into separate reads and writes that interleave |
| `Decision`, `Protocol`, `TaskRecords` | how a worker judges what a handler comes to and what it writes, the step relation of any number of workers, and how records fit statuses |
| `Ledger`, `Exclusion`, `RunLife`, `InlineReclaim`, `Backoff` | properties over whole runs of that relation |
| `SharedRun`, `StaleRefresh` | workers and their split refreshes on one run, and two runs in which a stale refresh does harm |
| `Stranding` | why a task is left RUNNING |
| `Outcomes`, `Endings` | what an attempt leaves in its task's record, in the log and in its worker's report, told from the end of the handler's call alone |
| `Fate`, `Runaway` | what becomes of a task worked on alone, as a function of its payload and handler, and a handler whose starts have no bound |
| `Admission`, `ConcurrentDrain`, `DrainTally`, `SoloDrain`, `StrandedDrain` | the parent of a concurrent drain: device choice, counters, the loop beside its children, the counters told from the moves, a concurrency of one, and drains that exit with a task or the run left RUNNING |
| `LocalWorker`, `Drain` | the sequential worker: `run_once` and `drain` as methods on the in-memory store |
| `EarlyStopping`, `Validator`, `Comparator` | the early-stopping hook, result validation, comparison of runs |
| `Verdicts`, `Reports` | what each verdict says of a result's entries, and what a report says of the runs' tasks |

Runs and workers are numbers that stand for names, and a task's id is the position at which it was created. Clock
readings, lease ends, handler outcomes, free-memory readings, worker deaths and backoff draws are inputs: every theorem
holds for all of them. A handler in a drain is a function of the task and its attempt number; no pair occurs twice, so
this is any handler. It says what the call comes to and what it leaves of its copy of the payload, which the worker reads
the method and the attempt limit from. A worker that goes on after an exception has stranded its task counts as a new
one. Floats are reals with explicit NaN and infinities; a Python bool counts as a number where
`isinstance(v, (int, float))` accepts it, and an int too large for a float is a value of its own.

## Where the code differs from what it says, or from what one would expect

The model follows the code in each of these.

* `mark_task_running` does not check the lease owner. A worker whose lease ran out can mark a task that another worker
  has leased since: `Exclusion.OwnerMisnamed` is such a run, and `Exclusion.LateWorkersOverlap` extends it with one
  recovered death to two workers executing one task. `Exclusion.OwnerKeptExactly` names exactly the steps that break the
  ownership record.
* The stores move LEASED to LEASED, PENDING and FAILED without consulting the transition table. The true relation is the
  table and those three moves (`Lifecycle.StoreMove`, `Ledger.MovesAreStoreMoves`).
* Recovery of a dead worker keeps exclusion if and only if the task it recovers is the one that worker was at
  (`Exclusion.RecoveryKeepsExactly`, and over whole runs `Exclusion.ExclusiveThroughoutExactly`).
* Refreshes are not atomic. A refresh that stepped the run through RUNNING and then reads back a status that has
  meanwhile reached its target raises, and `run_once` then leaves its task RUNNING before the handler starts:
  `StaleRefresh.RaceRaises` is a run with two workers, and `RefreshRace.RaisesExactly` says that this is the only way a
  refresh raises.
* A refresh that has read the tasks and stalls may write after everyone else: `StaleRefresh.StaleWriteLast` ends with
  every task FAILED and the finishing time set, but the run at PARTIAL_FAILED. After the first attempt, the status is
  what the tasks call for exactly when the refresh that wrote it last had read them since they last changed
  (`SharedRun.StatusFollowsTasks`). Two split refreshes may both write the finishing time; a whole one never rewrites
  it.
* A refresh that saw a leased task before any attempt writes RUNNING, and the next refresh after that lease is requeued
  raises (`RunStatusFold.EarlyRefreshRaises`). A worker increments the attempt count before it refreshes, so workers
  never do this; the status command (`cli/main.py`) refreshes at any time and can.
* Some inputs make `run_once` raise between its mark and its final write. `drain` swallows the exception and the task
  stays RUNNING: a run seed that a random number library refuses, say a negative one, or a payload timeout that `int`
  refuses (both before the handler is even called); a handler that returns something that is not a mapping, a dictionary
  with an int too large for a float, or one whose `method` in force has no `lower()`; a result the SQLite store cannot
  write as JSON; an attempt limit that `int` refuses, when a crash needs it. `Decision.AnswerFailsExactly` has the
  condition, `Drain.FateFulfilled` and `ConcurrentDrain.ExitLeavesNothingBehind` say which tasks a drain leaves RUNNING,
  and `StrandedDrain.ExitLeavesTaskRunning` is a drain that does.
* The handler gets its own copy of the payload, and the worker reads the method and the attempt limit from that copy
  after the call. A handler that raises and sets a limit above its attempt number is tried again for ever: no bound on
  starts or backoff holds (`Runaway.StartsAreUnbounded`), and `drain` does not end (`Drain.GreedyStaysPending`). The
  bounds are stated with M the greatest limit the task's crashes leave; `drain` ends if and only if every task gets
  through (`Drain.Drain`, `Drain.BoundedDrainEnds`).
* A mapping that is not a dictionary becomes one when its wall time is added; one that brings its own `wall_seconds`
  stays what it is and ends DEGENERATE unexamined (`Decision.ForeignMappingIsRejected`).
* A concurrent drain's parent never refreshes the run after it recovers or abandons a dead child's task, so the drain
  may exit with its only task FAILED and the run RUNNING (`StrandedDrain.ExitLeavesRunRunning`).
  `ConcurrentDrain.StatusUpToDateExactly` says when the status is right.
* An attempt that runs out of GPU memory does raise the attempt count, despite the comment that it consumes no retry.
* PARTIAL_FAILED is not terminal and sets no finishing time.
* Concurrent children are built with the default retry policy, so their attempt limit is the payload's or one.
* The comparator validates stored results again without the payload's method. It agrees with the worker except when the
  payload's method hid the result's own (`Validator.ValidatedAgainExactly`, `Reports.StoredSuccessExactly`).

## Model

| member | source | states |
|---|---|---|
| Lifecycle.TerminalIsFinal | src/finetuneharness/orchestrator/lifecycle.py:16-37 | the statuses the table gives no way out of are exactly those that are not pending, leased or running, and lease recovery does not move them either |
| Lifecycle.ReachedFrom | src/finetuneharness/orchestrator/lifecycle.py:16-26 | from which statuses each task status can be reached by a checked write |
| Lifecycle.RunReachedFrom | src/finetuneharness/orchestrator/lifecycle.py:8-14 | from which statuses each run status can be reached |
| Clock.DaysAreConsecutive | src/finetuneharness/state/leases.py:11-25 | the day numbers behind instants are consecutive across ends of months and years, so instants are real elapsed time |
| Clock.FieldOrderIsInstantOrder | src/finetuneharness/state/leases.py:23-25 | comparing two UTC timestamps field by field is comparing the instants they denote, both ways |
| Clock.FractionOrder | src/finetuneharness/state/sqlite.py:271-276 | where one timestamp omits its zero fraction and the other has one, the text order is still the order of the microseconds |
| Clock.IsoOrderIsInstantOrder | src/finetuneharness/state/sqlite.py:271-276 | for all UTC timestamps, one `isoformat()` text sorts before another exactly when its instant is earlier, fraction omitted or not |
| Clock.IsoInjective | src/finetuneharness/state/sqlite.py:281-284 | different timestamps are stored as different text |
| Clock.IsoReads | src/finetuneharness/state/sqlite.py:281-284 | the text reads back field by field: fixed positions, separators, a fraction only when there are microseconds, and the offset +00:00 |
| Order.LexMeaning | src/finetuneharness/state/memory_store.py:80-83 | one text is before another exactly when it has the smaller character at the first difference or is a proper prefix |
| Order.LexLeast | src/finetuneharness/evaluation/comparator.py:360-360 | a nonempty set of keys has exactly one first key in text order |
| Order.InsertRowLists | src/finetuneharness/state/memory_store.py:78-83 | inserting a row keeps a listing complete, without repetition and in order, for any strict total order |
| StoreOps.RowOrderOrders | src/finetuneharness/state/memory_store.py:80-83 | rows by task key with ties in creation order are strictly and totally ordered |
| StoreOps.NextLeaseable | src/finetuneharness/state/memory_store.py:85-114 | the task a lease takes precedes every other pending or expired task of the run, and there is none only if no task is pending or expired |
| StoreOps.NextIsUnique | src/finetuneharness/state/memory_store.py:85-114 | no other task could have been taken |
| StoreOps.LeaseTakesTheFirst | src/finetuneharness/executor/worker.py:742-759 | a lease gives nothing exactly when the worker counts no leaseable task; otherwise the first task belongs to the worker until the lease ends, with nothing else of it changed and no other task or run, and the log gains exactly one event, naming both owners, when the task was taken over from an expired lease |
| StoreOps.FirstHeld | src/finetuneharness/state/memory_store.py:161-168 | the task recovered from a dead worker is the first it holds leased or running |
| StoreOps.RecoveryMeaning | src/finetuneharness/state/memory_store.py:159-191 | recovery reports that there is no task exactly when the worker holds none; else it frees that task, or fails it once its recoveries are spent, reports which, and logs exactly that |
| StoreOps.UpdateMeaning | src/finetuneharness/state/memory_store.py:56-76 | a write is refused with a key error for an unknown task and with both statuses for a move the table forbids; otherwise it changes status, result and error, clears the lease, and changes nothing else |
| StoreOps.ExpiryEventsCount | src/finetuneharness/state/memory_store.py:130-157 | how many of a bulk requeue's events concern a given task, for each of the four audit kinds that are counted: one expiry for each of the run's expired leases, and none of the other three |
| StoreOps.ExpiryEventsListing | src/finetuneharness/state/memory_store.py:130-157 | an event is among those of a bulk requeue if and only if it is the audit event of one of the run's expired leases; each occurs once, and there is no other |
| StoreOps.RequeueCounts | src/finetuneharness/state/memory_store.py:130-157 | after a bulk requeue the log counts one more expiry for each task whose lease ran out and as many reclaims, abandonments and OOM requeues as before |
| MemoryStore.Store.CreateRun | src/finetuneharness/state/memory_store.py:24-28 | refuses an id already taken and changes nothing then; otherwise adds exactly that run |
| MemoryStore.Store.UpdateRunStatus | src/finetuneharness/state/memory_store.py:30-33 | changes only that run's status; an unknown run is an error and changes nothing |
| MemoryStore.Store.UpdateRunFinishedAt | src/finetuneharness/state/memory_store.py:35-40 | changes only that run's finishing time; an unknown run is an error and changes nothing |
| MemoryStore.Store.UpdateTaskStatus | src/finetuneharness/state/memory_store.py:56-76 | in place, the specified update: table checked, outcome written, lease cleared, or the error with nothing changed |
| MemoryStore.Store.ListTasks | src/finetuneharness/state/memory_store.py:78-83 | lists exactly the run's tasks, each once, by key |
| MemoryStore.Store.LeaseNextPendingTask | src/finetuneharness/state/memory_store.py:85-114 | the loop over the sorted tasks grants the specified task, audit event included |
| MemoryStore.Store.MarkTaskRunning | src/finetuneharness/state/memory_store.py:116-121 | succeeds exactly on a leased task, whoever owns it, and changes only its status |
| MemoryStore.Store.IncrementTaskAttempts | src/finetuneharness/state/memory_store.py:123-128 | raises one task's attempt count by one and returns the new count |
| MemoryStore.Store.RequeueExpiredLeases | src/finetuneharness/state/memory_store.py:130-157 | the loop that changes tasks one by one amounts to releasing all expired leases at once, with their events in order and their number returned |
| MemoryStore.Store.ReclaimDeadWorker | src/finetuneharness/state/memory_store.py:159-191 | finding the task and counting its earlier reclaims by loops, recovers or abandons as specified |
| MemoryStore.ListedFirstIsNext | src/finetuneharness/state/memory_store.py:88-99 | the first leaseable row of the sorted listing precedes every other leaseable task |
| SqlStore.StoredOrder | src/finetuneharness/state/sqlite.py:347-347 | the text comparison in the WHERE clause decides as the comparison of instants, for order and for equality |
| SqlStore.SqlTakesNext | src/finetuneharness/state/sqlite.py:264-277 | with unique keys, the one row the query may return is the task the in-memory loop takes |
| SqlStore.SqlLeaseAgrees | src/finetuneharness/state/sqlite.py:259-316 | with unique task keys, an outcome of the lease transaction is possible if and only if it is the in-memory outcome: same task or none, same event, same next table |
| SqlStore.SqlRequeueAgrees | src/finetuneharness/state/sqlite.py:340-372 | an outcome of the unordered bulk requeue is possible if and only if it leaves the table and the count of the in-memory loop and adds the same events, each once, in some order |
| SqlStore.SqlReclaimAgrees | src/finetuneharness/state/sqlite.py:374-422 | when the dead worker holds at most one task, the unordered query can only recover what the in-memory loop recovers, and can |
| RunStatusFold.FoldMeaning | src/finetuneharness/orchestrator/runner.py:81-99 | which sets of statuses give which run status, with all the branches resolved: COMPLETED exactly for all succeeded, FAILED exactly for only unsuccessful or cancelled, PARTIAL_FAILED exactly for some unsuccessful beside some succeeded or unfinished, VALIDATED exactly for nothing attempted or running |
| RunStatusFold.AggregateMonotone | src/finetuneharness/orchestrator/runner.py:84-99 | once something was attempted, no sequence of task operations lowers the status the tasks call for |
| RunStatusFold.LowersExactly | src/finetuneharness/orchestrator/runner.py:81-99 | any step of task work lowers the aggregate if and only if nothing is attempted by then, some task was leased or running, and afterwards some are pending and the rest cancelled |
| RunStatusFold.RequeueLowersExactly | src/finetuneharness/state/memory_store.py:130-157 | a bulk requeue lowers the aggregate if and only if nothing was attempted, some lease of the run has run out, and every other task is pending or cancelled |
| RunStatusFold.TasksKeepConsistency | src/finetuneharness/orchestrator/runner.py:76-99 | whatever tasks do, the run's status stays not ahead of them, and VALIDATED until something was attempted |
| RunStatusFold.RefreshLands | src/finetuneharness/orchestrator/runner.py:101-130 | after some attempt a refresh never raises, ends on the aggregate, logs a chain of allowed moves from the old status to the new and nothing else, sets the finishing time exactly on entering COMPLETED or FAILED, and rewrites none |
| RunStatusFold.RefreshLogs | src/finetuneharness/orchestrator/runner.py:105-148 | whatever a refresh comes to, the events it adds are the changes it made to the run's status, each from where the last one led |
| RunStatusFold.RefreshRaisesExactly | src/finetuneharness/orchestrator/runner.py:101-117 | from any status but CREATED and CANCELLED, a refresh raises if and only if the status is ahead of the tasks and is not PARTIAL_FAILED over tasks that are all succeeded |
| RunStatusFold.EarlyRefreshRaises | src/finetuneharness/orchestrator/runner.py:96-99 | a concrete table for which a refresh before any attempt makes a later refresh raise |
| Runner.CreateRun | src/finetuneharness/orchestrator/runner.py:29-74 | refuses an invalid configuration and changes nothing then; otherwise leaves the run VALIDATED with one task per payload, pending and never attempted, named by the payload or by its position, adds the audit events of the run and of each task in order, and leaves everything else as it was |
| Runner.DefaultKeys | src/finetuneharness/orchestrator/runner.py:61-66 | a task whose payload names no key is called by its position in decimal, without leading zeros, and no two positions give one key |
| Runner.FreshIsConsistent | src/finetuneharness/orchestrator/runner.py:29-74 | such a run satisfies the invariant the refresh relies on, and its tasks are pending, never attempted, without owner, lease, result or error |
| Runner.ReadTarget | src/finetuneharness/orchestrator/runner.py:80-99 | collecting statuses in a loop over the sorted listing computes the fold over all the run's tasks |
| Runner.RefreshRunStatus | src/finetuneharness/orchestrator/runner.py:76-130 | the step-by-step reads and writes, left undisturbed, amount to one atomic refresh, errors included |
| Runner.WriteTarget | src/finetuneharness/orchestrator/runner.py:101-130 | stepping through RUNNING when needed, then the checked write, finishing time and events |
| RefreshRace.NeverAhead | src/finetuneharness/orchestrator/runner.py:76-130 | over every interleaving of any number of split refreshes with task operations: the run's status is never ahead of what its tasks call for, it has a finishing time only once they are all finished, and after an attempt the two agree exactly when the refresh that wrote last had read the tasks since they last changed |
| RefreshRace.FreshBoardSound | src/finetuneharness/orchestrator/runner.py:29-74 | a newly created run is where that invariant starts |
| RefreshRace.RaisesExactly | src/finetuneharness/orchestrator/runner.py:105-117 | in a reachable state a refresh raises if and only if it stepped through RUNNING and the status it read back has reached or passed its target |
| RefreshRace.UndisturbedLands | src/finetuneharness/orchestrator/runner.py:76-130 | from every reachable state, one refresh left alone ends on the aggregate, with the record the atomic refresh leaves |
| SharedRun.CallsFollowAttempts | src/finetuneharness/executor/worker.py:165-200 | a worker refreshes only when some task of the run has been attempted |
| SharedRun.StatusFollowsTasks | src/finetuneharness/orchestrator/runner.py:76-130 | in every state any number of workers bring a new run to, with their refreshes split: status never ahead of the tasks, no finishing time before they are all finished, status equal to the aggregate exactly when it is up to date, and the next write of a refresh raises exactly when it stepped through RUNNING and read back a status at or past its target |
| StaleRefresh.RaceRaises | src/finetuneharness/orchestrator/runner.py:105-117 | two workers bring a new run to a state where a refresh has raised before the handler and its task stays RUNNING |
| StaleRefresh.StaleWriteLast | src/finetuneharness/orchestrator/runner.py:80-130 | two workers bring a new run to rest with every task FAILED and the finishing time set but the run at PARTIAL_FAILED |
| Decision.AnswerFailsExactly | src/finetuneharness/executor/worker.py:183-315 | an attempt gets no final write if and only if the run's seed is refused, the payload's timeout cannot be read, what the handler returned cannot be judged or stored, or a crash with no OOM requeue left meets an attempt limit, as the handler leaves it, that cannot be read |
| Decision.JudgeRaisesExactly | src/finetuneharness/executor/worker.py:288-303 | judging a handler's end raises if and only if it returned no mapping, a dictionary with an int too large for a float or with a method in force that has no `lower()`, or something its store cannot write; the payload's method counts as the handler leaves it |
| Outcomes.NoAnswerExactly | src/finetuneharness/executor/worker.py:183-315 | the same condition in terms of the entries of the result, the payload and the limits alone |
| Outcomes.AnswerMeaning | src/finetuneharness/executor/worker.py:204-336 | what is written about an attempt: on SUCCEEDED and DEGENERATE every entry the handler returned unchanged, with the wall time, the verdict by name, a list of errors exactly when rejected, and nothing more; on a timeout, a retry, an OOM requeue or a failure the message raised; and which event goes with it |
| Decision.TextTimeoutStrands | src/finetuneharness/executor/worker.py:788-790 | a timeout such as "2h" strands every attempt, however its handler would end |
| Decision.NullLimitStrandsCrashes | src/finetuneharness/executor/worker.py:784-786 | an attempt limit of null strands a crash and not a timeout |
| Decision.HandlersLimitStrandsCrashes | src/finetuneharness/executor/worker.py:193-240 | an unreadable limit that the handler itself writes into its copy of the payload strands its crash, whatever the payload was |
| Decision.HandlersMethodDecides | src/finetuneharness/executor/worker.py:288-294 | an accepted result becomes degenerate when the handler takes the method out of its payload, if the result's own method is an adapter with nothing to train |
| Decision.HugeIntegerStrands | src/finetuneharness/evaluation/validator.py:88-93 | a result with an int too large for a float strands, though no check reads its key |
| Decision.ForeignMappingIsRejected | src/finetuneharness/executor/worker.py:290-303 | a mapping that is no dictionary and brings its own wall time ends DEGENERATE, whatever it holds |
| Protocol.NextWellFormed | src/finetuneharness/executor/worker.py:158-336 | steps neither create nor lose tasks and keep every worker's task id valid |
| Endings.EndMeaning | src/finetuneharness/executor/worker.py:204-336 | the final step of any worker leaves exactly that record and that one event, changes no other task and no run, and decides what the caller of `run_once` sees; without an answer it writes nothing and strands the worker |
| Endings.ReportMeaning | src/finetuneharness/executor/worker.py:843-848 | a child through with an answered attempt may report success, OOM or failure as the handler's end has it, and nothing else |
| TaskRecords.RecordsFit | src/finetuneharness/state/memory_store.py:56-191 | after any run from a new table, a task carries an owner and a lease end exactly while leased or running, a result exactly when succeeded or degenerate, an error whenever it ended badly and never when it succeeded |
| Stranding.CausesKept | src/finetuneharness/executor/worker.py:165-315 | while owners are recorded truly, every step of every worker keeps this: a stranded worker stands for an attempt that got no answer or for a refresh that raised, and no task that ended, other than by being given up, had a latest attempt without an answer |
| Fate.AnswerLeads | src/finetuneharness/executor/worker.py:183-315 | what a worker writes about an attempt is where the definition of a task's course says it leads, however long the handler took |
| Fate.EndIsUnique | src/finetuneharness/executor/worker.py:183-315 | a task has at most one end: one status after one number of attempts |
| Fate.BoundedGetsThrough | src/finetuneharness/executor/worker.py:228-285 | with attempt limits of at most M and OOM budget K, a task is through after M + K attempts |
| Ledger.StepMoves | src/finetuneharness/state/memory_store.py:56-191 | every step of every worker changes each task's account in one of five ways: granted, released, started, recovered, written |
| Ledger.MovesAreStoreMoves | src/finetuneharness/state/memory_store.py:94-101 | task statuses move along the table and three recovery moves, and no other way |
| Ledger.StepKeepsFresh | src/finetuneharness/executor/worker.py:169-170 | attempt numbers in workers' hands are distinct for each task and were never spent on a retry, even when several workers hold one task |
| Ledger.StartsAreBounded | src/finetuneharness/executor/worker.py:228-267 | whatever workers, clocks, handlers and deaths do, a task's handler starts at most M + 2K times, M being a bound on the attempt limits its crashes leave: M - 1 retries, K OOM requeues, K reclaims, and the last start |
| Runaway.StartsAreUnbounded | src/finetuneharness/executor/worker.py:277-285 | without such a bound there is none: from any new table of one task, for every n, one worker and a handler that raises the limit each time reach exactly n starts |
| Ledger.LeasesAreConserved | src/finetuneharness/state/memory_store.py:94-113 | in every reachable state, leases granted = expiries + reclaims + abandonments + writes out of leased or running + one if a lease is live |
| Exclusion.AtMostOneExecutor | src/finetuneharness/executor/worker.py:165-181 | after any run from a new table without dead-worker recovery, for any interleaving and any clock, a task is RUNNING exactly when one worker has it past the mark, no two execute it, and the final write is accepted |
| Exclusion.RecoveryKeepsExactly | src/finetuneharness/state/memory_store.py:159-191 | recovering a dead worker keeps exclusion if and only if that worker is at no task but the one found, and at that one if it is RUNNING |
| Exclusion.ExclusiveThroughoutExactly | src/finetuneharness/state/memory_store.py:159-191 | over every run from a new table, exclusion holds at every moment if and only if every recovery is of the task its dead worker was at |
| Exclusion.HeldIsUnique | src/finetuneharness/state/memory_store.py:161-168 | while owners are recorded truly a worker holds at most one task, so recovery finds the right one |
| Exclusion.OwnerKeptExactly | src/finetuneharness/state/memory_store.py:116-121 | a step breaks the truth of the recorded owners if and only if it takes the expired lease of a live worker that has not yet marked its task |
| Exclusion.AtMostOneExecutorWithRecovery | src/finetuneharness/state/memory_store.py:159-191 | after any run from a new table with recovery of dead workers, the same exclusion holds if no lease runs out on a live worker before its mark |
| Exclusion.OwnerMisnamed | src/finetuneharness/state/memory_store.py:116-121 | a run in which the executor is not the recorded owner |
| Exclusion.LateWorkersOverlap | src/finetuneharness/state/memory_store.py:116-121 | a run with one recovered death in which two workers execute one task |
| RunLife.StepProgresses | src/finetuneharness/state/memory_store.py:56-191 | no protocol step lowers an attempt count, changes a task's key, run or payload, or touches a run |
| RunLife.TurnKeepsSound | src/finetuneharness/orchestrator/runner.py:101-130 | each worker step and each refresh keeps the run consistent, and the refresh does not raise |
| RunLife.RunStaysConsistent | src/finetuneharness/orchestrator/runner.py:101-130 | over all interleavings of steps and whole refreshes from a new run: status never ahead, finishing time set exactly when COMPLETED or FAILED, no refresh raises, and once the finishing time is set the run's record never changes |
| InlineReclaim.LeaseStaysSimilar | src/finetuneharness/orchestrator/scheduler.py:15-25 | taking over an expired lease while leasing grants the same task, with the same record, as requeueing all expired leases first, and leaves the same tasks leaseable |
| InlineReclaim.InlineRefinesBulk | src/finetuneharness/state/memory_store.py:85-114 | so does every sequence of leases at nondecreasing times |
| InlineReclaim.InlineIsBulk | src/finetuneharness/state/memory_store.py:85-114 | started on one table, both ways grant the same tasks to the same workers in the same order, and in the end differ only in leases that have run out |
| Backoff.DelayBounds | src/finetuneharness/executor/policy.py:41-51 | a delay is bounded by the cap and by the uncapped doubling, whatever the jitter draws |
| Backoff.DelayDoubles | src/finetuneharness/executor/policy.py:41-51 | no delay before the first attempt, the base before the first retry, then twice as much each time up to the cap |
| Backoff.SleepMeaning | src/finetuneharness/executor/policy.py:41-51 | with jitter exactly the delays from none to the full one may be slept |
| Backoff.SleptIsBounded | src/finetuneharness/executor/policy.py:41-51 | delays after distinct attempt numbers below M add up to at most min((M - 1) cap, base (2^(M-1) - 1)) |
| Backoff.TotalBackoffIsBounded | src/finetuneharness/executor/worker.py:277-285 | in every run of any number of workers, the retries of one task follow distinct attempt numbers below M, a bound on the limits its crashes leave, so that bound holds for all it ever sleeps |
| Admission.DevicesByFree | src/finetuneharness/executor/worker.py:622-622 | all devices, each once, most free memory first and ties by number |
| Admission.ChooseDevice | src/finetuneharness/executor/worker.py:620-631 | an idle device if there is one, the freest; else the freest busy one, and only if it clears the headroom; none exactly when neither exists |
| Admission.ChoiceMeaning | src/finetuneharness/executor/worker.py:603-631 | the same choice in terms of readings and devices in use: most memory first, ties to the smaller number, a device without a reading counting as full |
| Admission.EmptyPoolAdmits | src/finetuneharness/executor/worker.py:623-625 | with nothing in flight and a device, a child is always admitted, to an idle device |
| Admission.Pool.TryAdmit | src/finetuneharness/executor/worker.py:615-643 | exactly when a round admits no child, and what an admission changes |
| Admission.Pool.Hear | src/finetuneharness/executor/worker.py:678-692 | what each message changes, keeping the pool within its bounds |
| Admission.Pool.GiveUp | src/finetuneharness/executor/worker.py:661-669 | what an unreported death changes, keeping the pool within its bounds |
| Admission.ChildAdmissible | src/finetuneharness/executor/worker.py:615-643 | admitting below the ceiling never overfills the pool |
| Admission.HeardAdmissible | src/finetuneharness/executor/worker.py:678-692 | ceiling and headroom stay the starting values brought down once per OOM or death and raised by half per OOM, also for a message of a child already given up |
| ConcurrentDrain.MoveSound | src/finetuneharness/executor/worker.py:612-693 | every move of parent and children keeps the joint invariant |
| ConcurrentDrain.DrainStaysSound | src/finetuneharness/executor/worker.py:612-693 | at every moment of every drain of a new run, the pool bounds and exclusion hold, the successes counted are at most the tasks that succeeded, and the run's status is not ahead of its tasks |
| DrainTally.CountersMeaning | src/finetuneharness/executor/worker.py:604-692 | over every drain, told from its moves: children are numbered as admitted, each on its device, and tracked until heard or reaped; successes counted are successes received; the ceiling is the configured one less one for each OOM received and each child reaped, never below one; the headroom has grown by half for each OOM received |
| ConcurrentDrain.ExitLeavesNothingBehind | src/finetuneharness/executor/worker.py:648-651 | when the loop exits, however many children died and wherever, a task is terminal if and only if it was given up or its latest attempt got an answer, and no refresh of its child raised; otherwise it is RUNNING |
| ConcurrentDrain.StartsPerDrain | src/finetuneharness/executor/worker.py:582-582 | in one drain a task's handler starts at most M + 2K times, M being a bound on the attempt limits its crashes leave |
| ConcurrentDrain.StatusUpToDateExactly | src/finetuneharness/executor/worker.py:648-693 | at every moment of a drain and at its exit, once something was attempted: the run's status is what its tasks call for if and only if the refresh that wrote it last had read the tasks since that last changed; before, it is VALIDATED |
| SoloDrain.SoloNeverRaises | src/finetuneharness/executor/worker.py:608-617 | with a concurrency of one, whatever children die and wherever, no refresh raises |
| SoloDrain.SoloExitExactly | src/finetuneharness/executor/worker.py:648-651 | so the loop leaves a task RUNNING if and only if it was not given up and its latest attempt got no answer |
| StrandedDrain.ExitLeavesTaskRunning | src/finetuneharness/executor/worker.py:648-651 | a whole drain of one task and one child that exits with the task RUNNING |
| StrandedDrain.ExitLeavesRunRunning | src/finetuneharness/executor/worker.py:653-669 | a whole drain whose only child dies: it exits with the task FAILED and the run still RUNNING |
| LocalWorker.Worker.Begin | src/finetuneharness/executor/worker.py:165-181 | lease, increment, mark, event and refresh together: the next task running with one more attempt and the run refreshed, or nothing at all |
| LocalWorker.Worker.AnswerNow | src/finetuneharness/executor/worker.py:202-303 | applying the seed, reading the timeout, calling the handler, judging and deciding by loops and branches write what the handler's end calls for: record, event and next status; and nothing exactly when there is no answer |
| LocalWorker.Worker.DecideNow | src/finetuneharness/executor/worker.py:228-267 | counting OOM requeues in the log and comparing attempts reaches the decision whose meaning `Outcomes.AnswerMeaning` states |
| LocalWorker.Worker.PriorOoms | src/finetuneharness/executor/worker.py:234-239 | the loop over the log counts the task's OOM requeues |
| LocalWorker.Worker.Finish | src/finetuneharness/executor/worker.py:240-268 | the final write, its event and the refresh together |
| LocalWorker.Worker.RunOnce | src/finetuneharness/executor/worker.py:158-336 | one pass makes the next attempt of one pending task of the run, leaves the task where that attempt leads, with the record and the two events the handler's end calls for, and moves nothing else; it returned the task exactly when it succeeded |
| Drain.PassIsOneAttempt | src/finetuneharness/executor/worker.py:478-489 | each pass adds exactly one to the attempts of the run's tasks |
| Drain.PassKeepsCourse | src/finetuneharness/executor/worker.py:480-489 | each pass takes its task one attempt further on its course and leaves it the record of that attempt, leaves the others as they were, and adds one to the successes exactly when it succeeded |
| Drain.ListFailed | src/finetuneharness/executor/worker.py:491-494 | exactly the failed, timed out and degenerate tasks, by key |
| Drain.Drain | src/finetuneharness/executor/worker.py:460-499 | in as many passes as one looks at: each is one attempt; it ends, with n attempts for each task if that gets them all through, at the first success after which the stop function says so, and else only when all are through; it returns normally exactly when no task failed, and otherwise with exactly the failed tasks, once each and by key; what a drain that was not stopped leaves and returns is fixed by payloads, limits and handler |
| Drain.DoneExactly | src/finetuneharness/executor/worker.py:460-499 | after an unstopped drain each task has the status and the attempts of its fate, whatever the order of leases, and the record its last attempt left; the run's status is the aggregate; successes, failures and stranded tasks add up to all tasks; and the run is COMPLETED exactly when it has tasks, none failed and none is stranded |
| Drain.DrainedPartition | src/finetuneharness/executor/worker.py:491-499 | after an unstopped drain, succeeded, failed and stranded tasks are all the tasks |
| Drain.CompletedExactly | src/finetuneharness/orchestrator/runner.py:90-91 | when a drained run's tasks call for COMPLETED |
| Drain.FateFulfilled | src/finetuneharness/executor/worker.py:202-315 | for every status, the tasks an unstopped drain leaves with it are exactly those that payload, limits and handler fate to it; in particular those left RUNNING |
| Drain.EndsInTime | src/finetuneharness/executor/worker.py:478-489 | where n attempts get every task through, at most n passes per task are made |
| Drain.BoundedDrainEnds | src/finetuneharness/executor/worker.py:277-285 | with attempt limits of at most M and OOM budget K, M + K attempts get every task through |
| Drain.GreedyStaysPending | src/finetuneharness/executor/worker.py:277-285 | a handler that leaves a limit above its attempt number each time it raises keeps its task pending after any number of passes |
| EarlyStopping.EarlyStoppingHook.AfterTaskSuccess | src/finetuneharness/registry/hooks.py:250-276 | a value ahead of the best by more than `min_delta`, upwards or downwards as the mode says, becomes the best and clears the counter; any other adds one to it and stops once the patience is reached; the fields stay functions of the values seen; a result without the metric changes none |
| EarlyStopping.HookStep | src/finetuneharness/registry/hooks.py:250-276 | the same in arithmetic for the functions of the history |
| EarlyStopping.EarlyStoppingHook.ShouldStop | src/finetuneharness/registry/hooks.py:278-280 | true exactly when some run of values without improvement since the last reset was as long as the patience |
| EarlyStopping.EarlyStoppingHook.Reset | src/finetuneharness/registry/hooks.py:282-286 | forgets the history |
| EarlyStopping.FiredIsSticky | src/finetuneharness/registry/hooks.py:271-272 | no later value takes the stop back |
| EarlyStopping.BestIsNearlyOptimal | src/finetuneharness/registry/hooks.py:255-270 | the kept best is a value seen, as many values back as the counter says, and none since was ahead of it by more than `min_delta`; no value seen at all is, if and only if `min_delta` is not negative; in arithmetic, for both modes |
| EarlyStopping.StopsInBoundedTime | src/finetuneharness/registry/hooks.py:260-272 | n values in [lo, hi] that have not triggered the stop satisfy n <= p (k + 1) and k d <= hi - lo for k improvements |
| EarlyStopping.MinMirrorsMax | src/finetuneharness/registry/hooks.py:260-264 | minimising a metric keeps the same best and counts the same improvements as maximising its negative |
| EarlyStopping.MirrorFires | src/finetuneharness/registry/hooks.py:260-272 | and stops on the same histories |
| Validator.ValidateResult | src/finetuneharness/evaluation/validator.py:49-194 | the verdict is the one fixed by the set of findings, independent of the order of entries; errors are listed exactly for rejected results; the warning flags are those of the data; it raises exactly on an int too large for a float or a method without `lower()`, and on the former first |
| Verdicts.VerdictMeaning | src/finetuneharness/evaluation/validator.py:73-183 | each verdict, and each raise, if and only if the entries say so: keys, bounds and comparisons written out |
| Verdicts.ErrorsMeaning | src/finetuneharness/evaluation/validator.py:73-108 | each error is listed exactly when the entry it speaks of is at fault |
| Verdicts.ReasonsMeaning | src/finetuneharness/evaluation/validator.py:110-161 | each of the five reasons is listed exactly when it applies |
| Verdicts.PoorMeaning | src/finetuneharness/evaluation/validator.py:163-172 | a result without errors performed poorly exactly when every headline metric it reports is below 0.55 |
| Validator.CollectErrors | src/finetuneharness/evaluation/validator.py:73-108 | the loop lists the errors in the dictionary's order, and lists none exactly when the result has none |
| Validator.DegeneracyReasons | src/finetuneharness/evaluation/validator.py:110-161 | there is a reason exactly when the result is degenerate |
| Validator.TopMetricIsGreatest | src/finetuneharness/evaluation/validator.py:163-172 | the metric that decides poor performance is one reported, and none reported compares greater |
| Validator.LowPerformanceIsNoError | src/finetuneharness/evaluation/validator.py:88-183 | results that differ only in bounded metrics within (0, 1], losses not below zero, and finite numbers no check reads get the same verdict |
| Validator.ValidatedAgainExactly | src/finetuneharness/evaluation/comparator.py:214-226 | validating an accepted result, with what the worker adds to it, again without the payload's method raises exactly when the result's own method has no `lower()`, rejects exactly when that method is an adapter with zero trainable parameters, and else gives the same verdict |
| Comparator.CompareSides | src/finetuneharness/evaluation/comparator.py:361-385 | the loop's status and exclusion of each run are those of the data |
| Comparator.CompareMetrics | src/finetuneharness/evaluation/comparator.py:387-406 | the loop's deltas and metric regressions are those of the data, for every later run |
| Comparator.CompareStatuses | src/finetuneharness/evaluation/comparator.py:415-424 | the two flags computed over the later runs |
| Comparator.CompareTask | src/finetuneharness/evaluation/comparator.py:360-438 | one task's comparison describes the data |
| Comparator.CompareRuns | src/finetuneharness/evaluation/comparator.py:272-456 | fails exactly for fewer than two runs, an unknown run, in strict mode other data than the baseline's, or a stored result the validator raises on; otherwise compares every task of any run once, in key order, and lists exactly the regressions, improvements and further metric regressions |
| Reports.ReportMeaning | src/finetuneharness/evaluation/comparator.py:349-456 | what every list and every comparison of a report says, in terms of statuses, numbers and thresholds: losses are worse when they rise, everything else when it falls, by more than the threshold; only results that count are compared, and never the wall time |
| Reports.RefusalMeaning | src/finetuneharness/evaluation/comparator.py:300-308 | strict mode refuses exactly a run that, like the baseline, names its data and names other data |
| Reports.StoredSuccessExactly | src/finetuneharness/evaluation/comparator.py:214-226 | what a success left in its task's record makes the comparison raise exactly when the result's own method has no `lower()`, and is excluded exactly when that method is an adapter without trainable parameters |
| Reports.StoredSuccessIsNeverExcluded | src/finetuneharness/evaluation/comparator.py:378-385 | with no method in the payload, a stored success neither stops the comparison nor is excluded from it |
| Comparator.SelectionIsUnique | src/finetuneharness/evaluation/comparator.py:360-360 | an ascending listing is determined by the keys it lists |
| Comparator.SwapExchangesStatus | src/finetuneharness/evaluation/comparator.py:415-424 | with two runs, a task is a status regression one way exactly when it is an improvement the other way |
| Comparator.SwapNegatesDeltas | src/finetuneharness/evaluation/comparator.py:387-404 | swapping two runs keeps the metrics compared and negates every delta |
| Comparator.SwapDuality | src/finetuneharness/evaluation/comparator.py:349-445 | so the two reports exchange their lists of regressions and improvements, compare the same tasks, and negate each other's deltas |
| Comparator.NeverBoth | src/finetuneharness/evaluation/comparator.py:419-445 | no task is listed as a regression and an improvement, nor as a regression twice |
| Comparator.RegressesBothWaysExactly | src/finetuneharness/evaluation/comparator.py:199-211 | a delta and its negative both regress if and only if the threshold is negative and larger in size than the delta |
| Comparator.NoMetricRegressesBothWays | src/finetuneharness/evaluation/comparator.py:199-211 | with nonnegative thresholds no metric regresses in both directions of a comparison |

## Left out

* Command line, reports, logging, approval prompts, artifact files, environment snapshots, manifest export and the skill
  registry: input, output and straight-line code.
* Sandboxes, timeouts, process spawning, the queue's transport and the GPU monitor: only their effects appear, as
  handler endings, deaths, messages and free-memory readings.
* What seeding does, and which seeds the installed libraries refuse: whether the run's is refused is an input.
* SQL text, JSON and the write-ahead log: each store method is one atomic step on records. The SQLite update, mark,
  increment and append statements touch one row by its id, as the in-memory ones do, and are not modelled twice.
* Store failures in the middle of `run_once`, other than the refusals the model derives.
* Hooks other than early stopping, `hook_fired` and `drain_started` events, event ids and event times, and the message
  texts of errors.
* Hooks that change a task's attempt limit or its result, handlers that raise something that is no `Exception`, result
  keys that are not text, and values whose truth or conversion itself raises.
* `_handle_oom` and the other final writes: the status write and its event are one step. The crash between them is not
  modelled.
* The `finally` clause of the concurrent drain and its settle pause; that its loop makes progress. What holds at every
  moment and at the loop's exit is proved, not that the exit is reached.
* Reuse of process ids by the operating system: a child is identified by its worker id.
* Tasks that are CANCELLED: no modelled operation writes that status, though the fold and the tables cover it.
* The warnings of `check_comparability` and the list of issues strict mode reports, snapshots and wall times of the
  comparison report, and the metric names outermost in its delta tables: here deltas are kept by run, then by metric.
* Rounding: metrics, delays and thresholds are reals. The early-stopping hook sees finite numbers only.
* `str.lower()` outside ASCII, and objects whose own `lower()` gives an adapter's name.
* Task keys that are not text: sorting them raises in every lease of the in-memory store. Exception texts that SQLite
  cannot bind, such as a lone surrogate. The limit on the digits of an int that `json.dumps` writes, which a mapping
  that is no dictionary can reach unexamined.
* The search for a dead worker's task by its id when that worker had gone on after stranding another.
- MemoryStore.Store.CreateTask: does not model the refusal of a duplicate task id, because ids are positions in the table.
- Runner.CreateRun: takes the outcome of validating the configuration as an input, and requires a new run id, because the source draws it as a fresh uuid.
- Exclusion.AtMostOneExecutorWithRecovery: is stated for one run's tasks and workers, the setting of a drain.
- RunLife.RunStaysConsistent: is stated for a table holding one run's tasks, because no operation of one run reads another's.
- SqlStore.SqlRequeueAgrees: leaves the order of the audit events open, because the query promises none.
