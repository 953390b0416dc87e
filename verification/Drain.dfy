/** `drain`: run everything a fresh run has, one task at a time, past individual failures. */
module Drain {
  import opened Lifecycle
  import opened Order
  import opened Records
  import opened StoreOps
  import opened MemoryStore
  import opened RunStatusFold
  import opened Decision
  import opened Fate
  import opened Outcomes
  import opened LocalWorker
  import Ledger
  import Runner

  datatype DrainResult = Drained(succeeded: nat) | Degraded(failed: seq<TaskId>, succeeded: nat)

  ghost function TasksOf(tasks: seq<Task>, run: RunId): set<TaskId> {
    set i: nat | i < |tasks| && tasks[i].runId == run
  }

  ghost function FailedOf(tasks: seq<Task>, run: RunId): set<TaskId> {
    set i: nat | i < |tasks| && tasks[i].runId == run && Unsuccessful(tasks[i].status)
  }

  /** Where n attempts take a task of the table s0. */
  function CourseIn(s0: State, i: TaskId, limits: Limits, handler: Handler, n: nat): Course
    requires i < |s0.tasks|
  {
    CourseOf(i, s0.tasks[i].payload, limits, handler, Count(s0.events, i, Oom), n)
  }

  /** Between the passes of a drain that began at s0, every task of the run stands where its attempts have taken it,
      with the record that its latest attempt left. */
  ghost predicate OnCourse(s0: State, s: State, run: RunId, limits: Limits, handler: Handler) {
    && |s.tasks| == |s0.tasks|
    && forall i: nat :: i < |s.tasks| && s.tasks[i].runId == run ==>
         && s.tasks[i].payload == s0.tasks[i].payload
         && Stands(s, i, CourseIn(s0, i, limits, handler, s.tasks[i].attempts))
         && (s.tasks[i].attempts > s0.tasks[i].attempts && s.tasks[i].status != TaskStatus.Running ==>
               Left(s.tasks[i], handler(i, s.tasks[i].attempts)))
  }

  /** The task's record is what this end of an attempt leaves. */
  ghost predicate Left(t: Task, e: HandlerEnd) {
    exists seconds :: RecordOf(t, e, seconds)
  }

  /** The attempts of the run's tasks among the first n. */
  function Passes(tasks: seq<Task>, run: RunId, n: nat): nat
    requires n <= |tasks|
  {
    if n == 0 then 0
    else Passes(tasks, run, n - 1) + if tasks[n - 1].runId == run then tasks[n - 1].attempts else 0
  }

  lemma {:induction false} OneMoreAttempt(tasks: seq<Task>, tasks': seq<Task>, run: RunId, t: TaskId, n: nat)
    requires t < |tasks| && |tasks'| == |tasks| && n <= |tasks| && tasks[t].runId == run == tasks'[t].runId
    requires tasks'[t].attempts == tasks[t].attempts + 1
    requires forall i: nat :: i < |tasks| && i != t ==> tasks'[i] == tasks[i]
    ensures Passes(tasks', run, n) == Passes(tasks, run, n) + if t < n then 1 else 0
  {
    if n == 0 {
    } else {
      OneMoreAttempt(tasks, tasks', run, t, n - 1);
    }
  }

  /** A pass is one attempt of one task of the run. */
  lemma PassIsOneAttempt(s: State, s': State, run: RunId, t: TaskId, limits: Limits, handler: Handler, r: Once)
    requires OneTaskDone(s, s', run, t, limits, handler, r)
    ensures Passes(s'.tasks, run, |s'.tasks|) == Passes(s.tasks, run, |s.tasks|) + 1
  {
    OneMoreAttempt(s.tasks, s'.tasks, run, t, |s.tasks|);
  }

  lemma PassKeepsCourse(s0: State, s: State, s': State, run: RunId, t: TaskId, limits: Limits, handler: Handler,
                        r: Once)
    requires OnCourse(s0, s, run, limits, handler) && OneTaskDone(s, s', run, t, limits, handler, r)
    ensures OnCourse(s0, s', run, limits, handler)
    ensures |WithStatus(s'.tasks, run, Succeeded)| ==
            |WithStatus(s.tasks, run, Succeeded)| + if r == OneSuccess then 1 else 0
    ensures Passes(s'.tasks, run, |s'.tasks|) == Passes(s.tasks, run, |s.tasks|) + 1
  {
    PassIsOneAttempt(s, s', run, t, limits, handler, r);
    PassCounts(s, s', run, t, limits, handler, r);
    assert CourseIn(s0, t, limits, handler, s'.tasks[t].attempts) == NextLeads(s, t, limits, handler);
  }

  lemma PassCounts(s: State, s': State, run: RunId, t: TaskId, limits: Limits, handler: Handler, r: Once)
    requires OneTaskDone(s, s', run, t, limits, handler, r)
    ensures |WithStatus(s'.tasks, run, Succeeded)| ==
            |WithStatus(s.tasks, run, Succeeded)| + if r == OneSuccess then 1 else 0
  {
    var won, won' := WithStatus(s.tasks, run, Succeeded), WithStatus(s'.tasks, run, Succeeded);
    forall i ensures i in won' <==> i in won || (i == t && r == OneSuccess) {
      if 0 <= i < |s.tasks| && i != t {
        assert s'.tasks[i] == s.tasks[i];
      }
    }
    assert t !in won;
    assert won' == if r == OneSuccess then won + {t} else won;
  }

  /** Nothing of the run is pending or leased any more. */
  ghost predicate NothingWaits(tasks: seq<Task>, run: RunId) {
    forall i: nat :: i < |tasks| && tasks[i].runId == run ==>
      tasks[i].status in {TaskStatus.Running, Succeeded} || Unsuccessful(tasks[i].status)
  }

  lemma OnCourseWaitsForNothing(s0: State, s: State, run: RunId, limits: Limits, handler: Handler)
    requires OnCourse(s0, s, run, limits, handler) && WithStatus(s.tasks, run, Pending) == {}
    ensures NothingWaits(s.tasks, run)
  {
    forall i: nat | i < |s.tasks| && s.tasks[i].runId == run ensures s.tasks[i].status != Pending {
      assert s.tasks[i].status == Pending ==> i in WithStatus(s.tasks, run, Pending);
    }
  }

  // ----- What a drain makes of its tasks -----

  /** The task, worked on alone from the table s0, ends with this status. */
  ghost predicate Fated(s0: State, i: TaskId, limits: Limits, handler: Handler, status: TaskStatus)
    requires i < |s0.tasks|
  {
    exists n :: CourseIn(s0, i, limits, handler, n) == Through(status, n)
  }

  ghost function FatedTo(s0: State, run: RunId, limits: Limits, handler: Handler, status: TaskStatus): set<TaskId> {
    set i: nat | i < |s0.tasks| && s0.tasks[i].runId == run && Fated(s0, i, limits, handler, status)
  }

  /** Once nothing is pending, each task has the status it was fated to, after the attempts that takes, in whatever
      order the tasks were leased. In particular those left RUNNING are those whose course ends in an attempt that
      gets no answer. */
  lemma FateFulfilled(s0: State, s: State, run: RunId, limits: Limits, handler: Handler, status: TaskStatus)
    requires OnCourse(s0, s, run, limits, handler) && WithStatus(s.tasks, run, Pending) == {} && status != Pending
    requires forall i: nat :: i < |s.tasks| ==> s.tasks[i].runId == s0.tasks[i].runId
    ensures WithStatus(s.tasks, run, status) == FatedTo(s0, run, limits, handler, status)
  {
    forall i: nat | i < |s.tasks| && s.tasks[i].runId == run
      ensures s.tasks[i].status == status <==> Fated(s0, i, limits, handler, status)
    {
      OneFate(s0, s, run, limits, handler, i, status);
    }
  }

  lemma OneFate(s0: State, s: State, run: RunId, limits: Limits, handler: Handler, i: TaskId, status: TaskStatus)
    requires OnCourse(s0, s, run, limits, handler) && WithStatus(s.tasks, run, Pending) == {}
    requires i < |s.tasks| && s.tasks[i].runId == run
    ensures CourseIn(s0, i, limits, handler, s.tasks[i].attempts) == Through(s.tasks[i].status, s.tasks[i].attempts)
    ensures s.tasks[i].status == status <==> Fated(s0, i, limits, handler, status)
  {
    assert i !in WithStatus(s.tasks, run, Pending);
    var t := s.tasks[i];
    assert Fated(s0, i, limits, handler, t.status);
    if n :| CourseIn(s0, i, limits, handler, n) == Through(status, n) {
      EndIsUnique(i, s0.tasks[i].payload, limits, handler, Count(s0.events, i, Oom), Through(t.status, t.attempts),
                  Through(status, n));
    }
  }

  // ----- When a drain ends -----

  /** Every task of the run is through after n attempts. */
  ghost predicate AllThroughBy(s0: State, run: RunId, limits: Limits, handler: Handler, n: nat) {
    forall i: nat :: i < |s0.tasks| && s0.tasks[i].runId == run ==> CourseIn(s0, i, limits, handler, n).Through?
  }

  lemma AttemptsWithin(s0: State, s: State, run: RunId, limits: Limits, handler: Handler, n: nat, i: TaskId)
    requires OnCourse(s0, s, run, limits, handler) && i < |s.tasks| && s.tasks[i].runId == run
    requires CourseIn(s0, i, limits, handler, n).Through?
    ensures s.tasks[i].attempts <= n
  {
    var payload, k, a := s0.tasks[i].payload, Count(s0.events, i, Oom), s.tasks[i].attempts;
    if a > n {
      ThroughStays(i, payload, limits, handler, k, n, a);
      ThroughInTime(i, payload, limits, handler, k, n);
    }
  }

  lemma OneMoreTask(tasks: seq<Task>, run: RunId, n: nat, j: nat)
    requires j < |tasks|
    ensures n * |TasksOf(tasks[..j + 1], run)| ==
            n * |TasksOf(tasks[..j], run)| + if tasks[j].runId == run then n else 0
  {
    var before, after := TasksOf(tasks[..j], run), TasksOf(tasks[..j + 1], run);
    assert after == if tasks[j].runId == run then before + {j} else before;
    assert j !in before;
    assert n * (|before| + 1) == n * |before| + n;
  }

  lemma {:induction false} PassesWithin(s0: State, s: State, run: RunId, limits: Limits, handler: Handler, n: nat,
                                        j: nat)
    requires OnCourse(s0, s, run, limits, handler) && AllThroughBy(s0, run, limits, handler, n) && j <= |s.tasks|
    requires forall i: nat :: i < |s.tasks| ==> s.tasks[i].runId == s0.tasks[i].runId
    ensures Passes(s.tasks, run, j) <= n * |TasksOf(s.tasks[..j], run)|
  {
    if j == 0 {
    } else {
      PassesWithin(s0, s, run, limits, handler, n, j - 1);
      OneMoreTask(s.tasks, run, n, j - 1);
      if s.tasks[j - 1].runId == run {
        AttemptsWithin(s0, s, run, limits, handler, n, j - 1);
      }
    }
  }

  /** With attempt limits of at most M and OOM budget K, every task is through after M + K attempts. */
  lemma BoundedDrainEnds(s0: State, run: RunId, limits: Limits, handler: Handler, m: nat)
    requires m >= 1
    requires forall i: nat :: i < |s0.tasks| && s0.tasks[i].runId == run ==> Bounded(i, limits, handler, m)
    ensures AllThroughBy(s0, run, limits, handler, m + Ledger.NonNegative(limits.maxOomRetries))
  {
    forall i: nat | i < |s0.tasks| && s0.tasks[i].runId == run
      ensures CourseIn(s0, i, limits, handler, m + Ledger.NonNegative(limits.maxOomRetries)).Through?
    {
      BoundedGetsThrough(i, s0.tasks[i].payload, limits, handler, Count(s0.events, i, Oom), m);
    }
  }

  /** Without such a bound a drain need not end: a handler that leaves a limit above its attempt number whenever it
      raises keeps its task pending for ever. */
  lemma GreedyStaysPending(s0: State, s: State, run: RunId, limits: Limits, i: TaskId)
    requires OnCourse(s0, s, run, limits, Greedy()) && i < |s.tasks| && s.tasks[i].runId == run
    requires !limits.seedRefused && !s0.tasks[i].payload.timeout.Unconvertible?
    ensures s.tasks[i].status == Pending
  {
    GreedyNeverThrough(i, s0.tasks[i].payload, limits, Count(s0.events, i, Oom), s.tasks[i].attempts);
  }

  /** Then the run's tasks are those that succeeded, those that failed, and those stranded. */
  lemma DrainedPartition(tasks: seq<Task>, run: RunId)
    requires NothingWaits(tasks, run)
    ensures |TasksOf(tasks, run)| == |WithStatus(tasks, run, Succeeded)| + |FailedOf(tasks, run)|
                                     + |WithStatus(tasks, run, TaskStatus.Running)|
  {
    var won, lost := WithStatus(tasks, run, Succeeded), FailedOf(tasks, run);
    var stuck := WithStatus(tasks, run, TaskStatus.Running);
    assert TasksOf(tasks, run) == won + lost + stuck;
    assert won !! lost && (won + lost) !! stuck;
  }

  lemma AllSucceededExactly(tasks: seq<Task>, run: RunId)
    ensures Statuses(tasks, run) == {Succeeded} <==>
            TasksOf(tasks, run) != {} && forall i: nat :: i in TasksOf(tasks, run) ==> tasks[i].status == Succeeded
  {
    forall i: nat | i in TasksOf(tasks, run) ensures tasks[i].status in Statuses(tasks, run) {}
    if Statuses(tasks, run) == {Succeeded} {
      assert Succeeded in Statuses(tasks, run);
      var i: nat :| i < |tasks| && tasks[i].runId == run && tasks[i].status == Succeeded;
      assert i in TasksOf(tasks, run);
    }
  }

  /** And the run is COMPLETED exactly when it has tasks and none failed or was stranded. */
  lemma CompletedExactly(tasks: seq<Task>, run: RunId)
    requires NothingWaits(tasks, run)
    ensures Aggregate(tasks, run) == Completed <==>
            && TasksOf(tasks, run) != {} && FailedOf(tasks, run) == {}
            && WithStatus(tasks, run, TaskStatus.Running) == {}
  {
    FoldMeaning(Statuses(tasks, run), Attempted(tasks, run));
    AllSucceededExactly(tasks, run);
    var lost, stuck := FailedOf(tasks, run), WithStatus(tasks, run, TaskStatus.Running);
    assert forall i: nat :: i in TasksOf(tasks, run) ==> (tasks[i].status == Succeeded <==> i !in lost && i !in stuck);
    assert lost <= TasksOf(tasks, run) && stuck <= TasksOf(tasks, run);
  }

  /** Listed by key, ties as they were created; none twice. */
  ghost predicate ByKey(tasks: seq<Task>, ids: seq<TaskId>) {
    forall i, j :: 0 <= i < j < |ids| ==> Earlier(tasks, ids[i], ids[j])
  }

  predicate Earlier(tasks: seq<Task>, a: TaskId, b: TaskId) {
    && a < |tasks| && b < |tasks|
    && (if tasks[a].key == tasks[b].key then a < b else LexLess(tasks[a].key, tasks[b].key))
  }

  lemma KeyBeforeIsByKey(tasks: seq<Task>, ids: seq<TaskId>)
    requires forall i, j :: 0 <= i < j < |ids| ==> KeyBefore(tasks, ids[i], ids[j])
    ensures ByKey(tasks, ids)
  {
    forall i, j | 0 <= i < j < |ids| ensures Earlier(tasks, ids[i], ids[j]) {
      assert KeyBefore(tasks, ids[i], ids[j]);
      KeyBeforeAsymmetric(tasks, ids[i], ids[j]);
    }
  }

  /** The failed tasks in listing order. */
  method ListFailed(store: Store, run: RunId) returns (failed: seq<TaskId>)
    ensures forall id: nat :: id in failed <==> id in FailedOf(store.tasks, run)
    ensures ByKey(store.tasks, failed)
  {
    var ids := store.ListTasks(run);
    failed := [];
    for k := 0 to |ids|
      invariant forall id :: id in failed ==> id in ids[..k]
      invariant forall j :: 0 <= j < k ==> ids[j] in RowsOf(store.tasks, run, |store.tasks|)
      invariant forall j :: 0 <= j < k ==> (ids[j] in failed <==> Unsuccessful(store.tasks[ids[j]].status))
      invariant forall i, j :: 0 <= i < j < |failed| ==> KeyBefore(store.tasks, failed[i], failed[j])
    {
      assert ids[k] in ids;
      assert ids[..k + 1] == ids[..k] + [ids[k]];
      forall j | 0 <= j < k ensures ids[j] != ids[k] && KeyBefore(store.tasks, ids[j], ids[k]) {
        assert RowOrder(store.tasks)(ids[j], ids[k]);
        KeyBeforeAsymmetric(store.tasks, ids[j], ids[k]);
      }
      forall i | 0 <= i < |failed| ensures KeyBefore(store.tasks, failed[i], ids[k]) {
        assert failed[i] in failed;
        var j :| 0 <= j < k && ids[j] == failed[i];
      }
      if store.tasks[ids[k]].status in {TaskStatus.Failed, TimedOut, Degenerate} {
        failed := failed + [ids[k]];
      }
    }
    assert ids[..|ids|] == ids;
    KeyBeforeIsByKey(store.tasks, failed);
    forall id: nat ensures id in failed <==> id in FailedOf(store.tasks, run) {
      if id in FailedOf(store.tasks, run) {
        assert id in RowsOf(store.tasks, run, |store.tasks|);
        assert id in ids;
      }
    }
  }

  /** The tables after some passes of a drain that began at s0. */
  ghost predicate Midway(s0: State, s: State, run: RunId, limits: Limits, handler: Handler) {
    && Settled(s, run) && OnCourse(s0, s, run, limits, handler)
    && (forall i: nat :: i < |s.tasks| && s0.tasks[i].runId != run ==> s.tasks[i] == s0.tasks[i])
    && (forall i: nat :: i < |s.tasks| ==> s.tasks[i].runId == s0.tasks[i].runId)
    && s.runs == s0.runs[run := s.runs[run]]
  }

  lemma FreshIsMidway(s: State, run: RunId, limits: Limits, handler: Handler)
    requires Runner.Fresh(s, run)
    ensures Midway(s, s, run, limits, handler) && WithStatus(s.tasks, run, Succeeded) == {}
    ensures Passes(s.tasks, run, |s.tasks|) == 0
  {
    Runner.FreshIsConsistent(s, run);
    FreshIsUnattempted(s, run, |s.tasks|);
  }

  lemma {:induction false} FreshIsUnattempted(s: State, run: RunId, n: nat)
    requires Runner.Fresh(s, run) && n <= |s.tasks|
    ensures Passes(s.tasks, run, n) == 0
  {
    if n == 0 {
    } else {
      FreshIsUnattempted(s, run, n - 1);
    }
  }

  lemma PassKeepsMidway(s0: State, s: State, s': State, run: RunId, t: TaskId, limits: Limits,
                        handler: Handler, r: Once)
    requires Midway(s0, s, run, limits, handler) && Settled(s', run) && OneTaskDone(s, s', run, t, limits, handler, r)
    requires s'.runs == s.runs[run := s'.runs[run]]
    ensures Midway(s0, s', run, limits, handler)
    ensures |WithStatus(s'.tasks, run, Succeeded)| ==
            |WithStatus(s.tasks, run, Succeeded)| + if r == OneSuccess then 1 else 0
    ensures Passes(s'.tasks, run, |s'.tasks|) == Passes(s.tasks, run, |s.tasks|) + 1
  {
    PassKeepsCourse(s0, s, s', run, t, limits, handler, r);
    PassKeepsOthers(s0, s, s', run, t, limits, handler, r);
    SameElsewhere(s0.runs, s.runs, s'.runs, run);
  }

  lemma PassKeepsOthers(s0: State, s: State, s': State, run: RunId, t: TaskId, limits: Limits,
                        handler: Handler, r: Once)
    requires OneTaskDone(s, s', run, t, limits, handler, r) && |s.tasks| == |s0.tasks|
    requires forall i: nat :: i < |s.tasks| && s0.tasks[i].runId != run ==> s.tasks[i] == s0.tasks[i]
    requires forall i: nat :: i < |s.tasks| ==> s.tasks[i].runId == s0.tasks[i].runId
    ensures forall i: nat :: i < |s'.tasks| && s0.tasks[i].runId != run ==> s'.tasks[i] == s0.tasks[i]
    ensures forall i: nat :: i < |s'.tasks| ==> s'.tasks[i].runId == s0.tasks[i].runId
  {}

  /** One turn of the loop: a pass, counted if it succeeded. */
  method Turn(worker: Worker, ghost s0: State, run: RunId, handler: Handler) returns (r: Once)
    requires Midway(s0, worker.store.View(), run, worker.limits, handler)
    modifies worker.store
    ensures Midway(s0, worker.store.View(), run, worker.limits, handler)
    ensures r == NothingLeased ==>
              worker.store.View() == old(worker.store.View()) && WithStatus(worker.store.tasks, run, Pending) == {}
    ensures |WithStatus(worker.store.tasks, run, Succeeded)| ==
            |WithStatus(old(worker.store.tasks), run, Succeeded)| + if r == OneSuccess then 1 else 0
    ensures r != NothingLeased ==>
              Passes(worker.store.tasks, run, |worker.store.tasks|) ==
              Passes(old(worker.store.tasks), run, |old(worker.store.tasks)|) + 1
  {
    ghost var before := worker.store.View();
    r := worker.RunOnce(run, handler);
    if r != NothingLeased {
      ghost var t :| OneTaskDone(before, worker.store.View(), run, t, worker.limits, handler, r);
      PassKeepsMidway(s0, before, worker.store.View(), run, t, worker.limits, handler, r);
    }
  }

  /** The stop function, asked after this success, says so. */
  predicate Stops(stopFn: Option<nat -> bool>, succeeded: nat) {
    stopFn.Some? && succeeded >= 1 && stopFn.value(succeeded)
  }

  /** It never did after an earlier success. */
  ghost predicate FirstStop(stopFn: Option<nat -> bool>, succeeded: nat) {
    forall c: nat :: c < succeeded ==> !Stops(stopFn, c)
  }

  lemma StillFirst(stopFn: Option<nat -> bool>, succeeded: nat)
    requires FirstStop(stopFn, succeeded) && !Stops(stopFn, succeeded)
    ensures FirstStop(stopFn, succeeded + 1)
  {}

  /** The loop of `drain`, for at most so many passes. It stops at the first success after which the stop function says
      so, or when nothing is pending. */
  method MakePasses(worker: Worker, run: RunId, handler: Handler, stopFn: Option<nat -> bool>, passes: nat)
    returns (succeeded: nat, going: bool)
    requires Runner.Fresh(worker.store.View(), run)
    modifies worker.store
    ensures Midway(old(worker.store.View()), worker.store.View(), run, worker.limits, handler)
    ensures succeeded == |WithStatus(worker.store.tasks, run, Succeeded)|
    ensures Passes(worker.store.tasks, run, |worker.store.tasks|) <= passes
    ensures going ==> Passes(worker.store.tasks, run, |worker.store.tasks|) == passes && !Stops(stopFn, succeeded)
    ensures FirstStop(stopFn, succeeded)
    ensures !going && !Stops(stopFn, succeeded) ==> WithStatus(worker.store.tasks, run, Pending) == {}
  {
    ghost var s0 := worker.store.View();
    FreshIsMidway(s0, run, worker.limits, handler);
    var made := 0;
    succeeded, going := 0, true;
    while going && made < passes
      invariant Midway(s0, worker.store.View(), run, worker.limits, handler)
      invariant succeeded == |WithStatus(worker.store.tasks, run, Succeeded)|
      invariant made == Passes(worker.store.tasks, run, |worker.store.tasks|) <= passes
      invariant FirstStop(stopFn, succeeded) && (going ==> !Stops(stopFn, succeeded))
      invariant !going && !Stops(stopFn, succeeded) ==> WithStatus(worker.store.tasks, run, Pending) == {}
      decreases going, passes - made
    {
      var r := Turn(worker, s0, run, handler);
      if r == NothingLeased {
        going := false;
      } else {
        made := made + 1;
        if r == OneSuccess {
          StillFirst(stopFn, succeeded);
          succeeded := succeeded + 1;
          going := !Stops(stopFn, succeeded);
        }
      }
    }
  }

  /** `drain` by the run's only worker on a fresh run, watched for so many passes; None while it is still going then.
      Every pass is one attempt of one task. It ends in time if every task gets through. It ends at the first success
      after which the stop function says so, or else only when every task is through; then what it leaves and what it
      returns are fixed by the payloads and the handler. It returns normally exactly when no task failed. */
  method Drain(worker: Worker, run: RunId, handler: Handler, stopFn: Option<nat -> bool>, passes: nat)
    returns (out: Option<DrainResult>)
    requires Runner.Fresh(worker.store.View(), run)
    modifies worker.store
    ensures Midway(old(worker.store.View()), worker.store.View(), run, worker.limits, handler)
    ensures FirstStop(stopFn, |WithStatus(worker.store.tasks, run, Succeeded)|)
    ensures out.None? ==> Passes(worker.store.tasks, run, |worker.store.tasks|) == passes
                          && !Stops(stopFn, |WithStatus(worker.store.tasks, run, Succeeded)|)
    ensures out.Some? ==>
              && out.value.succeeded == |WithStatus(worker.store.tasks, run, Succeeded)|
              && (out.value.Drained? <==> FailedOf(worker.store.tasks, run) == {})
              && (out.value.Degraded? ==>
                    && (forall id: nat :: id in out.value.failed <==> id in FailedOf(worker.store.tasks, run))
                    && ByKey(worker.store.tasks, out.value.failed))
    ensures forall n: nat :: AllThroughBy(old(worker.store.View()), run, worker.limits, handler, n) ==>
                               out.Some? || passes <= n * |TasksOf(worker.store.tasks, run)|
    ensures out.Some? && !Stops(stopFn, out.value.succeeded) ==>
              AllDone(old(worker.store.View()), worker.store.View(), run, worker.limits, handler, out.value)
  {
    ghost var s0 := worker.store.View();
    var succeeded, going := MakePasses(worker, run, handler, stopFn, passes);
    EndsInTime(s0, worker.store.View(), run, worker.limits, handler,
               Passes(worker.store.tasks, run, |worker.store.tasks|));
    if going {
      return None;
    }
    var failed := ListFailed(worker.store, run);
    out := Some(ResultOf(failed, succeeded));
    FailedListed(worker.store.tasks, run, failed);
    if !Stops(stopFn, succeeded) {
      DoneExactly(s0, worker.store.View(), run, worker.limits, handler, out.value);
    }
  }

  function ResultOf(failed: seq<TaskId>, succeeded: nat): DrainResult {
    if |failed| > 0 then Degraded(failed, succeeded) else Drained(succeeded)
  }

  lemma FailedListed(tasks: seq<Task>, run: RunId, failed: seq<TaskId>)
    requires forall id: nat :: id in failed <==> id in FailedOf(tasks, run)
    ensures |failed| == 0 <==> FailedOf(tasks, run) == {}
  {
    if |failed| > 0 {
      assert failed[0] in failed;
    }
  }

  lemma EndsInTime(s0: State, s: State, run: RunId, limits: Limits, handler: Handler, made: nat)
    requires Midway(s0, s, run, limits, handler) && made == Passes(s.tasks, run, |s.tasks|)
    ensures forall n: nat :: AllThroughBy(s0, run, limits, handler, n) ==> made <= n * |TasksOf(s.tasks, run)|
  {
    forall n: nat | AllThroughBy(s0, run, limits, handler, n) ensures made <= n * |TasksOf(s.tasks, run)| {
      PassesWithin(s0, s, run, limits, handler, n, |s.tasks|);
      assert s.tasks[..|s.tasks|] == s.tasks;
    }
  }

  /** What a drain that was not stopped leaves: every task got through and has the status it was fated to. */
  ghost predicate AllDone(s0: State, s: State, run: RunId, limits: Limits, handler: Handler, out: DrainResult) {
    && |s.tasks| == |s0.tasks|
    && (forall i: nat :: i < |s.tasks| && s.tasks[i].runId == run ==>
          && CourseIn(s0, i, limits, handler, s.tasks[i].attempts) == Through(s.tasks[i].status, s.tasks[i].attempts)
          && (s.tasks[i].status != TaskStatus.Running ==> Left(s.tasks[i], handler(i, s.tasks[i].attempts))))
    && (forall status :: status != Pending ==>
          WithStatus(s.tasks, run, status) == FatedTo(s0, run, limits, handler, status))
    && WithStatus(s.tasks, run, Pending) == {}
    && out.succeeded == |FatedTo(s0, run, limits, handler, Succeeded)|
    && out.succeeded + |FailedOf(s.tasks, run)| + |FatedTo(s0, run, limits, handler, TaskStatus.Running)| ==
       |TasksOf(s.tasks, run)|
    && run in s.runs && s.runs[run].status == Aggregate(s.tasks, run)
    && (s.runs[run].status == Completed <==>
        TasksOf(s.tasks, run) != {} && out.Drained? && FatedTo(s0, run, limits, handler, TaskStatus.Running) == {})
  }

  lemma DoneExactly(s0: State, s: State, run: RunId, limits: Limits, handler: Handler, out: DrainResult)
    requires Midway(s0, s, run, limits, handler) && WithStatus(s.tasks, run, Pending) == {}
    requires forall i: nat :: i < |s0.tasks| && s0.tasks[i].runId == run ==> s0.tasks[i].attempts == 0
    requires out.succeeded == |WithStatus(s.tasks, run, Succeeded)|
    requires out.Drained? <==> FailedOf(s.tasks, run) == {}
    ensures AllDone(s0, s, run, limits, handler, out)
  {
    OnCourseWaitsForNothing(s0, s, run, limits, handler);
    DrainedPartition(s.tasks, run);
    CompletedExactly(s.tasks, run);
    forall status | status != Pending
      ensures WithStatus(s.tasks, run, status) == FatedTo(s0, run, limits, handler, status)
    {
      FateFulfilled(s0, s, run, limits, handler, status);
    }
    forall i: nat | i < |s.tasks| && s.tasks[i].runId == run
      ensures CourseIn(s0, i, limits, handler, s.tasks[i].attempts) ==
              Through(s.tasks[i].status, s.tasks[i].attempts)
      ensures s.tasks[i].status != TaskStatus.Running ==> Left(s.tasks[i], handler(i, s.tasks[i].attempts))
    {
      OneFate(s0, s, run, limits, handler, i, s.tasks[i].status);
      ThroughInTime(i, s0.tasks[i].payload, limits, handler, Count(s0.events, i, Oom), s.tasks[i].attempts);
    }
  }
}
