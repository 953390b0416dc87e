/** The fold of task statuses into a run status, and the refresh that writes it. */
module RunStatusFold {
  import opened Lifecycle
  import opened Records
  import opened StoreOps

  ghost function Statuses(tasks: seq<Task>, run: RunId): set<TaskStatus> {
    set i | 0 <= i < |tasks| && tasks[i].runId == run :: tasks[i].status
  }

  ghost predicate Attempted(tasks: seq<Task>, run: RunId) {
    exists i :: 0 <= i < |tasks| && tasks[i].runId == run && tasks[i].attempts > 0
  }

  /** The branches of `refresh_run_status` over the set of statuses; no status means no task. */
  function Fold(statuses: set<TaskStatus>, attempted: bool): RunStatus {
    var unsuccessful := {TaskStatus.Failed, TimedOut, Degenerate};
    var inProgress := {Pending, Leased, TaskStatus.Running};
    if statuses == {} then Validated
    else if statuses <= {Succeeded} then Completed
    else if statuses * unsuccessful != {} && (Succeeded in statuses || statuses * inProgress != {}) then PartialFailed
    else if statuses <= unsuccessful + {TaskStatus.Cancelled} then RunStatus.Failed
    else if TaskStatus.Running in statuses || Leased in statuses || Succeeded in statuses || attempted then
      RunStatus.Running
    else Validated
  }

  /** The status the run's tasks call for. */
  ghost function Aggregate(tasks: seq<Task>, run: RunId): RunStatus {
    Fold(Statuses(tasks, run), Attempted(tasks, run))
  }

  /** VALIDATED < RUNNING < PARTIAL_FAILED < FAILED and RUNNING < COMPLETED. */
  predicate NotAhead(a: RunStatus, b: RunStatus) {
    || a == b
    || (a == Validated && b in {RunStatus.Running, PartialFailed, RunStatus.Failed, Completed})
    || (a == RunStatus.Running && b in {PartialFailed, RunStatus.Failed, Completed})
    || (a == PartialFailed && b == RunStatus.Failed)
  }

  /** What any number of task operations may do to the table: tasks keep their run, attempts grow, statuses move. */
  ghost predicate Progresses(tasks: seq<Task>, tasks': seq<Task>) {
    && |tasks'| == |tasks|
    && forall i :: 0 <= i < |tasks| ==> TaskProgresses(tasks[i], tasks'[i])
  }

  predicate TaskProgresses(t: Task, t': Task) {
    && t'.runId == t.runId && t'.key == t.key && t'.payload == t.payload && t.attempts <= t'.attempts
    && (t'.status == t.status || StoreMove(t.status, t'.status))
  }

  // ----- The fold in terms of tasks -----

  ghost predicate HasStatus(tasks: seq<Task>, run: RunId, s: TaskStatus) {
    exists i :: 0 <= i < |tasks| && tasks[i].runId == run && tasks[i].status == s
  }

  lemma FoldCases(tasks: seq<Task>, run: RunId)
    ensures forall s :: s in Statuses(tasks, run) <==> HasStatus(tasks, run, s)
    ensures Aggregate(tasks, run) in {Validated, RunStatus.Running, PartialFailed, RunStatus.Failed, Completed}
  {}

  /** The order of the ladder as a reader of the tasks sees it. */
  lemma FoldMeaning(statuses: set<TaskStatus>, attempted: bool)
    ensures Fold(statuses, attempted) == Completed <==> statuses == {Succeeded}
    ensures Fold(statuses, attempted) == RunStatus.Failed <==>
            statuses != {} && forall s :: s in statuses ==> Unsuccessful(s) || s == TaskStatus.Cancelled
    ensures Fold(statuses, attempted) == PartialFailed <==>
            && (exists s :: s in statuses && Unsuccessful(s))
            && exists s :: s in statuses && (s == Succeeded || InProgress(s))
    ensures Fold(statuses, attempted) == Validated <==>
            statuses == {} || (!attempted && Pending in statuses && statuses <= {Pending, TaskStatus.Cancelled})
    ensures Fold(statuses, attempted) in {Validated, RunStatus.Running, PartialFailed, RunStatus.Failed, Completed}
  {
    var unsuccessful := {TaskStatus.Failed, TimedOut, Degenerate};
    var inProgress := {Pending, Leased, TaskStatus.Running};
    assert (exists s :: s in statuses && Unsuccessful(s)) <==> statuses * unsuccessful != {} by {
      forall s | s in statuses && Unsuccessful(s) ensures s in statuses * unsuccessful {}
    }
    assert (exists s :: s in statuses && InProgress(s)) <==> statuses * inProgress != {} by {
      forall s | s in statuses && InProgress(s) ensures s in statuses * inProgress {}
    }
  }

  /** Once something was attempted the aggregate never moves back, whatever the tasks do. */
  lemma AggregateMonotone(tasks: seq<Task>, tasks': seq<Task>, run: RunId)
    requires Progresses(tasks, tasks') && Attempted(tasks, run)
    ensures Attempted(tasks', run) && NotAhead(Aggregate(tasks, run), Aggregate(tasks', run))
  {
    StatusesProgress(tasks, tasks', run);
    var i :| 0 <= i < |tasks| && tasks[i].runId == run && tasks[i].attempts > 0;
    assert TaskProgresses(tasks[i], tasks'[i]);
    assert tasks'[i].runId == run && tasks'[i].attempts > 0;
    assert tasks[i].status in Statuses(tasks, run);
    FoldMonotone(Statuses(tasks, run), Statuses(tasks', run));
  }

  /** Terminal statuses stay, and a table without live tasks does not change at all. */
  ghost predicate KeepsTerminal(a: set<TaskStatus>, b: set<TaskStatus>) {
    && (forall s :: s in a && Terminal(s) ==> s in b)
    && ((forall s :: s in a ==> Terminal(s)) ==> b == a)
    && (a != {} ==> b != {})
  }

  lemma StatusesProgress(tasks: seq<Task>, tasks': seq<Task>, run: RunId)
    requires Progresses(tasks, tasks')
    ensures KeepsTerminal(Statuses(tasks, run), Statuses(tasks', run))
  {
    var a, b := Statuses(tasks, run), Statuses(tasks', run);
    forall i | 0 <= i < |tasks|
      ensures tasks'[i].runId == tasks[i].runId && (Terminal(tasks[i].status) ==> tasks'[i].status == tasks[i].status)
    {
      assert TaskProgresses(tasks[i], tasks'[i]);
      TerminalIsFinal(tasks[i].status);
    }
    forall s | s in a ensures b != {} && (Terminal(s) ==> s in b) {
      var i :| 0 <= i < |tasks| && tasks[i].runId == run && tasks[i].status == s;
      assert tasks'[i].status in b;
    }
    forall s | s in b ensures exists s0 :: s0 in a && (Terminal(s0) ==> s0 == s) {
      var i :| 0 <= i < |tasks'| && tasks'[i].runId == run && tasks'[i].status == s;
      assert tasks[i].status in a;
    }
  }

  lemma FoldMonotone(a: set<TaskStatus>, b: set<TaskStatus>)
    requires KeepsTerminal(a, b) && a != {}
    ensures NotAhead(Fold(a, true), Fold(b, true))
  {
    FoldMeaning(a, true);
    FoldMeaning(b, true);
    if Fold(a, true) == PartialFailed {
      var u :| u in a && Unsuccessful(u);
      assert u in b;
    }
  }

  /** The aggregate moves back over a step of task work exactly when nothing has been attempted by then, some task was
      leased or running, and afterwards some are pending and the rest cancelled. */
  lemma LowersExactly(tasks: seq<Task>, tasks': seq<Task>, run: RunId)
    requires Progresses(tasks, tasks')
    ensures !NotAhead(Aggregate(tasks, run), Aggregate(tasks', run)) <==>
            && !Attempted(tasks', run)
            && (Leased in Statuses(tasks, run) || TaskStatus.Running in Statuses(tasks, run))
            && Pending in Statuses(tasks', run) && Statuses(tasks', run) <= {Pending, TaskStatus.Cancelled}
  {
    if Attempted(tasks, run) {
      AggregateMonotone(tasks, tasks', run);
    } else {
      StatusesProgress(tasks, tasks', run);
      NoTasksStay(tasks, tasks', run);
      FoldLowersExactly(Statuses(tasks, run), Statuses(tasks', run), Attempted(tasks', run));
    }
  }

  lemma NoTasksStay(tasks: seq<Task>, tasks': seq<Task>, run: RunId)
    requires Progresses(tasks, tasks')
    ensures Statuses(tasks', run) != {} ==> Statuses(tasks, run) != {}
  {
    if s :| s in Statuses(tasks', run) {
      var i :| 0 <= i < |tasks'| && tasks'[i].runId == run && tasks'[i].status == s;
      assert TaskProgresses(tasks[i], tasks'[i]);
      assert tasks[i].status in Statuses(tasks, run);
    }
  }

  lemma FoldLowersExactly(a: set<TaskStatus>, b: set<TaskStatus>, attempted: bool)
    requires KeepsTerminal(a, b) && (a == {} ==> b == {})
    ensures !NotAhead(Fold(a, false), Fold(b, attempted)) <==>
            && !attempted && (Leased in a || TaskStatus.Running in a)
            && Pending in b && b <= {Pending, TaskStatus.Cancelled}
  {
    FoldMeaning(a, false);
    FoldMeaning(b, attempted);
    if Fold(a, false) == PartialFailed {
      var u :| u in a && Unsuccessful(u);
      assert u in b;
    }
  }

  /** So a bulk requeue lowers it exactly when some lease of the run has run out, nothing was attempted, and every other
      task of the run is pending or cancelled. */
  lemma RequeueLowersExactly(s: State, run: RunId, now: Time)
    ensures var tasks' := RequeueExpired(s, run, now).0.tasks;
            !NotAhead(Aggregate(s.tasks, run), Aggregate(tasks', run)) <==>
            && !Attempted(s.tasks, run)
            && (exists i :: 0 <= i < |s.tasks| && s.tasks[i].runId == run && Expired(s.tasks[i], now))
            && forall i :: 0 <= i < |s.tasks| && s.tasks[i].runId == run ==>
                             Expired(s.tasks[i], now) || s.tasks[i].status in {Pending, TaskStatus.Cancelled}
  {
    var tasks' := RequeueExpired(s, run, now).0.tasks;
    forall i | 0 <= i < |s.tasks|
      ensures TaskProgresses(s.tasks[i], tasks'[i]) && tasks'[i].attempts == s.tasks[i].attempts
    {}
    LowersExactly(s.tasks, tasks', run);
    assert Attempted(tasks', run) <==> Attempted(s.tasks, run) by {
      if i :| 0 <= i < |s.tasks| && s.tasks[i].runId == run && s.tasks[i].attempts > 0 {
        assert tasks'[i].runId == run && tasks'[i].attempts > 0;
      }
    }
    RequeueStatuses(s, run, now);
  }

  lemma RequeueStatuses(s: State, run: RunId, now: Time)
    ensures var b := Statuses(RequeueExpired(s, run, now).0.tasks, run);
            && ((exists i :: 0 <= i < |s.tasks| && s.tasks[i].runId == run && Expired(s.tasks[i], now)) ==>
                  Pending in b && Leased in Statuses(s.tasks, run))
            && (b <= {Pending, TaskStatus.Cancelled} <==>
                forall i :: 0 <= i < |s.tasks| && s.tasks[i].runId == run ==>
                              Expired(s.tasks[i], now) || s.tasks[i].status in {Pending, TaskStatus.Cancelled})
  {
    var tasks' := RequeueExpired(s, run, now).0.tasks;
    var b := Statuses(tasks', run);
    forall i | 0 <= i < |s.tasks| && s.tasks[i].runId == run
      ensures s.tasks[i].status in Statuses(s.tasks, run) && tasks'[i].status in b
    {}
    if b <= {Pending, TaskStatus.Cancelled} {
      forall i | 0 <= i < |s.tasks| && s.tasks[i].runId == run
        ensures Expired(s.tasks[i], now) || s.tasks[i].status in {Pending, TaskStatus.Cancelled}
      {
        assert tasks'[i].status in b;
      }
    }
  }

  // ----- The refresh -----

  predicate Finishing(s: RunStatus) {
    s in {Completed, RunStatus.Failed, RunStatus.Cancelled}
  }

  /** The direct move is not allowed but both legs through RUNNING are. */
  predicate StepsThrough(from: RunStatus, to: RunStatus) {
    to !in RunMoves(from) && RunStatus.Running in RunMoves(from) && to in RunMoves(RunStatus.Running)
  }

  function Changed(run: RunId, from: RunStatus, to: RunStatus): Event {
    Event(run, None, RunStatusChanged(from, to))
  }

  function StepThrough(s: State, run: RunId): State
    requires run in s.runs
  {
    var r := s.runs[run];
    s.(runs := s.runs[run := r.(status := RunStatus.Running)],
       events := s.events + [Changed(run, r.status, RunStatus.Running)])
  }

  function Settle(s: State, run: RunId, target: RunStatus, now: Time): State
    requires run in s.runs
  {
    var r := s.runs[run];
    var at := if Finishing(target) && r.finishedAt.None? then Some(now) else r.finishedAt;
    s.(runs := s.runs[run := Run(target, at)], events := s.events + [Changed(run, r.status, target)])
  }

  /** `refresh_run_status` with nothing else happening in between; target is the fold of the tasks it read. */
  function RefreshTo(s: State, run: RunId, target: RunStatus, now: Time): (State, Result<RunStatus, Fault>) {
    if run !in s.runs then (s, Err(KeyError))
    else if target == s.runs[run].status then (s, Ok(target))
    else
      var s1 := if StepsThrough(s.runs[run].status, target) then StepThrough(s, run) else s;
      if target !in RunMoves(s1.runs[run].status) then (s1, Err(InvalidRunTransition(s1.runs[run].status, target)))
      else (Settle(s1, run, target, now), Ok(target))
  }

  ghost function Refresh(s: State, run: RunId, now: Time): (State, Result<RunStatus, Fault>) {
    RefreshTo(s, run, Aggregate(s.tasks, run), now)
  }

  /** What holds of a run between operations: its status is not ahead of its tasks, it has left VALIDATED only if
      something was attempted, and it carries a finishing time exactly when it is COMPLETED or FAILED. */
  ghost predicate RunConsistent(s: State, run: RunId) {
    && run in s.runs
    && NotAhead(s.runs[run].status, Aggregate(s.tasks, run))
    && (!Attempted(s.tasks, run) ==> s.runs[run].status == Validated)
    && (s.runs[run].finishedAt.Some? <==> s.runs[run].status in {Completed, RunStatus.Failed})
  }

  /** Every status change the log records is one the table allows. */
  predicate AllowedChanges(events: seq<Event>) {
    forall e :: e in events && e.kind.RunStatusChanged? ==> e.kind.to in RunMoves(e.kind.from)
  }

  /** Task operations keep the run consistent, requeues before the first attempt included. */
  lemma TasksKeepConsistency(s: State, s': State, run: RunId)
    requires RunConsistent(s, run) && s'.runs == s.runs && Progresses(s.tasks, s'.tasks)
    ensures RunConsistent(s', run)
  {
    if Attempted(s.tasks, run) {
      AggregateMonotone(s.tasks, s'.tasks, run);
      NotAheadTransitive(s.runs[run].status, Aggregate(s.tasks, run), Aggregate(s'.tasks, run));
    } else {
      FoldCases(s'.tasks, run);
    }
  }

  lemma NotAheadTransitive(a: RunStatus, b: RunStatus, c: RunStatus)
    requires NotAhead(a, b) && NotAhead(b, c)
    ensures NotAhead(a, c)
  {}

  /** The changes of the run's status that lead from one status to another, each from where the last one led. */
  predicate LeadsTo(changes: seq<Event>, run: RunId, from: RunStatus, to: RunStatus) {
    if changes == [] then from == to
    else
      var e := changes[0];
      && e.runId == run && e.taskId.None? && e.kind.RunStatusChanged? && e.kind.from == from && e.kind.to != from
      && LeadsTo(changes[1..], run, e.kind.to, to)
  }

  /** Whatever a refresh comes to, it logs every change it makes to the run's status, in order, and nothing else. */
  lemma RefreshLogs(s: State, run: RunId, target: RunStatus, now: Time)
    requires run in s.runs
    ensures var s' := RefreshTo(s, run, target, now).0;
            && run in s'.runs && s.events <= s'.events
            && LeadsTo(s'.events[|s.events|..], run, s.runs[run].status, s'.runs[run].status)
  {
    var from, s' := s.runs[run].status, RefreshTo(s, run, target, now).0;
    var changes := s'.events[|s.events|..];
    if target == from {
      assert changes == [];
    } else if StepsThrough(from, target) {
      assert changes == [Changed(run, from, RunStatus.Running), Changed(run, RunStatus.Running, target)];
      assert changes[1..] == [Changed(run, RunStatus.Running, target)] && changes[1..][1..] == [];
    } else if target in RunMoves(from) {
      assert changes == [Changed(run, from, target)] && changes[1..] == [];
    } else {
      assert changes == [];
    }
  }

  lemma RefreshToLands(s: State, run: RunId, target: RunStatus, now: Time)
    requires run in s.runs && NotAhead(s.runs[run].status, target)
    requires target in {RunStatus.Running, PartialFailed, RunStatus.Failed, Completed}
    requires s.runs[run].status in {Validated, RunStatus.Running, PartialFailed, RunStatus.Failed, Completed}
    requires s.runs[run].finishedAt.Some? ==> s.runs[run].status == target
    ensures var (s', r) := RefreshTo(s, run, target, now);
            && r == Ok(target) && s'.tasks == s.tasks
            && s'.runs == s.runs[run := s'.runs[run]] && s'.runs[run].status == target
            && (s.runs[run].finishedAt.Some? ==> s'.runs[run] == s.runs[run])
            && (s.runs[run].finishedAt.None? && s.runs[run].status != target ==>
                  s'.runs[run].finishedAt == if Finishing(target) then Some(now) else None)
            && (s.runs[run].status == target ==> s'.runs[run] == s.runs[run])
  {}

  lemma RefreshToAllowed(s: State, run: RunId, target: RunStatus, now: Time)
    requires run in s.runs
    ensures var s' := RefreshTo(s, run, target, now).0;
            s.events <= s'.events && AllowedChanges(s'.events[|s.events|..])
  {}

  /** A run that has finished stays what its tasks call for. */
  lemma FinishedIsSettled(s: State, run: RunId)
    requires RunConsistent(s, run) && Attempted(s.tasks, run)
    ensures Aggregate(s.tasks, run) != Validated
    ensures s.runs[run].status in {Validated, RunStatus.Running, PartialFailed, RunStatus.Failed, Completed}
    ensures s.runs[run].finishedAt.Some? ==> s.runs[run].status == Aggregate(s.tasks, run)
  {
    var i :| 0 <= i < |s.tasks| && s.tasks[i].runId == run && s.tasks[i].attempts > 0;
    assert s.tasks[i].status in Statuses(s.tasks, run);
    FoldMeaning(Statuses(s.tasks, run), true);
    FoldCases(s.tasks, run);
  }

  /** A refresh after some attempt never raises, lands on the aggregate, writes only allowed moves, sets the finishing
      time exactly on entering COMPLETED or FAILED, and never rewrites one. */
  lemma RefreshLands(s: State, run: RunId, now: Time)
    requires RunConsistent(s, run) && Attempted(s.tasks, run)
    ensures var (s', r) := Refresh(s, run, now);
            && r == Ok(Aggregate(s.tasks, run)) && s'.tasks == s.tasks
            && s'.runs == s.runs[run := s'.runs[run]] && s'.runs[run].status == Aggregate(s.tasks, run)
            && RunConsistent(s', run)
            && s.events <= s'.events && AllowedChanges(s'.events[|s.events|..])
            && LeadsTo(s'.events[|s.events|..], run, s.runs[run].status, Aggregate(s.tasks, run))
            && (s.runs[run].finishedAt.Some? ==> s'.runs[run] == s.runs[run])
            && (s.runs[run].finishedAt.None? && Finishing(Aggregate(s.tasks, run)) ==>
                s'.runs[run].finishedAt == Some(now))
  {
    FoldCases(s.tasks, run);
    FinishedIsSettled(s, run);
    RefreshToLands(s, run, Aggregate(s.tasks, run), now);
    RefreshToAllowed(s, run, Aggregate(s.tasks, run), now);
    RefreshLogs(s, run, Aggregate(s.tasks, run), now);
  }

  lemma RefreshToRaises(s: State, run: RunId, target: RunStatus, now: Time)
    requires run in s.runs && s.runs[run].status !in {Created, RunStatus.Cancelled}
    requires target in {Validated, RunStatus.Running, PartialFailed, RunStatus.Failed, Completed}
    ensures RefreshTo(s, run, target, now).1.Err? <==>
            !NotAhead(s.runs[run].status, target) && !(s.runs[run].status == PartialFailed && target == Completed)
  {}

  /** Exactly when a refresh raises, for a run whose status is on the ladder: the status is ahead of the tasks, and
      the one pair the table allows anyway (PARTIAL_FAILED to COMPLETED) is not what it finds. */
  lemma RefreshRaisesExactly(s: State, run: RunId, now: Time)
    requires run in s.runs && s.runs[run].status !in {Created, RunStatus.Cancelled}
    ensures Refresh(s, run, now).1.Err? <==>
            && !NotAhead(s.runs[run].status, Aggregate(s.tasks, run))
            && !(s.runs[run].status == PartialFailed && Aggregate(s.tasks, run) == Completed)
  {
    FoldCases(s.tasks, run);
    RefreshToRaises(s, run, Aggregate(s.tasks, run), now);
  }

  /** The assumption of an attempt is needed: a refresh that sees an unattempted lease writes RUNNING, and once that
      lease is requeued the next refresh raises. */
  lemma EarlyRefreshRaises(t: Task, now: Time)
    requires t.status == Leased && t.attempts == 0
    ensures var s := State(map[t.runId := Run(Validated, None)], [t], []);
            var (s1, r1) := Refresh(s, t.runId, now);
            var s2 := s1.(tasks := [Release(t)]);
            r1 == Ok(RunStatus.Running) &&
            Refresh(s2, t.runId, now).1 == Err(InvalidRunTransition(RunStatus.Running, Validated))
  {
    assert [t][0].status in Statuses([t], t.runId);
    assert Statuses([t], t.runId) == {Leased};
    assert [Release(t)][0].status in Statuses([Release(t)], t.runId);
    assert Statuses([Release(t)], t.runId) == {Pending};
    FoldMeaning({Leased}, false);
    FoldMeaning({Pending}, false);
  }
}
