/** The run beside the protocol: workers step, and refresh the run's status where `run_once` does. */
module RunLife {
  import opened Lifecycle
  import opened Records
  import opened StoreOps
  import opened Protocol
  import opened Ledger
  import opened RunStatusFold

  datatype Turn = Step(action: Action) | WorkerRefresh(worker: WorkerId, now: Time)

  /** A worker past its `increment_task_attempts`: where `run_once` refreshes the run. */
  predicate PastIncrement(p: Phase) {
    p.Counted? || p.Executing? || p.Stranded? || (p.Done? && p.outcome != Empty)
  }

  ghost predicate Ready(s: System, t: Turn) {
    t.WorkerRefresh? ==> PastIncrement(PhaseOf(s, t.worker))
  }

  ghost function Take(s: System, run: RunId, t: Turn): System
    requires WellFormed(s)
  {
    match t
    case Step(a) => Next(s, a)
    case WorkerRefresh(_, now) => s.(store := Refresh(s.store, run, now).0)
  }

  lemma RefreshTouchesRunsOnly(s: State, run: RunId, now: Time)
    ensures var s' := Refresh(s, run, now).0; s'.tasks == s.tasks
    ensures var s' := Refresh(s, run, now).0; forall id, tag :: Count(s'.events, id, tag) == Count(s.events, id, tag)
  {
    RefreshToTouchesRunsOnly(s, run, Aggregate(s.tasks, run), now);
  }

  lemma RefreshToTouchesRunsOnly(s: State, run: RunId, target: RunStatus, now: Time)
    ensures var s' := RefreshTo(s, run, target, now).0;
            s'.tasks == s.tasks && forall id, tag :: Count(s'.events, id, tag) == Count(s.events, id, tag)
  {
    var s' := RefreshTo(s, run, target, now).0;
    if run in s.runs && target != s.runs[run].status {
      var s1 := if StepsThrough(s.runs[run].status, target) then StepThrough(s, run) else s;
      forall id, tag ensures Count(s'.events, id, tag) == Count(s.events, id, tag) {
        CountAppend(s.events, Changed(run, s.runs[run].status, RunStatus.Running), id, tag);
        CountAppend(s1.events, Changed(run, s1.runs[run].status, target), id, tag);
      }
    }
  }

  lemma StepProgressesTask(s: System, a: Action, i: nat)
    requires WellFormed(s) && i < |s.store.tasks|
    ensures WellFormed(Next(s, a)) && |Next(s, a).store.tasks| == |s.store.tasks|
    ensures TaskProgresses(s.store.tasks[i], Next(s, a).store.tasks[i])
  {
    NextWellFormed(s, a);
    match a
    case Lease(_, run, now, _) => LeaseProgresses(s, a, i);
    case End(w, _, _) => if w !in s.dead && PhaseOf(s, w).Executing? { EndProgresses(s, a, i); }
    case _ =>
  }

  lemma LeaseProgresses(s: System, a: Action, i: nat)
    requires WellFormed(s) && i < |s.store.tasks| && a.Lease?
    ensures |Next(s, a).store.tasks| == |s.store.tasks|
    ensures TaskProgresses(s.store.tasks[i], Next(s, a).store.tasks[i])
  {
    var got := NextLeaseable(s.store.tasks, a.run, a.now);
    if got.Some? { assert Candidate(s.store.tasks, a.run, a.now, got.value); }
  }

  lemma EndProgresses(s: System, a: Action, i: nat)
    requires WellFormed(s) && i < |s.store.tasks| && a.End?
    requires a.worker !in s.dead && PhaseOf(s, a.worker).Executing?
    ensures |Next(s, a).store.tasks| == |s.store.tasks|
    ensures TaskProgresses(s.store.tasks[i], Next(s, a).store.tasks[i])
  {}

  lemma StepLeavesRuns(s: System, a: Action)
    requires WellFormed(s)
    ensures Next(s, a).store.runs == s.store.runs
  {}

  /** Every protocol step is task work as the refreshes see it. */
  lemma StepProgresses(s: System, a: Action)
    requires WellFormed(s)
    ensures WellFormed(Next(s, a)) && Progresses(s.store.tasks, Next(s, a).store.tasks)
    ensures Next(s, a).store.runs == s.store.runs
  {
    NextWellFormed(s, a);
    StepLeavesRuns(s, a);
    forall i: nat | i < |s.store.tasks| ensures TaskProgresses(s.store.tasks[i], Next(s, a).store.tasks[i]) {
      StepProgressesTask(s, a, i);
    }
  }

  /** One run's table, in which whoever is past its increment has made an attempt. */
  ghost predicate Reached(s: System, run: RunId) {
    && WellFormed(s) && AttemptsFresh(s)
    && (forall i: nat :: i < |s.store.tasks| ==> s.store.tasks[i].runId == run)
    && ((exists w :: PastIncrement(PhaseOf(s, w))) ==> Attempted(s.store.tasks, run))
  }

  ghost predicate RunSound(s: System, run: RunId) {
    Reached(s, run) && RunConsistent(s.store, run)
  }

  /** Only an increment takes a worker past its increment. */
  lemma PastIncrementStep(s: System, a: Action, w: WorkerId)
    requires WellFormed(s) && PastIncrement(PhaseOf(Next(s, a), w))
    ensures PastIncrement(PhaseOf(s, w)) || Working(PhaseOf(Next(s, a), w))
  {}

  lemma WorkingMeansAttempted(s: System, w: WorkerId, run: RunId)
    requires WellFormed(s) && AttemptsFresh(s) && Working(PhaseOf(s, w))
    requires forall i: nat :: i < |s.store.tasks| ==> s.store.tasks[i].runId == run
    ensures Attempted(s.store.tasks, run)
  {}

  lemma AttemptMade(s: System, a: Action, run: RunId)
    requires Reached(s, run) && WellFormed(Next(s, a)) && AttemptsFresh(Next(s, a))
    requires Progresses(s.store.tasks, Next(s, a).store.tasks)
    requires forall i: nat :: i < |Next(s, a).store.tasks| ==> Next(s, a).store.tasks[i].runId == run
    ensures (exists w :: PastIncrement(PhaseOf(Next(s, a), w))) ==> Attempted(Next(s, a).store.tasks, run)
  {
    var s' := Next(s, a);
    if w :| PastIncrement(PhaseOf(s', w)) {
      PastIncrementStep(s, a, w);
      if Working(PhaseOf(s', w)) {
        WorkingMeansAttempted(s', w, run);
      } else {
        AttemptedStays(s.store.tasks, s'.store.tasks, run);
      }
    }
  }

  lemma AttemptedStays(tasks: seq<Task>, tasks': seq<Task>, run: RunId)
    requires Progresses(tasks, tasks') && Attempted(tasks, run)
    ensures Attempted(tasks', run)
  {}

  lemma ReachedKept(s: System, a: Action, run: RunId)
    requires Reached(s, run)
    ensures WellFormed(Next(s, a)) && Reached(Next(s, a), run)
    ensures Progresses(s.store.tasks, Next(s, a).store.tasks) && Next(s, a).store.runs == s.store.runs
  {
    StepProgresses(s, a);
    StepKeepsFresh(s, a);
    var s' := Next(s, a);
    forall i: nat | i < |s'.store.tasks| ensures s'.store.tasks[i].runId == run {
      assert TaskProgresses(s.store.tasks[i], s'.store.tasks[i]);
    }
    AttemptMade(s, a, run);
  }

  lemma InitialReached(s: System, run: RunId)
    requires Initial(s) && forall i: nat :: i < |s.store.tasks| ==> s.store.tasks[i].runId == run
    ensures Reached(s, run) && !Attempted(s.store.tasks, run)
  {
    assert forall w :: !PastIncrement(PhaseOf(s, w));
  }

  lemma TurnKeepsSound(s: System, t: Turn, run: RunId)
    requires RunSound(s, run) && Ready(s, t)
    ensures WellFormed(Take(s, run, t)) && RunSound(Take(s, run, t), run)
    ensures t.WorkerRefresh? ==> Refresh(s.store, run, t.now).1 == Ok(Aggregate(s.store.tasks, run))
    ensures s.store.runs[run].finishedAt.Some? ==> Take(s, run, t).store.runs[run] == s.store.runs[run]
  {
    match t
    case Step(a) =>
      ReachedKept(s, a, run);
      TasksKeepConsistency(s.store, Next(s, a).store, run);
    case WorkerRefresh(w, now) =>
      assert PastIncrement(PhaseOf(s, w));
      RefreshLands(s.store, run, now);
      RefreshTouchesRunsOnly(s.store, run, now);
  }

  ghost predicate AllReady(s: System, run: RunId, turns: seq<Turn>)
    requires WellFormed(s)
    decreases |turns|
  {
    turns == []
    || (Ready(s, turns[0]) && WellFormed(Take(s, run, turns[0])) && AllReady(Take(s, run, turns[0]), run, turns[1..]))
  }

  ghost function AfterTurns(s: System, run: RunId, turns: seq<Turn>): (s': System)
    requires WellFormed(s) && AllReady(s, run, turns)
    ensures WellFormed(s')
    decreases |turns|
  {
    if turns == [] then s else AfterTurns(Take(s, run, turns[0]), run, turns[1..])
  }

  lemma {:induction false} TurnsKeepSound(s: System, run: RunId, turns: seq<Turn>)
    requires RunSound(s, run) && AllReady(s, run, turns)
    ensures RunSound(AfterTurns(s, run, turns), run)
    ensures s.store.runs[run].finishedAt.Some? ==> AfterTurns(s, run, turns).store.runs[run] == s.store.runs[run]
    decreases |turns|
  {
    if turns == [] {
    } else {
      TurnKeepsSound(s, turns[0], run);
      TurnsKeepSound(Take(s, run, turns[0]), run, turns[1..]);
    }
  }

  /** A new run, before any worker leased from it. */
  ghost predicate NewRun(s: System, run: RunId) {
    && Initial(s) && run in s.store.runs && s.store.runs[run] == Run(Validated, None)
    && forall i: nat :: i < |s.store.tasks| ==> s.store.tasks[i].runId == run
  }

  /** Over any interleaving of workers' steps and whole refreshes: the run stays consistent (status never ahead, the
      finishing time set exactly when COMPLETED or FAILED), no refresh raises, and once the finishing time is set the
      run's record never changes again. */
  lemma RunStaysConsistent(s: System, run: RunId, turns: seq<Turn>, more: seq<Turn>)
    requires NewRun(s, run) && AllReady(s, run, turns) && AllReady(AfterTurns(s, run, turns), run, more)
    ensures var m := AfterTurns(s, run, turns); var s' := AfterTurns(m, run, more);
            && RunConsistent(m.store, run)
            && (forall now :: Attempted(m.store.tasks, run) ==>
                                Refresh(m.store, run, now).1 == Ok(Aggregate(m.store.tasks, run)))
            && (m.store.runs[run].finishedAt.Some? ==> run in s'.store.runs && s'.store.runs[run] == m.store.runs[run])
  {
    InitialReached(s, run);
    FoldCases(s.store.tasks, run);
    TurnsKeepSound(s, run, turns);
    var m := AfterTurns(s, run, turns);
    TurnsKeepSound(m, run, more);
    forall now | Attempted(m.store.tasks, run) { RefreshLands(m.store, run, now); }
  }
}
