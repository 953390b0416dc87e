/** What a reader of the task table can rely on, whatever the workers are doing: the other columns fit the status. */
module TaskRecords {
  import opened Lifecycle
  import opened Records
  import opened Decision
  import opened Protocol

  /** A lease is recorded exactly while the task is leased or running, a result exactly when its handler's return was
      judged, an error whenever the task ended badly and never when it succeeded. */
  predicate Fits(t: Task) {
    && (t.owner.Some? <==> t.until.Some?)
    && (t.owner.Some? <==> t.status in {Leased, TaskStatus.Running})
    && (t.result.Some? <==> t.status in {Succeeded, Degenerate})
    && (t.status == Succeeded ==> t.error.None?)
    && (Unsuccessful(t.status) ==> t.error.Some?)
  }

  ghost predicate AllFit(s: System) {
    forall i: nat :: i < |s.store.tasks| ==> Fits(s.store.tasks[i])
  }

  lemma WriteFits(s: System, w: WorkerId, task: TaskId, attempt: nat, e: HandlerEnd, x: Writing, i: nat)
    requires WellFormed(s) && task < |s.store.tasks| && i < |s.store.tasks| && Fits(s.store.tasks[i])
    requires x.result.Some? <==> x.status in {Succeeded, Degenerate}
    requires (x.error.None? <==> x.status == Succeeded) && x.status in TaskMoves(TaskStatus.Running)
    ensures Fits(WriteStep(s, w, task, attempt, e, x).store.tasks[i])
  {}

  lemma EndFits(s: System, w: WorkerId, task: TaskId, attempt: nat, e: HandlerEnd, seconds: real, i: nat)
    requires WellFormed(s) && task < |s.store.tasks| && i < |s.store.tasks| && Fits(s.store.tasks[i])
    ensures Fits(EndStep(s, w, task, attempt, e, seconds).store.tasks[i])
  {
    if Answer(s.store, task, w, attempt, e, seconds, s.limits).Some? {
      var ending := AnswerIsDecision(s.store, task, w, attempt, e, seconds, s.limits);
      DecisionMeaning(s.store, task, w, attempt, ending, s.limits);
      WriteFits(s, w, task, attempt, e, Decide(s.store, task, w, attempt, ending, s.limits).value, i);
    }
  }

  lemma WorkerStepFits(s: System, a: Action, i: nat)
    requires WellFormed(s) && i < |s.store.tasks| && Fits(s.store.tasks[i])
    requires a.Lease? || a.Increment? || a.Mark?
    ensures WellFormed(Next(s, a)) && |Next(s, a).store.tasks| == |s.store.tasks| && Fits(Next(s, a).store.tasks[i])
  {
    NextWellFormed(s, a);
  }

  lemma RecoveryFits(s: System, a: Action, i: nat)
    requires WellFormed(s) && i < |s.store.tasks| && Fits(s.store.tasks[i]) && (a.Reclaim? || a.Requeue?)
    ensures WellFormed(Next(s, a)) && |Next(s, a).store.tasks| == |s.store.tasks| && Fits(Next(s, a).store.tasks[i])
  {
    NextWellFormed(s, a);
  }

  lemma StepFits(s: System, a: Action, i: nat)
    requires WellFormed(s) && i < |s.store.tasks| && Fits(s.store.tasks[i])
    ensures WellFormed(Next(s, a)) && |Next(s, a).store.tasks| == |s.store.tasks| && Fits(Next(s, a).store.tasks[i])
  {
    NextWellFormed(s, a);
    if a.Lease? || a.Increment? || a.Mark? {
      WorkerStepFits(s, a, i);
    } else if a.Reclaim? || a.Requeue? {
      RecoveryFits(s, a, i);
    } else if a.End? && PhaseOf(s, a.worker).Executing? {
      EndFits(s, a.worker, PhaseOf(s, a.worker).task, PhaseOf(s, a.worker).attempt, a.end, a.seconds, i);
    }
  }

  lemma {:induction false} FitsKept(s: System, actions: seq<Action>)
    requires WellFormed(s) && AllFit(s)
    ensures AllFit(After(s, actions))
    decreases |actions|
  {
    if actions == [] {
    } else {
      NextWellFormed(s, actions[0]);
      forall i: nat | i < |s.store.tasks| ensures Fits(Next(s, actions[0]).store.tasks[i]) {
        StepFits(s, actions[0], i);
      }
      FitsKept(Next(s, actions[0]), actions[1..]);
    }
  }

  /** After any run of any number of workers, every task's record fits its status. */
  lemma RecordsFit(s: System, actions: seq<Action>)
    requires Initial(s)
    ensures AllFit(After(s, actions))
  {
    FitsKept(s, actions);
  }
}
