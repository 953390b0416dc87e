/** Who executes a task. Without dead-worker recovery, RUNNING means exactly one executor whatever the clocks do; with
    recovery the same needs that no live worker's lease is taken over before it marks its task. */
module Exclusion {
  import opened Lifecycle
  import opened Records
  import opened StoreOps
  import opened Decision
  import opened Protocol

  predicate Executes(s: System, w: WorkerId, id: TaskId) {
    PhaseOf(s, w).Executing? && PhaseOf(s, w).task == id
  }

  /** The worker executes the task, or left it RUNNING when an exception carried it out of `run_once`. */
  predicate Occupies(s: System, w: WorkerId, id: TaskId) {
    (PhaseOf(s, w).Executing? || PhaseOf(s, w).Stranded?) && PhaseOf(s, w).task == id
  }

  /** A task is RUNNING exactly when some worker occupies it, and then only one does, so no two execute it. A worker
      that died while executing still counts: nothing but its recovery ends that phase. */
  ghost predicate Exclusive(s: System) {
    && WellFormed(s)
    && (forall w, id: nat :: Occupies(s, w, id) ==>
          id < |s.store.tasks| && s.store.tasks[id].status == TaskStatus.Running)
    && (forall id: nat :: id < |s.store.tasks| && s.store.tasks[id].status == TaskStatus.Running ==>
          exists w :: Occupies(s, w, id))
    && (forall v, w, id :: Occupies(s, v, id) && Occupies(s, w, id) ==> v == w)
  }

  /** The executor's write at the end of its attempt is a transition the table allows. */
  predicate WriteAccepted(s: System, w: WorkerId, e: HandlerEnd, seconds: real) {
    match PhaseOf(s, w)
    case Executing(id, attempt) =>
      id < |s.store.tasks|
      && var x := Answer(s.store, id, w, attempt, e, seconds, s.limits);
         x.Some? ==> Conclude(s.store, id, x.value).Ok?
    case _ => true
  }

  // ----- Any number of workers, any clock, no recovery of the dead -----

  /** Steps that neither start nor stop an executor and neither enter nor leave RUNNING. */
  lemma ExclusiveFrame(s: System, s': System)
    requires Exclusive(s) && WellFormed(s') && |s'.store.tasks| == |s.store.tasks|
    requires forall id: nat :: id < |s.store.tasks| ==>
               (s'.store.tasks[id].status == TaskStatus.Running <==> s.store.tasks[id].status == TaskStatus.Running)
    requires forall w, id :: Occupies(s', w, id) <==> Occupies(s, w, id)
    ensures Exclusive(s')
  {}

  lemma ExclusiveLease(s: System, w: WorkerId, run: RunId, now: Time, until: Time)
    requires Exclusive(s) && PhaseOf(s, w).Idle?
    ensures Exclusive(LeaseStep(s, w, run, now, until))
  {
    var got := NextLeaseable(s.store.tasks, run, now);
    if got.Some? {
      assert Candidate(s.store.tasks, run, now, got.value);
      ExclusiveFrame(s, GrantStep(s, w, run, got.value, until));
    } else {
      ExclusiveFrame(s, s.(phases := s.phases[w := Done(Empty)]));
    }
  }

  lemma ExclusiveMark(s: System, w: WorkerId)
    requires Exclusive(s) && PhaseOf(s, w).Counted?
    ensures Exclusive(MarkStep(s, w, PhaseOf(s, w).task, PhaseOf(s, w).attempt))
  {
    var p := PhaseOf(s, w);
    var s' := MarkStep(s, w, p.task, p.attempt);
    if s.store.tasks[p.task].status != Leased {
      ExclusiveFrame(s, s');
    } else {
      assert Occupies(s', w, p.task);
      forall v, id | v != w || id != p.task ensures Occupies(s', v, id) <==> Occupies(s, v, id) {}
      forall v ensures !Occupies(s, v, p.task) {}
      forall id: nat | id < |s'.store.tasks| && s'.store.tasks[id].status == TaskStatus.Running
        ensures exists v :: Occupies(s', v, id)
      {
        if id != p.task {
          var v :| Occupies(s, v, id);
          assert Occupies(s', v, id);
        }
      }
    }
  }

  /** Leaving the executing phase by a write out of RUNNING. */
  lemma ExclusiveWrite(s: System, w: WorkerId, e: HandlerEnd, x: Writing)
    requires Exclusive(s) && PhaseOf(s, w).Executing? && x.status in TaskMoves(TaskStatus.Running)
    ensures var p := PhaseOf(s, w);
            Conclude(s.store, p.task, x).Ok? && Exclusive(WriteStep(s, w, p.task, p.attempt, e, x))
  {
    var p := PhaseOf(s, w);
    var s' := WriteStep(s, w, p.task, p.attempt, e, x);
    assert Occupies(s, w, p.task);
    forall v, id ensures Occupies(s', v, id) <==> v != w && Occupies(s, v, id) {}
    forall v, id | Occupies(s', v, id) ensures id != p.task {}
    forall id: nat | id < |s'.store.tasks| && s'.store.tasks[id].status == TaskStatus.Running
      ensures exists v :: Occupies(s', v, id)
    {
      var v :| Occupies(s, v, id);
      assert Occupies(s', v, id);
    }
  }

  lemma AnswerFitsTable(s: System, w: WorkerId, id: TaskId, attempt: nat, e: HandlerEnd, seconds: real)
    returns (x: Writing)
    requires id < |s.store.tasks| && Answer(s.store, id, w, attempt, e, seconds, s.limits).Some?
    ensures Answer(s.store, id, w, attempt, e, seconds, s.limits) == Some(x)
    ensures x.status in TaskMoves(TaskStatus.Running)
  {
    var ending := AnswerIsDecision(s.store, id, w, attempt, e, seconds, s.limits);
    DecisionMeaning(s.store, id, w, attempt, ending, s.limits);
    x := Answer(s.store, id, w, attempt, e, seconds, s.limits).value;
  }

  lemma ExclusiveEnd(s: System, w: WorkerId, e: HandlerEnd, seconds: real)
    requires Exclusive(s) && PhaseOf(s, w).Executing?
    ensures var p := PhaseOf(s, w);
            WriteAccepted(s, w, e, seconds) && Exclusive(EndStep(s, w, p.task, p.attempt, e, seconds))
  {
    var p := PhaseOf(s, w);
    assert Occupies(s, w, p.task);
    if Answer(s.store, p.task, w, p.attempt, e, seconds, s.limits).Some? {
      var x := AnswerFitsTable(s, w, p.task, p.attempt, e, seconds);
      ExclusiveWrite(s, w, e, x);
    } else {
      ExclusiveFrame(s, s.(phases := s.phases[w := Stranded(p.task, p.attempt)]));
    }
  }

  lemma ExclusiveStep(s: System, a: Action)
    requires Exclusive(s) && !a.Reclaim?
    ensures WellFormed(Next(s, a)) && Exclusive(Next(s, a))
  {
    NextWellFormed(s, a);
    match a
    case Lease(w, run, now, until) => if PhaseOf(s, w).Idle? && w !in s.dead { ExclusiveLease(s, w, run, now, until); }
    case Increment(w) => ExclusiveFrame(s, Next(s, a));
    case Mark(w) => if PhaseOf(s, w).Counted? && w !in s.dead { ExclusiveMark(s, w); }
    case End(w, e, seconds) => if PhaseOf(s, w).Executing? && w !in s.dead { ExclusiveEnd(s, w, e, seconds); }
    case Abort(w) => ExclusiveFrame(s, Next(s, a));
    case Again(w) => ExclusiveFrame(s, Next(s, a));
    case Die(w) => ExclusiveFrame(s, Next(s, a));
    case Requeue(run, now) => ExclusiveFrame(s, Next(s, a));
  }

  lemma InitialExclusive(s: System)
    requires Initial(s)
    ensures Exclusive(s)
  {}

  lemma {:induction false} ExclusiveKept(s: System, actions: seq<Action>)
    requires Exclusive(s) && forall a :: a in actions ==> !a.Reclaim?
    ensures Exclusive(After(s, actions))
    decreases |actions|
  {
    if actions == [] {
    } else {
      ExclusiveStep(s, actions[0]);
      ExclusiveKept(Next(s, actions[0]), actions[1..]);
    }
  }

  lemma ExclusiveMeans(s: System)
    requires Exclusive(s)
    ensures forall v, w, id :: Executes(s, v, id) && Executes(s, w, id) ==> v == w
    ensures forall w, e, seconds :: WriteAccepted(s, w, e, seconds)
  {
    forall v, w, id | Executes(s, v, id) && Executes(s, w, id) ensures v == w {
      assert Occupies(s, v, id) && Occupies(s, w, id);
    }
    forall w, e, seconds ensures WriteAccepted(s, w, e, seconds) {
      if PhaseOf(s, w).Executing? { ExclusiveEnd(s, w, e, seconds); }
    }
  }

  /** Over every run without recovery, at most one worker executes a task, and its final write is always accepted. */
  lemma AtMostOneExecutor(s: System, actions: seq<Action>)
    requires Initial(s) && forall a :: a in actions ==> !a.Reclaim?
    ensures var s' := After(s, actions);
            && Exclusive(s') && (forall v, w, id :: Executes(s', v, id) && Executes(s', w, id) ==> v == w)
            && forall w, e, seconds :: WriteAccepted(s', w, e, seconds)
  {
    InitialExclusive(s);
    ExclusiveKept(s, actions);
    ExclusiveMeans(After(s, actions));
  }

  // ----- When recovery of a dead worker keeps exclusion -----

  /** The dead worker occupies no task but the one recovered, and that one if it is RUNNING. */
  ghost predicate RecoversRightly(s: System, w: WorkerId, run: RunId) {
    var held := FirstHeld(s.store.tasks, run, w, 0);
    && (forall id: nat :: Occupies(s, w, id) ==> held == Some(id))
    && (held.Some? && s.store.tasks[held.value].status == TaskStatus.Running ==> Occupies(s, w, held.value))
  }

  lemma RightRecoveryKeeps(s: System, w: WorkerId, run: RunId)
    requires Exclusive(s) && w in s.dead && RecoversRightly(s, w, run)
    ensures Exclusive(Next(s, Reclaim(w, run)))
  {
    var s' := Next(s, Reclaim(w, run));
    NextWellFormed(s, Reclaim(w, run));
    forall v, id ensures Occupies(s', v, id) <==> v != w && Occupies(s, v, id) {}
    forall id: nat | id < |s'.store.tasks| && s'.store.tasks[id].status == TaskStatus.Running
      ensures exists v :: Occupies(s', v, id)
    {
      var v :| Occupies(s, v, id);
      assert Occupies(s', v, id);
    }
  }

  lemma WrongRecoveryBreaks(s: System, w: WorkerId, run: RunId)
    requires Exclusive(s) && w in s.dead && !RecoversRightly(s, w, run)
    ensures WellFormed(Next(s, Reclaim(w, run))) && !Exclusive(Next(s, Reclaim(w, run)))
  {
    var s' := Next(s, Reclaim(w, run));
    NextWellFormed(s, Reclaim(w, run));
    var held := FirstHeld(s.store.tasks, run, w, 0);
    forall v, id ensures Occupies(s', v, id) <==> v != w && Occupies(s, v, id) {}
    if id: nat :| Occupies(s, w, id) && held != Some(id) {
      assert s'.store.tasks[id].status == TaskStatus.Running;
    } else {
      var v :| Occupies(s, v, held.value);
      assert Occupies(s', v, held.value);
    }
  }

  /** Recovering a dead worker keeps exclusion exactly when it recovers the task the worker really was at. */
  lemma RecoveryKeepsExactly(s: System, w: WorkerId, run: RunId)
    requires Exclusive(s) && w in s.dead
    ensures WellFormed(Next(s, Reclaim(w, run)))
    ensures Exclusive(Next(s, Reclaim(w, run))) <==> RecoversRightly(s, w, run)
  {
    NextWellFormed(s, Reclaim(w, run));
    if RecoversRightly(s, w, run) {
      RightRecoveryKeeps(s, w, run);
    } else {
      WrongRecoveryBreaks(s, w, run);
    }
  }

  /** Exclusion holds now and after every step of the run. */
  ghost predicate AlwaysExclusive(s: System, actions: seq<Action>)
    requires WellFormed(s)
    decreases |actions|
  {
    Exclusive(s)
    && (actions == [] || (NextWellFormed(s, actions[0]); AlwaysExclusive(Next(s, actions[0]), actions[1..])))
  }

  /** Every recovery of the run, when it comes, recovers the task its dead worker really was at. */
  ghost predicate AllRecoverRightly(s: System, actions: seq<Action>)
    requires WellFormed(s)
    decreases |actions|
  {
    actions == [] ||
    (&& (actions[0].Reclaim? && actions[0].worker in s.dead ==> RecoversRightly(s, actions[0].worker, actions[0].run))
     && (NextWellFormed(s, actions[0]); AllRecoverRightly(Next(s, actions[0]), actions[1..])))
  }

  lemma {:induction false} AlwaysExclusiveFrom(s: System, actions: seq<Action>)
    requires Exclusive(s)
    ensures AlwaysExclusive(s, actions) <==> AllRecoverRightly(s, actions)
    decreases |actions|
  {
    if actions == [] {
    } else {
      var a := actions[0];
      NextWellFormed(s, a);
      if a.Reclaim? && a.worker in s.dead {
        RecoveryKeepsExactly(s, a.worker, a.run);
      } else if !a.Reclaim? {
        ExclusiveStep(s, a);
      }
      if Exclusive(Next(s, a)) {
        AlwaysExclusiveFrom(Next(s, a), actions[1..]);
      }
    }
  }

  /** Over every run, recoveries included: no two workers are ever at one task, and RUNNING always means one is, exactly
      when every recovery is of the task its dead worker was at. */
  lemma ExclusiveThroughoutExactly(s: System, actions: seq<Action>)
    requires Initial(s)
    ensures AlwaysExclusive(s, actions) <==> AllRecoverRightly(s, actions)
  {
    InitialExclusive(s);
    AlwaysExclusiveFrom(s, actions);
  }

  // ----- With recovery of dead workers -----

  /** The recorded owner is the worker really at work, and the other way round for every worker still alive. */
  ghost predicate OwnerTrue(s: System) {
    && WellFormed(s)
    && (forall id: nat :: id < |s.store.tasks| ==> TaskOwned(s, id))
    && (forall w :: w in s.phases ==> WorkerOwns(s, w))
  }

  predicate TaskOwned(s: System, id: TaskId)
    requires id < |s.store.tasks|
  {
    var t := s.store.tasks[id];
    match t.status
    case Leased =>
      && t.owner.Some? && (PhaseOf(s, t.owner.value).Holding? || PhaseOf(s, t.owner.value).Counted?)
      && PhaseOf(s, t.owner.value).task == id
    case Running => t.owner.Some? && Occupies(s, t.owner.value, id)
    case _ => t.owner.None?
  }

  predicate WorkerOwns(s: System, w: WorkerId)
    requires w in s.phases && WellFormed(s)
  {
    match s.phases[w]
    case Executing(id, _) => s.store.tasks[id].status == TaskStatus.Running && s.store.tasks[id].owner == Some(w)
    case Stranded(id, _) => s.store.tasks[id].status == TaskStatus.Running && s.store.tasks[id].owner == Some(w)
    case Holding(id) => w in s.dead || (s.store.tasks[id].status == Leased && s.store.tasks[id].owner == Some(w))
    case Counted(id, _) => w in s.dead || (s.store.tasks[id].status == Leased && s.store.tasks[id].owner == Some(w))
    case _ => true
  }

  lemma OwnerTrueIsExclusive(s: System)
    requires OwnerTrue(s)
    ensures Exclusive(s)
  {
    forall id: nat | id < |s.store.tasks| && s.store.tasks[id].status == TaskStatus.Running
      ensures exists w :: Occupies(s, w, id)
    {
      assert TaskOwned(s, id);
      assert Occupies(s, s.store.tasks[id].owner.value, id);
    }
    forall w, id | Occupies(s, w, id) ensures w in s.phases && WorkerOwns(s, w) {}
  }

  /** The step takes a lease away from a live worker that has not yet marked its task. */
  predicate TakesLiveLease(s: System, a: Action) {
    match a
    case Lease(w, run, now, _) =>
      && w !in s.dead && PhaseOf(s, w).Idle?
      && var got := NextLeaseable(s.store.tasks, run, now);
         got.Some? && LiveOwner(s, s.store.tasks[got.value])
    case Requeue(run, now) =>
      exists id | 0 <= id < |s.store.tasks| ::
        s.store.tasks[id].runId == run && Expired(s.store.tasks[id], now) && LiveOwner(s, s.store.tasks[id])
    case _ => false
  }

  predicate LiveOwner(s: System, t: Task) {
    t.status == Leased && t.owner.Some? && t.owner.value !in s.dead
  }

  lemma OwnerLease(s: System, w: WorkerId, run: RunId, now: Time, until: Time)
    requires OwnerTrue(s) && w !in s.dead && PhaseOf(s, w).Idle?
    ensures OwnerTrue(LeaseStep(s, w, run, now, until)) <==> !TakesLiveLease(s, Lease(w, run, now, until))
  {
    var got := NextLeaseable(s.store.tasks, run, now);
    var s' := LeaseStep(s, w, run, now, until);
    if got.None? {
      forall id: nat | id < |s.store.tasks| ensures TaskOwned(s', id) { assert TaskOwned(s, id); }
      forall v | v in s'.phases ensures WorkerOwns(s', v) { if v != w { assert WorkerOwns(s, v); } }
    } else {
      OwnerGrant(s, w, run, got.value, until);
    }
  }

  lemma OwnerGrant(s: System, w: WorkerId, run: RunId, id: TaskId, until: Time)
    requires OwnerTrue(s) && w !in s.dead && PhaseOf(s, w).Idle? && id < |s.store.tasks|
    requires s.store.tasks[id].status in {Pending, Leased}
    ensures OwnerTrue(GrantStep(s, w, run, id, until)) <==> !LiveOwner(s, s.store.tasks[id])
  {
    var s' := GrantStep(s, w, run, id, until);
    assert TaskOwned(s, id);
    if LiveOwner(s, s.store.tasks[id]) {
      var o := s.store.tasks[id].owner.value;
      assert o in s'.phases && o != w && !WorkerOwns(s', o);
    } else {
      forall j: nat | j < |s.store.tasks| ensures TaskOwned(s', j) { assert TaskOwned(s, j); }
      forall v | v in s'.phases ensures WorkerOwns(s', v) { if v != w { assert WorkerOwns(s, v); } }
    }
  }

  lemma OwnerRequeue(s: System, run: RunId, now: Time)
    requires OwnerTrue(s)
    ensures OwnerTrue(Next(s, Requeue(run, now))) <==> !TakesLiveLease(s, Requeue(run, now))
  {
    var s' := Next(s, Requeue(run, now));
    NextWellFormed(s, Requeue(run, now));
    if id :| 0 <= id < |s.store.tasks| && s.store.tasks[id].runId == run && Expired(s.store.tasks[id], now)
             && LiveOwner(s, s.store.tasks[id]) {
      assert TaskOwned(s, id);
      var o := s.store.tasks[id].owner.value;
      assert o in s'.phases && !WorkerOwns(s', o);
    } else {
      forall j: nat | j < |s.store.tasks| ensures TaskOwned(s', j) { assert TaskOwned(s, j); }
      forall v | v in s'.phases ensures WorkerOwns(s', v) { assert WorkerOwns(s, v); }
    }
  }

  /** A worker holds at most one task, so `reclaim_dead_worker` recovers the one it held. */
  lemma HeldIsUnique(s: System, w: WorkerId, run: RunId, id: TaskId)
    requires OwnerTrue(s)
    ensures HeldBy(s.store.tasks, run, w, id) ==> FirstHeld(s.store.tasks, run, w, 0) == Some(id)
  {
    if HeldBy(s.store.tasks, run, w, id) {
      var held := FirstHeld(s.store.tasks, run, w, 0);
      assert TaskOwned(s, id) && TaskOwned(s, held.value);
    }
  }

  lemma OwnerReclaim(s: System, w: WorkerId, run: RunId)
    requires OwnerTrue(s) && w in s.dead
    requires forall i: nat :: i < |s.store.tasks| ==> s.store.tasks[i].runId == run
    ensures OwnerTrue(Next(s, Reclaim(w, run)))
  {
    var s' := Next(s, Reclaim(w, run));
    NextWellFormed(s, Reclaim(w, run));
    forall j: nat | j < |s.store.tasks| ensures TaskOwned(s', j) {
      assert TaskOwned(s, j);
      HeldIsUnique(s, w, run, j);
    }
    forall v | v in s'.phases ensures WorkerOwns(s', v) { if v != w { assert WorkerOwns(s, v); } }
  }

  lemma OwnerMark(s: System, w: WorkerId)
    requires OwnerTrue(s) && w !in s.dead && PhaseOf(s, w).Counted?
    ensures OwnerTrue(Next(s, Mark(w))) && PhaseOf(Next(s, Mark(w)), w).Executing?
  {
    var s' := Next(s, Mark(w));
    NextWellFormed(s, Mark(w));
    assert WorkerOwns(s, w);
    forall j: nat | j < |s.store.tasks| ensures TaskOwned(s', j) { assert TaskOwned(s, j); }
    forall v | v in s'.phases ensures WorkerOwns(s', v) { if v != w { assert WorkerOwns(s, v); } }
  }

  lemma OwnerWrite(s: System, w: WorkerId, e: HandlerEnd, x: Writing)
    requires OwnerTrue(s) && PhaseOf(s, w).Executing? && x.status in TaskMoves(TaskStatus.Running)
    ensures var p := PhaseOf(s, w);
            Conclude(s.store, p.task, x).Ok? && OwnerTrue(WriteStep(s, w, p.task, p.attempt, e, x))
  {
    var s' := WriteStep(s, w, PhaseOf(s, w).task, PhaseOf(s, w).attempt, e, x);
    assert WorkerOwns(s, w);
    forall j: nat | j < |s.store.tasks| ensures TaskOwned(s', j) { assert TaskOwned(s, j); }
    forall v | v in s'.phases ensures WorkerOwns(s', v) { if v != w { assert WorkerOwns(s, v); } }
  }

  lemma OwnerStranded(s: System, w: WorkerId)
    requires OwnerTrue(s) && PhaseOf(s, w).Executing?
    ensures OwnerTrue(s.(phases := s.phases[w := Stranded(PhaseOf(s, w).task, PhaseOf(s, w).attempt)]))
  {
    var s' := s.(phases := s.phases[w := Stranded(PhaseOf(s, w).task, PhaseOf(s, w).attempt)]);
    assert WorkerOwns(s, w);
    forall j: nat | j < |s.store.tasks| ensures TaskOwned(s', j) { assert TaskOwned(s, j); }
    forall v | v in s'.phases ensures WorkerOwns(s', v) { if v != w { assert WorkerOwns(s, v); } }
  }

  lemma OwnerEnd(s: System, w: WorkerId, e: HandlerEnd, seconds: real)
    requires OwnerTrue(s) && w !in s.dead && PhaseOf(s, w).Executing?
    ensures OwnerTrue(Next(s, End(w, e, seconds))) && WriteAccepted(s, w, e, seconds)
  {
    var p := PhaseOf(s, w);
    assert WorkerOwns(s, w);
    if Answer(s.store, p.task, w, p.attempt, e, seconds, s.limits).Some? {
      var x := AnswerFitsTable(s, w, p.task, p.attempt, e, seconds);
      OwnerWrite(s, w, e, x);
    } else {
      OwnerStranded(s, w);
    }
  }

  lemma OwnerOther(s: System, a: Action)
    requires OwnerTrue(s) && (a.Increment? || a.Abort? || a.Again? || a.Die?)
    ensures OwnerTrue(Next(s, a))
  {
    var s' := Next(s, a);
    NextWellFormed(s, a);
    forall j: nat | j < |s.store.tasks| ensures TaskOwned(s', j) { assert TaskOwned(s, j); }
    forall v | v in s'.phases ensures WorkerOwns(s', v) { if v in s.phases { assert WorkerOwns(s, v); } }
  }

  /** One run's table: all workers and all recoveries concern this run. */
  ghost predicate OneRun(s: System, run: RunId) {
    forall i: nat :: i < |s.store.tasks| ==> s.store.tasks[i].runId == run
  }

  lemma StepKeepsRun(s: System, a: Action, run: RunId)
    requires WellFormed(s) && OneRun(s, run)
    ensures OneRun(Next(s, a), run)
  {
    NextWellFormed(s, a);
  }

  /** Exactly the steps that take a live lease break the ownership record; every other step keeps it. */
  lemma OwnerKeptExactly(s: System, a: Action, run: RunId)
    requires OwnerTrue(s) && OneRun(s, run) && (a.Reclaim? ==> a.run == run)
    ensures WellFormed(Next(s, a)) && (OwnerTrue(Next(s, a)) <==> !TakesLiveLease(s, a))
  {
    NextWellFormed(s, a);
    match a
    case Lease(w, r, now, until) => if w !in s.dead && PhaseOf(s, w).Idle? { OwnerLease(s, w, r, now, until); }
    case Mark(w) => if w !in s.dead && PhaseOf(s, w).Counted? { OwnerMark(s, w); }
    case End(w, e, seconds) => if w !in s.dead && PhaseOf(s, w).Executing? { OwnerEnd(s, w, e, seconds); }
    case Reclaim(w, r) => if w in s.dead { OwnerReclaim(s, w, r); }
    case Requeue(r, now) => OwnerRequeue(s, r, now);
    case _ => OwnerOther(s, a);
  }

  /** No step of the run takes a live worker's lease. */
  ghost predicate Punctual(s: System, actions: seq<Action>, run: RunId)
    requires WellFormed(s)
    decreases |actions|
  {
    actions == [] ||
    (&& !TakesLiveLease(s, actions[0]) && (actions[0].Reclaim? ==> actions[0].run == run)
     && (NextWellFormed(s, actions[0]); Punctual(Next(s, actions[0]), actions[1..], run)))
  }

  lemma {:induction false} OwnerTrueKept(s: System, actions: seq<Action>, run: RunId)
    requires OwnerTrue(s) && OneRun(s, run) && Punctual(s, actions, run)
    ensures OwnerTrue(After(s, actions)) && OneRun(After(s, actions), run)
    decreases |actions|
  {
    if actions == [] {
    } else {
      OwnerKeptExactly(s, actions[0], run);
      StepKeepsRun(s, actions[0], run);
      OwnerTrueKept(Next(s, actions[0]), actions[1..], run);
    }
  }

  lemma InitialOwnerTrue(s: System)
    requires Initial(s)
    ensures OwnerTrue(s)
  {}

  /** With recovery of dead workers, punctual workers never share a task, and their final writes are accepted. */
  lemma AtMostOneExecutorWithRecovery(s: System, actions: seq<Action>, run: RunId)
    requires Initial(s) && OneRun(s, run) && Punctual(s, actions, run)
    ensures var s' := After(s, actions);
            && OwnerTrue(s') && Exclusive(s')
            && (forall v, w, id :: Executes(s', v, id) && Executes(s', w, id) ==> v == w)
            && forall w, e, seconds :: WriteAccepted(s', w, e, seconds)
  {
    InitialOwnerTrue(s);
    OwnerTrueKept(s, actions, run);
    OwnerTrueIsExclusive(After(s, actions));
    ExclusiveMeans(After(s, actions));
  }

  // ----- Why punctuality is needed -----

  ghost predicate Sole(s: System, run: RunId) {
    WellFormed(s) && |s.store.tasks| == 1 && s.store.tasks[0].runId == run
  }

  lemma ThenLease(s0: System, actions: seq<Action>, s: System, w: WorkerId, run: RunId, now: Time, until: Time)
    returns (s': System)
    requires WellFormed(s0) && s == After(s0, actions) && Sole(s, run) && Leaseable(s.store.tasks[0], now)
    requires w !in s.dead && PhaseOf(s, w).Idle?
    ensures s' == After(s0, actions + [Lease(w, run, now, until)]) && Sole(s', run)
    ensures s'.store.tasks[0] == Grant(s.store.tasks[0], w, until) && s'.phases == s.phases[w := Holding(0)]
    ensures s'.dead == s.dead && s'.limits == s.limits
    ensures Count(s'.store.events, 0, Reclaiming) == Count(s.store.events, 0, Reclaiming)
  {
    assert Candidate(s.store.tasks, run, now, 0);
    s' := GrantStep(s, w, run, 0, until);
    LeaseNoteCount(s.store.events, s.store.tasks[0], 0, run, w, 0, Reclaiming);
    AfterThen(s0, actions, Lease(w, run, now, until));
  }

  /** A worker that holds the leased task counts its attempt and marks it, whoever the lease names. */
  lemma ThenStart(s0: System, actions: seq<Action>, s: System, w: WorkerId, run: RunId) returns (s': System)
    requires WellFormed(s0) && s == After(s0, actions) && Sole(s, run)
    requires w !in s.dead && PhaseOf(s, w) == Holding(0) && s.store.tasks[0].status == Leased
    ensures s' == After(s0, actions + [Increment(w), Mark(w)]) && Sole(s', run)
    ensures s'.store.tasks[0].status == TaskStatus.Running && s'.store.tasks[0].owner == s.store.tasks[0].owner
    ensures Executes(s', w, 0) && s'.phases == s.phases[w := s'.phases[w]]
    ensures s'.dead == s.dead && s'.limits == s.limits && s'.store.events == s.store.events
  {
    var s1 := IncrementStep(s, w, 0);
    AfterThen(s0, actions, Increment(w));
    assert s1 == After(s0, actions + [Increment(w)]);
    s' := MarkStep(s1, w, 0, s.store.tasks[0].attempts + 1);
    AfterThen(s0, actions + [Increment(w)], Mark(w));
    assert actions + [Increment(w)] + [Mark(w)] == actions + [Increment(w), Mark(w)];
  }

  lemma ThenDieAndReclaim(s0: System, actions: seq<Action>, s: System, w: WorkerId, run: RunId) returns (s': System)
    requires WellFormed(s0) && s == After(s0, actions) && Sole(s, run)
    requires s.store.tasks[0].status == TaskStatus.Running && s.store.tasks[0].owner == Some(w)
    requires Count(s.store.events, 0, Reclaiming) < s.limits.maxOomRetries
    ensures s' == After(s0, actions + [Die(w), Reclaim(w, run)]) && Sole(s', run)
    ensures s'.store.tasks[0].status == Pending && s'.phases == s.phases[w := Idle]
    ensures s'.dead == s.dead + {w} && s'.limits == s.limits
  {
    var s1 := s.(dead := s.dead + {w});
    AfterThen(s0, actions, Die(w));
    assert HeldBy(s.store.tasks, run, w, 0);
    s' := Next(s1, Reclaim(w, run));
    AfterThen(s0, actions + [Die(w)], Reclaim(w, run));
    assert actions + [Die(w)] + [Reclaim(w, run)] == actions + [Die(w), Reclaim(w, run)];
  }

  lemma LeasedOnce(s: System, run: RunId) returns (s': System)
    requires Initial(s) && |s.store.tasks| == 1 && s.store.tasks[0].runId == run
    ensures s' == After(s, [Lease(1, run, 0, 10)]) && Sole(s', run) && Leaseable(s'.store.tasks[0], 20)
    ensures s'.phases == map[1 := Holding(0)] && s'.dead == {} && s'.limits == s.limits
    ensures Count(s'.store.events, 0, Reclaiming) == 0
  {
    s' := ThenLease(s, [], s, 1, run, 0, 10);
    assert [] + [Lease(1, run, 0, 10)] == [Lease(1, run, 0, 10)];
  }

  lemma LeaseTakenOver(s: System, run: RunId) returns (actions: seq<Action>, s': System)
    requires Initial(s) && |s.store.tasks| == 1 && s.store.tasks[0].runId == run
    ensures s' == After(s, actions) && (forall a :: a in actions ==> !a.Reclaim?)
    ensures Sole(s', run) && s'.store.tasks[0].status == Leased && s'.store.tasks[0].owner == Some(2)
    ensures PhaseOf(s', 1) == Holding(0) && PhaseOf(s', 3).Idle? && s'.dead == {} && s'.limits == s.limits
    ensures Count(s'.store.events, 0, Reclaiming) == 0
  {
    s' := LeasedOnce(s, run);
    actions := [Lease(1, run, 0, 10)];
    s' := ThenLease(s, actions, s', 2, run, 20, 30);
    actions := actions + [Lease(2, run, 20, 30)];
  }

  /** Worker 1 lets its lease run out, worker 2 takes it over, and then worker 1 marks the task: the executor is not
      the recorded owner. */
  lemma OwnerMisnamed(s: System, run: RunId) returns (actions: seq<Action>, s': System)
    requires Initial(s) && |s.store.tasks| == 1 && s.store.tasks[0].runId == run
    ensures s' == After(s, actions) && (forall a :: a in actions ==> !a.Reclaim?)
    ensures Sole(s', run) && Executes(s', 1, 0)
    ensures s'.store.tasks[0].status == TaskStatus.Running && s'.store.tasks[0].owner == Some(2)
    ensures s'.dead == {} && s'.limits == s.limits && PhaseOf(s', 3).Idle?
    ensures Count(s'.store.events, 0, Reclaiming) == 0
  {
    actions, s' := LeaseTakenOver(s, run);
    s' := ThenStart(s, actions, s', 1, run);
    actions := actions + [Increment(1), Mark(1)];
  }

  /** If worker 2 then dies, recovering it hands worker 1's task to worker 3, and both execute it. */
  lemma LateWorkersOverlap(s: System, run: RunId) returns (actions: seq<Action>, s': System)
    requires Initial(s) && |s.store.tasks| == 1 && s.store.tasks[0].runId == run && s.limits.maxOomRetries >= 1
    ensures s' == After(s, actions) && Executes(s', 1, 0) && Executes(s', 3, 0)
  {
    actions, s' := OwnerMisnamed(s, run);
    s' := ThenDieAndReclaim(s, actions, s', 2, run);
    actions := actions + [Die(2), Reclaim(2, run)];
    assert PhaseOf(s', 3).Idle? && Executes(s', 1, 0);
    s' := ThenLease(s, actions, s', 3, run, 40, 50);
    actions := actions + [Lease(3, run, 40, 50)];
    s' := ThenStart(s, actions, s', 3, run);
    actions := actions + [Increment(3), Mark(3)];
  }
}
