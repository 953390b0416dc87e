/** Why a task stays RUNNING: as long as owners are recorded truly, every stranded worker stands for an attempt that
    got no answer or for a refresh that raised, and no task that ended otherwise had such an attempt last. */
module Stranding {
  import opened Lifecycle
  import opened Records
  import opened StoreOps
  import opened Decision
  import opened Protocol
  import opened Exclusion
  import opened Ledger

  /** The attempt in a worker's hands is its task's latest. If it was stranded, its refresh raised or its attempt got no
      answer. */
  predicate InHand(s: System, w: WorkerId, raised: set<WorkerId>, handler: Handler)
    requires WellFormed(s) && w in s.phases
  {
    match s.phases[w]
    case Executing(id, n) => n == s.store.tasks[id].attempts
    case Counted(id, n) => w in s.dead || n == s.store.tasks[id].attempts
    case Stranded(id, n) =>
      && n == s.store.tasks[id].attempts
      && (w in raised || LastStrands(s.store, id, s.limits, handler))
    case _ => true
  }

  /** Only a task given up with a dead worker can have ended although its latest attempt strands. */
  predicate WellEnded(s: System, id: TaskId, handler: Handler)
    requires id < |s.store.tasks|
  {
    var given := Count(s.store.events, id, Abandonment) > 0;
    && (given ==> Terminal(s.store.tasks[id].status))
    && (Terminal(s.store.tasks[id].status) && !given ==> !LastStrands(s.store, id, s.limits, handler))
  }

  ghost predicate CausesKnown(s: System, raised: set<WorkerId>, handler: Handler)
    requires WellFormed(s)
  {
    && (forall w :: w in s.phases ==> InHand(s, w, raised, handler))
    && (forall id: nat :: id < |s.store.tasks| ==> WellEnded(s, id, handler))
  }

  /** The step is one the handler and the refreshes allow. */
  predicate Caused(s: System, a: Action, raised: set<WorkerId>, handler: Handler) {
    match a
    case End(w, e, _) =>
      PhaseOf(s, w).Executing? ==> e == handler(PhaseOf(s, w).task, PhaseOf(s, w).attempt)
    case Abort(w) => w in raised
    case _ => true
  }

  /** What LastStrands and WellEnded read of a task. */
  predicate SameTask(s: System, s': System, id: TaskId)
    requires WellFormed(s) && WellFormed(s') && id < |s.store.tasks| == |s'.store.tasks|
  {
    var t, t' := s.store.tasks[id], s'.store.tasks[id];
    && t'.payload == t.payload && t'.attempts == t.attempts && s'.limits == s.limits
    && Count(s'.store.events, id, Oom) == Count(s.store.events, id, Oom)
    && Count(s'.store.events, id, Abandonment) == Count(s.store.events, id, Abandonment)
    && (Terminal(t'.status) <==> Terminal(t.status))
  }

  /** Steps that count no attempt and end none. */
  lemma CausesFrame(s: System, s': System, raised: set<WorkerId>, handler: Handler)
    requires WellFormed(s) && CausesKnown(s, raised, handler) && WellFormed(s') && |s'.store.tasks| == |s.store.tasks|
    requires forall id: nat :: id < |s.store.tasks| ==> SameTask(s, s', id)
    requires s.dead <= s'.dead
    requires forall w :: w in s'.phases ==>
               s'.phases[w].Holding? || s'.phases[w].Done? || s'.phases[w].Idle?
               || (w in s.phases && s'.phases[w] == s.phases[w])
    ensures CausesKnown(s', raised, handler)
  {
    forall w | w in s'.phases ensures InHand(s', w, raised, handler) {
      var p := s'.phases[w];
      if w in s.phases && p == s.phases[w] { assert InHand(s, w, raised, handler); }
      if p.Executing? || p.Counted? || p.Stranded? { assert SameTask(s, s', p.task); }
    }
    forall id: nat | id < |s'.store.tasks| ensures WellEnded(s', id, handler) {
      assert SameTask(s, s', id) && WellEnded(s, id, handler);
    }
  }

  lemma CausesLease(s: System, a: Action, raised: set<WorkerId>, handler: Handler)
    requires WellFormed(s) && CausesKnown(s, raised, handler) && a.Lease?
    ensures WellFormed(Next(s, a)) && CausesKnown(Next(s, a), raised, handler)
  {
    NextWellFormed(s, a);
    var s' := Next(s, a);
    forall id: nat | id < |s.store.tasks| ensures SameTask(s, s', id) {
      LeaseMoves(s, a.worker, a.run, a.now, a.until, id);
    }
    CausesFrame(s, s', raised, handler);
  }

  lemma CausesRequeue(s: System, a: Action, raised: set<WorkerId>, handler: Handler)
    requires WellFormed(s) && CausesKnown(s, raised, handler) && a.Requeue?
    ensures WellFormed(Next(s, a)) && CausesKnown(Next(s, a), raised, handler)
  {
    NextWellFormed(s, a);
    var s' := Next(s, a);
    forall id: nat | id < |s.store.tasks| ensures SameTask(s, s', id) {
      RequeueMoves(s, a.run, a.now, id);
    }
    CausesFrame(s, s', raised, handler);
  }

  /** A step of one worker on one task, which nobody else has in hand, that leaves every other task alone. */
  lemma CausesLocal(s: System, s': System, w: WorkerId, task: TaskId, raised: set<WorkerId>, handler: Handler)
    requires WellFormed(s) && CausesKnown(s, raised, handler) && WellFormed(s') && |s'.store.tasks| == |s.store.tasks|
    requires task < |s.store.tasks| && s'.dead == s.dead
    requires forall id: nat :: id < |s.store.tasks| && id != task ==> SameTask(s, s', id)
    requires forall v :: v in s'.phases && v != w ==> v in s.phases && s'.phases[v] == s.phases[v]
    requires forall v :: v in s.phases && v != w ==> !AtWork(s, v, task)
    requires w in s'.phases ==> InHand(s', w, raised, handler)
    requires WellEnded(s', task, handler)
    ensures CausesKnown(s', raised, handler)
  {
    forall v | v in s'.phases && v != w ensures InHand(s', v, raised, handler) {
      var p := s'.phases[v];
      assert InHand(s, v, raised, handler) && !AtWork(s, v, task);
      if (p.Executing? || p.Counted? || p.Stranded?) && p.task != task { assert SameTask(s, s', p.task); }
    }
    forall id: nat | id < |s'.store.tasks| && id != task ensures WellEnded(s', id, handler) {
      assert SameTask(s, s', id) && WellEnded(s, id, handler);
    }
  }

  /** The worker has an attempt of the task in hand that InHand speaks of. */
  predicate AtWork(s: System, v: WorkerId, task: TaskId)
    requires v in s.phases
  {
    match s.phases[v]
    case Executing(id, _) => id == task
    case Stranded(id, _) => id == task
    case Counted(id, _) => id == task && v !in s.dead
    case _ => false
  }

  lemma OnlyOwnerAtWork(s: System, w: WorkerId, task: TaskId)
    requires OwnerTrue(s) && task < |s.store.tasks| && s.store.tasks[task].owner == Some(w)
    ensures forall v :: v in s.phases && v != w ==> !AtWork(s, v, task)
  {
    forall v | v in s.phases && v != w ensures !AtWork(s, v, task) {
      assert WorkerOwns(s, v);
    }
  }

  lemma CausesIncrement(s: System, w: WorkerId, raised: set<WorkerId>, handler: Handler)
    requires OwnerTrue(s) && CausesKnown(s, raised, handler) && w !in s.dead && PhaseOf(s, w).Holding?
    ensures WellFormed(Next(s, Increment(w))) && CausesKnown(Next(s, Increment(w)), raised, handler)
  {
    NextWellFormed(s, Increment(w));
    var id := PhaseOf(s, w).task;
    assert WorkerOwns(s, w);
    OnlyOwnerAtWork(s, w, id);
    assert WellEnded(s, id, handler);
    CausesLocal(s, IncrementStep(s, w, id), w, id, raised, handler);
  }

  lemma CausesMark(s: System, w: WorkerId, raised: set<WorkerId>, handler: Handler)
    requires OwnerTrue(s) && CausesKnown(s, raised, handler) && w !in s.dead && PhaseOf(s, w).Counted?
    ensures WellFormed(Next(s, Mark(w))) && CausesKnown(Next(s, Mark(w)), raised, handler)
  {
    NextWellFormed(s, Mark(w));
    var p := PhaseOf(s, w);
    assert WorkerOwns(s, w) && InHand(s, w, raised, handler);
    OnlyOwnerAtWork(s, w, p.task);
    assert WellEnded(s, p.task, handler);
    CausesLocal(s, MarkStep(s, w, p.task, p.attempt), w, p.task, raised, handler);
  }

  lemma CausesStranded(s: System, w: WorkerId, raised: set<WorkerId>, handler: Handler)
    requires OwnerTrue(s) && CausesKnown(s, raised, handler) && PhaseOf(s, w).Executing?
    requires w in raised || LastStrands(s.store, PhaseOf(s, w).task, s.limits, handler)
    ensures var s' := s.(phases := s.phases[w := Stranded(PhaseOf(s, w).task, PhaseOf(s, w).attempt)]);
            WellFormed(s') && CausesKnown(s', raised, handler)
  {
    var p := PhaseOf(s, w);
    var s' := s.(phases := s.phases[w := Stranded(p.task, p.attempt)]);
    assert WorkerOwns(s, w) && InHand(s, w, raised, handler);
    OnlyOwnerAtWork(s, w, p.task);
    assert WellEnded(s, p.task, handler);
    assert LastStrands(s'.store, p.task, s'.limits, handler) <==> LastStrands(s.store, p.task, s.limits, handler);
    CausesLocal(s, s', w, p.task, raised, handler);
  }

  lemma CausesWrite(s: System, w: WorkerId, e: HandlerEnd, x: Writing, raised: set<WorkerId>, handler: Handler)
    requires OwnerTrue(s) && CausesKnown(s, raised, handler) && PhaseOf(s, w).Executing?
    requires var p := PhaseOf(s, w); Spends(x, p.attempt, AccountOf(s, p.task).oomed, s.limits.maxOomRetries)
    requires !LastStrands(s.store, PhaseOf(s, w).task, s.limits, handler)
    ensures var p := PhaseOf(s, w); var s' := WriteStep(s, w, p.task, p.attempt, e, x);
            WellFormed(s') && CausesKnown(s', raised, handler)
  {
    var p := PhaseOf(s, w);
    var s' := WriteStep(s, w, p.task, p.attempt, e, x);
    assert WorkerOwns(s, w) && WellEnded(s, p.task, handler);
    OnlyOwnerAtWork(s, w, p.task);
    forall id: nat | id < |s.store.tasks|
      ensures AccountOf(s', id) ==
              if id == p.task then AfterWriting(AccountOf(s, id), x, p.attempt) else AccountOf(s, id)
    {
      WriteReaches(s, s', p.task, p.attempt, x, id);
    }
    forall id: nat | id < |s.store.tasks| && id != p.task ensures SameTask(s, s', id) {
      assert AccountOf(s', id) == AccountOf(s, id);
    }
    WriteEndsWell(s, s', p.task, p.attempt, x, handler);
    CausesLocal(s, s', w, p.task, raised, handler);
  }

  lemma WriteEndsWell(s: System, s': System, task: TaskId, attempt: nat, x: Writing, handler: Handler)
    requires WellFormed(s) && WellFormed(s') && task < |s.store.tasks| == |s'.store.tasks| && s'.limits == s.limits
    requires Spends(x, attempt, AccountOf(s, task).oomed, s.limits.maxOomRetries)
    requires AccountOf(s', task) == AfterWriting(AccountOf(s, task), x, attempt)
    requires s'.store.tasks[task].payload == s.store.tasks[task].payload
    requires s'.store.tasks[task].attempts == s.store.tasks[task].attempts
    requires !Terminal(s.store.tasks[task].status) && WellEnded(s, task, handler)
    requires !LastStrands(s.store, task, s.limits, handler)
    ensures WellEnded(s', task, handler)
  {
    assert AccountOf(s', task).abandoned == AccountOf(s, task).abandoned == 0;
    assert AccountOf(s', task).status == x.status;
  }

  lemma CausesEnd(s: System, w: WorkerId, e: HandlerEnd, seconds: real, raised: set<WorkerId>, handler: Handler)
    requires OwnerTrue(s) && CausesKnown(s, raised, handler) && w !in s.dead && PhaseOf(s, w).Executing?
    requires e == handler(PhaseOf(s, w).task, PhaseOf(s, w).attempt)
    ensures WellFormed(Next(s, End(w, e, seconds))) && CausesKnown(Next(s, End(w, e, seconds)), raised, handler)
  {
    var p := PhaseOf(s, w);
    assert InHand(s, w, raised, handler);
    AnswerFailsExactly(s.store, p.task, w, p.attempt, e, seconds, s.limits);
    if Answer(s.store, p.task, w, p.attempt, e, seconds, s.limits).Some? {
      var x := AnswerSpends(s.store, w, p.task, p.attempt, e, seconds, s.limits);
      CausesWrite(s, w, e, x, raised, handler);
    } else {
      CausesStranded(s, w, raised, handler);
    }
  }

  /** Recovery requeues or gives up the one task it finds, and touches no other. */
  lemma RecoveryTouches(s: System, w: WorkerId, run: RunId, task: TaskId)
    requires OwnerTrue(s) && w in s.dead && FirstHeld(s.store.tasks, run, w, 0) == Some(task)
    ensures var s' := Next(s, Reclaim(w, run));
            && WellFormed(s') && task < |s.store.tasks| == |s'.store.tasks| && s.store.tasks[task].owner == Some(w)
            && !Terminal(s.store.tasks[task].status) && s'.dead == s.dead && PhaseOf(s', w).Idle?
            && (forall v :: v in s'.phases && v != w ==> v in s.phases && s'.phases[v] == s.phases[v])
            && forall id: nat | id < |s.store.tasks| ::
                 && (AccountOf(s', id) == AccountOf(s, id)
                     || Recovered(AccountOf(s, id), AccountOf(s', id), s.limits.maxOomRetries))
                 && (id != task ==> SameTask(s, s', id))
  {
    NextWellFormed(s, Reclaim(w, run));
    var s' := Next(s, Reclaim(w, run));
    forall id: nat | id < |s.store.tasks|
      ensures AccountOf(s', id) == AccountOf(s, id)
              || Recovered(AccountOf(s, id), AccountOf(s', id), s.limits.maxOomRetries)
      ensures id != task ==> SameTask(s, s', id)
    {
      ReclaimTaskMoves(s, s', w, run, task, id);
      ReclaimElsewhere(s, s', w, run, task, id);
    }
  }

  lemma CausesRecovery(s: System, w: WorkerId, run: RunId, task: TaskId, raised: set<WorkerId>, handler: Handler)
    requires OwnerTrue(s) && CausesKnown(s, raised, handler) && w in s.dead
    requires FirstHeld(s.store.tasks, run, w, 0) == Some(task)
    ensures WellFormed(Next(s, Reclaim(w, run))) && CausesKnown(Next(s, Reclaim(w, run)), raised, handler)
  {
    var s' := Next(s, Reclaim(w, run));
    RecoveryTouches(s, w, run, task);
    OnlyOwnerAtWork(s, w, task);
    assert WellEnded(s, task, handler);
    RecoveredEndsWell(s, s', task, handler);
    CausesLocal(s, s', w, task, raised, handler);
  }

  lemma RecoveredEndsWell(s: System, s': System, task: TaskId, handler: Handler)
    requires WellFormed(s) && WellFormed(s') && task < |s.store.tasks| == |s'.store.tasks|
    requires !Terminal(s.store.tasks[task].status) && WellEnded(s, task, handler)
    requires AccountOf(s', task) == AccountOf(s, task)
             || Recovered(AccountOf(s, task), AccountOf(s', task), s.limits.maxOomRetries)
    ensures WellEnded(s', task, handler)
  {
    assert AccountOf(s, task).abandoned == 0;
    assert (AccountOf(s', task).abandoned > 0) == Terminal(AccountOf(s', task).status);
  }

  lemma CausesReclaim(s: System, w: WorkerId, run: RunId, raised: set<WorkerId>, handler: Handler)
    requires OwnerTrue(s) && CausesKnown(s, raised, handler) && w in s.dead
    ensures WellFormed(Next(s, Reclaim(w, run))) && CausesKnown(Next(s, Reclaim(w, run)), raised, handler)
  {
    NextWellFormed(s, Reclaim(w, run));
    var held := FirstHeld(s.store.tasks, run, w, 0);
    if held.None? {
      CausesFrame(s, Next(s, Reclaim(w, run)), raised, handler);
    } else {
      CausesRecovery(s, w, run, held.value, raised, handler);
    }
  }

  lemma ReclaimElsewhere(s: System, s': System, w: WorkerId, run: RunId, task: TaskId, id: TaskId)
    requires WellFormed(s) && WellFormed(s') && id < |s.store.tasks| && task < |s.store.tasks|
    requires s'.store == ReclaimTask(s.store, run, w, s.limits.maxOomRetries, task).0 && s'.limits == s.limits
    ensures id != task ==> SameTask(s, s', id)
  {
    var prior := Count(s.store.events, task, Reclaiming);
    var kind := if prior >= s.limits.maxOomRetries then TaskAbandoned(w, prior) else LeaseReclaimed(w, prior);
    assert s'.store.events == s.store.events + [Event(run, Some(task), kind)];
    CountAppend(s.store.events, Event(run, Some(task), kind), id, Oom);
    CountAppend(s.store.events, Event(run, Some(task), kind), id, Abandonment);
  }

  /** Every step keeps the causes known. */
  lemma CausesKept(s: System, a: Action, raised: set<WorkerId>, handler: Handler)
    requires OwnerTrue(s) && CausesKnown(s, raised, handler) && Caused(s, a, raised, handler)
    ensures WellFormed(Next(s, a)) && CausesKnown(Next(s, a), raised, handler)
  {
    NextWellFormed(s, a);
    match a
    case Lease(_, _, _, _) => CausesLease(s, a, raised, handler);
    case Increment(w) => if w !in s.dead && PhaseOf(s, w).Holding? { CausesIncrement(s, w, raised, handler); }
    case Mark(w) => if w !in s.dead && PhaseOf(s, w).Counted? { CausesMark(s, w, raised, handler); }
    case End(w, e, seconds) =>
      if w !in s.dead && PhaseOf(s, w).Executing? { CausesEnd(s, w, e, seconds, raised, handler); }
    case Abort(w) => if w !in s.dead && PhaseOf(s, w).Executing? { CausesStranded(s, w, raised, handler); }
    case Again(_) => CausesFrame(s, Next(s, a), raised, handler);
    case Die(_) => CausesFrame(s, Next(s, a), raised, handler);
    case Reclaim(w, run) => if w in s.dead { CausesReclaim(s, w, run, raised, handler); }
    case Requeue(_, _) => CausesRequeue(s, a, raised, handler);
  }

  lemma MoreRaised(s: System, raised: set<WorkerId>, more: set<WorkerId>, handler: Handler)
    requires WellFormed(s) && CausesKnown(s, raised, handler) && raised <= more
    ensures CausesKnown(s, more, handler)
  {
    forall w | w in s.phases ensures InHand(s, w, more, handler) {
      assert InHand(s, w, raised, handler);
    }
  }

  lemma InitialCauses(s: System, handler: Handler)
    requires Initial(s)
    ensures CausesKnown(s, {}, handler)
  {
    forall id: nat | id < |s.store.tasks| ensures WellEnded(s, id, handler) {
      assert Count(s.store.events, id, Abandonment) == 0;
    }
  }
}
