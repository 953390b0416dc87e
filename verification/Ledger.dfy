/** What every step does to one task's account, and what the accounts therefore bound: how often a handler starts, and
    where every granted lease went. */
module Ledger {
  import opened Lifecycle
  import opened Records
  import opened StoreOps
  import opened Decision
  import opened Protocol

  /** One task as the whole history sees it. */
  datatype Account = Account(
    status: TaskStatus,
    history: History,
    expired: nat,
    reclaimed: nat,
    abandoned: nat,
    oomed: nat)

  function AccountOf(s: System, id: TaskId): Account
    requires WellFormed(s) && id < |s.store.tasks|
  {
    Account(s.store.tasks[id].status, s.history[id],
            Count(s.store.events, id, Expiry), Count(s.store.events, id, Reclaiming),
            Count(s.store.events, id, Abandonment), Count(s.store.events, id, Oom))
  }

  predicate Live(a: Account) {
    a.status == Leased || a.status == TaskStatus.Running
  }

  // ----- The moves of an account -----

  predicate Granted(a: Account, b: Account) {
    || (a.status == Pending && b == a.(status := Leased, history := a.history.(granted := a.history.granted + 1)))
    || (a.status == Leased
        && b == a.(history := a.history.(granted := a.history.granted + 1), expired := a.expired + 1))
  }

  predicate Released(a: Account, b: Account) {
    a.status == Leased && b == a.(status := Pending, expired := a.expired + 1)
  }

  predicate Started(a: Account, b: Account) {
    a.status == Leased && b == a.(status := TaskStatus.Running, history := a.history.(starts := a.history.starts + 1))
  }

  predicate Recovered(a: Account, b: Account, budget: int) {
    && Live(a)
    && if a.reclaimed >= budget then b == a.(status := TaskStatus.Failed, abandoned := a.abandoned + 1)
       else b == a.(status := Pending, reclaimed := a.reclaimed + 1)
  }

  /** A status write out of a live status; going back to pending spends either an OOM requeue or a fresh retry. */
  predicate Written(a: Account, b: Account, budget: int, attempt: nat) {
    var out := a.history.(writesOut := a.history.writesOut + 1);
    && Live(a) && b.status in TaskMoves(a.status)
    && (|| (Terminal(b.status) && b == a.(status := b.status, history := out))
        || (a.status == TaskStatus.Running && a.oomed < budget
            && b == a.(status := Pending, history := out, oomed := a.oomed + 1))
        || (a.status == TaskStatus.Running && attempt !in a.history.retried
            && 1 <= attempt < b.history.limit && a.history.limit <= b.history.limit
            && b == a.(status := Pending,
                       history := out.(retried := a.history.retried + {attempt}, limit := b.history.limit))))
  }

  ghost predicate Moves(a: Account, b: Account, budget: int) {
    || b == a || Granted(a, b) || Released(a, b) || Started(a, b) || Recovered(a, b, budget)
    || exists attempt :: Written(a, b, budget, attempt)
  }

  /** The statuses move along the transition table and the three recovery moves, and no other way. */
  lemma MovesAreStoreMoves(a: Account, b: Account, budget: int)
    requires Moves(a, b, budget)
    ensures b.status == a.status || StoreMove(a.status, b.status)
  {}

  // ----- Every step moves every account -----

  lemma GrantMoves(s: System, w: WorkerId, run: RunId, task: TaskId, until: Time, id: TaskId)
    requires WellFormed(s) && id < |s.store.tasks| && task < |s.store.tasks|
    requires s.store.tasks[task].status in {Pending, Leased}
    ensures WellFormed(GrantStep(s, w, run, task, until))
    ensures var a, b := AccountOf(s, id), AccountOf(GrantStep(s, w, run, task, until), id); b == a || Granted(a, b)
  {
    forall tag {
      LeaseNoteCount(s.store.events, s.store.tasks[task], task, run, w, id, tag);
    }
  }

  lemma LeaseMoves(s: System, w: WorkerId, run: RunId, now: Time, until: Time, id: TaskId)
    requires WellFormed(s) && id < |s.store.tasks|
    ensures WellFormed(LeaseStep(s, w, run, now, until))
    ensures var a, b := AccountOf(s, id), AccountOf(LeaseStep(s, w, run, now, until), id); b == a || Granted(a, b)
  {
    var got := NextLeaseable(s.store.tasks, run, now);
    if got.Some? {
      GrantMoves(s, w, run, got.value, until, id);
    }
  }

  lemma MarkMoves(s: System, w: WorkerId, task: TaskId, attempt: nat, id: TaskId)
    requires WellFormed(s) && id < |s.store.tasks| && task < |s.store.tasks|
    ensures WellFormed(MarkStep(s, w, task, attempt))
    ensures var a, b := AccountOf(s, id), AccountOf(MarkStep(s, w, task, attempt), id); b == a || Started(a, b)
  {}

  /** A write out of RUNNING ends the task, or returns it to pending by spending an OOM requeue or a retry. */
  predicate Spends(x: Writing, attempt: nat, oomed: nat, budget: int) {
    && x.status in TaskMoves(TaskStatus.Running) && x.status != TaskStatus.Cancelled
    && !Tagged(x.kind, Expiry) && !Tagged(x.kind, Reclaiming) && !Tagged(x.kind, Abandonment)
    && (x.kind.OomRequeued? ==> x.status == Pending && oomed < budget)
    && (x.kind.RetryScheduled? ==> x.status == Pending && attempt < x.kind.maxAttempts)
    && (Terminal(x.status) <==> !x.kind.OomRequeued? && !x.kind.RetryScheduled?)
  }

  lemma DecisionSpends(s: State, w: WorkerId, task: TaskId, attempt: nat, ending: Ending, limits: Limits)
    requires task < |s.tasks| && Decide(s, task, w, attempt, ending, limits).Some?
    ensures var x := Decide(s, task, w, attempt, ending, limits).value;
            && Spends(x, attempt, Count(s.events, task, Oom), limits.maxOomRetries)
            && (x.kind.RetryScheduled? ==> ending.Crashed? && x.kind.maxAttempts == RetryLimit(ending.left, limits))
  {}

  lemma AnswerSpends(s: State, w: WorkerId, task: TaskId, attempt: nat, e: HandlerEnd, seconds: real, limits: Limits)
    returns (x: Writing)
    requires task < |s.tasks| && Answer(s, task, w, attempt, e, seconds, limits).Some?
    ensures Answer(s, task, w, attempt, e, seconds, limits) == Some(x)
    ensures Spends(x, attempt, Count(s.events, task, Oom), limits.maxOomRetries)
    ensures x.kind.RetryScheduled? ==> e.Threw? && x.kind.maxAttempts == RetryLimit(e.left, limits)
  {
    var ending := AnswerIsDecision(s, task, w, attempt, e, seconds, limits);
    DecisionSpends(s, w, task, attempt, ending, limits);
    x := Answer(s, task, w, attempt, e, seconds, limits).value;
  }

  /** The account after the write x. */
  function AfterWriting(a: Account, x: Writing, attempt: nat): Account {
    a.(status := x.status, history := Spent(a.history, attempt, x.kind),
       oomed := a.oomed + if x.kind.OomRequeued? then 1 else 0)
  }

  lemma SpendingIsWritten(a: Account, x: Writing, attempt: nat, budget: int)
    requires x.status in TaskMoves(a.status) && Spends(x, attempt, a.oomed, budget)
    requires attempt >= 1 && attempt !in a.history.retried
    ensures Written(a, AfterWriting(a, x, attempt), budget, attempt)
  {}

  /** The write reaches the account of its task, and no other. */
  lemma WriteReaches(s: System, s': System, task: TaskId, attempt: nat, x: Writing, id: TaskId)
    requires WellFormed(s) && WellFormed(s') && id < |s.store.tasks| && task < |s.store.tasks|
    requires !Tagged(x.kind, Expiry) && !Tagged(x.kind, Reclaiming) && !Tagged(x.kind, Abandonment)
    requires Conclude(s.store, task, x) == Ok(s'.store) && s'.limits == s.limits
    requires s'.history == Note(s, task, Spent(s.history[task], attempt, x.kind))
    ensures AccountOf(s', id) == if id == task then AfterWriting(AccountOf(s, id), x, attempt) else AccountOf(s, id)
  {
    var e := Event(s.store.tasks[task].runId, Some(task), x.kind);
    assert s'.store.events == s.store.events + [e];
    forall tag { CountAppend(s.store.events, e, id, tag); }
  }

  lemma WriteMoves(s: System, s': System, task: TaskId, attempt: nat, x: Writing, id: TaskId)
    requires WellFormed(s) && WellFormed(s') && id < |s.store.tasks| && task < |s.store.tasks|
    requires attempt >= 1 && attempt !in s.history[task].retried
    requires var a := AccountOf(s, task); Spends(x, attempt, a.oomed, s.limits.maxOomRetries)
    requires s'.limits == s.limits
    requires match Conclude(s.store, task, x)
             case Err(_) => s'.store == s.store && s'.history == s.history
             case Ok(store) => s'.store == store && s'.history == Note(s, task, Spent(s.history[task], attempt, x.kind))
    ensures var a, b := AccountOf(s, id), AccountOf(s', id); b == a || Written(a, b, s.limits.maxOomRetries, attempt)
  {
    if Conclude(s.store, task, x).Ok? {
      WriteReaches(s, s', task, attempt, x, id);
      if id == task {
        SpendingIsWritten(AccountOf(s, id), x, attempt, s.limits.maxOomRetries);
      }
    }
  }

  lemma EndMoves(s: System, w: WorkerId, task: TaskId, attempt: nat, e: HandlerEnd, seconds: real, id: TaskId)
    requires WellFormed(s) && id < |s.store.tasks| && task < |s.store.tasks|
    requires attempt >= 1 && attempt !in s.history[task].retried
    ensures WellFormed(EndStep(s, w, task, attempt, e, seconds))
    ensures var a, b := AccountOf(s, id), AccountOf(EndStep(s, w, task, attempt, e, seconds), id);
            b == a || Written(a, b, s.limits.maxOomRetries, attempt)
  {
    if Answer(s.store, task, w, attempt, e, seconds, s.limits).Some? {
      var x := AnswerSpends(s.store, w, task, attempt, e, seconds, s.limits);
      WriteMoves(s, WriteStep(s, w, task, attempt, e, x), task, attempt, x, id);
    }
  }

  lemma ReclaimTaskMoves(s: System, s': System, w: WorkerId, run: RunId, task: TaskId, id: TaskId)
    requires WellFormed(s) && WellFormed(s') && id < |s.store.tasks| && task < |s.store.tasks|
    requires s.store.tasks[task].status in {Leased, TaskStatus.Running}
    requires s'.store == ReclaimTask(s.store, run, w, s.limits.maxOomRetries, task).0
    requires s'.history == s.history && s'.limits == s.limits
    ensures var a, b := AccountOf(s, id), AccountOf(s', id); b == a || Recovered(a, b, s.limits.maxOomRetries)
  {
    var prior := Count(s.store.events, task, Reclaiming);
    var kind := if prior >= s.limits.maxOomRetries then TaskAbandoned(w, prior) else LeaseReclaimed(w, prior);
    var e := Event(run, Some(task), kind);
    assert s'.store.events == s.store.events + [e];
    forall tag { CountAppend(s.store.events, e, id, tag); }
  }

  lemma ReclaimMoves(s: System, w: WorkerId, run: RunId, id: TaskId)
    requires WellFormed(s) && id < |s.store.tasks| && w in s.dead
    ensures WellFormed(Next(s, Reclaim(w, run)))
    ensures var s' := Next(s, Reclaim(w, run));
            var a, b := AccountOf(s, id), AccountOf(s', id); b == a || Recovered(a, b, s.limits.maxOomRetries)
  {
    NextWellFormed(s, Reclaim(w, run));
    var held := FirstHeld(s.store.tasks, run, w, 0);
    if held.Some? {
      ReclaimTaskMoves(s, Next(s, Reclaim(w, run)), w, run, held.value, id);
    }
  }

  lemma RequeueMoves(s: System, run: RunId, now: Time, id: TaskId)
    requires WellFormed(s) && id < |s.store.tasks|
    ensures var a, b := AccountOf(s, id), AccountOf(Next(s, Requeue(run, now)), id); b == a || Released(a, b)
  {
    RequeueCounts(s.store, run, now, id);
  }

  lemma StepMoves(s: System, a: Action, id: TaskId)
    requires WellFormed(s) && AttemptsFresh(s) && id < |s.store.tasks|
    ensures WellFormed(Next(s, a)) && Moves(AccountOf(s, id), AccountOf(Next(s, a), id), s.limits.maxOomRetries)
  {
    NextWellFormed(s, a);
    match a
    case Lease(w, run, now, until) => LeaseMoves(s, w, run, now, until, id);
    case Mark(w) => if PhaseOf(s, w).Counted? { MarkMoves(s, w, PhaseOf(s, w).task, PhaseOf(s, w).attempt, id); }
    case End(w, e, seconds) =>
      if PhaseOf(s, w).Executing? {
        EndMoves(s, w, PhaseOf(s, w).task, PhaseOf(s, w).attempt, e, seconds, id);
      }
    case Reclaim(w, run) => if w in s.dead { ReclaimMoves(s, w, run, id); }
    case Requeue(run, now) => RequeueMoves(s, run, now, id);
    case _ =>
  }

  // ----- Attempt numbers -----

  predicate Working(p: Phase) {
    p.Counted? || p.Executing?
  }

  /** Attempt numbers in workers' hands are counted, distinct for each task, and not yet spent on a retry. */
  ghost predicate AttemptsFresh(s: System)
    requires WellFormed(s)
  {
    && (forall w :: w in s.phases && Working(s.phases[w]) ==>
          && 1 <= s.phases[w].attempt <= s.store.tasks[s.phases[w].task].attempts
          && s.phases[w].attempt !in s.history[s.phases[w].task].retried)
    && (forall v, w :: v in s.phases && w in s.phases && v != w ==> !SameAttempt(s.phases[v], s.phases[w]))
    && (forall id: nat, a :: id < |s.history| && a in s.history[id].retried ==> a <= s.store.tasks[id].attempts)
  }

  predicate SameAttempt(p: Phase, q: Phase) {
    Working(p) && Working(q) && p.task == q.task && p.attempt == q.attempt
  }

  /** Steps that count nothing and spend nothing keep what the phases still hold. */
  lemma FreshFrame(s: System, s': System)
    requires WellFormed(s) && AttemptsFresh(s) && WellFormed(s') && |s'.store.tasks| == |s.store.tasks|
    requires forall id: nat :: id < |s.store.tasks| ==> s'.store.tasks[id].attempts == s.store.tasks[id].attempts
    requires forall id: nat :: id < |s.history| ==> s'.history[id].retried == s.history[id].retried
    requires forall w :: w in s'.phases && Working(s'.phases[w]) ==>
               w in s.phases && SameAttempt(s.phases[w], s'.phases[w])
    ensures AttemptsFresh(s')
  {}

  lemma FreshIncrement(s: System, w: WorkerId, id: TaskId)
    requires WellFormed(s) && AttemptsFresh(s) && id < |s.store.tasks|
    ensures WellFormed(IncrementStep(s, w, id)) && AttemptsFresh(IncrementStep(s, w, id))
  {}

  lemma FreshWrite(s: System, w: WorkerId, e: HandlerEnd, x: Writing)
    requires WellFormed(s) && AttemptsFresh(s) && PhaseOf(s, w).Executing?
    ensures var s' := WriteStep(s, w, PhaseOf(s, w).task, PhaseOf(s, w).attempt, e, x);
            WellFormed(s') && AttemptsFresh(s')
  {
    var p := PhaseOf(s, w);
    var s' := WriteStep(s, w, p.task, p.attempt, e, x);
    assert forall id: nat :: id < |s.store.tasks| ==> s'.store.tasks[id].attempts == s.store.tasks[id].attempts;
    forall v | v in s'.phases && Working(s'.phases[v])
      ensures v in s.phases && v != w && s'.phases[v] == s.phases[v]
              && s.phases[v].attempt !in s'.history[s.phases[v].task].retried
    {
      assert !SameAttempt(s.phases[v], s.phases[w]);
    }
  }

  lemma FreshEnd(s: System, w: WorkerId, e: HandlerEnd, seconds: real)
    requires WellFormed(s) && AttemptsFresh(s) && PhaseOf(s, w).Executing?
    ensures var s' := EndStep(s, w, PhaseOf(s, w).task, PhaseOf(s, w).attempt, e, seconds);
            WellFormed(s') && AttemptsFresh(s')
  {
    var p := PhaseOf(s, w);
    match Answer(s.store, p.task, w, p.attempt, e, seconds, s.limits)
    case None => FreshFrame(s, s.(phases := s.phases[w := Stranded(p.task, p.attempt)]));
    case Some(x) => FreshWrite(s, w, e, x);
  }

  lemma FreshLease(s: System, w: WorkerId, run: RunId, now: Time, until: Time)
    requires WellFormed(s) && AttemptsFresh(s)
    ensures WellFormed(LeaseStep(s, w, run, now, until)) && AttemptsFresh(LeaseStep(s, w, run, now, until))
  {
    var got := NextLeaseable(s.store.tasks, run, now);
    if got.None? {
      FreshFrame(s, s.(phases := s.phases[w := Done(Empty)]));
    } else {
      FreshFrame(s, GrantStep(s, w, run, got.value, until));
    }
  }

  lemma FreshReclaim(s: System, w: WorkerId, run: RunId)
    requires WellFormed(s) && AttemptsFresh(s) && w in s.dead
    ensures var s' := Next(s, Reclaim(w, run)); WellFormed(s') && AttemptsFresh(s')
  {
    FreshFrame(s, Next(s, Reclaim(w, run)));
  }

  lemma FreshRequeue(s: System, run: RunId, now: Time)
    requires WellFormed(s) && AttemptsFresh(s)
    ensures var s' := Next(s, Requeue(run, now)); WellFormed(s') && AttemptsFresh(s')
  {
    FreshFrame(s, Next(s, Requeue(run, now)));
  }

  lemma FreshMark(s: System, w: WorkerId)
    requires WellFormed(s) && AttemptsFresh(s)
    ensures var s' := Next(s, Mark(w)); WellFormed(s') && AttemptsFresh(s')
  {
    FreshFrame(s, Next(s, Mark(w)));
  }

  lemma StepKeepsFresh(s: System, a: Action)
    requires WellFormed(s) && AttemptsFresh(s)
    ensures WellFormed(Next(s, a)) && AttemptsFresh(Next(s, a))
  {
    match a
    case Increment(w) => if PhaseOf(s, w).Holding? && w !in s.dead { FreshIncrement(s, w, PhaseOf(s, w).task); }
    case End(w, e, seconds) => if PhaseOf(s, w).Executing? && w !in s.dead { FreshEnd(s, w, e, seconds); }
    case Lease(w, run, now, until) => FreshLease(s, w, run, now, until);
    case Mark(w) => FreshMark(s, w);
    case Abort(w) => FreshFrame(s, Next(s, a));
    case Again(w) => if w !in s.dead && PhaseOf(s, w).Done? { FreshFrame(s, s.(phases := s.phases[w := Idle])); }
    case Die(w) => FreshFrame(s, s.(dead := s.dead + {w}));
    case Reclaim(w, run) => if w in s.dead { FreshReclaim(s, w, run); }
    case Requeue(run, now) => FreshRequeue(s, run, now);
  }

  // ----- What the accounts bound -----

  /** Conservation: every lease granted has ended in exactly one way, or is still live. */
  predicate Conserved(a: Account) {
    a.history.granted == a.expired + a.reclaimed + a.abandoned + a.history.writesOut + if Live(a) then 1 else 0
  }

  function NonNegative(k: int): nat {
    if k < 0 then 0 else k
  }

  /** Every start but the last was paid for by a retry, an OOM requeue or a dead-worker reclaim. */
  predicate StartsPaid(a: Account) {
    a.history.starts <= |a.history.retried| + a.oomed + a.reclaimed
                        + if a.status == TaskStatus.Running || Terminal(a.status) then 1 else 0
  }

  predicate WithinBudgets(a: Account, budget: int) {
    && a.history.limit >= 1 && (forall x :: x in a.history.retried ==> 1 <= x < a.history.limit)
    && a.oomed <= NonNegative(budget) && a.reclaimed <= NonNegative(budget)
  }

  lemma MovesKeepAccount(a: Account, b: Account, budget: int)
    requires Moves(a, b, budget) && Conserved(a) && StartsPaid(a) && WithinBudgets(a, budget)
    ensures Conserved(b) && StartsPaid(b) && WithinBudgets(b, budget)
  {}

  ghost predicate Books(s: System) {
    && WellFormed(s) && AttemptsFresh(s)
    && forall id: nat :: id < |s.store.tasks| ==>
         var a := AccountOf(s, id); Conserved(a) && StartsPaid(a) && WithinBudgets(a, s.limits.maxOomRetries)
  }

  lemma InitialBooks(s: System)
    requires Initial(s)
    ensures Books(s)
  {}

  lemma {:induction false} RunKeepsBooks(s: System, actions: seq<Action>)
    requires Books(s)
    ensures Books(After(s, actions))
    decreases |actions|
  {
    if actions == [] {
    } else {
      var s' := Next(s, actions[0]);
      StepKeepsFresh(s, actions[0]);
      NextWellFormed(s, actions[0]);
      forall id: nat | id < |s'.store.tasks|
        ensures var a := AccountOf(s', id); Conserved(a) && StartsPaid(a) && WithinBudgets(a, s'.limits.maxOomRetries)
      {
        StepMoves(s, actions[0], id);
        MovesKeepAccount(AccountOf(s, id), AccountOf(s', id), s.limits.maxOomRetries);
      }
      RunKeepsBooks(s', actions[1..]);
    }
  }

  lemma {:induction false} BoundedSize(xs: set<nat>, n: nat)
    requires forall x :: x in xs ==> x < n
    ensures |xs| <= n
  {
    if n == 0 {
    } else {
      BoundedSize(xs - {n - 1}, n - 1);
      if n - 1 in xs {
        assert xs == (xs - {n - 1}) + {n - 1};
      } else {
        assert xs == xs - {n - 1};
      }
    }
  }

  lemma RetriesBelowLimit(retried: set<nat>, limit: nat)
    requires limit >= 1 && forall x :: x in retried ==> 1 <= x < limit
    ensures |retried| <= limit - 1
  {
    BoundedSize(retried + {0}, limit);
  }

  // ----- The limits that handlers leave -----

  /** The crash, if this is one of the task, leaves an attempt limit of at most m. A handler that does not touch its
      payload leaves the limit that the payload or the policy sets. */
  predicate LimitWithin(s: System, a: Action, id: TaskId, m: nat) {
    a.End? && a.end.Threw? && a.worker !in s.dead
    && PhaseOf(s, a.worker).Executing? && PhaseOf(s, a.worker).task == id ==>
      RetryLimit(a.end.left, s.limits) <= m
  }

  /** Every crash of the task during the run leaves an attempt limit of at most m. */
  ghost predicate LimitsWithin(s: System, actions: seq<Action>, id: TaskId, m: nat)
    requires WellFormed(s)
    decreases |actions|
  {
    actions == []
    || (LimitWithin(s, actions[0], id, m)
        && (NextWellFormed(s, actions[0]); LimitsWithin(Next(s, actions[0]), actions[1..], id, m)))
  }

  lemma StepKeepsLimit(s: System, a: Action, id: TaskId, m: nat)
    requires WellFormed(s) && id < |s.store.tasks| && s.history[id].limit <= m && LimitWithin(s, a, id, m)
    ensures |Next(s, a).history| == |s.history| && Next(s, a).history[id].limit <= m
  {
    NextWellFormed(s, a);
    if a.End? && a.worker !in s.dead && PhaseOf(s, a.worker).Executing? {
      var p := PhaseOf(s, a.worker);
      if Answer(s.store, p.task, a.worker, p.attempt, a.end, a.seconds, s.limits).Some? {
        var x := AnswerSpends(s.store, a.worker, p.task, p.attempt, a.end, a.seconds, s.limits);
      }
    }
  }

  lemma {:induction false} RunKeepsLimit(s: System, actions: seq<Action>, id: TaskId, m: nat)
    requires WellFormed(s) && id < |s.store.tasks| && s.history[id].limit <= m && LimitsWithin(s, actions, id, m)
    ensures After(s, actions).history[id].limit <= m
    decreases |actions|
  {
    if actions == [] {
    } else {
      NextWellFormed(s, actions[0]);
      StepKeepsLimit(s, actions[0], id, m);
      RunKeepsLimit(Next(s, actions[0]), actions[1..], id, m);
    }
  }

  /** However workers interleave, die and overrun their leases: where no crash of the task leaves an attempt limit above
      M, and with OOM budget K, its handler starts at most M + 2K times: at most M - 1 retries, K OOM requeues, K
      reclaims, and the last start. */
  lemma StartsAreBounded(s: System, actions: seq<Action>, id: TaskId, m: nat)
    requires Initial(s) && id < |s.store.tasks| && m >= 1 && LimitsWithin(s, actions, id, m)
    ensures var s' := After(s, actions); var a := AccountOf(s', id); var k := NonNegative(s.limits.maxOomRetries);
            && |a.history.retried| <= m - 1 && a.oomed <= k && a.reclaimed <= k
            && a.history.starts <= m + 2 * k
  {
    InitialBooks(s);
    RunKeepsBooks(s, actions);
    RunKeepsLimit(s, actions, id, m);
    RetriesBelowLimit(AccountOf(After(s, actions), id).history.retried, m);
  }

  /** Every lease ever granted is accounted for. */
  lemma LeasesAreConserved(s: System, actions: seq<Action>, id: TaskId)
    requires Initial(s) && id < |s.store.tasks|
    ensures var s' := After(s, actions);
            && WellFormed(s') && id < |s'.store.tasks|
            && s'.history[id].granted ==
               Count(s'.store.events, id, Expiry) + Count(s'.store.events, id, Reclaiming)
               + Count(s'.store.events, id, Abandonment) + s'.history[id].writesOut
               + if s'.store.tasks[id].status in {Leased, TaskStatus.Running} then 1 else 0
  {
    InitialBooks(s);
    RunKeepsBooks(s, actions);
    assert Conserved(AccountOf(After(s, actions), id));
  }
}
