/** A handler that raises and leaves a higher attempt limit each time: its starts have no bound. */
module Runaway {
  import opened Lifecycle
  import opened Records
  import opened StoreOps
  import opened Decision
  import opened Protocol

  /** One task, and how far worker 1 has got with it. */
  datatype Spot = Spot(status: TaskStatus, attempts: nat, phase: Phase, starts: nat)

  ghost predicate StandsAt(s: System, run: RunId, payload: Payload, limits: Limits, spot: Spot) {
    && WellFormed(s) && |s.store.tasks| == 1 && s.store.tasks[0].runId == run && s.store.tasks[0].payload == payload
    && s.store.tasks[0].status == spot.status && s.store.tasks[0].attempts == spot.attempts
    && s.limits == limits && PhaseOf(s, 1) == spot.phase && s.dead == {} && s.history[0].starts == spot.starts
  }

  /** The crash of attempt n. */
  function Crash(n: nat): HandlerEnd {
    Threw("", false, Payload(SetTo(n + 1), Unset, Null))
  }

  lemma Leases(s: System, run: RunId, payload: Payload, limits: Limits, n: nat)
    requires StandsAt(s, run, payload, limits, Spot(Pending, n, Idle, n))
    ensures StandsAt(Next(s, Lease(1, run, 0, 10)), run, payload, limits, Spot(Leased, n, Holding(0), n))
  {
    NextWellFormed(s, Lease(1, run, 0, 10));
    assert Candidate(s.store.tasks, run, 0, 0);
    assert NextLeaseable(s.store.tasks, run, 0) == Some(0);
  }

  lemma Counts(s: System, run: RunId, payload: Payload, limits: Limits, n: nat)
    requires StandsAt(s, run, payload, limits, Spot(Leased, n, Holding(0), n))
    ensures StandsAt(Next(s, Increment(1)), run, payload, limits, Spot(Leased, n + 1, Counted(0, n + 1), n))
  {
    NextWellFormed(s, Increment(1));
    assert Next(s, Increment(1)) == IncrementStep(s, 1, 0);
  }

  lemma Marks(s: System, run: RunId, payload: Payload, limits: Limits, n: nat)
    requires n >= 1 && StandsAt(s, run, payload, limits, Spot(Leased, n, Counted(0, n), n - 1))
    ensures StandsAt(Next(s, Mark(1)), run, payload, limits, Spot(TaskStatus.Running, n, Executing(0, n), n))
  {
    NextWellFormed(s, Mark(1));
    assert Next(s, Mark(1)) == MarkStep(s, 1, 0, n);
  }

  lemma Crashes(s: System, run: RunId, payload: Payload, limits: Limits, n: nat)
    requires StandsAt(s, run, payload, limits, Spot(TaskStatus.Running, n, Executing(0, n), n))
    requires !limits.seedRefused && !payload.timeout.Unconvertible?
    ensures StandsAt(Next(s, End(1, Crash(n), 0.0)), run, payload, limits, Spot(Pending, n, Done(Failure), n))
  {
    NextWellFormed(s, End(1, Crash(n), 0.0));
    assert Next(s, End(1, Crash(n), 0.0)) == EndStep(s, 1, 0, n, Crash(n), 0.0);
  }

  lemma GoesOn(s: System, run: RunId, payload: Payload, limits: Limits, n: nat)
    requires StandsAt(s, run, payload, limits, Spot(Pending, n, Done(Failure), n))
    ensures StandsAt(Next(s, Again(1)), run, payload, limits, Spot(Pending, n, Idle, n))
  {}

  /** Lease, count, mark, crash, and go on to the next. */
  lemma Lap(s0: System, actions: seq<Action>, run: RunId, payload: Payload, limits: Limits, n: nat)
    returns (more: seq<Action>)
    requires WellFormed(s0) && StandsAt(After(s0, actions), run, payload, limits, Spot(Pending, n, Idle, n))
    requires !limits.seedRefused && !payload.timeout.Unconvertible?
    ensures StandsAt(After(s0, more), run, payload, limits, Spot(Pending, n + 1, Idle, n + 1))
  {
    Leases(After(s0, actions), run, payload, limits, n);
    AfterThen(s0, actions, Lease(1, run, 0, 10));
    more := actions + [Lease(1, run, 0, 10)];
    Counts(After(s0, more), run, payload, limits, n);
    AfterThen(s0, more, Increment(1));
    more := more + [Increment(1)];
    more := CrashAfterCount(s0, more, run, payload, limits, n + 1);
  }

  lemma CrashAfterCount(s0: System, actions: seq<Action>, run: RunId, payload: Payload, limits: Limits, n: nat)
    returns (more: seq<Action>)
    requires n >= 1 && WellFormed(s0)
    requires StandsAt(After(s0, actions), run, payload, limits, Spot(Leased, n, Counted(0, n), n - 1))
    requires !limits.seedRefused && !payload.timeout.Unconvertible?
    ensures StandsAt(After(s0, more), run, payload, limits, Spot(Pending, n, Idle, n))
  {
    Marks(After(s0, actions), run, payload, limits, n);
    AfterThen(s0, actions, Mark(1));
    more := actions + [Mark(1)];
    Crashes(After(s0, more), run, payload, limits, n);
    AfterThen(s0, more, End(1, Crash(n), 0.0));
    more := more + [End(1, Crash(n), 0.0)];
    GoesOn(After(s0, more), run, payload, limits, n);
    AfterThen(s0, more, Again(1));
    more := more + [Again(1)];
  }

  /** From any new table of one task, one worker and no death bring its handler to start n times, for every n. */
  lemma {:induction false} StartsAreUnbounded(s0: System, run: RunId, n: nat) returns (actions: seq<Action>)
    requires Initial(s0) && |s0.store.tasks| == 1 && s0.store.tasks[0].runId == run
    requires !s0.limits.seedRefused && !s0.store.tasks[0].payload.timeout.Unconvertible?
    ensures StandsAt(After(s0, actions), run, s0.store.tasks[0].payload, s0.limits, Spot(Pending, n, Idle, n))
    ensures After(s0, actions).history[0].starts == n
  {
    if n == 0 {
      actions := [];
    } else {
      actions := StartsAreUnbounded(s0, run, n - 1);
      actions := Lap(s0, actions, run, s0.store.tasks[0].payload, s0.limits, n - 1);
    }
  }
}
