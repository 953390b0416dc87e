/** What becomes of a task that has only one worker at a time: a function of its payload, the limits and its handler. */
module Fate {
  import opened Lifecycle
  import opened Records
  import opened StoreOps
  import opened Decision
  import opened Ledger

  /** A task after some attempts: waiting for the next, with so many OOM requeues, or through, after so many attempts,
      with the status it keeps. RUNNING is kept by a task whose last attempt got no answer. */
  datatype Course = Going(ooms: nat) | Through(status: TaskStatus, attempts: nat)

  /** Where attempt n leads, after k OOM requeues. */
  function AttemptLeads(payload: Payload, limits: Limits, e: HandlerEnd, n: nat, k: nat): Course {
    if Strands(payload, k, limits, e) then Through(TaskStatus.Running, n)
    else
      match e
      case Gave(_, _, _, _) => Through(if VerdictRejects(e) then Degenerate else Succeeded, n)
      case TookTooLong(_, _) => Through(TimedOut, n)
      case Threw(_, oomLike, left) =>
        if OomLeft(oomLike, k, limits) then Going(k + 1)
        else if n < RetryLimit(left, limits) then Going(k)
        else Through(TaskStatus.Failed, n)
      case GaveNoMapping => Through(TaskStatus.Running, n)
  }

  /** The task after n attempts, or after all of them if it is through before; it began with k OOM requeues. */
  function CourseOf(id: TaskId, payload: Payload, limits: Limits, handler: Handler, k: nat, n: nat): Course {
    if n == 0 then Going(k)
    else
      match CourseOf(id, payload, limits, handler, k, n - 1)
      case Going(ooms) => AttemptLeads(payload, limits, handler(id, n), n, ooms)
      case Through(status, attempts) => Through(status, attempts)
  }

  /** w is what an attempt that leads to c writes. */
  predicate Writes(w: Option<Writing>, c: Course, n: nat, k: nat) {
    match w
    case None => c == Through(TaskStatus.Running, n)
    case Some(x) =>
      && x.status in {Pending, Succeeded, TaskStatus.Failed, TimedOut, Degenerate}
      && (x.status == Pending ==> c == Going(k + if x.kind.OomRequeued? then 1 else 0))
      && (x.status != Pending ==> c == Through(x.status, n) && !x.kind.OomRequeued?)
  }

  /** What the worker makes of an attempt is where the attempt leads, however long the handler took. */
  lemma AnswerLeads(s: State, id: TaskId, worker: WorkerId, n: nat, e: HandlerEnd, seconds: real, limits: Limits)
    requires id < |s.tasks|
    ensures var k := Count(s.events, id, Oom);
            Writes(Answer(s, id, worker, n, e, seconds, limits),
                   AttemptLeads(s.tasks[id].payload, limits, e, n, k), n, k)
  {
    AnswerFailsExactly(s, id, worker, n, e, seconds, limits);
    if e.Gave? {
      VerdictIsTimeless(e, seconds);
    }
  }

  // ----- The end of the course -----

  /** A task that is through stays as it is. */
  lemma {:induction false} ThroughStays(id: TaskId, payload: Payload, limits: Limits, handler: Handler, k: nat, n: nat,
                                        more: nat)
    requires n <= more && CourseOf(id, payload, limits, handler, k, n).Through?
    ensures CourseOf(id, payload, limits, handler, k, more) == CourseOf(id, payload, limits, handler, k, n)
    decreases more
  {
    if more == n {
    } else {
      ThroughStays(id, payload, limits, handler, k, n, more - 1);
    }
  }

  /** The attempts of a task that is through were made one by one. */
  lemma {:induction false} ThroughInTime(id: TaskId, payload: Payload, limits: Limits, handler: Handler, k: nat, n: nat)
    ensures var c := CourseOf(id, payload, limits, handler, k, n);
            c.Through? ==> 1 <= c.attempts <= n && CourseOf(id, payload, limits, handler, k, c.attempts) == c
                           && CourseOf(id, payload, limits, handler, k, c.attempts - 1).Going?
  {
    if n == 0 {
    } else {
      ThroughInTime(id, payload, limits, handler, k, n - 1);
    }
  }

  /** The task ends with this status, after this many attempts. */
  ghost predicate EndsAs(id: TaskId, payload: Payload, limits: Limits, handler: Handler, k: nat, status: TaskStatus,
                         attempts: nat) {
    CourseOf(id, payload, limits, handler, k, attempts) == Through(status, attempts)
  }

  lemma EndIsUnique(id: TaskId, payload: Payload, limits: Limits, handler: Handler, k: nat, a: Course, b: Course)
    requires a.Through? && EndsAs(id, payload, limits, handler, k, a.status, a.attempts)
    requires b.Through? && EndsAs(id, payload, limits, handler, k, b.status, b.attempts)
    ensures a == b
  {
    if a.attempts <= b.attempts {
      ThroughStays(id, payload, limits, handler, k, a.attempts, b.attempts);
    } else {
      ThroughStays(id, payload, limits, handler, k, b.attempts, a.attempts);
    }
  }

  // ----- When there is one -----

  /** No crash of the task leaves an attempt limit above m. */
  ghost predicate Bounded(id: TaskId, limits: Limits, handler: Handler, m: nat) {
    forall n :: handler(id, n).Threw? ==> RetryLimit(handler(id, n).left, limits) <= m
  }

  lemma {:induction false} GoingIsPaid(id: TaskId, payload: Payload, limits: Limits, handler: Handler, k: nat, m: nat,
                                       n: nat)
    requires m >= 1 && Bounded(id, limits, handler, m)
    ensures var c := CourseOf(id, payload, limits, handler, k, n);
            c.Going? ==> k <= c.ooms && (c.ooms == k || c.ooms <= limits.maxOomRetries) && n - (c.ooms - k) <= m - 1
  {
    if n == 0 {
    } else {
      GoingIsPaid(id, payload, limits, handler, k, m, n - 1);
    }
  }

  /** With attempt limits of at most M and OOM budget K, a task is through after M + K attempts at the latest. */
  lemma BoundedGetsThrough(id: TaskId, payload: Payload, limits: Limits, handler: Handler, k: nat, m: nat)
    requires m >= 1 && Bounded(id, limits, handler, m)
    ensures CourseOf(id, payload, limits, handler, k, m + NonNegative(limits.maxOomRetries)).Through?
  {
    GoingIsPaid(id, payload, limits, handler, k, m, m + NonNegative(limits.maxOomRetries));
  }

  /** A handler that raises and leaves a limit above its attempt number. */
  function Greedy(): Handler {
    (id: TaskId, n: nat) => Threw("", false, Payload(SetTo(n + 1), Unset, Null))
  }

  /** Its task never gets through. */
  lemma {:induction false} GreedyNeverThrough(id: TaskId, payload: Payload, limits: Limits, k: nat, n: nat)
    requires !limits.seedRefused && !payload.timeout.Unconvertible?
    ensures CourseOf(id, payload, limits, Greedy(), k, n) == Going(k)
  {
    if n == 0 {
    } else {
      GreedyNeverThrough(id, payload, limits, k, n - 1);
    }
  }
}
