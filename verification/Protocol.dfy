/** Workers sharing a store. Each step is one store transaction of one worker, a death, the recovery of a dead
    worker's task, or a bulk requeue; clocks, lease lengths and handler endings are arbitrary. */
module Protocol {
  import opened Lifecycle
  import opened Records
  import opened StoreOps
  import opened Decision

  datatype Outcome = Empty | Success | OutOfMemory | Failure

  /** Where a worker stands inside `run_once`. A stranded worker has left it by an exception between the mark and the
      final write, because its attempt got no answer or its refresh raised: its task stays RUNNING. A worker that goes
      on after that counts as a new one. */
  datatype Phase =
    | Idle
    | Holding(task: TaskId)
    | Counted(task: TaskId, attempt: nat)
    | Executing(task: TaskId, attempt: nat)
    | Stranded(task: TaskId, attempt: nat)
    | Done(outcome: Outcome)

  /** What happened to one task so far and the store does not record: leases granted, status writes out of LEASED or
      RUNNING, handler starts, the attempt numbers after which a retry was scheduled, and the greatest attempt limit
      under which one was, or one. */
  datatype History = History(granted: nat, writesOut: nat, starts: nat, retried: set<nat>, limit: nat)

  datatype System = System(
    store: State,
    phases: map<WorkerId, Phase>,
    dead: set<WorkerId>,
    history: seq<History>,
    limits: Limits)

  /** End is the handler's end with what follows from it; Abort is the refresh before the handler raising. */
  datatype Action =
    | Lease(worker: WorkerId, run: RunId, now: Time, until: Time)
    | Increment(worker: WorkerId)
    | Mark(worker: WorkerId)
    | End(worker: WorkerId, end: HandlerEnd, seconds: real)
    | Abort(worker: WorkerId)
    | Again(worker: WorkerId)
    | Die(worker: WorkerId)
    | Reclaim(worker: WorkerId, run: RunId)
    | Requeue(run: RunId, now: Time)

  /** The worker whose step it is, if it is a worker's. */
  function ActorOf(a: Action): Option<WorkerId> {
    match a
    case Lease(w, _, _, _) => Some(w)
    case Increment(w) => Some(w)
    case Mark(w) => Some(w)
    case End(w, _, _) => Some(w)
    case Abort(w) => Some(w)
    case Again(w) => Some(w)
    case Die(w) => Some(w)
    case _ => None
  }

  function PhaseOf(s: System, w: WorkerId): Phase {
    if w in s.phases then s.phases[w] else Idle
  }

  function Note(s: System, id: TaskId, h: History): seq<History>
    requires id < |s.history|
  {
    s.history[id := h]
  }

  /** Ids in range; every task has a history. */
  ghost predicate WellFormed(s: System) {
    && |s.history| == |s.store.tasks|
    && forall w :: w in s.phases ==>
         (!s.phases[w].Idle? && !s.phases[w].Done?) ==> s.phases[w].task < |s.store.tasks|
  }

  // ----- The steps -----

  function LeaseStep(s: System, w: WorkerId, run: RunId, now: Time, until: Time): System
    requires |s.history| == |s.store.tasks|
  {
    var got := LeaseNext(s.store, run, w, now, until).1;
    if got.None? then s.(phases := s.phases[w := Done(Empty)]) else GrantStep(s, w, run, got.value, until)
  }

  function GrantStep(s: System, w: WorkerId, run: RunId, id: TaskId, until: Time): System
    requires |s.history| == |s.store.tasks| && id < |s.store.tasks|
  {
    var h := s.history[id];
    s.(store := TakeLease(s.store, id, run, w, until), phases := s.phases[w := Holding(id)],
       history := Note(s, id, h.(granted := h.granted + 1)))
  }

  function IncrementStep(s: System, w: WorkerId, id: TaskId): System {
    match IncrementAttempts(s.store, id)
    case Err(_) => s.(phases := s.phases[w := Done(Failure)])
    case Ok((store, attempt)) => s.(store := store, phases := s.phases[w := Counted(id, attempt)])
  }

  function MarkStep(s: System, w: WorkerId, id: TaskId, attempt: nat): System
    requires |s.history| == |s.store.tasks|
  {
    match MarkRunning(s.store, id)
    case Err(_) => s.(phases := s.phases[w := Done(Failure)])
    case Ok(store) =>
      var h := s.history[id];
      s.(store := store, phases := s.phases[w := Executing(id, attempt)],
         history := Note(s, id, h.(starts := h.starts + 1)))
  }

  /** What `run_once` comes to for its caller, once x is written. */
  function OutcomeOf(e: HandlerEnd, x: Writing): Outcome {
    if x.status == Succeeded then Success
    else if !e.GaveNoMapping? && e.oomLike then OutOfMemory
    else Failure
  }

  /** The history after a final write: one more write, and its attempt and limit if a retry was scheduled. */
  function Spent(h: History, attempt: nat, kind: Kind): History {
    var out := h.(writesOut := h.writesOut + 1);
    if !kind.RetryScheduled? then out
    else
      out.(retried := h.retried + {attempt}, limit := if kind.maxAttempts > h.limit then kind.maxAttempts else h.limit)
  }

  function EndStep(s: System, w: WorkerId, id: TaskId, attempt: nat, e: HandlerEnd, seconds: real): System
    requires |s.history| == |s.store.tasks| && id < |s.store.tasks|
  {
    match Answer(s.store, id, w, attempt, e, seconds, s.limits)
    case None => s.(phases := s.phases[w := Stranded(id, attempt)])
    case Some(x) => WriteStep(s, w, id, attempt, e, x)
  }

  /** The final write x. */
  function WriteStep(s: System, w: WorkerId, id: TaskId, attempt: nat, e: HandlerEnd, x: Writing): System
    requires |s.history| == |s.store.tasks| && id < |s.store.tasks|
  {
    match Conclude(s.store, id, x)
    case Err(_) => s.(phases := s.phases[w := Done(Failure)])
    case Ok(store) =>
      s.(store := store, phases := s.phases[w := Done(OutcomeOf(e, x))],
         history := Note(s, id, Spent(s.history[id], attempt, x.kind)))
  }

  /** A step that does not apply changes nothing. */
  ghost function Next(s: System, a: Action): System
    requires WellFormed(s)
  {
    match a
    case Lease(w, run, now, until) =>
      if w !in s.dead && PhaseOf(s, w).Idle? then LeaseStep(s, w, run, now, until) else s
    case Increment(w) =>
      if w !in s.dead && PhaseOf(s, w).Holding? then IncrementStep(s, w, PhaseOf(s, w).task) else s
    case Mark(w) =>
      if w !in s.dead && PhaseOf(s, w).Counted? then MarkStep(s, w, PhaseOf(s, w).task, PhaseOf(s, w).attempt) else s
    case End(w, e, seconds) =>
      if w !in s.dead && PhaseOf(s, w).Executing?
      then EndStep(s, w, PhaseOf(s, w).task, PhaseOf(s, w).attempt, e, seconds) else s
    case Abort(w) =>
      if w !in s.dead && PhaseOf(s, w).Executing?
      then s.(phases := s.phases[w := Stranded(PhaseOf(s, w).task, PhaseOf(s, w).attempt)]) else s
    case Again(w) =>
      if w !in s.dead && PhaseOf(s, w).Done? then s.(phases := s.phases[w := Idle]) else s
    case Die(w) => s.(dead := s.dead + {w})
    case Reclaim(w, run) =>
      if w in s.dead
      then s.(store := ReclaimDeadWorker(s.store, run, w, s.limits.maxOomRetries).0, phases := s.phases[w := Idle])
      else s
    case Requeue(run, now) => s.(store := RequeueExpired(s.store, run, now).0)
  }

  lemma NextWellFormed(s: System, a: Action)
    requires WellFormed(s)
    ensures WellFormed(Next(s, a)) && |Next(s, a).store.tasks| == |s.store.tasks| && Next(s, a).limits == s.limits
  {}

  ghost function After(s: System, actions: seq<Action>): (r: System)
    requires WellFormed(s)
    ensures WellFormed(r) && |r.store.tasks| == |s.store.tasks| && r.limits == s.limits
    decreases |actions|
  {
    if actions == [] then s
    else
      NextWellFormed(s, actions[0]);
      After(Next(s, actions[0]), actions[1..])
  }

  /** Workers not yet started on a table of pending tasks. */
  ghost predicate Initial(s: System) {
    && |s.history| == |s.store.tasks| && s.phases == map[] && s.dead == {}
    && (forall id, tag :: Count(s.store.events, id, tag) == 0)
    && (forall i :: 0 <= i < |s.store.tasks| ==>
          var t := s.store.tasks[i];
          t.status == Pending && t.owner.None? && t.until.None? && t.result.None? && t.attempts == 0)
    && (forall i :: 0 <= i < |s.history| ==> s.history[i] == History(0, 0, 0, {}, 1))
  }

  lemma {:induction false} AfterThen(s: System, actions: seq<Action>, a: Action)
    requires WellFormed(s)
    ensures After(s, actions + [a]) == Next(After(s, actions), a)
    decreases |actions|
  {
    if actions == [] {
      assert ([] + [a])[1..] == [];
    } else {
      NextWellFormed(s, actions[0]);
      AfterThen(Next(s, actions[0]), actions[1..], a);
      assert (actions + [a])[1..] == actions[1..] + [a];
    }
  }
}
