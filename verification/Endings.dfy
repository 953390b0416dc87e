/** The protocol's final step of an attempt, told from the end of the handler's call, and what a child then reports. */
module Endings {
  import opened Lifecycle
  import opened Records
  import opened StoreOps
  import opened Decision
  import opened Protocol
  import opened Outcomes
  import ConcurrentDrain
  import Race = RefreshRace

  /** What the caller of `run_once` sees of an answered attempt. */
  function Seen(e: HandlerEnd): Protocol.Outcome {
    match e
    case Gave(_, _, oomLike, _) => if !GoneWrong(e) then Success else if oomLike then OutOfMemory else Failure
    case TookTooLong(_, oomLike) => if oomLike then OutOfMemory else Failure
    case Threw(_, oomLike, _) => if oomLike then OutOfMemory else Failure
    case GaveNoMapping => Failure
  }

  /** t' is t with another record of its latest attempt. */
  predicate SameBut(t: Task, t': Task) {
    t'.runId == t.runId && t'.key == t.key && t'.payload == t.payload && t'.attempts == t.attempts
  }

  /** The attempt of task id ended this way, and the table shows it. */
  ghost predicate Shows(s: System, s': System, w: WorkerId, id: TaskId, n: nat, e: HandlerEnd, kind: Kind,
                        seconds: real)
    requires id < |s.store.tasks|
  {
    var t, k := s.store.tasks[id], Count(s.store.events, id, Oom);
    && |s'.store.tasks| == |s.store.tasks| && SameBut(t, s'.store.tasks[id])
    && RecordOf(s'.store.tasks[id], e, seconds)
    && EventOf(kind, s'.store.tasks[id].status == Pending, e, w, n, k, s.limits)
    && s'.store.events == s.store.events + [Event(t.runId, Some(id), kind)]
    && (forall i :: 0 <= i < |s.store.tasks| && i != id ==> s'.store.tasks[i] == s.store.tasks[i])
    && PhaseOf(s', w) == Done(Seen(e))
  }

  lemma ConcludedShows(s: System, w: WorkerId, id: TaskId, n: nat, e: HandlerEnd, x: Writing, seconds: real)
    requires WellFormed(s) && id < |s.store.tasks| && s.store.tasks[id].status == TaskStatus.Running
    requires WritesDown(x, e, w, n, Count(s.store.events, id, Oom), s.limits, seconds)
    ensures Shows(s, WriteStep(s, w, id, n, e, x), w, id, n, e, x.kind, seconds)
    ensures WriteStep(s, w, id, n, e, x).store.runs == s.store.runs
  {
    var t := s.store.tasks[id];
    assert RecordOf(t.(status := x.status, result := x.result, error := x.error, owner := None, until := None), e,
                    seconds);
  }

  /** A live worker whose handler ends writes what RecordOf and EventOf say, or, without an answer, writes nothing and
      is stranded. */
  lemma EndMeaning(s: System, w: WorkerId, e: HandlerEnd, seconds: real)
    requires WellFormed(s) && w !in s.dead && PhaseOf(s, w).Executing?
    requires s.store.tasks[PhaseOf(s, w).task].status == TaskStatus.Running
    ensures var p := PhaseOf(s, w); var s' := Next(s, End(w, e, seconds));
            && s'.store.runs == s.store.runs
            && if NoAnswer(s.store.tasks[p.task].payload, Count(s.store.events, p.task, Oom), s.limits, e)
               then s'.store == s.store && PhaseOf(s', w) == Stranded(p.task, p.attempt)
               else exists kind :: Shows(s, s', w, p.task, p.attempt, e, kind, seconds)
  {
    var p := PhaseOf(s, w);
    AnswerMeaning(s.store, p.task, w, p.attempt, e, seconds, s.limits);
    var x := Answer(s.store, p.task, w, p.attempt, e, seconds, s.limits);
    if x.Some? {
      ConcludedShows(s, w, p.task, p.attempt, e, x.value, seconds);
    }
  }

  /** A child that is through with an answered attempt, and with its refresh, may report what it saw, and nothing
      else. */
  lemma ReportMeaning(d: ConcurrentDrain.Drain, w: WorkerId, e: HandlerEnd, outcome: Protocol.Outcome)
    requires WellFormed(d.sys) && PhaseOf(d.sys, w) == Done(Seen(e)) && Race.At(d.board, w).Idle?
    requires 1 <= w <= d.pool.childSeq && w !in d.sys.dead && w !in d.reported
    ensures ConcurrentDrain.Enabled(d, ConcurrentDrain.Send(w, outcome)) <==> outcome == Seen(e)
  {}
}
