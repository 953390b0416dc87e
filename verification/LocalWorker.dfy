/** The sequential worker: `run_once` as a sequence of store calls, and `drain`, which repeats it until nothing is left
    to lease. It is the only worker of its run; clocks and handlers are arbitrary. */
module LocalWorker {
  import opened Lifecycle
  import opened Records
  import opened StoreOps
  import opened MemoryStore
  import opened RunStatusFold
  import opened Decision
  import opened Fate
  import opened Outcomes
  import Runner

  datatype Once = NothingLeased | OneSuccess | RaisedOut(stranded: bool)

  /** The in-memory store keeps results as they are. */
  type LocalLimits = l: Limits | !l.jsonStore witness Limits(0, 1, false, false)

  /** No task of the run is leased: its only worker is between two calls of `run_once`. */
  ghost predicate Quiet(tasks: seq<Task>, run: RunId) {
    forall i :: 0 <= i < |tasks| && tasks[i].runId == run ==> tasks[i].status != Leased
  }

  ghost predicate Settled(s: State, run: RunId) {
    RunConsistent(s, run) && Quiet(s.tasks, run) && s.runs[run].status == Aggregate(s.tasks, run)
  }

  ghost function WithStatus(tasks: seq<Task>, run: RunId, status: TaskStatus): set<TaskId> {
    set i: nat | i < |tasks| && tasks[i].runId == run && tasks[i].status == status
  }

  // ----- One task, from lease to outcome -----

  /** The task as the handler finds it. */
  function Begun(t: Task, worker: WorkerId, until: Time): Task {
    t.(status := TaskStatus.Running, owner := Some(worker), until := Some(until), attempts := t.attempts + 1)
  }

  function BegunState(s: State, run: RunId, id: TaskId, worker: WorkerId, until: Time): State
    requires id < |s.tasks|
  {
    var t := Begun(s.tasks[id], worker, until);
    s.(tasks := s.tasks[id := t], events := s.events + [Event(run, Some(id), TaskRunning(worker, t.attempts))])
  }

  /** The task after the final write. */
  function Concluded(t: Task, w: Writing): Task {
    t.(status := w.status, result := w.result, error := w.error, owner := None, until := None)
  }

  function ConcludedState(s: State, run: RunId, id: TaskId, w: Writing): State
    requires id < |s.tasks|
  {
    s.(tasks := s.tasks[id := Concluded(s.tasks[id], w)], events := s.events + [Event(run, Some(id), w.kind)])
  }

  predicate PendingIn(tasks: seq<Task>, run: RunId, id: TaskId) {
    id < |tasks| && tasks[id].runId == run && tasks[id].status == Pending
  }

  predicate RunningIn(tasks: seq<Task>, run: RunId, id: TaskId) {
    id < |tasks| && tasks[id].runId == run && tasks[id].status == TaskStatus.Running
  }

  lemma BegunConsistent(s: State, run: RunId, id: TaskId, worker: WorkerId, until: Time)
    requires RunConsistent(s, run) && PendingIn(s.tasks, run, id)
    ensures var s' := BegunState(s, run, id, worker, until); RunConsistent(s', run) && Attempted(s'.tasks, run)
  {
    var s1 := s.(tasks := s.tasks[id := Grant(s.tasks[id], worker, until)]);
    var s' := BegunState(s, run, id, worker, until);
    assert Progresses(s.tasks, s1.tasks) && Progresses(s1.tasks, s'.tasks);
    TasksKeepConsistency(s, s1, run);
    TasksKeepConsistency(s1, s', run);
    assert s'.tasks[id].attempts > 0;
  }

  lemma ConcludedConsistent(s: State, run: RunId, id: TaskId, w: Writing)
    requires RunConsistent(s, run) && Attempted(s.tasks, run) && RunningIn(s.tasks, run, id)
    requires w.status in TaskMoves(TaskStatus.Running)
    ensures var s' := ConcludedState(s, run, id, w); RunConsistent(s', run) && Attempted(s'.tasks, run)
  {
    var s' := ConcludedState(s, run, id, w);
    assert Progresses(s.tasks, s'.tasks);
    TasksKeepConsistency(s, s', run);
    AggregateMonotone(s.tasks, s'.tasks, run);
  }

  /** What a refresh by this worker does: the run settles on the aggregate, nothing else moves. */
  lemma RefreshSettles(s: State, run: RunId, now: Time)
    requires RunConsistent(s, run) && Attempted(s.tasks, run)
    ensures var s' := Refresh(s, run, now).0;
            && Refresh(s, run, now).1.Ok?
            && s'.tasks == s.tasks && RunConsistent(s', run) && s'.runs[run].status == Aggregate(s'.tasks, run)
            && s'.runs == s.runs[run := s'.runs[run]]
            && forall id :: Count(s'.events, id, Oom) == Count(s.events, id, Oom)
  {
    RefreshLands(s, run, now);
    RefreshKeepsOoms(s, run, Aggregate(s.tasks, run), now);
  }

  lemma RefreshKeepsOoms(s: State, run: RunId, target: RunStatus, now: Time)
    ensures forall id :: Count(RefreshTo(s, run, target, now).0.events, id, Oom) == Count(s.events, id, Oom)
  {
    var s' := RefreshTo(s, run, target, now).0;
    if run in s.runs && target != s.runs[run].status {
      var s1 := if StepsThrough(s.runs[run].status, target) then StepThrough(s, run) else s;
      forall id ensures Count(s'.events, id, Oom) == Count(s.events, id, Oom) {
        CountAppend(s.events, Changed(run, s.runs[run].status, RunStatus.Running), id, Oom);
        CountAppend(s1.events, Changed(run, s1.runs[run].status, target), id, Oom);
      }
    }
  }

  class Worker {
    const id: WorkerId
    const store: Store
    const limits: LocalLimits

    constructor (id: WorkerId, store: Store, limits: LocalLimits)
      ensures this.id == id && this.store == store && this.limits == limits
    {
      this.id, this.store, this.limits := id, store, limits;
    }

    /** Lease, increment, mark, record, refresh. */
    method Begin(run: RunId, now: Time, until: Time) returns (got: Option<TaskId>)
      requires Settled(store.View(), run)
      modifies store
      ensures got == NextLeaseable(old(store.tasks), run, now)
      ensures got.None? ==> store.View() == old(store.View())
      ensures got.Some? ==>
                && PendingIn(old(store.tasks), run, got.value)
                && store.View() == Refresh(BegunState(old(store.View()), run, got.value, id, until), run, now).0
    {
      ghost var s0 := store.View();
      got := store.LeaseNextPendingTask(run, id, now, until);
      if got.None? {
        return;
      }
      var task := got.value;
      assert Candidate(s0.tasks, run, now, task);
      assert store.events == s0.events + [] == s0.events;
      var attempt := store.IncrementTaskAttempts(task);
      var marked := store.MarkTaskRunning(task);
      store.AppendEvent(Event(run, Some(task), TaskRunning(id, attempt.value)));
      assert store.View() == BegunState(s0, run, task, id, until);
      var r := Runner.RefreshRunStatus(store, run, now);
    }

    /** The final write, its event, and the refresh. */
    method Finish(run: RunId, task: TaskId, w: Writing, now: Time)
      requires RunningIn(store.tasks, run, task) && w.status in TaskMoves(TaskStatus.Running)
      modifies store
      ensures store.View() == Refresh(ConcludedState(old(store.View()), run, task, w), run, now).0
    {
      ghost var s0 := store.View();
      var r := store.UpdateTaskStatus(task, w.status, w.result, w.error);
      store.AppendEvent(Event(run, Some(task), w.kind));
      assert store.View() == ConcludedState(s0, run, task, w);
      var status := Runner.RefreshRunStatus(store, run, now);
    }

    /** How often the task was requeued for lack of memory, counted from the log as `_handle_oom` does. */
    method PriorOoms(task: TaskId) returns (prior: nat)
      ensures prior == Count(store.events, task, Oom)
    {
      prior := 0;
      assert store.events[..0] == [];
      for k := 0 to |store.events|
        invariant prior == Count(store.events[..k], task, Oom)
      {
        assert store.events[..k + 1] == store.events[..k] + [store.events[k]];
        CountAppend(store.events[..k], store.events[k], task, Oom);
        if store.events[k].taskId == Some(task) && store.events[k].kind.OomRequeued? {
          prior := prior + 1;
        }
      }
      assert store.events[..|store.events|] == store.events;
    }

    /** The branches after the handler. None when the attempt limit is needed and cannot be read. */
    method DecideNow(task: TaskId, attempt: nat, ending: Ending) returns (w: Option<Writing>)
      requires task < |store.tasks|
      ensures w == Decide(store.View(), task, id, attempt, ending, limits)
    {
      match ending {
        case Returned(result) => w := Some(Writing(Succeeded, Some(result), None, Kind.TaskSucceeded(id, attempt)));
        case Unusable(result, _) =>
          w := Some(Writing(Degenerate, Some(result), Some(ErrorNote.Rejected), TaskDegenerate(id, attempt)));
        case Overran(m, _) => w := Some(Writing(TimedOut, None, Some(Raised(m)), TaskTimedOut(id, attempt)));
        case Crashed(m, oomLike, left) =>
          if limits.maxOomRetries > 0 && oomLike {
            var prior := PriorOoms(task);
            if prior < limits.maxOomRetries {
              return Some(Writing(Pending, None, Some(Raised(m)), OomRequeued(id, attempt, prior + 1)));
            }
          }
          var limit := MaxAttempts(left, limits);
          if limit.None? {
            return None;
          }
          if attempt < limit.value {
            w := Some(Writing(Pending, None, Some(Raised(m)), RetryScheduled(id, attempt, limit.value)));
          } else {
            w := Some(Writing(TaskStatus.Failed, None, Some(Raised(m)), TaskFailed(id, attempt)));
          }
      }
    }

    /** `run_once`. The handler's end is a function of the task and its attempt number, each of which occurs once. */
    method RunOnce(run: RunId, handler: Handler) returns (r: Once)
      requires Settled(store.View(), run)
      modifies store
      ensures Settled(store.View(), run) && store.runs == old(store.runs)[run := store.runs[run]]
      ensures r == NothingLeased ==> store.View() == old(store.View()) && WithStatus(store.tasks, run, Pending) == {}
      ensures r != NothingLeased ==>
              exists t :: OneTaskDone(old(store.View()), store.View(), run, t, limits, handler, r)
                          && PassLogged(old(store.View()), store.View(), run, t, id, limits, handler)
    {
      var now: Time, until: Time := *, *;
      ghost var s0 := store.View();
      var got := Begin(run, now, until);
      if got.None? {
        NothingPending(s0.tasks, run, now);
        return NothingLeased;
      }
      BegunFacts(s0, run, got.value, id, until, now);
      r := Attempt(run, got.value, handler, s0);
    }

    /** What follows the mark: apply the seed, read the timeout, call the handler, judge what it comes to, decide and
        write. Any of these but the last may raise instead. */
    method Attempt(run: RunId, task: TaskId, handler: Handler, ghost s0: State) returns (r: Once)
      requires Between(s0, store.View(), run, task, id)
      modifies store
      ensures Settled(store.View(), run) && store.runs == s0.runs[run := store.runs[run]]
      ensures r != NothingLeased && OneTaskDone(s0, store.View(), run, task, limits, handler, r)
      ensures PassLogged(s0, store.View(), run, task, id, limits, handler)
    {
      ghost var s1 := store.View();
      BetweenIsQuiet(s0, s1, run, task, id);
      var w := AnswerNow(run, task, handler);
      if w.None? {
        StrandedPass(s0, s1, run, task, id, limits, handler);
        StrandedLogged(s0, s1, run, task, id, limits, handler);
        return RaisedOut(true);
      }
      ghost var n := store.tasks[task].attempts;
      ghost var seconds :| WritesDown(w.value, handler(task, n), id, n, Count(s1.events, task, Oom), limits, seconds);
      var later: Time := *;
      Finish(run, task, w.value, later);
      r := if w.value.status == Succeeded then OneSuccess else RaisedOut(false);
      FinishedPass(s0, s1, store.View(), run, task, id, limits, w.value, later);
      WriteDone(s0, s1, store.View(), run, task, id, limits, handler, w.value, r, seconds);
      FinishedLogged(s0, s1, store.View(), run, task, id, limits, handler, w.value, later, seconds);
    }

    /** None when the attempt gets no answer; else what is to be written. */
    method AnswerNow(run: RunId, task: TaskId, handler: Handler) returns (w: Option<Writing>)
      requires RunningIn(store.tasks, run, task)
      ensures var t := store.tasks[task]; var k := Count(store.events, task, Oom);
              && Writes(w, AttemptLeads(t.payload, limits, handler(task, t.attempts), t.attempts, k), t.attempts, k)
              && (w.None? <==> NoAnswer(t.payload, k, limits, handler(task, t.attempts)))
              && (w.Some? ==>
                    exists seconds ::
                      WritesDown(w.value, handler(task, t.attempts), id, t.attempts, k, limits, seconds))
    {
      var t := store.tasks[task];
      var seconds: real := *;
      AnswerMeaning(store.View(), task, id, t.attempts, handler(task, t.attempts), seconds, limits);
      AnswerLeads(store.View(), task, id, t.attempts, handler(task, t.attempts), seconds, limits);
      if limits.seedRefused || t.payload.timeout.Unconvertible? {
        return None;
      }
      var ending := Judge(handler(task, t.attempts), seconds, false);
      if ending.None? {
        return None;
      }
      w := DecideNow(task, t.attempts, ending.value);
    }
  }

  lemma NothingPending(tasks: seq<Task>, run: RunId, now: Time)
    requires NextLeaseable(tasks, run, now).None?
    ensures WithStatus(tasks, run, Pending) == {}
  {
    forall j: nat | j < |tasks| && tasks[j].runId == run ensures tasks[j].status != Pending {
      assert !Candidate(tasks, run, now, j);
    }
  }

  /** How the tables look while the handler of task id runs. */
  ghost predicate Between(s: State, m: State, run: RunId, id: TaskId, worker: WorkerId) {
    && PendingIn(s.tasks, run, id) && Settled(s, run)
    && RunConsistent(m, run) && Attempted(m.tasks, run) && m.runs == s.runs[run := m.runs[run]]
    && m.runs[run].status == Aggregate(m.tasks, run)
    && (exists until :: m.tasks == s.tasks[id := Begun(s.tasks[id], worker, until)])
    && (forall i :: Count(m.events, i, Oom) == Count(s.events, i, Oom))
    && s.events <= m.events
    && Others(m.events[|s.events|..]) == [Event(run, Some(id), TaskRunning(worker, s.tasks[id].attempts + 1))]
  }

  // ----- The log -----

  /** The events that are no change of a run's status. */
  function Others(events: seq<Event>): seq<Event> {
    if events == [] then []
    else
      Others(events[..|events| - 1])
      + if events[|events| - 1].kind.RunStatusChanged? then [] else [events[|events| - 1]]
  }

  lemma {:induction false} OthersConcat(a: seq<Event>, b: seq<Event>)
    ensures Others(a + b) == Others(a) + Others(b)
  {
    if b == [] {
      assert a + b == a;
    } else {
      OthersConcat(a, b[..|b| - 1]);
      assert (a + b)[..|a + b| - 1] == a + b[..|b| - 1];
    }
  }

  lemma {:induction false} ChangesAreNoOthers(changes: seq<Event>, run: RunId, from: RunStatus, to: RunStatus)
    requires LeadsTo(changes, run, from, to)
    ensures Others(changes) == []
  {
    if changes == [] {
    } else {
      ChangesAreNoOthers(changes[1..], run, changes[0].kind.to, to);
      OthersConcat([changes[0]], changes[1..]);
      assert changes == [changes[0]] + changes[1..];
      assert [changes[0]][..0] == [];
    }
  }

  lemma RefreshAddsNoOthers(s: State, run: RunId, now: Time)
    requires run in s.runs
    ensures var s' := Refresh(s, run, now).0; s.events <= s'.events && Others(s'.events[|s.events|..]) == []
  {
    var s' := Refresh(s, run, now).0;
    RefreshLogs(s, run, Aggregate(s.tasks, run), now);
    ChangesAreNoOthers(s'.events[|s.events|..], run, s.runs[run].status, s'.runs[run].status);
  }

  /** An event, then nothing but changes of a run's status. */
  lemma OneOther(events: seq<Event>, e: Event, later: seq<Event>)
    requires events + [e] <= later && !e.kind.RunStatusChanged? && Others(later[|events| + 1..]) == []
    ensures events <= later && Others(later[|events|..]) == [e]
  {
    assert later[|events|..] == [e] + later[|events| + 1..];
    OthersConcat([e], later[|events| + 1..]);
    assert [e][..0] == [];
  }

  /** What a pass logs besides changes of the run's status: that the task runs, and what became of it. */
  ghost predicate PassLogged(s: State, s': State, run: RunId, t: TaskId, worker: WorkerId, limits: Limits,
                             handler: Handler)
    requires t < |s.tasks| && t < |s'.tasks|
  {
    var n, k := s.tasks[t].attempts + 1, Count(s.events, t, Oom);
    var running := Event(run, Some(t), TaskRunning(worker, n));
    && s.events <= s'.events
    && var logged := Others(s'.events[|s.events|..]);
       if NoAnswer(s.tasks[t].payload, k, limits, handler(t, n)) then logged == [running]
       else
         && |logged| == 2 && logged[0] == running && logged[1].runId == run && logged[1].taskId == Some(t)
         && EventOf(logged[1].kind, s'.tasks[t].status == Pending, handler(t, n), worker, n, k, limits)
  }

  lemma StrandedLogged(s: State, m: State, run: RunId, id: TaskId, worker: WorkerId, limits: Limits,
                       handler: Handler)
    requires Between(s, m, run, id, worker) && id < |m.tasks|
    requires NoAnswer(s.tasks[id].payload, Count(s.events, id, Oom), limits, handler(id, s.tasks[id].attempts + 1))
    ensures PassLogged(s, m, run, id, worker, limits, handler)
  {}

  lemma LogsAppend(a: seq<Event>, b: seq<Event>, c: seq<Event>)
    requires a <= b <= c
    ensures a <= c && Others(c[|a|..]) == Others(b[|a|..]) + Others(c[|b|..])
  {
    OthersConcat(b[|a|..], c[|b|..]);
    assert c[|a|..] == b[|a|..] + c[|b|..];
  }

  lemma FinishLog(m: State, s': State, run: RunId, id: TaskId, w: Writing, now: Time)
    requires run in m.runs && id < |m.tasks| && !w.kind.RunStatusChanged?
    requires s' == Refresh(ConcludedState(m, run, id, w), run, now).0
    ensures m.events <= s'.events && Others(s'.events[|m.events|..]) == [Event(run, Some(id), w.kind)]
  {
    RefreshAddsNoOthers(ConcludedState(m, run, id, w), run, now);
    OneOther(m.events, Event(run, Some(id), w.kind), s'.events);
  }

  lemma FinishedLogged(s: State, m: State, s': State, run: RunId, id: TaskId, worker: WorkerId, limits: Limits,
                       handler: Handler, w: Writing, now: Time, seconds: real)
    requires Between(s, m, run, id, worker) && id < |m.tasks| && id < |s'.tasks|
    requires s' == Refresh(ConcludedState(m, run, id, w), run, now).0 && s'.tasks[id].status == w.status
    requires var n, k := s.tasks[id].attempts + 1, Count(s.events, id, Oom);
             && !NoAnswer(s.tasks[id].payload, k, limits, handler(id, n))
             && WritesDown(w, handler(id, n), worker, n, k, limits, seconds)
    ensures PassLogged(s, s', run, id, worker, limits, handler)
  {
    FinishLog(m, s', run, id, w, now);
    LogsAppend(s.events, m.events, s'.events);
  }

  lemma BegunCounts(s: State, run: RunId, id: TaskId, worker: WorkerId, until: Time)
    requires id < |s.tasks|
    ensures forall i :: Count(BegunState(s, run, id, worker, until).events, i, Oom) == Count(s.events, i, Oom)
  {
    var e := Event(run, Some(id), TaskRunning(worker, s.tasks[id].attempts + 1));
    forall i ensures Count(s.events + [e], i, Oom) == Count(s.events, i, Oom) { CountAppend(s.events, e, i, Oom); }
  }

  lemma BegunFacts(s: State, run: RunId, id: TaskId, worker: WorkerId, until: Time, now: Time)
    requires Settled(s, run) && PendingIn(s.tasks, run, id)
    ensures Between(s, Refresh(BegunState(s, run, id, worker, until), run, now).0, run, id, worker)
  {
    var b := BegunState(s, run, id, worker, until);
    BegunConsistent(s, run, id, worker, until);
    RefreshSettles(b, run, now);
    BegunCounts(s, run, id, worker, until);
    RefreshAddsNoOthers(b, run, now);
    var m := Refresh(b, run, now).0;
    OneOther(s.events, Event(run, Some(id), TaskRunning(worker, s.tasks[id].attempts + 1)), m.events);
    assert m.tasks == s.tasks[id := Begun(s.tasks[id], worker, until)];
  }

  /** Where the next attempt of the task leads. */
  function NextLeads(s: State, t: TaskId, limits: Limits, handler: Handler): Course
    requires t < |s.tasks|
  {
    var n := s.tasks[t].attempts + 1;
    AttemptLeads(s.tasks[t].payload, limits, handler(t, n), n, Count(s.events, t, Oom))
  }

  /** What one pass did: one pending task of the run made its next attempt and went where that leads, and nothing else
      moved. The call returned the task exactly when it succeeded. */
  ghost predicate OneTaskDone(s: State, s': State, run: RunId, t: TaskId, limits: Limits,
                              handler: Handler, r: Once) {
    && PendingIn(s.tasks, run, t) && |s'.tasks| == |s.tasks|
    && (forall i: nat :: i < |s.tasks| && i != t ==>
          s'.tasks[i] == s.tasks[i] && Count(s'.events, i, Oom) == Count(s.events, i, Oom))
    && s'.tasks[t].runId == run && s'.tasks[t].payload == s.tasks[t].payload
    && s'.tasks[t].attempts == s.tasks[t].attempts + 1
    && s'.tasks[t].key == s.tasks[t].key
    && Stands(s', t, NextLeads(s, t, limits, handler))
    && Recorded(s.tasks[t], s'.tasks[t], Count(s.events, t, Oom), limits, handler(t, s.tasks[t].attempts + 1))
    && (r == OneSuccess <==> s'.tasks[t].status == Succeeded)
    && (r == RaisedOut(true) <==> s'.tasks[t].status == TaskStatus.Running)
  }

  /** The record the attempt leaves; what was recorded before stays if it has no answer. */
  ghost predicate Recorded(t: Task, t': Task, k: nat, limits: Limits, e: HandlerEnd) {
    if NoAnswer(t.payload, k, limits, e)
    then t'.status == TaskStatus.Running && t'.result == t.result && t'.error == t.error
    else exists seconds :: RecordOf(t', e, seconds)
  }

  /** The task stands where c says: pending with as many OOM requeues, or through. */
  predicate Stands(s: State, t: TaskId, c: Course)
    requires t < |s.tasks|
  {
    if s.tasks[t].status == Pending then c == Going(Count(s.events, t, Oom))
    else
      && s.tasks[t].status in {Succeeded, TaskStatus.Running, TaskStatus.Failed, TimedOut, Degenerate}
      && c == Through(s.tasks[t].status, s.tasks[t].attempts)
  }

  lemma StrandedPass(s: State, m: State, run: RunId, id: TaskId, worker: WorkerId, limits: Limits,
                     handler: Handler)
    requires Between(s, m, run, id, worker)
    requires NextLeads(s, id, limits, handler) == Through(TaskStatus.Running, s.tasks[id].attempts + 1)
    requires NoAnswer(s.tasks[id].payload, Count(s.events, id, Oom), limits, handler(id, s.tasks[id].attempts + 1))
    ensures Settled(m, run) && OneTaskDone(s, m, run, id, limits, handler, RaisedOut(true))
  {
    var until :| m.tasks == s.tasks[id := Begun(s.tasks[id], worker, until)];
    BetweenIsQuiet(s, m, run, id, worker);
    StrandedDone(s, m, run, id, worker, until, limits, handler);
  }

  lemma StrandedDone(s: State, m: State, run: RunId, id: TaskId, worker: WorkerId, until: Time, limits: Limits,
                     handler: Handler)
    requires PendingIn(s.tasks, run, id) && m.tasks == s.tasks[id := Begun(s.tasks[id], worker, until)]
    requires forall i :: Count(m.events, i, Oom) == Count(s.events, i, Oom)
    requires NextLeads(s, id, limits, handler) == Through(TaskStatus.Running, s.tasks[id].attempts + 1)
    requires NoAnswer(s.tasks[id].payload, Count(s.events, id, Oom), limits, handler(id, s.tasks[id].attempts + 1))
    ensures OneTaskDone(s, m, run, id, limits, handler, RaisedOut(true))
  {}

  lemma FinishedPass(s: State, m: State, s': State, run: RunId, id: TaskId, worker: WorkerId, limits: Limits,
                     w: Writing, now: Time)
    requires Between(s, m, run, id, worker) && w.status in TaskMoves(TaskStatus.Running)
    requires s' == Refresh(ConcludedState(m, run, id, w), run, now).0
    ensures s'.tasks == m.tasks[id := Concluded(m.tasks[id], w)]
    ensures Settled(s', run) && s'.runs == s.runs[run := s'.runs[run]]
    ensures forall i :: Count(s'.events, i, Oom) ==
                        Count(m.events, i, Oom) + if i == id && w.kind.OomRequeued? then 1 else 0
  {
    BetweenIsQuiet(s, m, run, id, worker);
    FinishSettles(m, s', run, id, w, now);
    SameElsewhere(s.runs, m.runs, s'.runs, run);
  }

  lemma SameElsewhere(a: map<RunId, Run>, b: map<RunId, Run>, c: map<RunId, Run>, run: RunId)
    requires run in b && run in c && b == a[run := b[run]] && c == b[run := c[run]]
    ensures c == a[run := c[run]]
  {}

  lemma BetweenIsQuiet(s: State, m: State, run: RunId, id: TaskId, worker: WorkerId)
    requires Between(s, m, run, id, worker)
    ensures RunningIn(m.tasks, run, id) && Quiet(m.tasks, run)
    ensures m.tasks[id].attempts == s.tasks[id].attempts + 1 && m.tasks[id].payload == s.tasks[id].payload
    ensures Count(m.events, id, Oom) == Count(s.events, id, Oom)
  {}

  lemma WriteDone(s: State, m: State, s': State, run: RunId, id: TaskId, worker: WorkerId, limits: Limits,
                  handler: Handler, w: Writing, r: Once, seconds: real)
    requires PendingIn(s.tasks, run, id) && exists until :: m.tasks == s.tasks[id := Begun(s.tasks[id], worker, until)]
    requires forall i :: Count(m.events, i, Oom) == Count(s.events, i, Oom)
    requires s'.tasks == m.tasks[id := Concluded(m.tasks[id], w)]
    requires forall i :: Count(s'.events, i, Oom) ==
                         Count(m.events, i, Oom) + if i == id && w.kind.OomRequeued? then 1 else 0
    requires Writes(Some(w), NextLeads(s, id, limits, handler), s.tasks[id].attempts + 1, Count(s.events, id, Oom))
    requires var n, k := s.tasks[id].attempts + 1, Count(s.events, id, Oom);
             && !NoAnswer(s.tasks[id].payload, k, limits, handler(id, n))
             && WritesDown(w, handler(id, n), worker, n, k, limits, seconds)
    requires r == if w.status == Succeeded then OneSuccess else RaisedOut(false)
    ensures OneTaskDone(s, s', run, id, limits, handler, r)
  {
    var until :| m.tasks == s.tasks[id := Begun(s.tasks[id], worker, until)];
    OneTaskMoved(s, m, s', run, id, worker, until, w);
    assert Count(m.events, id, Oom) == Count(s.events, id, Oom);
    WriteRecorded(m.tasks[id], w, handler(id, s.tasks[id].attempts + 1), worker, s.tasks[id].attempts + 1,
                  Count(s.events, id, Oom), limits, seconds);
  }

  lemma WriteRecorded(t: Task, w: Writing, e: HandlerEnd, worker: WorkerId, n: nat, k: nat, limits: Limits,
                      seconds: real)
    requires WritesDown(w, e, worker, n, k, limits, seconds)
    ensures RecordOf(Concluded(t, w), e, seconds)
  {
    assert Concluded(t, w) ==
           t.(status := w.status, result := w.result, error := w.error, owner := None, until := None);
  }

  lemma FinishSettles(m: State, s': State, run: RunId, id: TaskId, w: Writing, now: Time)
    requires RunConsistent(m, run) && Attempted(m.tasks, run) && RunningIn(m.tasks, run, id) && Quiet(m.tasks, run)
    requires w.status in TaskMoves(TaskStatus.Running) && s' == Refresh(ConcludedState(m, run, id, w), run, now).0
    ensures s'.tasks == m.tasks[id := Concluded(m.tasks[id], w)]
    ensures Settled(s', run) && s'.runs == m.runs[run := s'.runs[run]]
    ensures forall i :: Count(s'.events, i, Oom) ==
                        Count(m.events, i, Oom) + if i == id && w.kind.OomRequeued? then 1 else 0
  {
    var c := ConcludedState(m, run, id, w);
    ConcludedConsistent(m, run, id, w);
    RefreshSettles(c, run, now);
    forall i ensures Count(c.events, i, Oom) == Count(m.events, i, Oom) +
                     if i == id && w.kind.OomRequeued? then 1 else 0 {
      CountAppend(m.events, Event(run, Some(id), w.kind), i, Oom);
    }
    assert Quiet(c.tasks, run);
  }

  lemma OneTaskMoved(s: State, m: State, s': State, run: RunId, id: TaskId, worker: WorkerId, until: Time, w: Writing)
    requires PendingIn(s.tasks, run, id) && m.tasks == s.tasks[id := Begun(s.tasks[id], worker, until)]
    requires s'.tasks == m.tasks[id := Concluded(m.tasks[id], w)]
    requires forall i :: Count(m.events, i, Oom) == Count(s.events, i, Oom)
    requires forall i :: Count(s'.events, i, Oom) ==
                         Count(m.events, i, Oom) + if i == id && w.kind.OomRequeued? then 1 else 0
    ensures forall i: nat :: i < |s.tasks| && i != id ==>
              s'.tasks[i] == s.tasks[i] && Count(s'.events, i, Oom) == Count(s.events, i, Oom)
    ensures m.tasks[id].(status := Pending, attempts := m.tasks[id].attempts - 1) ==
            s.tasks[id].(owner := Some(worker), until := Some(until))
    ensures s'.tasks[id] == Concluded(m.tasks[id], w) && m.tasks[id] == Begun(s.tasks[id], worker, until)
  {}
}
