/** What each store operation does to the records, one atomic transaction at a time. */
module StoreOps {
  import opened Lifecycle
  import opened Order
  import opened Records

  // ----- Which task a lease takes -----

  predicate Expired(t: Task, now: Time) {
    t.status == Leased && t.until.Some? && t.until.value < now
  }

  predicate Leaseable(t: Task, now: Time) {
    t.status == Pending || Expired(t, now)
  }

  predicate Candidate(tasks: seq<Task>, run: RunId, now: Time, i: nat) {
    i < |tasks| && tasks[i].runId == run && Leaseable(tasks[i], now)
  }

  /** Rows by task key; equal keys stay in creation order. */
  predicate KeyBefore(tasks: seq<Task>, i: nat, j: nat) {
    && i < |tasks| && j < |tasks|
    && (LexLess(tasks[i].key, tasks[j].key) || (tasks[i].key == tasks[j].key && i < j))
  }

  function RowOrder(tasks: seq<Task>): (nat, nat) -> bool {
    (i: nat, j: nat) => KeyBefore(tasks, i, j)
  }

  lemma RowOrderOrders(tasks: seq<Task>)
    ensures Orders(RowOrder(tasks), |tasks|)
  {
    forall i: nat, j: nat | i < |tasks| && j < |tasks| && i != j
      ensures KeyBefore(tasks, i, j) || KeyBefore(tasks, j, i)
    {
      LexTotal(tasks[i].key, tasks[j].key);
    }
    forall i: nat, j: nat | KeyBefore(tasks, i, j) ensures !KeyBefore(tasks, j, i) {
      KeyBeforeAsymmetric(tasks, i, j);
    }
    forall i: nat, j: nat, k: nat | KeyBefore(tasks, i, j) && KeyBefore(tasks, j, k) ensures KeyBefore(tasks, i, k) {
      KeyBeforeTransitive(tasks, i, j, k);
    }
  }

  lemma KeyBeforeAsymmetric(tasks: seq<Task>, i: nat, j: nat)
    requires KeyBefore(tasks, i, j)
    ensures !KeyBefore(tasks, j, i)
  {
    if LexLess(tasks[i].key, tasks[j].key) {
      LexAsymmetric(tasks[i].key, tasks[j].key);
    }
  }

  lemma KeyBeforeTransitive(tasks: seq<Task>, i: nat, j: nat, k: nat)
    requires KeyBefore(tasks, i, j) && KeyBefore(tasks, j, k)
    ensures KeyBefore(tasks, i, k)
  {
    if LexLess(tasks[i].key, tasks[j].key) && LexLess(tasks[j].key, tasks[k].key) {
      LexTransitive(tasks[i].key, tasks[j].key, tasks[k].key);
    }
  }

  /** i is the leaseable task of the run that comes first. */
  ghost predicate IsNext(tasks: seq<Task>, run: RunId, now: Time, i: nat) {
    && Candidate(tasks, run, now, i)
    && forall j: nat :: Candidate(tasks, run, now, j) && j != i ==> KeyBefore(tasks, i, j)
  }

  function NextAmong(tasks: seq<Task>, run: RunId, now: Time, n: nat): (r: Option<TaskId>)
    requires n <= |tasks|
    ensures r.None? <==> forall j: nat :: j < n ==> !Candidate(tasks, run, now, j)
    ensures r.Some? ==> r.value < n && Candidate(tasks, run, now, r.value)
    ensures r.Some? ==> forall j: nat :: j < n && Candidate(tasks, run, now, j) && j != r.value ==>
                                           KeyBefore(tasks, r.value, j)
  {
    if n == 0 then None
    else
      var best := NextAmong(tasks, run, now, n - 1);
      if !Candidate(tasks, run, now, n - 1) then best
      else if best.None? then Some(n - 1)
      else if LexLess(tasks[n - 1].key, tasks[best.value].key) then
        assert forall j: nat :: j < n - 1 && Candidate(tasks, run, now, j) ==> KeyBefore(tasks, n - 1, j) by {
          forall j: nat | j < n - 1 && Candidate(tasks, run, now, j) ensures KeyBefore(tasks, n - 1, j) {
            if j != best.value { KeyBeforeTransitive(tasks, n - 1, best.value, j); }
          }
        }
        Some(n - 1)
      else
        assert KeyBefore(tasks, best.value, n - 1) by { LexTotal(tasks[n - 1].key, tasks[best.value].key); }
        best
  }

  /** The task the next lease of the run takes, if any. */
  function NextLeaseable(tasks: seq<Task>, run: RunId, now: Time): (r: Option<TaskId>)
    ensures r.None? <==> forall j: nat :: !Candidate(tasks, run, now, j)
    ensures r.Some? ==> IsNext(tasks, run, now, r.value)
  {
    NextAmong(tasks, run, now, |tasks|)
  }

  lemma NextIsUnique(tasks: seq<Task>, run: RunId, now: Time, i: nat)
    ensures IsNext(tasks, run, now, i) <==> NextLeaseable(tasks, run, now) == Some(i)
  {
    var r := NextLeaseable(tasks, run, now);
    if IsNext(tasks, run, now, i) && r.Some? && r.value != i {
      KeyBeforeAsymmetric(tasks, i, r.value);
    }
  }

  // ----- The operations -----

  function Grant(t: Task, worker: WorkerId, until: Time): Task {
    t.(status := Leased, owner := Some(worker), until := Some(until))
  }

  function Release(t: Task): Task {
    t.(status := Pending, owner := None, until := None)
  }

  /** Taking over an expired lease is recorded; taking a pending task is not. */
  function LeaseNote(t: Task, id: TaskId, run: RunId, worker: WorkerId): seq<Event> {
    if t.status == Leased then [Event(run, Some(id), LeaseExpired(t.owner, Some(worker)))] else []
  }

  function TakeLease(s: State, id: TaskId, run: RunId, worker: WorkerId, until: Time): State
    requires id < |s.tasks|
  {
    s.(tasks := s.tasks[id := Grant(s.tasks[id], worker, until)],
       events := s.events + LeaseNote(s.tasks[id], id, run, worker))
  }

  function LeaseNext(s: State, run: RunId, worker: WorkerId, now: Time, until: Time): (State, Option<TaskId>) {
    var next := NextLeaseable(s.tasks, run, now);
    if next.None? then (s, None) else (TakeLease(s, next.value, run, worker, until), next)
  }

  function UpdateTaskStatus(s: State, id: TaskId, status: TaskStatus, result: Option<ResultDict>,
                            error: Option<ErrorNote>): Result<State, Fault> {
    if id >= |s.tasks| then Err(KeyError)
    else
      var t := s.tasks[id];
      if status !in TaskMoves(t.status) then Err(InvalidTaskTransition(t.status, status))
      else
        Ok(s.(tasks := s.tasks[id := t.(status := status, result := result, error := error, owner := None,
                                        until := None)]))
  }

  function MarkRunning(s: State, id: TaskId): Result<State, Fault> {
    if id >= |s.tasks| || s.tasks[id].status != Leased then Err(KeyError)
    else Ok(s.(tasks := s.tasks[id := s.tasks[id].(status := TaskStatus.Running)]))
  }

  function IncrementAttempts(s: State, id: TaskId): Result<(State, nat), Fault> {
    if id >= |s.tasks| then Err(KeyError)
    else
      var t := s.tasks[id];
      Ok((s.(tasks := s.tasks[id := t.(attempts := t.attempts + 1)]), t.attempts + 1))
  }

  function ReleaseExpired(tasks: seq<Task>, run: RunId, now: Time, n: nat): seq<Task>
    requires n <= |tasks|
  {
    seq(|tasks|, i requires 0 <= i < |tasks| =>
      if i < n && tasks[i].runId == run && Expired(tasks[i], now) then Release(tasks[i]) else tasks[i])
  }

  function ExpiryNote(t: Task, id: TaskId, run: RunId, now: Time): seq<Event> {
    if t.runId == run && Expired(t, now) then [Event(run, Some(id), LeaseExpired(t.owner, None))] else []
  }

  function ExpiryEvents(tasks: seq<Task>, run: RunId, now: Time, n: nat): seq<Event>
    requires n <= |tasks|
  {
    if n == 0 then [] else ExpiryEvents(tasks, run, now, n - 1) + ExpiryNote(tasks[n - 1], n - 1, run, now)
  }

  /** Every expired lease of the run goes back to pending, each with its own audit event. */
  function RequeueExpired(s: State, run: RunId, now: Time): (State, nat) {
    var notes := ExpiryEvents(s.tasks, run, now, |s.tasks|);
    (s.(tasks := ReleaseExpired(s.tasks, run, now, |s.tasks|), events := s.events + notes), |notes|)
  }

  predicate HeldBy(tasks: seq<Task>, run: RunId, worker: WorkerId, i: nat) {
    && i < |tasks| && tasks[i].runId == run && tasks[i].owner == Some(worker)
    && tasks[i].status in {Leased, TaskStatus.Running}
  }

  function FirstHeld(tasks: seq<Task>, run: RunId, worker: WorkerId, from: nat): (r: Option<TaskId>)
    requires from <= |tasks|
    ensures r.None? <==> forall i: nat :: from <= i ==> !HeldBy(tasks, run, worker, i)
    ensures r.Some? ==> from <= r.value && HeldBy(tasks, run, worker, r.value)
    ensures r.Some? ==> forall i: nat :: from <= i < r.value ==> !HeldBy(tasks, run, worker, i)
    decreases |tasks| - from
  {
    if from == |tasks| then None
    else if HeldBy(tasks, run, worker, from) then Some(from)
    else FirstHeld(tasks, run, worker, from + 1)
  }

  datatype Tag = Expiry | Reclaiming | Abandonment | Oom

  predicate Tagged(kind: Kind, tag: Tag) {
    match tag
    case Expiry => kind.LeaseExpired?
    case Reclaiming => kind.LeaseReclaimed?
    case Abandonment => kind.TaskAbandoned?
    case Oom => kind.OomRequeued?
  }

  /** How many events of this kind the log holds for the task. */
  function Count(events: seq<Event>, id: TaskId, tag: Tag): nat {
    if events == [] then 0
    else
      var last := events[|events| - 1];
      Count(events[..|events| - 1], id, tag) + if last.taskId == Some(id) && Tagged(last.kind, tag) then 1 else 0
  }

  /** Recover task id from a dead worker: give it up once its budget of reclaims is spent, else put it back. */
  function ReclaimTask(s: State, run: RunId, worker: WorkerId, maxReclaims: int, id: TaskId): (State, Reclaim)
    requires id < |s.tasks|
  {
    var prior := Count(s.events, id, Reclaiming);
    if prior >= maxReclaims then
      var t := s.tasks[id].(status := TaskStatus.Failed, owner := None, until := None,
                            error := Some(DiedUnreported(worker, prior)));
      (s.(tasks := s.tasks[id := t], events := s.events + [Event(run, Some(id), TaskAbandoned(worker, prior))]),
       Abandoned)
    else
      (s.(tasks := s.tasks[id := Release(s.tasks[id])],
          events := s.events + [Event(run, Some(id), LeaseReclaimed(worker, prior))]), Requeued)
  }

  function ReclaimDeadWorker(s: State, run: RunId, worker: WorkerId, maxReclaims: int): (State, Reclaim) {
    var held := FirstHeld(s.tasks, run, worker, 0);
    if held.None? then (s, NoTask) else ReclaimTask(s, run, worker, maxReclaims, held.value)
  }

  function AppendEvent(s: State, e: Event): State {
    s.(events := s.events + [e])
  }

  function UpdateRunStatus(s: State, run: RunId, status: RunStatus): Result<State, Fault> {
    if run !in s.runs then Err(KeyError) else Ok(s.(runs := s.runs[run := s.runs[run].(status := status)]))
  }

  function UpdateRunFinishedAt(s: State, run: RunId, at: Time): Result<State, Fault> {
    if run !in s.runs then Err(KeyError) else Ok(s.(runs := s.runs[run := s.runs[run].(finishedAt := Some(at))]))
  }

  // ----- Facts about the operations -----

  lemma CountAppend(events: seq<Event>, e: Event, id: TaskId, tag: Tag)
    ensures Count(events + [e], id, tag) ==
            Count(events, id, tag) + if e.taskId == Some(id) && Tagged(e.kind, tag) then 1 else 0
  {}

  lemma {:induction false} CountConcat(events: seq<Event>, more: seq<Event>, id: TaskId, tag: Tag)
    ensures Count(events + more, id, tag) == Count(events, id, tag) + Count(more, id, tag)
  {
    if more == [] {
      assert events + more == events;
    } else {
      var init := more[..|more| - 1];
      CountConcat(events, init, id, tag);
      CountAppend(events + init, more[|more| - 1], id, tag);
      assert events + more == (events + init) + [more[|more| - 1]];
    }
  }

  lemma ExpiryNoteCount(t: Task, task: TaskId, run: RunId, now: Time, id: TaskId, tag: Tag)
    ensures Count(ExpiryNote(t, task, run, now), id, tag) ==
            if tag == Expiry && id == task && t.runId == run && Expired(t, now) then 1 else 0
  {}

  lemma ExpiryEventsGrow(tasks: seq<Task>, run: RunId, now: Time, n: nat, id: TaskId, tag: Tag)
    requires n < |tasks|
    ensures Count(ExpiryEvents(tasks, run, now, n + 1), id, tag) == Count(ExpiryEvents(tasks, run, now, n), id, tag) +
            if tag == Expiry && id == n && tasks[n].runId == run && Expired(tasks[n], now) then 1 else 0
  {
    var init, note := ExpiryEvents(tasks, run, now, n), ExpiryNote(tasks[n], n, run, now);
    assert ExpiryEvents(tasks, run, now, n + 1) == init + note;
    CountConcat(init, note, id, tag);
    ExpiryNoteCount(tasks[n], n, run, now, id, tag);
  }

  /** A bulk requeue writes exactly one expiry event for each task whose lease ran out, and nothing else. */
  lemma {:induction false} ExpiryEventsCount(tasks: seq<Task>, run: RunId, now: Time, n: nat, id: TaskId, tag: Tag)
    requires n <= |tasks|
    ensures Count(ExpiryEvents(tasks, run, now, n), id, tag) ==
            if tag == Expiry && id < n && tasks[id].runId == run && Expired(tasks[id], now) then 1 else 0
  {
    if n == 0 {
      assert ExpiryEvents(tasks, run, now, n) == [];
    } else {
      var m := n - 1;
      ExpiryEventsCount(tasks, run, now, m, id, tag);
      ExpiryEventsGrow(tasks, run, now, m, id, tag);
      assert id < n <==> id < m || id == m;
    }
  }

  ghost predicate Distinct<T>(xs: seq<T>) {
    forall a, b :: 0 <= a < b < |xs| ==> xs[a] != xs[b]
  }

  /** e is the audit event of one of the first n tasks' expired leases. */
  predicate NotesExpiry(tasks: seq<Task>, run: RunId, now: Time, n: nat, e: Event)
    requires n <= |tasks|
  {
    e.taskId.Some? && e.taskId.value < n && e in ExpiryNote(tasks[e.taskId.value], e.taskId.value, run, now)
  }

  /** The bulk requeue's events: one for each of the run's expired leases, naming its owner, and no other. */
  lemma {:induction false} ExpiryEventsListing(tasks: seq<Task>, run: RunId, now: Time, n: nat)
    requires n <= |tasks|
    ensures forall e :: e in ExpiryEvents(tasks, run, now, n) <==> NotesExpiry(tasks, run, now, n, e)
    ensures Distinct(ExpiryEvents(tasks, run, now, n))
  {
    if n == 0 {
    } else {
      ExpiryEventsListing(tasks, run, now, n - 1);
      var init, note := ExpiryEvents(tasks, run, now, n - 1), ExpiryNote(tasks[n - 1], n - 1, run, now);
      var es := ExpiryEvents(tasks, run, now, n);
      forall e ensures e in es <==> NotesExpiry(tasks, run, now, n, e) {
        assert e in es <==> e in init || e in note;
      }
      forall a, b | 0 <= a < b < |es| ensures es[a] != es[b] {
        assert es[a] == init[a] && init[a] in init;
        if b < |init| {
          assert es[b] == init[b];
        } else {
          assert es[b] == note[0];
        }
      }
    }
  }

  lemma LeaseNoteCount(events: seq<Event>, t: Task, task: TaskId, run: RunId, worker: WorkerId, id: TaskId, tag: Tag)
    ensures Count(events + LeaseNote(t, task, run, worker), id, tag) ==
            Count(events, id, tag) + if t.status == Leased && id == task && tag == Expiry then 1 else 0
  {
    CountConcat(events, LeaseNote(t, task, run, worker), id, tag);
    CountNote(LeaseNote(t, task, run, worker), id, tag);
  }

  lemma CountNote(note: seq<Event>, id: TaskId, tag: Tag)
    requires |note| <= 1
    ensures Count(note, id, tag) ==
            if |note| == 1 && note[0].taskId == Some(id) && Tagged(note[0].kind, tag) then 1 else 0
  {}

  lemma RequeueCounts(s: State, run: RunId, now: Time, id: TaskId)
    ensures forall tag :: Count(RequeueExpired(s, run, now).0.events, id, tag) ==
              Count(s.events, id, tag) +
              if tag == Expiry && id < |s.tasks| && s.tasks[id].runId == run && Expired(s.tasks[id], now) then 1 else 0
  {
    var notes := ExpiryEvents(s.tasks, run, now, |s.tasks|);
    forall tag ensures Count(s.events + notes, id, tag) == Count(s.events, id, tag) + Count(notes, id, tag) {
      CountConcat(s.events, notes, id, tag);
    }
    forall tag { ExpiryEventsCount(s.tasks, run, now, |s.tasks|, id, tag); }
  }

  /** The task belongs to the worker until then, and nothing else is changed. */
  predicate LeaseRecord(t: Task, t': Task, worker: WorkerId, until: Time) {
    && t'.status.Leased? && t'.owner == Some(worker) && t'.until == Some(until)
    && t'.runId == t.runId && t'.key == t.key && t'.payload == t.payload && t'.attempts == t.attempts
    && t'.result == t.result && t'.error == t.error
  }

  /** Taking over a lease that ran out is recorded with the owner it is taken from and the one who takes it; taking a
      pending task is not recorded. */
  predicate LeaseEvents(t: Task, id: TaskId, run: RunId, worker: WorkerId, before: seq<Event>, after: seq<Event>) {
    if t.status.Pending? then after == before
    else
      && |after| == |before| + 1 && before <= after
      && var e := after[|before|];
         && e.runId == run && e.taskId == Some(id) && e.kind.LeaseExpired?
         && e.kind.previousOwner == t.owner && e.kind.reclaimedBy == Some(worker)
  }

  /** The task is free again, or failed for want of another recovery; its owner is gone, and its attempts stay. */
  predicate RecoveryRecord(t: Task, t': Task, worker: WorkerId, prior: nat, givenUp: bool) {
    && t'.owner.None? && t'.until.None? && t'.runId == t.runId && t'.key == t.key && t'.payload == t.payload
    && t'.attempts == t.attempts && t'.result == t.result
    && if givenUp then t'.status.Failed? && t'.error == Some(DiedUnreported(worker, prior))
       else t'.status.Pending? && t'.error == t.error
  }

  /** Recovering a dead worker reports NoTask exactly when it holds none; else it frees the first task it holds, or,
      once that task has been recovered maxReclaims times, gives it up, and reports and records which. */
  lemma RecoveryMeaning(s: State, run: RunId, worker: WorkerId, maxReclaims: int)
    ensures var (s', what) := ReclaimDeadWorker(s, run, worker, maxReclaims);
            var held := FirstHeld(s.tasks, run, worker, 0);
            && s'.runs == s.runs && |s'.tasks| == |s.tasks|
            && (what.NoTask? <==> forall i: nat :: i < |s.tasks| && s.tasks[i].runId == run
                                                   && s.tasks[i].owner == Some(worker) ==>
                                                     !s.tasks[i].status.Leased? && !s.tasks[i].status.Running?)
            && (what.NoTask? ==> s' == s)
            && (!what.NoTask? ==>
                  && held.Some?
                  && var id := held.value; var prior := Count(s.events, id, Reclaiming);
                     && (what.Abandoned? <==> prior >= maxReclaims) && (what.Requeued? <==> prior < maxReclaims)
                     && RecoveryRecord(s.tasks[id], s'.tasks[id], worker, prior, what.Abandoned?)
                     && (forall j: nat :: j < |s.tasks| && j != id ==> s'.tasks[j] == s.tasks[j])
                     && |s'.events| == |s.events| + 1 && s.events <= s'.events
                     && var e := s'.events[|s.events|];
                        && e.runId == run && e.taskId == Some(id)
                        && if what.Abandoned?
                           then e.kind.TaskAbandoned? && e.kind.deadWorker == worker && e.kind.prior == prior
                           else e.kind.LeaseReclaimed? && e.kind.deadWorker == worker && e.kind.prior == prior)
  {
    forall i: nat ensures HeldBy(s.tasks, run, worker, i) <==>
                          && i < |s.tasks| && s.tasks[i].runId == run && s.tasks[i].owner == Some(worker)
                          && (s.tasks[i].status.Leased? || s.tasks[i].status.Running?) {}
  }

  /** A checked write is refused with a key error for a task that is not there, and with the two statuses for a move the
      table does not allow. */
  lemma UpdateMeaning(s: State, id: TaskId, status: TaskStatus, result: Option<ResultDict>, error: Option<ErrorNote>)
    ensures var r := UpdateTaskStatus(s, id, status, result, error);
            && (r == Err(KeyError) <==> id >= |s.tasks|)
            && (id < |s.tasks| ==>
                  && (r.Ok? <==> status in TaskMoves(s.tasks[id].status))
                  && (r.Err? ==> r.error.InvalidTaskTransition? && r.error.taskFrom == s.tasks[id].status
                                 && r.error.taskTo == status))
            && (r.Ok? ==>
                  && r.value.runs == s.runs && r.value.events == s.events && |r.value.tasks| == |s.tasks|
                  && (forall j: nat :: j < |s.tasks| && j != id ==> r.value.tasks[j] == s.tasks[j])
                  && var t, t' := s.tasks[id], r.value.tasks[id];
                     && t'.status == status && t'.result == result && t'.error == error
                     && t'.owner.None? && t'.until.None?
                     && t'.runId == t.runId && t'.key == t.key && t'.payload == t.payload && t'.attempts == t.attempts)
  {}

  /** A lease takes the first leaseable task and leaves every other record alone; it takes none exactly when the
      worker's count of leaseable tasks is zero. */
  lemma LeaseTakesTheFirst(s: State, run: RunId, worker: WorkerId, now: Time, until: Time)
    ensures var (s', got) := LeaseNext(s, run, worker, now, until);
            && s'.runs == s.runs && |s'.tasks| == |s.tasks|
            && (got.None? <==> CountLeaseable(s.tasks, run, now, |s.tasks|) == 0)
            && (got.None? ==> s' == s)
            && (got.Some? ==> IsNext(s.tasks, run, now, got.value)
                              && LeaseRecord(s.tasks[got.value], s'.tasks[got.value], worker, until)
                              && forall j: nat :: j < |s.tasks| && j != got.value ==> s'.tasks[j] == s.tasks[j])
            && (got.Some? ==> LeaseEvents(s.tasks[got.value], got.value, run, worker, s.events, s'.events))
  {
    CountLeaseableZero(s.tasks, run, now, |s.tasks|);
    var next := NextLeaseable(s.tasks, run, now);
    assert next.None? <==> forall j: nat :: j < |s.tasks| ==> !Candidate(s.tasks, run, now, j);
  }

  /** `_count_leaseable`. */
  function CountLeaseable(tasks: seq<Task>, run: RunId, now: Time, n: nat): nat
    requires n <= |tasks|
  {
    if n == 0 then 0
    else CountLeaseable(tasks, run, now, n - 1) + if Candidate(tasks, run, now, n - 1) then 1 else 0
  }

  lemma {:induction false} CountLeaseableZero(tasks: seq<Task>, run: RunId, now: Time, n: nat)
    requires n <= |tasks|
    ensures CountLeaseable(tasks, run, now, n) == 0 <==> forall j: nat :: j < n ==> !Candidate(tasks, run, now, j)
  {
    if n == 0 {
    } else {
      CountLeaseableZero(tasks, run, now, n - 1);
    }
  }
}
