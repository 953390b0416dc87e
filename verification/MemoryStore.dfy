/** The in-memory store: three mutable tables, updated in place. Every method is one critical section, and is proved
    against the operation of the same name on values. */
module MemoryStore {
  import opened Lifecycle
  import opened Order
  import opened Records
  import opened StoreOps

  class Store {
    var runs: map<RunId, Run>
    var tasks: seq<Task>
    var events: seq<Event>

    ghost function View(): State
      reads this
    {
      State(runs, tasks, events)
    }

    constructor ()
      ensures View() == State(map[], [], [])
    {
      runs, tasks, events := map[], [], [];
    }

    method CreateRun(run: RunId, record: Run) returns (ok: bool)
      modifies this
      ensures ok <==> run !in old(runs)
      ensures View() == if ok then old(View()).(runs := old(runs)[run := record]) else old(View())
    {
      ok := run !in runs;
      if ok {
        runs := runs[run := record];
      }
    }

    method CreateTask(task: Task) returns (id: TaskId)
      modifies this
      ensures id == old(|tasks|) && View() == old(View()).(tasks := old(tasks) + [task])
    {
      id := |tasks|;
      tasks := tasks + [task];
    }

    method UpdateRunStatus(run: RunId, status: RunStatus) returns (r: Result<(), Fault>)
      modifies this
      ensures r.Ok? <==> StoreOps.UpdateRunStatus(old(View()), run, status) == Ok(View())
      ensures r.Err? ==> View() == old(View()) && StoreOps.UpdateRunStatus(View(), run, status) == Err(r.error)
    {
      if run !in runs {
        return Err(KeyError);
      }
      runs := runs[run := runs[run].(status := status)];
      r := Ok(());
    }

    method UpdateRunFinishedAt(run: RunId, at: Time) returns (r: Result<(), Fault>)
      modifies this
      ensures r.Ok? <==> StoreOps.UpdateRunFinishedAt(old(View()), run, at) == Ok(View())
      ensures r.Err? ==> View() == old(View()) && StoreOps.UpdateRunFinishedAt(View(), run, at) == Err(r.error)
    {
      if run !in runs {
        return Err(KeyError);
      }
      runs := runs[run := runs[run].(finishedAt := Some(at))];
      r := Ok(());
    }

    method GetRun(run: RunId) returns (r: Option<Run>)
      ensures r == if run in runs then Some(runs[run]) else None
    {
      r := if run in runs then Some(runs[run]) else None;
    }

    method UpdateTaskStatus(id: TaskId, status: TaskStatus, result: Option<ResultDict>, error: Option<ErrorNote>)
      returns (r: Result<(), Fault>)
      modifies this
      ensures r.Ok? ==> StoreOps.UpdateTaskStatus(old(View()), id, status, result, error) == Ok(View())
      ensures r.Err? ==> View() == old(View()) &&
                         StoreOps.UpdateTaskStatus(View(), id, status, result, error) == Err(r.error)
    {
      if id >= |tasks| {
        return Err(KeyError);
      }
      var task := tasks[id];
      if status !in TaskMoves(task.status) {
        return Err(InvalidTaskTransition(task.status, status));
      }
      tasks := tasks[id := task.(status := status, result := result, error := error, owner := None, until := None)];
      r := Ok(());
    }

    /** The ids of the run's tasks in the order `list_tasks` returns them: by key, ties in creation order. */
    method ListTasks(run: RunId) returns (ids: seq<TaskId>)
      ensures Lists(ids, RowsOf(tasks, run, |tasks|), RowOrder(tasks))
    {
      ids := [];
      RowOrderOrders(tasks);
      for i := 0 to |tasks|
        invariant Lists(ids, RowsOf(tasks, run, i), RowOrder(tasks))
      {
        if tasks[i].runId == run {
          InsertRowLists(ids, RowsOf(tasks, run, i), i, RowOrder(tasks), |tasks|);
          ids := InsertRow(ids, i, RowOrder(tasks));
          assert RowsOf(tasks, run, i + 1) == RowsOf(tasks, run, i) + {i};
        } else {
          assert RowsOf(tasks, run, i + 1) == RowsOf(tasks, run, i);
        }
      }
    }

    method LeaseNextPendingTask(run: RunId, worker: WorkerId, now: Time, until: Time) returns (got: Option<TaskId>)
      modifies this
      ensures (View(), got) == LeaseNext(old(View()), run, worker, now, until)
    {
      var ids := ListTasks(run);
      for k := 0 to |ids|
        invariant View() == old(View())
        invariant forall j :: 0 <= j < k ==> !Candidate(tasks, run, now, ids[j])
      {
        var id := ids[k];
        assert id in ids;
        var task := tasks[id];
        var reclaimedExpired := task.status == Leased && task.until.Some? && task.until.value < now;
        if task.status == Pending || reclaimedExpired {
          ListedFirstIsNext(tasks, run, now, ids, k);
          NextIsUnique(tasks, run, now, id);
          tasks := tasks[id := task.(status := Leased, owner := Some(worker), until := Some(until))];
          if reclaimedExpired {
            events := events + [Event(run, Some(id), LeaseExpired(task.owner, Some(worker)))];
          } else {
            assert events + [] == events;
          }
          return Some(id);
        }
      }
      assert forall id :: id in ids ==> !Candidate(tasks, run, now, id);
      got := None;
    }

    method MarkTaskRunning(id: TaskId) returns (r: Result<(), Fault>)
      modifies this
      ensures r.Ok? ==> MarkRunning(old(View()), id) == Ok(View())
      ensures r.Err? ==> View() == old(View()) && MarkRunning(View(), id) == Err(r.error)
    {
      if id >= |tasks| || tasks[id].status != Leased {
        return Err(KeyError);
      }
      tasks := tasks[id := tasks[id].(status := TaskStatus.Running)];
      r := Ok(());
    }

    method IncrementTaskAttempts(id: TaskId) returns (r: Result<nat, Fault>)
      modifies this
      ensures r.Ok? ==> IncrementAttempts(old(View()), id) == Ok((View(), r.value))
      ensures r.Err? ==> View() == old(View()) && IncrementAttempts(View(), id) == Err(r.error)
    {
      if id >= |tasks| {
        return Err(KeyError);
      }
      var updated := tasks[id].(attempts := tasks[id].attempts + 1);
      tasks := tasks[id := updated];
      r := Ok(updated.attempts);
    }

    method RequeueExpiredLeases(run: RunId, now: Time) returns (count: nat)
      modifies this
      ensures (View(), count) == RequeueExpired(old(View()), run, now)
    {
      count := 0;
      ghost var was := tasks;
      assert events == events + ExpiryEvents(was, run, now, 0);
      for i := 0 to |tasks|
        invariant |tasks| == |was| && runs == old(runs)
        invariant tasks == ReleaseExpired(was, run, now, i)
        invariant events == old(events) + ExpiryEvents(was, run, now, i)
        invariant count == |ExpiryEvents(was, run, now, i)|
      {
        var task := tasks[i];
        var note := ExpiryNote(was[i], i, run, now);
        if task.runId == run && task.status == Leased && task.until.Some? && task.until.value < now {
          tasks := tasks[i := task.(status := Pending, owner := None, until := None)];
          events := events + [Event(run, Some(i), LeaseExpired(task.owner, None))];
          count := count + 1;
        }
        assert events == old(events) + (ExpiryEvents(was, run, now, i) + note);
      }
    }

    method ReclaimDeadWorker(run: RunId, worker: WorkerId, maxReclaims: int) returns (outcome: Reclaim)
      modifies this
      ensures (View(), outcome) == StoreOps.ReclaimDeadWorker(old(View()), run, worker, maxReclaims)
    {
      var held: Option<TaskId> := None;
      var i := 0;
      while i < |tasks| && held.None?
        invariant 0 <= i <= |tasks|
        invariant held.None? ==> FirstHeld(tasks, run, worker, 0) == FirstHeld(tasks, run, worker, i)
        invariant held.Some? ==> FirstHeld(tasks, run, worker, 0) == held
        decreases |tasks| - i, held.None?
      {
        if HeldBy(tasks, run, worker, i) {
          held := Some(i);
        } else {
          i := i + 1;
        }
      }
      if held.None? {
        return NoTask;
      }
      var id := held.value;
      var prior := 0;
      assert events[..0] == [];
      for k := 0 to |events|
        invariant View() == old(View())
        invariant prior == Count(events[..k], id, Reclaiming)
      {
        assert events[..k + 1] == events[..k] + [events[k]];
        CountAppend(events[..k], events[k], id, Reclaiming);
        if events[k].taskId == Some(id) && events[k].kind.LeaseReclaimed? {
          prior := prior + 1;
        }
      }
      assert events[..|events|] == events;
      if prior >= maxReclaims {
        tasks := tasks[id := tasks[id].(status := TaskStatus.Failed, owner := None, until := None,
                                        error := Some(DiedUnreported(worker, prior)))];
        events := events + [Event(run, held, TaskAbandoned(worker, prior))];
        outcome := Abandoned;
      } else {
        tasks := tasks[id := tasks[id].(status := Pending, owner := None, until := None)];
        events := events + [Event(run, held, LeaseReclaimed(worker, prior))];
        outcome := Requeued;
      }
    }

    method AppendEvent(e: Event)
      modifies this
      ensures View() == StoreOps.AppendEvent(old(View()), e)
    {
      events := events + [e];
    }
  }

  ghost function RowsOf(tasks: seq<Task>, run: RunId, n: nat): set<nat>
    requires n <= |tasks|
  {
    set i: nat | i < n && tasks[i].runId == run
  }

  /** The first leaseable row of the sorted listing is the one the specification names. */
  lemma ListedFirstIsNext(tasks: seq<Task>, run: RunId, now: Time, ids: seq<TaskId>, k: nat)
    requires Lists(ids, RowsOf(tasks, run, |tasks|), RowOrder(tasks))
    requires k < |ids| && Candidate(tasks, run, now, ids[k])
    requires forall j :: 0 <= j < k ==> !Candidate(tasks, run, now, ids[j])
    ensures IsNext(tasks, run, now, ids[k])
  {
    forall j: nat | Candidate(tasks, run, now, j) && j != ids[k] ensures KeyBefore(tasks, ids[k], j) {
      assert j in ids;
      var p :| 0 <= p < |ids| && ids[p] == j;
      assert RowOrder(tasks)(ids[k], ids[p]);
    }
  }
}
