/** The runner: creates a run with its tasks, and refreshes the run's status from them. */
module Runner {
  import opened Lifecycle
  import opened Order
  import opened Records
  import opened StoreOps
  import opened MemoryStore
  import opened RunStatusFold
  import opened Numerals

  function FreshTask(run: RunId, key: string, payload: Payload): Task {
    Task(run, key, payload, Pending, None, None, None, None, 0)
  }

  /** The run stands as `create_run` leaves it: VALIDATED, its tasks pending and never attempted. */
  ghost predicate Fresh(s: State, run: RunId) {
    && run in s.runs && s.runs[run] == Run(Validated, None)
    && forall i :: 0 <= i < |s.tasks| && s.tasks[i].runId == run ==>
                     s.tasks[i] == FreshTask(run, s.tasks[i].key, s.tasks[i].payload)
  }

  lemma FreshIsConsistent(s: State, run: RunId)
    requires Fresh(s, run)
    ensures RunConsistent(s, run) && !Attempted(s.tasks, run) && Aggregate(s.tasks, run) == Validated
    ensures forall t :: t in s.tasks && t.runId == run ==>
              && t.status == Pending && t.attempts == 0 && t.owner.None? && t.until.None? && t.result.None?
              && t.error.None?
  {
    assert Statuses(s.tasks, run) <= {Pending};
    FoldMeaning(Statuses(s.tasks, run), false);
    FoldCases(s.tasks, run);
    if Statuses(s.tasks, run) != {} {
      assert Pending in Statuses(s.tasks, run);
    }
  }

  /** n in decimal. */
  function Decimal(n: nat): string {
    (if n < 10 then "" else Decimal(n / 10)) + ["0123456789"[n % 10]]
  }

  /** The key a payload names, else one made of its position. */
  function KeyOf(spec: (Option<string>, Payload), index: nat): string {
    if spec.0.Some? then spec.0.value else "task-" + Decimal(index)
  }

  lemma DigitAt(d: nat)
    requires d < 10
    ensures '0' <= "0123456789"[d] <= '9' && "0123456789"[d] as nat == '0' as nat + d
  {}

  /** The digits denote the position, without leading zeros. */
  lemma {:induction false} DecimalReads(n: nat)
    ensures AllDigits(Decimal(n)) && NumberOf(Decimal(n)) == n && |Decimal(n)| > 0
    ensures n > 0 ==> Decimal(n)[0] != '0'
    ensures |Decimal(n)| > 1 ==> Decimal(n)[0] != '0'
  {
    var last := "0123456789"[n % 10];
    DigitAt(n % 10);
    if n < 10 {
      OneMoreDigit("", last);
      assert Decimal(n) == [last] == "" + [last];
    } else {
      DecimalReads(n / 10);
      OneMoreDigit(Decimal(n / 10), last);
      assert Decimal(n) == Decimal(n / 10) + [last];
    }
  }

  /** A task whose payload names no key is called task-<position>, and no two positions give one key. */
  lemma DefaultKeys(spec: (Option<string>, Payload), other: (Option<string>, Payload), i: nat, j: nat)
    ensures spec.0.Some? ==> KeyOf(spec, i) == spec.0.value
    ensures spec.0.None? ==>
              var key := KeyOf(spec, i);
              |key| > 5 && key[..5] == "task-" && AllDigits(key[5..]) && NumberOf(key[5..]) == i
              && (key[5] == '0' ==> |key| == 6)
    ensures spec.0.None? && other.0.None? && i != j ==> KeyOf(spec, i) != KeyOf(other, j)
  {
    DecimalReads(i);
    DecimalReads(j);
    assert ("task-" + Decimal(i))[..5] == "task-" && ("task-" + Decimal(i))[5..] == Decimal(i);
    assert ("task-" + Decimal(j))[5..] == Decimal(j);
  }

  /** The audit events of n tasks created from this id on. */
  function TaskNotes(run: RunId, first: TaskId, n: nat): seq<Event> {
    seq(n, k requires 0 <= k < n => Event(run, Some(first + k), TaskCreated))
  }

  /** `create_run`. configValid is what `validate_run_config` finds; the run id is a new uuid. */
  method CreateRun(store: Store, run: RunId, configValid: bool, specs: seq<(Option<string>, Payload)>)
    returns (ok: bool)
    requires run !in store.runs && forall t :: t in store.tasks ==> t.runId != run
    modifies store
    ensures ok == configValid && (!ok ==> store.View() == old(store.View()))
    ensures ok ==> Fresh(store.View(), run) && store.runs == old(store.runs)[run := Run(Validated, None)]
    ensures ok ==> |store.tasks| == old(|store.tasks|) + |specs|
                   && store.tasks[..old(|store.tasks|)] == old(store.tasks)
    ensures ok ==> forall k :: 0 <= k < |specs| ==>
                     store.tasks[old(|store.tasks|) + k] == FreshTask(run, KeyOf(specs[k], k), specs[k].1)
    ensures ok ==> store.events ==
                   old(store.events) + [Event(run, None, RunCreated), Event(run, None, RunValidated)]
                   + TaskNotes(run, old(|store.tasks|), |specs|)
  {
    ok := configValid;
    if ok {
      OpenRun(store, run);
      CreateTasks(store, run, specs);
      NewTasksAreFresh(old(store.tasks), store.tasks, run, specs);
    }
  }

  /** The run's tasks are the new ones, when nothing was recorded for it before. */
  lemma NewTasksAreFresh(before: seq<Task>, after: seq<Task>, run: RunId, specs: seq<(Option<string>, Payload)>)
    requires forall t :: t in before ==> t.runId != run
    requires |after| == |before| + |specs| && after[..|before|] == before
    requires forall k :: 0 <= k < |specs| ==> after[|before| + k] == FreshTask(run, KeyOf(specs[k], k), specs[k].1)
    ensures forall i :: 0 <= i < |after| && after[i].runId == run ==>
                          after[i] == FreshTask(run, after[i].key, after[i].payload)
  {
    forall i | 0 <= i < |before| ensures after[i].runId != run {
      assert after[i] == after[..|before|][i] && before[i] in before;
    }
    forall i | |before| <= i < |after| ensures after[i] == FreshTask(run, after[i].key, after[i].payload) {
      var k := i - |before|;
      assert after[|before| + k] == FreshTask(run, KeyOf(specs[k], k), specs[k].1);
    }
  }

  /** The run's record, moved on to VALIDATED. */
  method OpenRun(store: Store, run: RunId)
    requires run !in store.runs
    modifies store
    ensures store.runs == old(store.runs)[run := Run(Validated, None)] && store.tasks == old(store.tasks)
    ensures store.events == old(store.events) + [Event(run, None, RunCreated), Event(run, None, RunValidated)]
  {
    var ok := store.CreateRun(run, Run(Created, None));
    store.AppendEvent(Event(run, None, RunCreated));
    var r := store.UpdateRunStatus(run, Validated);
    store.AppendEvent(Event(run, None, RunValidated));
  }

  /** The run's tasks, one for each payload. */
  method CreateTasks(store: Store, run: RunId, specs: seq<(Option<string>, Payload)>)
    modifies store
    ensures store.runs == old(store.runs)
    ensures |store.tasks| == old(|store.tasks|) + |specs| && store.tasks[..old(|store.tasks|)] == old(store.tasks)
    ensures forall k :: 0 <= k < |specs| ==>
                          store.tasks[old(|store.tasks|) + k] == FreshTask(run, KeyOf(specs[k], k), specs[k].1)
    ensures store.events == old(store.events) + TaskNotes(run, old(|store.tasks|), |specs|)
  {
    ghost var n := |store.tasks|;
    for index := 0 to |specs|
      invariant store.runs == old(store.runs) && store.events == old(store.events) + TaskNotes(run, n, index)
      invariant |store.tasks| == n + index && n == old(|store.tasks|) && store.tasks[..n] == old(store.tasks)
      invariant forall k :: 0 <= k < index ==> store.tasks[n + k] == FreshTask(run, KeyOf(specs[k], k), specs[k].1)
    {
      var id := store.CreateTask(FreshTask(run, KeyOf(specs[index], index), specs[index].1));
      store.AppendEvent(Event(run, Some(id), TaskCreated));
      assert TaskNotes(run, n, index + 1) == TaskNotes(run, n, index) + [Event(run, Some(id), TaskCreated)];
    }
  }

  /** The reading half of `refresh_run_status`: collect the statuses of the listed tasks and fold them. */
  method ReadTarget(store: Store, run: RunId) returns (target: RunStatus)
    ensures target == Aggregate(store.tasks, run)
  {
    var ids := store.ListTasks(run);
    var statuses: set<TaskStatus>, attempted := {}, false;
    assert forall j :: 0 <= j < |ids| ==> ids[j] in ids;
    for k := 0 to |ids|
      invariant forall j :: 0 <= j < |ids| ==> ids[j] < |store.tasks|
      invariant statuses == set j | 0 <= j < k :: store.tasks[ids[j]].status
      invariant attempted <==> exists j :: 0 <= j < k && store.tasks[ids[j]].attempts > 0
    {
      statuses := statuses + {store.tasks[ids[k]].status};
      attempted := attempted || store.tasks[ids[k]].attempts > 0;
    }
    ListingFolds(store.tasks, run, ids, statuses, attempted);
    target := Fold(statuses, attempted);
  }

  /** `refresh_run_status`: read the run, read its tasks, fold, and write the moves. */
  method RefreshRunStatus(store: Store, run: RunId, now: Time) returns (r: Result<RunStatus, Fault>)
    modifies store
    ensures (store.View(), r) == Refresh(old(store.View()), run, now)
  {
    var record := store.GetRun(run);
    if record.None? {
      return Err(KeyError);
    }
    var current := record.value;
    var target := ReadTarget(store, run);
    if target == current.status {
      return Ok(target);
    }
    r := WriteTarget(store, run, current, target, now);
  }

  /** The writing half: step through RUNNING when the direct move is not allowed, then settle. */
  method WriteTarget(store: Store, run: RunId, record: Run, target: RunStatus, now: Time)
    returns (r: Result<RunStatus, Fault>)
    requires run in store.runs && store.runs[run] == record && record.status != target
    modifies store
    ensures (store.View(), r) == RefreshTo(old(store.View()), run, target, now)
  {
    var current := record;
    if StepsThrough(current.status, target) {
      var ok := store.UpdateRunStatus(run, RunStatus.Running);
      store.AppendEvent(Changed(run, current.status, RunStatus.Running));
      current := store.runs[run];
      assert store.View() == StepThrough(old(store.View()), run);
    }
    if target !in RunMoves(current.status) {
      return Err(InvalidRunTransition(current.status, target));
    }
    ghost var before := store.View();
    var ok := store.UpdateRunStatus(run, target);
    if Finishing(target) && current.finishedAt.None? {
      ok := store.UpdateRunFinishedAt(run, now);
    }
    store.AppendEvent(Changed(run, current.status, target));
    assert store.runs == before.runs[run := store.runs[run]];
    assert store.View() == Settle(before, run, target, now);
    r := Ok(target);
  }

  lemma ListingFolds(tasks: seq<Task>, run: RunId, ids: seq<TaskId>, statuses: set<TaskStatus>, attempted: bool)
    requires Lists(ids, RowsOf(tasks, run, |tasks|), RowOrder(tasks))
    requires forall j :: 0 <= j < |ids| ==> ids[j] < |tasks|
    requires statuses == set j | 0 <= j < |ids| :: tasks[ids[j]].status
    requires attempted <==> exists j :: 0 <= j < |ids| && tasks[ids[j]].attempts > 0
    ensures statuses == Statuses(tasks, run) && (attempted <==> Attempted(tasks, run))
  {
    forall j | 0 <= j < |ids| ensures tasks[ids[j]].runId == run {
      assert ids[j] in ids;
    }
    forall i | 0 <= i < |tasks| && tasks[i].runId == run ensures exists j :: 0 <= j < |ids| && ids[j] == i {
      assert i in RowsOf(tasks, run, |tasks|);
      assert i in ids;
    }
    if Attempted(tasks, run) {
      var i :| 0 <= i < |tasks| && tasks[i].runId == run && tasks[i].attempts > 0;
      var j :| 0 <= j < |ids| && ids[j] == i;
      assert tasks[ids[j]].attempts > 0;
    }
  }
}
