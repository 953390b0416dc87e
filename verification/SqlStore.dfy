/** The SQLite store: rows whose lease end is text, and queries that promise less order than the in-memory loops.
    Each statement is a relation between the rows before and after; the lemmas say when it pins down the same result
    and the same next state as the in-memory operation. */
module SqlStore {
  import opened Lifecycle
  import opened Order
  import opened Clock
  import opened Records
  import opened StoreOps

  /** A row of the task table. The lease end lives in its own text column, not in `fields`. */
  datatype Row = Row(fields: Task, leasedUntil: Option<string>)

  /** The text column holds `isoformat()` of this instant. */
  ghost predicate Stored(text: string, at: Time) {
    exists t: UtcTime :: text == Iso(t) && Instant(t) == at
  }

  ghost predicate Encodes(row: Row, task: Task) {
    && row.fields == task.(until := None)
    && row.leasedUntil.None? == task.until.None?
    && (task.until.Some? ==> Stored(row.leasedUntil.value, task.until.value))
  }

  ghost predicate Encoded(rows: seq<Row>, tasks: seq<Task>) {
    |rows| == |tasks| && forall i :: 0 <= i < |rows| ==> Encodes(rows[i], tasks[i])
  }

  /** `leased_until < ?` on text is `leased_until < now` on instants. */
  lemma StoredOrder(a: string, b: string, i: Time, j: Time)
    requires Stored(a, i) && Stored(b, j)
    ensures LexLess(a, b) <==> i < j
    ensures a == b <==> i == j
  {
    var u: UtcTime :| a == Iso(u) && Instant(u) == i;
    var v: UtcTime :| b == Iso(v) && Instant(v) == j;
    IsoComparesInstants(u, v);
  }

  /** The text a row carries is determined by the task it encodes. */
  lemma EncodingIsUnique(x: seq<Row>, y: seq<Row>, tasks: seq<Task>)
    requires Encoded(x, tasks) && Encoded(y, tasks)
    ensures x == y
  {
    forall i | 0 <= i < |x| ensures x[i] == y[i] {
      if tasks[i].until.Some? {
        StoredOrder(x[i].leasedUntil.value, y[i].leasedUntil.value, tasks[i].until.value, tasks[i].until.value);
      }
    }
  }

  predicate TextExpired(row: Row, now: string) {
    row.fields.status == Leased && row.leasedUntil.Some? && LexLess(row.leasedUntil.value, now)
  }

  predicate Selected(rows: seq<Row>, run: RunId, now: string, i: nat) {
    i < |rows| && rows[i].fields.runId == run && (rows[i].fields.status == Pending || TextExpired(rows[i], now))
  }

  lemma SelectedIsCandidate(rows: seq<Row>, tasks: seq<Task>, run: RunId, nowText: string, now: Time, i: nat)
    requires Encoded(rows, tasks) && Stored(nowText, now)
    ensures i < |rows| ==> (TextExpired(rows[i], nowText) <==> Expired(tasks[i], now))
    ensures Selected(rows, run, nowText, i) <==> Candidate(tasks, run, now, i)
  {
    if i < |rows| && tasks[i].until.Some? {
      StoredOrder(rows[i].leasedUntil.value, nowText, tasks[i].until.value, now);
    }
  }

  function GrantRow(row: Row, worker: WorkerId, until: string): Row {
    Row(row.fields.(status := Leased, owner := Some(worker)), Some(until))
  }

  /** SELECT .. ORDER BY task_key LIMIT 1, then UPDATE and the audit INSERT: any row with the least key may be taken. */
  ghost predicate SqlLease(rows: seq<Row>, events: seq<Event>, run: RunId, worker: WorkerId, now: string, until: string,
                           rows': seq<Row>, events': seq<Event>, got: Option<TaskId>) {
    match got
    case None =>
      (forall j: nat :: !Selected(rows, run, now, j)) && rows' == rows && events' == events
    case Some(i) =>
      && Selected(rows, run, now, i)
      && (forall j: nat :: Selected(rows, run, now, j) ==> !LexLess(rows[j].fields.key, rows[i].fields.key))
      && rows' == rows[i := GrantRow(rows[i], worker, until)]
      && events' == events + LeaseNote(rows[i].fields, i, run, worker)
  }

  ghost predicate UniqueKeys(tasks: seq<Task>, run: RunId) {
    forall i: nat, j: nat :: i < |tasks| && j < |tasks| && tasks[i].runId == run && tasks[j].runId == run && i != j ==>
      tasks[i].key != tasks[j].key
  }

  /** Granting a row is granting the task it encodes, and writes the one text that encodes the new lease end. */
  lemma GrantEncodes(rows: seq<Row>, tasks: seq<Task>, i: nat, worker: WorkerId, untilText: string, until: Time,
                     rows': seq<Row>)
    requires Encoded(rows, tasks) && Stored(untilText, until) && i < |rows|
    ensures rows' == rows[i := GrantRow(rows[i], worker, untilText)] <==>
            Encoded(rows', tasks[i := Grant(tasks[i], worker, until)])
  {
    var granted := rows[i := GrantRow(rows[i], worker, untilText)];
    assert Encodes(rows[i], tasks[i]);
    assert Encoded(granted, tasks[i := Grant(tasks[i], worker, until)]);
    if Encoded(rows', tasks[i := Grant(tasks[i], worker, until)]) {
      EncodingIsUnique(rows', granted, tasks[i := Grant(tasks[i], worker, until)]);
    }
  }

  lemma SqlTakesNext(tasks: seq<Task>, rows: seq<Row>, run: RunId, nowText: string, now: Time, i: nat)
    requires Encoded(rows, tasks) && Stored(nowText, now) && UniqueKeys(tasks, run)
    ensures (&& Selected(rows, run, nowText, i)
             && forall j: nat :: Selected(rows, run, nowText, j) ==> !LexLess(rows[j].fields.key, rows[i].fields.key))
       <==> NextLeaseable(tasks, run, now) == Some(i)
  {
    forall j: nat ensures Selected(rows, run, nowText, j) <==> Candidate(tasks, run, now, j) {
      SelectedIsCandidate(rows, tasks, run, nowText, now, j);
    }
    NextIsUnique(tasks, run, now, i);
    if Candidate(tasks, run, now, i) {
      LeastKeyIsNext(rows, tasks, run, nowText, now, i);
    }
  }

  /** With unique keys, the query's outcome is the loop's outcome, and nothing else is. */
  lemma SqlLeaseAgrees(s: State, rows: seq<Row>, run: RunId, worker: WorkerId, nowText: string, now: Time,
                       untilText: string, until: Time, rows': seq<Row>, events': seq<Event>, got: Option<TaskId>)
    requires Encoded(rows, s.tasks) && Stored(nowText, now) && Stored(untilText, until) && UniqueKeys(s.tasks, run)
    ensures SqlLease(rows, s.events, run, worker, nowText, untilText, rows', events', got) <==>
            var (s', got') := LeaseNext(s, run, worker, now, until);
            got == got' && events' == s'.events && Encoded(rows', s'.tasks)
  {
    match got
    case None =>
      forall j: nat ensures Selected(rows, run, nowText, j) <==> Candidate(s.tasks, run, now, j) {
        SelectedIsCandidate(rows, s.tasks, run, nowText, now, j);
      }
      if Encoded(rows', s.tasks) { EncodingIsUnique(rows', rows, s.tasks); }
    case Some(i) =>
      SqlTakesNext(s.tasks, rows, run, nowText, now, i);
      if i < |rows| { GrantEncodes(rows, s.tasks, i, worker, untilText, until, rows'); }
  }

  lemma LeastKeyIsNext(rows: seq<Row>, tasks: seq<Task>, run: RunId, nowText: string, now: Time, i: nat)
    requires Encoded(rows, tasks) && UniqueKeys(tasks, run) && Candidate(tasks, run, now, i)
    requires forall j: nat :: Selected(rows, run, nowText, j) <==> Candidate(tasks, run, now, j)
    ensures (forall j: nat :: Selected(rows, run, nowText, j) ==> !LexLess(rows[j].fields.key, rows[i].fields.key))
       <==> IsNext(tasks, run, now, i)
  {
    forall j: nat | Candidate(tasks, run, now, j) && j != i
      ensures KeyBefore(tasks, i, j) <==> !LexLess(tasks[j].key, tasks[i].key)
    {
      LexTotal(tasks[i].key, tasks[j].key);
      if LexLess(tasks[i].key, tasks[j].key) {
        LexAsymmetric(tasks[i].key, tasks[j].key);
      }
    }
    if LexLess(tasks[i].key, tasks[i].key) {
      LexAsymmetric(tasks[i].key, tasks[i].key);
    }
  }

  function ReleaseRow(row: Row): Row {
    Row(row.fields.(status := Pending, owner := None), None)
  }

  predicate RowExpired(rows: seq<Row>, run: RunId, now: string, i: nat) {
    i < |rows| && rows[i].fields.runId == run && TextExpired(rows[i], now)
  }

  /** SELECT without ORDER BY, one UPDATE, and one INSERT per selected row, in whatever order they came. */
  ghost predicate SqlRequeue(rows: seq<Row>, events: seq<Event>, run: RunId, now: string,
                             rows': seq<Row>, events': seq<Event>, count: nat) {
    && Freed(rows, run, now, rows')
    && exists selected: seq<nat> ::
      && InAnyOrder(selected, rows, run, now)
      && count == |selected|
      && events' == events + Inserted(selected, rows, run)
  }

  /** The UPDATE: expired leases are released, and nothing else is written. */
  ghost predicate Freed(rows: seq<Row>, run: RunId, now: string, rows': seq<Row>) {
    && |rows'| == |rows|
    && forall i: nat :: i < |rows| ==>
         rows'[i] == if RowExpired(rows, run, now, i) then ReleaseRow(rows[i]) else rows[i]
  }

  ghost predicate InAnyOrder(selected: seq<nat>, rows: seq<Row>, run: RunId, now: string) {
    && (forall i: nat :: i in selected <==> RowExpired(rows, run, now, i))
    && Distinct(selected)
  }

  function Inserted(selected: seq<nat>, rows: seq<Row>, run: RunId): seq<Event>
    requires forall i :: i in selected ==> i < |rows|
  {
    seq(|selected|, k requires 0 <= k < |selected| =>
      assert selected[k] in selected;
      Event(run, Some(selected[k]), LeaseExpired(rows[selected[k]].fields.owner, None)))
  }

  lemma {:induction false} WithoutRepetition<T>(xs: seq<T>)
    requires Distinct(xs)
    ensures forall x :: multiset(xs)[x] == if x in xs then 1 else 0
  {
    if xs == [] {
    } else {
      var init, last := xs[..|xs| - 1], xs[|xs| - 1];
      WithoutRepetition(init);
      assert xs == init + [last];
    }
  }

  lemma CountedOnce<T>(xs: seq<T>)
    requires forall x :: multiset(xs)[x] <= 1
    ensures Distinct(xs)
  {
    forall a, b | 0 <= a < b < |xs| ensures xs[a] != xs[b] {
      assert xs == xs[..b] + xs[b..];
      assert xs[a] in xs[..b] && xs[b] in xs[b..];
      assert multiset(xs)[xs[a]] == multiset(xs[..b])[xs[a]] + multiset(xs[b..])[xs[a]];
    }
  }

  /** An outcome of the bulk requeue is possible if and only if it releases the expired leases, reports their number,
      and adds the audit events of the in-memory loop, each once, in some order. */
  lemma SqlRequeueAgrees(s: State, rows: seq<Row>, run: RunId, nowText: string, now: Time,
                         rows': seq<Row>, events': seq<Event>, count: nat)
    requires Encoded(rows, s.tasks) && Stored(nowText, now)
    ensures var (s', count') := RequeueExpired(s, run, now);
            SqlRequeue(rows, s.events, run, nowText, rows', events', count) <==>
            && Freed(rows, run, nowText, rows') && count == count'
            && s.events <= events' && multiset(events'[|s.events|..]) == multiset(s'.events[|s.events|..])
    ensures Freed(rows, run, nowText, rows') ==> Encoded(rows', RequeueExpired(s, run, now).0.tasks)
  {
    ExpiryAgrees(s.tasks, rows, run, nowText, now);
    var (s', count') := RequeueExpired(s, run, now);
    assert s'.events[|s.events|..] == ExpiryEvents(s.tasks, run, now, |s.tasks|);
    if Freed(rows, run, nowText, rows') {
      SameRows(s, rows, run, nowText, now, rows');
    }
    if SqlRequeue(rows, s.events, run, nowText, rows', events', count) {
      RequeueSelects(s, rows, run, nowText, now, rows', events', count);
    }
    if Freed(rows, run, nowText, rows') && count == count' && s.events <= events'
       && multiset(events'[|s.events|..]) == multiset(s'.events[|s.events|..]) {
      RequeuePossible(s, rows, run, nowText, now, rows', events', count);
    }
  }

  lemma RequeueSelects(s: State, rows: seq<Row>, run: RunId, nowText: string, now: Time,
                       rows': seq<Row>, events': seq<Event>, count: nat)
    requires Agree(s.tasks, rows, run, nowText, now)
    requires SqlRequeue(rows, s.events, run, nowText, rows', events', count)
    ensures var es := ExpiryEvents(s.tasks, run, now, |s.tasks|);
            count == |es| && s.events <= events' && multiset(events'[|s.events|..]) == multiset(es)
  {
    var selected: seq<nat> :| InAnyOrder(selected, rows, run, nowText) && count == |selected|
                              && events' == s.events + Inserted(selected, rows, run);
    SameEvents(s.tasks, rows, run, nowText, now, selected);
    assert events'[|s.events|..] == Inserted(selected, rows, run);
  }

  /** The tasks whose events these are, in their order. */
  function TasksNoted(notes: seq<Event>): seq<nat>
    requires forall e :: e in notes ==> e.taskId.Some?
  {
    seq(|notes|, k requires 0 <= k < |notes| => assert notes[k] in notes; notes[k].taskId.value)
  }

  lemma RequeuePossible(s: State, rows: seq<Row>, run: RunId, nowText: string, now: Time,
                        rows': seq<Row>, events': seq<Event>, count: nat)
    requires Agree(s.tasks, rows, run, nowText, now) && Freed(rows, run, nowText, rows')
    requires var es := ExpiryEvents(s.tasks, run, now, |s.tasks|);
             count == |es| && s.events <= events' && multiset(events'[|s.events|..]) == multiset(es)
    ensures SqlRequeue(rows, s.events, run, nowText, rows', events', count)
  {
    var es, notes := ExpiryEvents(s.tasks, run, now, |s.tasks|), events'[|s.events|..];
    ExpiryEventsListing(s.tasks, run, now, |s.tasks|);
    SameMembers(notes, es);
    var selected := TasksNoted(notes);
    NotesSelect(s.tasks, rows, run, nowText, now, notes);
    assert |notes| == |multiset(notes)| == |multiset(es)| == |es|;
    assert events' == s.events + notes;
  }

  lemma SameMembers(xs: seq<Event>, ys: seq<Event>)
    requires multiset(xs) == multiset(ys) && Distinct(ys)
    ensures Distinct(xs) && forall e :: e in xs <==> e in ys
  {
    WithoutRepetition(ys);
    CountedOnce(xs);
    forall e ensures e in xs <==> e in ys {
      assert e in xs <==> e in multiset(xs);
      assert e in ys <==> e in multiset(ys);
    }
  }

  lemma NotesSelect(tasks: seq<Task>, rows: seq<Row>, run: RunId, nowText: string, now: Time, notes: seq<Event>)
    requires Agree(tasks, rows, run, nowText, now) && Distinct(notes)
    requires forall e :: e in notes <==> NotesExpiry(tasks, run, now, |tasks|, e)
    ensures forall e :: e in notes ==> e.taskId.Some?
    ensures InAnyOrder(TasksNoted(notes), rows, run, nowText)
    ensures Inserted(TasksNoted(notes), rows, run) == notes
  {
    var selected := TasksNoted(notes);
    forall k | 0 <= k < |notes|
      ensures RowExpired(rows, run, nowText, selected[k])
              && notes[k] == Event(run, Some(selected[k]), LeaseExpired(rows[selected[k]].fields.owner, None))
    {
      assert notes[k] in notes;
    }
    forall i: nat | RowExpired(rows, run, nowText, i) ensures i in selected {
      var e := Event(run, Some(i), LeaseExpired(rows[i].fields.owner, None));
      assert e in notes;
      var k :| 0 <= k < |notes| && notes[k] == e;
      assert selected[k] == i;
    }
  }

  ghost predicate Agree(tasks: seq<Task>, rows: seq<Row>, run: RunId, nowText: string, now: Time) {
    && |rows| == |tasks|
    && (forall i: nat :: i < |rows| ==> rows[i].fields == tasks[i].(until := None))
    && forall i: nat :: i < |rows| ==>
         (RowExpired(rows, run, nowText, i) <==> tasks[i].runId == run && Expired(tasks[i], now))
  }

  lemma ExpiryAgrees(tasks: seq<Task>, rows: seq<Row>, run: RunId, nowText: string, now: Time)
    requires Encoded(rows, tasks) && Stored(nowText, now)
    ensures Agree(tasks, rows, run, nowText, now)
  {
    forall i: nat | i < |rows|
      ensures RowExpired(rows, run, nowText, i) <==> tasks[i].runId == run && Expired(tasks[i], now)
    {
      SelectedIsCandidate(rows, tasks, run, nowText, now, i);
    }
  }

  lemma SameRows(s: State, rows: seq<Row>, run: RunId, nowText: string, now: Time, rows': seq<Row>)
    requires Encoded(rows, s.tasks) && Agree(s.tasks, rows, run, nowText, now) && |rows'| == |rows|
    requires forall i: nat :: i < |rows| ==>
               rows'[i] == if RowExpired(rows, run, nowText, i) then ReleaseRow(rows[i]) else rows[i]
    ensures Encoded(rows', RequeueExpired(s, run, now).0.tasks)
  {
    var tasks' := RequeueExpired(s, run, now).0.tasks;
    forall i: nat | i < |rows'| ensures Encodes(rows'[i], tasks'[i]) {
      assert Encodes(rows[i], s.tasks[i]);
    }
  }

  lemma InsertedListing(tasks: seq<Task>, rows: seq<Row>, run: RunId, nowText: string, now: Time, selected: seq<nat>)
    requires Agree(tasks, rows, run, nowText, now) && InAnyOrder(selected, rows, run, nowText)
    ensures var ins := Inserted(selected, rows, run);
            Distinct(ins) && forall e :: e in ins <==> NotesExpiry(tasks, run, now, |tasks|, e)
  {
    var ins := Inserted(selected, rows, run);
    forall e ensures e in ins <==> NotesExpiry(tasks, run, now, |tasks|, e) {
      if e in ins {
        var k :| 0 <= k < |ins| && ins[k] == e;
        assert selected[k] in selected;
      }
      if NotesExpiry(tasks, run, now, |tasks|, e) {
        assert e.taskId.value in selected;
        var k :| 0 <= k < |selected| && selected[k] == e.taskId.value;
        assert ins[k] == e;
      }
    }
  }

  lemma SameEvents(tasks: seq<Task>, rows: seq<Row>, run: RunId, nowText: string, now: Time, selected: seq<nat>)
    requires Agree(tasks, rows, run, nowText, now) && InAnyOrder(selected, rows, run, nowText)
    ensures multiset(Inserted(selected, rows, run)) == multiset(ExpiryEvents(tasks, run, now, |tasks|))
    ensures |Inserted(selected, rows, run)| == |ExpiryEvents(tasks, run, now, |tasks|)|
  {
    var ins, loop := Inserted(selected, rows, run), ExpiryEvents(tasks, run, now, |tasks|);
    ExpiryEventsListing(tasks, run, now, |tasks|);
    InsertedListing(tasks, rows, run, nowText, now, selected);
    WithoutRepetition(ins);
    WithoutRepetition(loop);
    assert multiset(ins) == multiset(loop);
    assert |ins| == |multiset(ins)| && |multiset(loop)| == |loop|;
  }

  /** SELECT .. LIMIT 1 without ORDER BY: any task the dead worker holds may be the one recovered. */
  ghost predicate SqlReclaim(s: State, run: RunId, worker: WorkerId, maxReclaims: int, s': State, outcome: Reclaim) {
    || ((forall i: nat :: !HeldBy(s.tasks, run, worker, i)) && s' == s && outcome == NoTask)
    || (exists id: nat :: HeldBy(s.tasks, run, worker, id)
                          && (s', outcome) == ReclaimTask(s, run, worker, maxReclaims, id))
  }

  /** The two stores recover the same task when the dead worker holds at most one. */
  lemma SqlReclaimAgrees(s: State, run: RunId, worker: WorkerId, maxReclaims: int, s': State, outcome: Reclaim)
    requires forall i: nat, j: nat :: HeldBy(s.tasks, run, worker, i) && HeldBy(s.tasks, run, worker, j) ==> i == j
    ensures SqlReclaim(s, run, worker, maxReclaims, s', outcome) <==>
            (s', outcome) == ReclaimDeadWorker(s, run, worker, maxReclaims)
  {
    var held := FirstHeld(s.tasks, run, worker, 0);
    if held.Some? {
      assert HeldBy(s.tasks, run, worker, held.value);
    }
  }
}
