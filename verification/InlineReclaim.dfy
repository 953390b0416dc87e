/** Taking over an expired lease while leasing, against the older way: requeue every expired lease, then lease. */
module InlineReclaim {
  import opened Records
  import opened StoreOps

  datatype Call = Call(worker: WorkerId, now: Time, until: Time)

  function BulkLease(s: State, run: RunId, c: Call): (State, Option<TaskId>) {
    LeaseNext(RequeueExpired(s, run, c.now).0, run, c.worker, c.now, c.until)
  }

  function InlineLease(s: State, run: RunId, c: Call): (State, Option<TaskId>) {
    LeaseNext(s, run, c.worker, c.now, c.until)
  }

  /** The two tables differ only in leases of the run that had run out by `now`: one still shows them, the other has
      put their tasks back to pending. */
  ghost predicate Similar(a: seq<Task>, b: seq<Task>, run: RunId, now: Time) {
    && |a| == |b|
    && forall i :: 0 <= i < |a| ==> SimilarTask(a[i], b[i], run, now)
  }

  predicate SimilarTask(t: Task, u: Task, run: RunId, now: Time) {
    u == t || (t.runId == run && Expired(t, now) && u == Release(t))
  }

  ghost predicate SameLeaseable(a: seq<Task>, b: seq<Task>, run: RunId, now: Time) {
    forall i: nat :: Candidate(a, run, now, i) <==> Candidate(b, run, now, i)
  }

  lemma SameKeysSameNext(a: seq<Task>, b: seq<Task>, run: RunId, now: Time)
    requires |a| == |b| && (forall i :: 0 <= i < |a| ==> a[i].key == b[i].key) && SameLeaseable(a, b, run, now)
    ensures NextLeaseable(a, run, now) == NextLeaseable(b, run, now)
  {
    var r := NextLeaseable(a, run, now);
    if r.Some? {
      assert forall j: nat :: KeyBefore(a, r.value, j) ==> KeyBefore(b, r.value, j);
      assert IsNext(b, run, now, r.value);
      NextIsUnique(b, run, now, r.value);
    } else {
      assert forall j: nat :: !Candidate(b, run, now, j);
    }
  }

  /** Requeueing what has run out keeps tables similar, and makes the same tasks leaseable. */
  lemma RequeueStaysSimilar(a: seq<Task>, b: State, run: RunId, before: Time, now: Time)
    requires Similar(a, b.tasks, run, before) && before <= now
    ensures var released := RequeueExpired(b, run, now).0.tasks;
            Similar(a, released, run, now) && SameLeaseable(a, released, run, now)
  {
    var released := RequeueExpired(b, run, now).0.tasks;
    forall i: nat | i < |a|
      ensures SimilarTask(a[i], released[i], run, now)
      ensures Candidate(a, run, now, i) <==> Candidate(released, run, now, i)
    {
      assert SimilarTask(a[i], b.tasks[i], run, before);
    }
  }

  /** Granting the same task in both keeps them so. */
  lemma GrantStaysSimilar(a: seq<Task>, b: seq<Task>, run: RunId, now: Time, id: TaskId, worker: WorkerId, until: Time)
    requires Similar(a, b, run, now) && id < |a|
    ensures var a', b' := a[id := Grant(a[id], worker, until)], b[id := Grant(b[id], worker, until)];
            a'[id] == b'[id] && Similar(a', b', run, now)
  {}

  lemma SimilarSameLeaseable(a: seq<Task>, b: seq<Task>, run: RunId, now: Time)
    requires Similar(a, b, run, now)
    ensures SameLeaseable(a, b, run, now)
  {}

  /** One call from similar tables at a later time: both grant the same task with the same record, and afterwards the
      same tasks are leaseable. */
  lemma LeaseStaysSimilar(a: State, b: State, run: RunId, before: Time, c: Call)
    requires Similar(a.tasks, b.tasks, run, before) && before <= c.now
    ensures var (a', got) := InlineLease(a, run, c); var (b', got') := BulkLease(b, run, c);
            && got' == got && Similar(a'.tasks, b'.tasks, run, c.now) && SameLeaseable(a'.tasks, b'.tasks, run, c.now)
            && (got.Some? ==> got.value < |a'.tasks| == |b'.tasks| && a'.tasks[got.value] == b'.tasks[got.value])
  {
    var released := RequeueExpired(b, run, c.now).0.tasks;
    RequeueStaysSimilar(a.tasks, b, run, before, c.now);
    forall i | 0 <= i < |a.tasks| ensures a.tasks[i].key == released[i].key {
      assert SimilarTask(a.tasks[i], released[i], run, c.now);
    }
    SameKeysSameNext(a.tasks, released, run, c.now);
    var got := NextLeaseable(a.tasks, run, c.now);
    if got.Some? {
      GrantStaysSimilar(a.tasks, released, run, c.now, got.value, c.worker, c.until);
    }
    SimilarSameLeaseable(InlineLease(a, run, c).0.tasks, BulkLease(b, run, c).0.tasks, run, c.now);
  }

  function Grants(s: State, run: RunId, calls: seq<Call>, inline: bool): (seq<Option<TaskId>>, State)
    decreases |calls|
  {
    if calls == [] then ([], s)
    else
      var (s1, got) := if inline then InlineLease(s, run, calls[0]) else BulkLease(s, run, calls[0]);
      var (rest, s') := Grants(s1, run, calls[1..], inline);
      ([got] + rest, s')
  }

  predicate Nondecreasing(before: Time, calls: seq<Call>)
    decreases |calls|
  {
    calls == [] || (before <= calls[0].now && Nondecreasing(calls[0].now, calls[1..]))
  }

  /** Every sequence of leases at nondecreasing times grants the same tasks in the same order either way. */
  lemma {:induction false} InlineRefinesBulk(a: State, b: State, run: RunId, before: Time, calls: seq<Call>)
    requires Similar(a.tasks, b.tasks, run, before) && Nondecreasing(before, calls)
    ensures Grants(a, run, calls, true).0 == Grants(b, run, calls, false).0
    ensures var last := if calls == [] then before else calls[|calls| - 1].now;
            Similar(Grants(a, run, calls, true).1.tasks, Grants(b, run, calls, false).1.tasks, run, last)
    decreases |calls|
  {
    if calls == [] {
    } else {
      LeaseStaysSimilar(a, b, run, before, calls[0]);
      var (a1, got) := InlineLease(a, run, calls[0]);
      var (b1, got') := BulkLease(b, run, calls[0]);
      InlineRefinesBulk(a1, b1, run, calls[0].now, calls[1..]);
      assert calls[1..] != [] ==> calls[1..][|calls| - 2] == calls[|calls| - 1];
    }
  }

  /** Started on one table, so that both ways begin alike: the same tasks are granted to the same workers in the same
      order, and at the end the tables differ only in leases that have run out. */
  lemma InlineIsBulk(s: State, run: RunId, before: Time, calls: seq<Call>)
    requires Nondecreasing(before, calls)
    ensures Grants(s, run, calls, true).0 == Grants(s, run, calls, false).0
    ensures var last := if calls == [] then before else calls[|calls| - 1].now;
            Similar(Grants(s, run, calls, true).1.tasks, Grants(s, run, calls, false).1.tasks, run, last)
  {
    InlineRefinesBulk(s, s, run, before, calls);
  }
}
