/** What a comparison report says of the runs' tasks: the statuses, the metrics and the direction in which each is
    worse. */
module Reports {
  import opened Lifecycle
  import opened Records
  import C = Comparator
  import V = Validator
  import opened Decision
  import opened Outcomes
  import opened Verdicts

  predicate HasTask(table: C.Table, run: RunId, key: string) {
    run in table && key in table[run]
  }

  /** Absent, or ended without success. A task still waiting or at work is neither failing nor succeeding. */
  predicate Failing(table: C.Table, run: RunId, key: string) {
    HasTask(table, run, key) ==>
      match table[run][key].status
      case Failed => true
      case TimedOut => true
      case Cancelled => true
      case Degenerate => true
      case Pending => false
      case Leased => false
      case Running => false
      case Succeeded => false
  }

  predicate Succeeding(table: C.Table, run: RunId, key: string) {
    HasTask(table, run, key) && table[run][key].status.Succeeded?
  }

  predicate HasResult(table: C.Table, run: RunId, key: string) {
    HasTask(table, run, key) && table[run][key].result.Some?
  }

  /** The validator rejects the stored result when no method is named. */
  predicate Rejects(r: ResultDict) {
    !TooLarge(r) && Nameable(MethodInForce(r, Null)) && (Faulty(r) || Hollow(r, Null))
  }

  predicate Dropped(table: C.Table, run: RunId, key: string) {
    HasResult(table, run, key) && Rejects(table[run][key].result.value)
  }

  /** The run reports a finite number for the metric, and its result counts. */
  predicate Measured(table: C.Table, run: RunId, key: string, metric: string) {
    && HasResult(table, run, key) && !Dropped(table, run, key)
    && metric != "wall_seconds" && HasReal(table[run][key].result.value, metric)
  }

  function Measure(table: C.Table, run: RunId, key: string, metric: string): real
    requires Measured(table, run, key, metric)
  {
    RealAt(table[run][key].result.value, metric)
  }

  /** Losses are worse when they rise, everything else when it falls. */
  predicate WorseBy(metric: string, before: real, after: real, margin: real) {
    if metric == "loss" || metric == "val_loss" || metric == "loss_start" || metric == "loss_end"
    then after - before > margin
    else before - after > margin
  }

  predicate MetricWorse(table: C.Table, base: RunId, run: RunId, key: string, metric: string,
                        thresholds: C.Thresholds) {
    && metric in thresholds && Measured(table, base, key, metric) && Measured(table, run, key, metric)
    && WorseBy(metric, Measure(table, base, key, metric), Measure(table, run, key, metric), thresholds[metric])
  }

  ghost predicate StatusWorse(table: C.Table, runIds: seq<RunId>, key: string)
    requires |runIds| > 0
  {
    Succeeding(table, runIds[0], key) && exists i :: 0 < i < |runIds| && Failing(table, runIds[i], key)
  }

  ghost predicate StatusBetter(table: C.Table, runIds: seq<RunId>, key: string)
    requires |runIds| > 0
  {
    Failing(table, runIds[0], key) && exists i :: 0 < i < |runIds| && Succeeding(table, runIds[i], key)
  }

  ghost predicate SomeMetricWorse(table: C.Table, runIds: seq<RunId>, key: string, thresholds: C.Thresholds)
    requires |runIds| > 0
  {
    exists i, m :: 0 < i < |runIds| && MetricWorse(table, runIds[0], runIds[i], key, m, thresholds)
  }

  ghost predicate InSome(table: C.Table, runIds: seq<RunId>, key: string) {
    exists i :: 0 <= i < |runIds| && HasTask(table, runIds[i], key)
  }

  // ----- The comparison agrees -----

  lemma SidesAgree(table: C.Table, run: RunId, key: string)
    ensures C.FailSide(C.SideOf(table, run, key)) <==> Failing(table, run, key)
    ensures C.OkSide(C.SideOf(table, run, key)) <==> Succeeding(table, run, key)
    ensures C.SideOf(table, run, key) ==
            if HasTask(table, run, key) then C.Has(table[run][key].status) else C.Missing
  {}

  lemma DroppedAgree(table: C.Table, run: RunId, key: string)
    ensures C.Excluded(table, run, key) <==> Dropped(table, run, key)
  {
    if HasResult(table, run, key) {
      VerdictMeaning(table[run][key].result.value, Null);
    }
  }

  lemma MetricsAgree(r: ResultDict, metric: string)
    ensures metric in C.Metrics(Some(r)) <==> HasReal(r, metric)
    ensures HasReal(r, metric) ==> C.Metrics(Some(r))[metric] == RealAt(r, metric)
  {
    ReadsAgree(r, metric);
  }

  lemma DeltasAgree(table: C.Table, base: RunId, run: RunId, key: string, metric: string)
    ensures var both := Measured(table, base, key, metric) && Measured(table, run, key, metric);
            && (metric in C.Deltas(table, base, run, key) <==> both)
            && (both ==> C.Deltas(table, base, run, key)[metric] ==
                         Measure(table, run, key, metric) - Measure(table, base, key, metric))
  {
    DroppedAgree(table, base, key);
    DroppedAgree(table, run, key);
    if HasResult(table, base, key) { MetricsAgree(table[base][key].result.value, metric); }
    if HasResult(table, run, key) { MetricsAgree(table[run][key].result.value, metric); }
  }

  lemma RegressedAgree(table: C.Table, base: RunId, run: RunId, key: string, metric: string, thresholds: C.Thresholds)
    ensures metric in C.Regressed(C.Deltas(table, base, run, key), thresholds) <==>
            MetricWorse(table, base, run, key, metric, thresholds)
  {
    DeltasAgree(table, base, run, key, metric);
  }

  lemma StatusesAgree(table: C.Table, runIds: seq<RunId>, key: string)
    requires |runIds| > 0
    ensures C.StatusRegression(table, runIds, key) <==> StatusWorse(table, runIds, key)
    ensures C.StatusImprovement(table, runIds, key) <==> StatusBetter(table, runIds, key)
  {
    forall r ensures C.FailSide(C.SideOf(table, r, key)) <==> Failing(table, r, key)
             ensures C.OkSide(C.SideOf(table, r, key)) <==> Succeeding(table, r, key) { SidesAgree(table, r, key); }
    forall r ensures r in runIds[1..] <==> exists i :: 0 < i < |runIds| && runIds[i] == r {
      LaterRun(runIds, r);
    }
  }

  lemma LaterRun(runIds: seq<RunId>, r: RunId)
    requires |runIds| > 0
    ensures r in runIds[1..] <==> exists i :: 0 < i < |runIds| && runIds[i] == r
  {
    if i :| 0 < i < |runIds| && runIds[i] == r {
      assert runIds[1..][i - 1] == r;
    }
  }

  lemma MetricRegressionAgrees(table: C.Table, runIds: seq<RunId>, key: string, thresholds: C.Thresholds)
    requires |runIds| > 0
    ensures C.MetricRegression(table, runIds, key, thresholds) <==> SomeMetricWorse(table, runIds, key, thresholds)
  {
    var base := runIds[0];
    if r :| r in runIds[1..] && C.Regressed(C.Deltas(table, base, r, key), thresholds) != map[] {
      LaterRun(runIds, r);
      var i :| 0 < i < |runIds| && runIds[i] == r;
      var m :| m in C.Regressed(C.Deltas(table, base, r, key), thresholds);
      RegressedAgree(table, base, r, key, m, thresholds);
      assert MetricWorse(table, base, runIds[i], key, m, thresholds);
    }
    if i, m :| 0 < i < |runIds| && MetricWorse(table, base, runIds[i], key, m, thresholds) {
      LaterRun(runIds, runIds[i]);
      RegressedAgree(table, base, runIds[i], key, m, thresholds);
    }
  }

  lemma KeysAgree(table: C.Table, runIds: seq<RunId>, key: string)
    ensures key in C.AllKeys(table, runIds) <==> InSome(table, runIds, key)
  {
    if i :| 0 <= i < |runIds| && HasTask(table, runIds[i], key) {
      assert runIds[i] in runIds;
    }
  }

  // ----- What a report means -----

  /** One task's comparison: where it stands in every run, which results are left out, every metric's change against the
      baseline, and which changes are for the worse by more than the metric's threshold. */
  ghost predicate Describes(c: C.Comparison, table: C.Table, runIds: seq<RunId>, thresholds: C.Thresholds)
    requires |runIds| > 0
  {
    && (forall r :: r in runIds ==>
          r in c.sides
          && c.sides[r] == if HasTask(table, r, c.key) then C.Has(table[r][c.key].status) else C.Missing)
    && (forall r :: r in runIds ==> (r in c.excluded <==> Dropped(table, r, c.key)))
    && (forall i :: 0 < i < |runIds| ==> runIds[i] in c.deltas && runIds[i] in c.metricRegressions)
    && (forall i, m :: 0 < i < |runIds| ==>
          MetricDescribed(c.deltas[runIds[i]], c.metricRegressions[runIds[i]], table, runIds[0], runIds[i], c.key, m,
                          thresholds))
    && (c.isRegression <==>
        StatusWorse(table, runIds, c.key) || SomeMetricWorse(table, runIds, c.key, thresholds))
    && (c.isImprovement <==> StatusBetter(table, runIds, c.key))
  }

  predicate MetricDescribed(deltas: map<string, real>, regressed: map<string, real>, table: C.Table, base: RunId,
                            run: RunId, key: string, m: string, thresholds: C.Thresholds) {
    && (m in deltas <==> Measured(table, base, key, m) && Measured(table, run, key, m))
    && (m in deltas ==> deltas[m] == Measure(table, run, key, m) - Measure(table, base, key, m))
    && (m in regressed <==> MetricWorse(table, base, run, key, m, thresholds))
  }

  lemma ComparisonMeaning(c: C.Comparison, table: C.Table, runIds: seq<RunId>, thresholds: C.Thresholds)
    requires |runIds| > 0 && C.Compares(c, table, runIds, c.key, thresholds)
    ensures Describes(c, table, runIds, thresholds)
  {
    StatusesAgree(table, runIds, c.key);
    MetricRegressionAgrees(table, runIds, c.key, thresholds);
    forall r { SidesAgree(table, r, c.key); }
    forall r { DroppedAgree(table, r, c.key); }
    forall i | 0 < i < |runIds| ensures runIds[i] in runIds[1..] { LaterRun(runIds, runIds[i]); }
    forall i, m | 0 < i < |runIds|
      ensures MetricDescribed(c.deltas[runIds[i]], c.metricRegressions[runIds[i]], table, runIds[0], runIds[i], c.key,
                              m, thresholds)
    {
      DeltasAgree(table, runIds[0], runIds[i], c.key, m);
      RegressedAgree(table, runIds[0], runIds[i], c.key, m, thresholds);
    }
  }

  /** A task is listed as a regression when it succeeded in the baseline and fails in some later run, as an improvement
      the other way round, and as a metric regression when it is no such regression and some thresholded metric got
      worse by more than its threshold in some later run. */
  lemma ReportMeaning(rep: C.Report, table: C.Table, runIds: seq<RunId>, thresholds: C.Thresholds)
    requires |runIds| > 0 && C.Reports(rep, table, runIds, thresholds)
    ensures forall k :: k in rep.regressions <==> InSome(table, runIds, k) && StatusWorse(table, runIds, k)
    ensures forall k :: k in rep.improvements <==> InSome(table, runIds, k) && StatusBetter(table, runIds, k)
    ensures forall k :: k in rep.metricRegressions <==>
              InSome(table, runIds, k) && !StatusWorse(table, runIds, k)
              && SomeMetricWorse(table, runIds, k, thresholds)
    ensures forall k :: (exists i :: 0 <= i < |rep.comparisons| && rep.comparisons[i].key == k) <==>
                        InSome(table, runIds, k)
    ensures forall i :: 0 <= i < |rep.comparisons| ==> Describes(rep.comparisons[i], table, runIds, thresholds)
  {
    forall k { KeysAgree(table, runIds, k); }
    forall k { StatusesAgree(table, runIds, k); }
    forall k { MetricRegressionAgrees(table, runIds, k, thresholds); }
    forall k ensures (exists i :: 0 <= i < |rep.comparisons| && rep.comparisons[i].key == k) <==>
                     k in C.Keys(rep.comparisons) {
      if i :| 0 <= i < |rep.comparisons| && rep.comparisons[i].key == k {
        assert C.Keys(rep.comparisons)[i] == k;
      }
    }
    forall i | 0 <= i < |rep.comparisons| ensures Describes(rep.comparisons[i], table, runIds, thresholds) {
      ComparisonMeaning(rep.comparisons[i], table, runIds, thresholds);
    }
  }

  /** Strict mode refuses a run exactly when it and the baseline both name their data and name different data. */
  lemma RefusalMeaning(hashes: C.Hashes, runIds: seq<RunId>)
    requires |runIds| > 0 && forall r :: r in runIds ==> r in hashes
    ensures C.SomeDifferentData(hashes, runIds) <==>
            exists i :: 0 < i < |runIds| && OtherData(hashes, runIds[0], runIds[i])
  {
    forall i | 0 <= i < |runIds| ensures runIds[i] in hashes { assert runIds[i] in runIds; }
    forall i | 0 < i < |runIds|
      ensures C.DifferentData(hashes, runIds[0], runIds[i]) <==> OtherData(hashes, runIds[0], runIds[i])
    {
      DataAgree(hashes, runIds[0], runIds[i]);
    }
  }

  /** Some name stands in only one of them, or for different data. */
  ghost predicate Differ(a: map<string, string>, b: map<string, string>) {
    exists name :: NamedApart(a, b, name)
  }

  predicate NamedApart(a: map<string, string>, b: map<string, string>, name: string) {
    (name in a || name in b) && !(name in a && name in b && a[name] == b[name])
  }

  ghost predicate OtherData(hashes: C.Hashes, a: RunId, b: RunId) {
    && a in hashes && b in hashes && |hashes[a]| > 0 && |hashes[b]| > 0
    && Differ(hashes[a], hashes[b])
  }

  lemma DifferExactly(a: map<string, string>, b: map<string, string>)
    ensures Differ(a, b) <==> a != b
  {
    if forall name :: !NamedApart(a, b, name) {
      assert forall name :: name in a <==> name in b by {
        forall name ensures name in a <==> name in b { assert !NamedApart(a, b, name); }
      }
      forall name | name in a ensures a[name] == b[name] { assert !NamedApart(a, b, name); }
      assert a == b;
    }
  }

  lemma DataAgree(hashes: C.Hashes, a: RunId, b: RunId)
    requires a in hashes && b in hashes
    ensures C.DifferentData(hashes, a, b) <==> OtherData(hashes, a, b)
  {
    DifferExactly(hashes[a], hashes[b]);
  }

  // ----- What the worker stored -----

  /** stored is r with a wall time and the verdict's name. */
  ghost predicate Adds(r: ResultDict, stored: ResultDict) {
    && (forall k :: k != "wall_seconds" && k != "_validation_status" ==>
          (k in stored <==> k in r) && (k in r ==> stored[k] == r[k]))
    && "_validation_status" in stored && stored["_validation_status"].Text?
    && "wall_seconds" in stored
    && (if "wall_seconds" in r then stored["wall_seconds"] == r["wall_seconds"]
        else stored["wall_seconds"].Number? && stored["wall_seconds"].f.Finite?)
  }

  lemma KeepsAdds(e: HandlerEnd, stored: ResultDict, seconds: real)
    requires e.Gave? && !GoneWrong(e) && Keeps(stored, e, seconds)
    ensures Adds(e.result, stored)
  {}

  lemma AddsNoFault(r: ResultDict, stored: ResultDict)
    requires Adds(r, stored) && !Faulty(r)
    ensures !Faulty(stored)
  {
    forall k | k in stored
      ensures !IsNaN(stored, k) && !IsInfinite(stored, k) && !OutOfBounds(stored, k) && !BelowZero(stored, k)
    {
      AddsNoFaultAt(r, stored, k);
    }
  }

  lemma AddsNoFaultAt(r: ResultDict, stored: ResultDict, k: string)
    requires Adds(r, stored) && !Faulty(r) && k in stored
    ensures !IsNaN(stored, k) && !IsInfinite(stored, k) && !OutOfBounds(stored, k) && !BelowZero(stored, k)
  {
    if k in r {
      assert !IsNaN(r, k) && !IsInfinite(r, k) && !OutOfBounds(r, k) && !BelowZero(r, k);
    }
  }

  lemma AddsNotTooLarge(r: ResultDict, stored: ResultDict)
    requires Adds(r, stored) && !TooLarge(r)
    ensures !TooLarge(stored)
  {}

  lemma AddsZeros(r: ResultDict, stored: ResultDict)
    requires Adds(r, stored)
    ensures AllZero(stored) <==> AllZero(r)
  {
    assert !Bounded("wall_seconds") && !Bounded("_validation_status");
  }

  lemma AddsMethod(r: ResultDict, stored: ResultDict, named: Value)
    requires Adds(r, stored)
    ensures MethodInForce(stored, named) == MethodInForce(r, named)
  {}

  lemma AddsHollow(r: ResultDict, stored: ResultDict, named: Value)
    requires Adds(r, stored)
    ensures Hollow(stored, named) <==> Hollow(r, named)
  {
    AddsZeros(r, stored);
    AddsMethod(r, stored, named);
  }

  /** t holds what a success left, and the comparison finds it in its table. */
  ghost predicate StoresSuccess(t: Task, e: HandlerEnd, seconds: real, table: C.Table, run: RunId, key: string) {
    && RecordOf(t, e, seconds) && t.status == TaskStatus.Succeeded
    && HasResult(table, run, key) && table[run][key].result == t.result
  }

  /** The comparison validates what a success left in its task's record again, without the payload's method. It raises
      exactly when the result's own method has no `lower()`, and excludes the result exactly when that method is an
      adapter without trainable parameters. */
  lemma StoredSuccessExactly(t: Task, payload: Payload, k: nat, limits: Limits, e: HandlerEnd, seconds: real,
                             table: C.Table, run: RunId, key: string)
    requires !NoAnswer(payload, k, limits, e) && StoresSuccess(t, e, seconds, table, run, key)
    ensures C.Crashes(table, run, key) <==> !Nameable(MethodInForce(e.result, Null))
    ensures C.Excluded(table, run, key) <==>
            Nameable(MethodInForce(e.result, Null)) && NothingToTrain(e.result, Null)
  {
    var stored := t.result.value;
    KeepsAdds(e, stored, seconds);
    AddsNoFault(e.result, stored);
    AddsNotTooLarge(e.result, stored);
    AddsMethod(e.result, stored, Null);
    AddsHollow(e.result, stored, Null);
    VerdictMeaning(stored, Null);
  }

  /** Where the payload names no method, a stored success neither stops the comparison nor is excluded from it. */
  lemma StoredSuccessIsNeverExcluded(t: Task, payload: Payload, k: nat, limits: Limits, e: HandlerEnd, seconds: real,
                                     table: C.Table, run: RunId, key: string)
    requires !NoAnswer(payload, k, limits, e) && StoresSuccess(t, e, seconds, table, run, key)
    requires e.Gave? && !Says(map["method" := e.left.methodName], "method")
    ensures !C.Crashes(table, run, key) && !C.Excluded(table, run, key)
  {
    StoredSuccessExactly(t, payload, k, limits, e, seconds, table, run, key);
    assert MethodInForce(e.result, Null) == MethodInForce(e.result, e.left.methodName);
  }
}
