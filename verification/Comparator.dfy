/** Comparing runs task by task, the first run being the baseline. */
module Comparator {
  import opened Lifecycle
  import opened Order
  import opened Records
  import Validator

  const LOWER_IS_BETTER: set<string> := {"loss", "val_loss", "loss_start", "loss_end"}

  type Thresholds = map<string, real>

  /** A run's tasks by key: what the comparison reads of each. */
  datatype Entry = Entry(status: TaskStatus, result: Option<ResultDict>)

  type Table = map<RunId, map<string, Entry>>

  datatype Side = Missing | Has(status: TaskStatus)

  datatype Comparison = Comparison(
    key: string,
    sides: map<RunId, Side>,
    deltas: map<RunId, map<string, real>>,
    metricRegressions: map<RunId, map<string, real>>,
    isRegression: bool,
    isImprovement: bool,
    excluded: set<RunId>)

  datatype Report = Report(
    comparisons: seq<Comparison>,
    regressions: seq<string>,
    improvements: seq<string>,
    metricRegressions: seq<string>)

  /** Strict mode refuses runs on different data; a stored result may make the validator raise. */
  datatype CompareFault = TooFewRuns | UnknownRun | NotComparable | ValidationCrashed

  /** The dataset hashes of each run. */
  type Hashes = map<RunId, map<string, string>>

  /** The one issue of `check_comparability` that is an error: both runs name their data, and not the same. */
  predicate DifferentData(hashes: Hashes, a: RunId, b: RunId)
    requires a in hashes && b in hashes
  {
    hashes[a] != map[] && hashes[b] != map[] && hashes[a] != hashes[b]
  }

  // ----- What one task's comparison says -----

  function SideOf(table: Table, run: RunId, key: string): Side {
    if run in table && key in table[run] then Has(table[run][key].status) else Missing
  }

  function ResultOf(table: Table, run: RunId, key: string): Option<ResultDict> {
    if run in table && key in table[run] then table[run][key].result else None
  }

  predicate FailSide(s: Side) {
    s == Missing || s.status in {TaskStatus.Failed, TimedOut, TaskStatus.Cancelled, Degenerate}
  }

  predicate OkSide(s: Side) {
    s == Has(Succeeded)
  }

  predicate Excluded(table: Table, run: RunId, key: string) {
    var r := ResultOf(table, run, key);
    r.Some? && Validator.StatusOf(r.value, Null).Ok? && !Validator.Accepted(Validator.StatusOf(r.value, Null).value)
  }

  predicate Crashes(table: Table, run: RunId, key: string) {
    var r := ResultOf(table, run, key);
    r.Some? && Validator.StatusOf(r.value, Null).Err?
  }

  /** `_numeric_metrics`: the finite numbers of a result. */
  function Metrics(r: Option<ResultDict>): map<string, real> {
    if r.None? then map[]
    else map k | k in r.value && Validator.FiniteNumber(r.value[k]) :: Validator.AsFloat(r.value[k]).r
  }

  /** New minus baseline for every metric both report, unless either result is excluded. */
  function Deltas(table: Table, base: RunId, run: RunId, key: string): map<string, real> {
    if Excluded(table, base, key) || Excluded(table, run, key) then map[]
    else
      var before := Metrics(ResultOf(table, base, key));
      var after := Metrics(ResultOf(table, run, key));
      map m | m in before && m in after && m != "wall_seconds" :: after[m] - before[m]
  }

  predicate IsMetricRegression(metric: string, delta: real, thresholds: Thresholds) {
    metric in thresholds
    && if metric in LOWER_IS_BETTER then delta > thresholds[metric] else delta < -thresholds[metric]
  }

  function Regressed(deltas: map<string, real>, thresholds: Thresholds): map<string, real> {
    map m | m in deltas && IsMetricRegression(m, deltas[m], thresholds) :: deltas[m]
  }

  predicate StatusRegression(table: Table, runIds: seq<RunId>, key: string)
    requires |runIds| > 0
  {
    OkSide(SideOf(table, runIds[0], key)) && exists r | r in runIds[1..] :: FailSide(SideOf(table, r, key))
  }

  predicate StatusImprovement(table: Table, runIds: seq<RunId>, key: string)
    requires |runIds| > 0
  {
    FailSide(SideOf(table, runIds[0], key)) && exists r | r in runIds[1..] :: OkSide(SideOf(table, r, key))
  }

  predicate MetricRegression(table: Table, runIds: seq<RunId>, key: string, thresholds: Thresholds)
    requires |runIds| > 0
  {
    SomeMetricRegresses(table, runIds[0], runIds[1..], key, thresholds)
  }

  predicate SomeMetricRegresses(table: Table, base: RunId, later: seq<RunId>, key: string, thresholds: Thresholds) {
    exists r | r in later :: Regressed(Deltas(table, base, r, key), thresholds) != map[]
  }

  /** The deltas of every later run against the baseline, and which of them regress. */
  ghost predicate ComparesMetrics(deltas: map<RunId, map<string, real>>, regressed: map<RunId, map<string, real>>,
                                  table: Table, base: RunId, later: seq<RunId>, key: string, thresholds: Thresholds) {
    && (forall r :: r in deltas <==> r in later) && (forall r :: r in regressed <==> r in later)
    && forall r :: r in later ==> deltas[r] == Deltas(table, base, r, key)
                                  && regressed[r] == Regressed(deltas[r], thresholds)
  }

  /** c compares the task as the data has it. */
  ghost predicate Compares(c: Comparison, table: Table, runIds: seq<RunId>, key: string, thresholds: Thresholds)
    requires |runIds| > 0
  {
    && c.key == key
    && (forall r :: r in c.sides <==> r in runIds) && (forall r :: r in runIds ==> c.sides[r] == SideOf(table, r, key))
    && ComparesMetrics(c.deltas, c.metricRegressions, table, runIds[0], runIds[1..], key, thresholds)
    && c.excluded == (set r | r in runIds && Excluded(table, r, key))
    && (c.isRegression <==> StatusRegression(table, runIds, key) || MetricRegression(table, runIds, key, thresholds))
    && (c.isImprovement <==> StatusImprovement(table, runIds, key))
  }

  // ----- The report -----

  ghost function AllKeys(table: Table, runIds: seq<RunId>): set<string> {
    set r, k | r in runIds && r in table && k in table[r] :: k
  }

  ghost predicate Ascending(xs: seq<string>) {
    forall i, j :: 0 <= i < j < |xs| ==> LexLess(xs[i], xs[j])
  }

  /** xs lists the chosen keys in text order. */
  ghost predicate Selects(xs: seq<string>, chosen: set<string>) {
    Ascending(xs) && forall k :: k in xs <==> k in chosen
  }

  lemma EmptySelection(xs: seq<string>, chosen: set<string>)
    requires Selects(xs, chosen)
    ensures xs == [] <==> chosen == {}
  {
    if xs != [] {
      assert xs[0] in xs;
    }
  }

  lemma {:induction false} SelectionIsUnique(xs: seq<string>, ys: seq<string>, chosen: set<string>)
    requires Selects(xs, chosen) && Selects(ys, chosen)
    ensures xs == ys
  {
    if xs == [] || ys == [] {
      EmptySelection(xs, chosen);
      EmptySelection(ys, chosen);
    } else {
      assert xs[0] in ys && ys[0] in xs;
      var i :| 0 <= i < |ys| && ys[i] == xs[0];
      var j :| 0 <= j < |xs| && xs[j] == ys[0];
      if i > 0 && j > 0 {
        LexAsymmetric(xs[0], ys[0]);
      }
      var rest := chosen - {xs[0]};
      TailSelects(xs, chosen);
      TailSelects(ys, chosen);
      SelectionIsUnique(xs[1..], ys[1..], rest);
      assert xs == [xs[0]] + xs[1..] && ys == [ys[0]] + ys[1..];
    }
  }

  lemma TailSelects(xs: seq<string>, chosen: set<string>)
    requires |xs| > 0 && Selects(xs, chosen)
    ensures Selects(xs[1..], chosen - {xs[0]})
  {
    assert xs == [xs[0]] + xs[1..];
    forall i | 0 <= i < |xs[1..]| ensures xs[1..][i] != xs[0] {
      LexAsymmetric(xs[0], xs[i + 1]);
    }
  }

  ghost function RegressionsAmong(keys: set<string>, table: Table, runIds: seq<RunId>): set<string>
    requires |runIds| > 0
  {
    set k | k in keys && StatusRegression(table, runIds, k)
  }

  ghost function ImprovementsAmong(keys: set<string>, table: Table, runIds: seq<RunId>): set<string>
    requires |runIds| > 0
  {
    set k | k in keys && StatusImprovement(table, runIds, k)
  }

  /** A task already counted as a regression by status is not counted again by metric. */
  ghost function MetricRegressionsAmong(keys: set<string>, table: Table, runIds: seq<RunId>, thresholds: Thresholds)
    : set<string>
    requires |runIds| > 0
  {
    set k | k in keys && MetricRegression(table, runIds, k, thresholds) && !StatusRegression(table, runIds, k)
  }

  /** rep reports on these keys. */
  ghost predicate ReportsOn(rep: Report, keys: set<string>, table: Table, runIds: seq<RunId>, thresholds: Thresholds)
    requires |runIds| > 0
  {
    && Selects(rep.regressions, RegressionsAmong(keys, table, runIds))
    && Selects(rep.improvements, ImprovementsAmong(keys, table, runIds))
    && Selects(rep.metricRegressions, MetricRegressionsAmong(keys, table, runIds, thresholds))
    && Selects(Keys(rep.comparisons), keys)
    && AllCompare(rep.comparisons, table, runIds, thresholds)
  }

  ghost predicate AllCompare(cs: seq<Comparison>, table: Table, runIds: seq<RunId>, thresholds: Thresholds)
    requires |runIds| > 0
  {
    forall i :: 0 <= i < |cs| ==> Compares(cs[i], table, runIds, cs[i].key, thresholds)
  }

  ghost predicate Reports(rep: Report, table: Table, runIds: seq<RunId>, thresholds: Thresholds)
    requires |runIds| > 0
  {
    ReportsOn(rep, AllKeys(table, runIds), table, runIds, thresholds)
  }

  function Keys(cs: seq<Comparison>): seq<string> {
    seq(|cs|, i requires 0 <= i < |cs| => cs[i].key)
  }

  // ----- The algorithm -----

  method CompareSides(table: Table, runIds: seq<RunId>, key: string)
    returns (sides: map<RunId, Side>, excluded: set<RunId>)
    ensures (forall r :: r in sides <==> r in runIds) && forall r :: r in runIds ==> sides[r] == SideOf(table, r, key)
    ensures excluded == set r | r in runIds && Excluded(table, r, key)
  {
    sides, excluded := map[], {};
    for i := 0 to |runIds|
      invariant forall r :: r in sides <==> r in runIds[..i]
      invariant forall r :: r in sides ==> sides[r] == SideOf(table, r, key)
      invariant excluded == set r | r in runIds[..i] && Excluded(table, r, key)
    {
      sides := sides[runIds[i] := SideOf(table, runIds[i], key)];
      if Excluded(table, runIds[i], key) {
        excluded := excluded + {runIds[i]};
      }
      assert runIds[..i + 1] == runIds[..i] + [runIds[i]];
    }
    assert runIds[..|runIds|] == runIds;
  }

  lemma OneMore(later: seq<RunId>, i: nat, r: RunId)
    requires i < |later|
    ensures r in later[..i + 1] <==> r in later[..i] || r == later[i]
  {
    assert later[..i + 1] == later[..i] + [later[i]];
  }

  /** One more later run, with its deltas and those of them that regress. */
  lemma OneMoreRun(deltas: map<RunId, map<string, real>>, regressed: map<RunId, map<string, real>>, table: Table,
                   base: RunId, later: seq<RunId>, i: nat, key: string, thresholds: Thresholds)
    requires i < |later| && ComparesMetrics(deltas, regressed, table, base, later[..i], key, thresholds)
    ensures var d := Deltas(table, base, later[i], key);
            ComparesMetrics(deltas[later[i] := d], regressed[later[i] := Regressed(d, thresholds)], table, base,
                            later[..i + 1], key, thresholds)
  {
    var d := Deltas(table, base, later[i], key);
    var bad := Regressed(d, thresholds);
    var ds, bs := deltas[later[i] := d], regressed[later[i] := bad];
    forall r ensures (r in ds <==> r in later[..i + 1]) && (r in bs <==> r in later[..i + 1])
                     && (r in ds && r in bs ==>
                         ds[r] == Deltas(table, base, r, key) && bs[r] == Regressed(ds[r], thresholds)) {
      OneMore(later, i, r);
      if r == later[i] {
        assert ds[r] == d && bs[r] == bad;
      }
    }
  }

  lemma OneMoreRegresses(table: Table, base: RunId, later: seq<RunId>, i: nat, key: string, thresholds: Thresholds)
    requires i < |later|
    ensures SomeMetricRegresses(table, base, later[..i + 1], key, thresholds) <==>
            SomeMetricRegresses(table, base, later[..i], key, thresholds)
            || Regressed(Deltas(table, base, later[i], key), thresholds) != map[]
  {
    forall r ensures r in later[..i + 1] <==> r in later[..i] || r == later[i] {
      OneMore(later, i, r);
    }
  }

  method CompareMetrics(table: Table, base: RunId, later: seq<RunId>, key: string, thresholds: Thresholds)
    returns (deltas: map<RunId, map<string, real>>, regressed: map<RunId, map<string, real>>, anyRegressed: bool)
    ensures ComparesMetrics(deltas, regressed, table, base, later, key, thresholds)
    ensures anyRegressed <==> SomeMetricRegresses(table, base, later, key, thresholds)
  {
    deltas, regressed, anyRegressed := map[], map[], false;
    for i := 0 to |later|
      invariant ComparesMetrics(deltas, regressed, table, base, later[..i], key, thresholds)
      invariant anyRegressed <==> SomeMetricRegresses(table, base, later[..i], key, thresholds)
    {
      var d := Deltas(table, base, later[i], key);
      var bad := Regressed(d, thresholds);
      OneMoreRun(deltas, regressed, table, base, later, i, key, thresholds);
      OneMoreRegresses(table, base, later, i, key, thresholds);
      deltas, regressed := deltas[later[i] := d], regressed[later[i] := bad];
      anyRegressed := anyRegressed || bad != map[];
    }
    assert later[..|later|] == later;
  }

  method CompareStatuses(table: Table, runIds: seq<RunId>, key: string) returns (regression: bool, improvement: bool)
    requires |runIds| > 0
    ensures regression <==> StatusRegression(table, runIds, key)
    ensures improvement <==> StatusImprovement(table, runIds, key)
  {
    var base, later := runIds[0], runIds[1..];
    var anyFail, anyOk := false, false;
    for i := 0 to |later|
      invariant anyFail <==> exists r | r in later[..i] :: FailSide(SideOf(table, r, key))
      invariant anyOk <==> exists r | r in later[..i] :: OkSide(SideOf(table, r, key))
    {
      assert later[..i + 1] == later[..i] + [later[i]];
      anyFail := anyFail || FailSide(SideOf(table, later[i], key));
      anyOk := anyOk || OkSide(SideOf(table, later[i], key));
    }
    assert later[..|later|] == later;
    regression, improvement := OkSide(SideOf(table, base, key)) && anyFail, FailSide(SideOf(table, base, key)) && anyOk;
  }

  method CompareTask(table: Table, runIds: seq<RunId>, key: string, thresholds: Thresholds)
    returns (c: Comparison, byStatus: bool, byMetric: bool)
    requires |runIds| > 0
    ensures Compares(c, table, runIds, key, thresholds) && c.key == key
    ensures byStatus <==> StatusRegression(table, runIds, key)
    ensures byMetric <==> MetricRegression(table, runIds, key, thresholds)
    ensures c.isImprovement <==> StatusImprovement(table, runIds, key)
  {
    var sides, excluded := CompareSides(table, runIds, key);
    var deltas, regressed, anyRegressed := CompareMetrics(table, runIds[0], runIds[1..], key, thresholds);
    var isImprovement;
    byStatus, isImprovement := CompareStatuses(table, runIds, key);
    byMetric := anyRegressed;
    c := Comparison(key, sides, deltas, regressed, byStatus || byMetric, isImprovement, excluded);
  }

  lemma AppendAscending(xs: seq<string>, k: string)
    requires Ascending(xs) && forall x :: x in xs ==> LexLess(x, k)
    ensures Ascending(xs + [k])
  {}

  /** The keys still to come all follow the ones done. */
  ghost predicate Split(all: set<string>, done: set<string>, rest: set<string>) {
    all == done + rest && forall d, k :: d in done && k in rest ==> LexLess(d, k)
  }

  lemma NextKey(all: set<string>, done: set<string>, rest: set<string>, k: string)
    requires Split(all, done, rest) && k in rest && forall t :: t in rest && t != k ==> LexLess(k, t)
    ensures Split(all, done + {k}, rest - {k})
    ensures k !in done
  {
    if k in done { LexAsymmetric(k, k); }
  }

  /** One more key, after all those done, joins the selection exactly when it is chosen. */
  lemma GrowSelection(xs: seq<string>, chosen: set<string>, chosen': set<string>, done: set<string>, k: string,
                      add: bool)
    requires Selects(xs, chosen) && chosen <= done && forall d :: d in done ==> LexLess(d, k)
    requires forall d :: d in chosen' <==> d in chosen || (d == k && add)
    ensures Selects(if add then xs + [k] else xs, chosen')
  {}

  method AllTaskKeys(table: Table, runIds: seq<RunId>) returns (keys: set<string>)
    requires forall r :: r in runIds ==> r in table
    ensures keys == AllKeys(table, runIds)
  {
    keys := {};
    for i := 0 to |runIds|
      invariant keys == AllKeys(table, runIds[..i])
    {
      assert runIds[..i + 1] == runIds[..i] + [runIds[i]];
      assert runIds[i] in runIds;
      keys := keys + table[runIds[i]].Keys;
    }
    assert runIds[..|runIds|] == runIds;
  }

  /** One more key, after all the keys done. */
  method AddComparison(rep: Report, ghost done: set<string>, key: string, table: Table, runIds: seq<RunId>,
                       thresholds: Thresholds) returns (rep': Report)
    requires |runIds| > 0 && ReportsOn(rep, done, table, runIds, thresholds)
    requires forall d :: d in done ==> LexLess(d, key)
    ensures ReportsOn(rep', done + {key}, table, runIds, thresholds)
  {
    var c, byStatus, byMetric := CompareTask(table, runIds, key, thresholds);
    rep' := Report(
      rep.comparisons + [c],
      if byStatus then rep.regressions + [key] else rep.regressions,
      if c.isImprovement then rep.improvements + [key] else rep.improvements,
      if byMetric && !byStatus then rep.metricRegressions + [key] else rep.metricRegressions);
    GrowSelections(rep, done, key, table, runIds, thresholds);
    GrowComparisons(rep.comparisons, done, c, table, runIds, thresholds);
  }

  lemma GrowComparisons(cs: seq<Comparison>, done: set<string>, c: Comparison, table: Table, runIds: seq<RunId>,
                        thresholds: Thresholds)
    requires |runIds| > 0 && Selects(Keys(cs), done) && AllCompare(cs, table, runIds, thresholds)
    requires Compares(c, table, runIds, c.key, thresholds) && forall d :: d in done ==> LexLess(d, c.key)
    ensures Selects(Keys(cs + [c]), done + {c.key}) && AllCompare(cs + [c], table, runIds, thresholds)
  {
    AppendAscending(Keys(cs), c.key);
    assert Keys(cs + [c]) == Keys(cs) + [c.key];
  }

  lemma GrowSelections(rep: Report, done: set<string>, key: string, table: Table, runIds: seq<RunId>,
                       thresholds: Thresholds)
    requires |runIds| > 0 && ReportsOn(rep, done, table, runIds, thresholds)
    requires forall d :: d in done ==> LexLess(d, key)
    ensures Selects(if StatusRegression(table, runIds, key) then rep.regressions + [key] else rep.regressions,
                    RegressionsAmong(done + {key}, table, runIds))
    ensures Selects(if StatusImprovement(table, runIds, key) then rep.improvements + [key] else rep.improvements,
                    ImprovementsAmong(done + {key}, table, runIds))
    ensures Selects(if MetricRegression(table, runIds, key, thresholds) && !StatusRegression(table, runIds, key)
                    then rep.metricRegressions + [key] else rep.metricRegressions,
                    MetricRegressionsAmong(done + {key}, table, runIds, thresholds))
  {
    GrowSelection(rep.regressions, RegressionsAmong(done, table, runIds), RegressionsAmong(done + {key}, table, runIds),
                  done, key, StatusRegression(table, runIds, key));
    GrowSelection(rep.improvements, ImprovementsAmong(done, table, runIds),
                  ImprovementsAmong(done + {key}, table, runIds),
                  done, key, StatusImprovement(table, runIds, key));
    GrowSelection(rep.metricRegressions, MetricRegressionsAmong(done, table, runIds, thresholds),
                  MetricRegressionsAmong(done + {key}, table, runIds, thresholds), done, key,
                  MetricRegression(table, runIds, key, thresholds) && !StatusRegression(table, runIds, key));
  }

  /** Validating the stored results of one task raises. */
  predicate SomeCrash(table: Table, runIds: seq<RunId>, key: string) {
    exists r | r in runIds :: Crashes(table, r, key)
  }

  /** Some later run was made on other data than the baseline. */
  predicate SomeDifferentData(hashes: Hashes, runIds: seq<RunId>)
    requires |runIds| > 0 && forall r :: r in runIds ==> r in hashes
  {
    exists i | 0 < i < |runIds| :: (assert runIds[i] in runIds; DifferentData(hashes, runIds[0], runIds[i]))
  }

  /** `compare_runs`, over the runs and tasks of the store. */
  method CompareRuns(runIds: seq<RunId>, hashes: Hashes, table: Table, thresholds: Thresholds, strict: bool)
    returns (out: Result<Report, CompareFault>)
    requires hashes.Keys == table.Keys
    ensures |runIds| < 2 <==> out == Err(TooFewRuns)
    ensures |runIds| >= 2 ==> ((exists r :: r in runIds && r !in table) <==> out == Err(UnknownRun))
    ensures |runIds| >= 2 && (forall r :: r in runIds ==> r in table) ==>
              && (strict && SomeDifferentData(hashes, runIds) <==> out == Err(NotComparable))
              && (out != Err(NotComparable) ==>
                    ((exists k :: k in AllKeys(table, runIds) && SomeCrash(table, runIds, k)) <==>
                     out == Err(ValidationCrashed)))
    ensures out.Ok? ==> |runIds| >= 2 && Reports(out.value, table, runIds, thresholds)
  {
    if |runIds| < 2 {
      return Err(TooFewRuns);
    }
    if exists r | r in runIds :: r !in table {
      return Err(UnknownRun);
    }
    if strict && SomeDifferentData(hashes, runIds) {
      return Err(NotComparable);
    }
    out := CompareAll(runIds, table, thresholds);
  }

  /** All keys of all runs in text order. */
  method CompareAll(runIds: seq<RunId>, table: Table, thresholds: Thresholds)
    returns (out: Result<Report, CompareFault>)
    requires |runIds| >= 2 && forall r :: r in runIds ==> r in table
    ensures out.Err? ==> out.error == ValidationCrashed
    ensures out.Err? <==> exists k :: k in AllKeys(table, runIds) && SomeCrash(table, runIds, k)
    ensures out.Ok? ==> Reports(out.value, table, runIds, thresholds)
  {
    var all := AllTaskKeys(table, runIds);
    var rest, rep := all, Report([], [], [], []);
    ghost var done: set<string> := {};
    while rest != {}
      invariant Split(all, done, rest) && ReportsOn(rep, done, table, runIds, thresholds)
      invariant forall k :: k in done ==> !SomeCrash(table, runIds, k)
      decreases |rest|
    {
      ghost var least := LexLeast(rest);
      var key :| key in rest && forall t | t in rest :: t == key || LexLess(key, t);
      NextKey(all, done, rest, key);
      if SomeCrash(table, runIds, key) {
        return Err(ValidationCrashed);
      }
      rep := AddComparison(rep, done, key, table, runIds, thresholds);
      done, rest := done + {key}, rest - {key};
    }
    assert done == all;
    out := Ok(rep);
  }

  // ----- Swapping the baseline -----

  /** With two distinct runs, swapping the baseline exchanges regressions with improvements. */
  lemma SwapExchangesStatus(table: Table, a: RunId, b: RunId, key: string)
    ensures StatusRegression(table, [a, b], key) <==> StatusImprovement(table, [b, a], key)
  {}

  /** Swapping the baseline negates every metric delta, and neither adds nor loses one. */
  lemma SwapNegatesDeltas(table: Table, a: RunId, b: RunId, key: string)
    ensures Deltas(table, a, b, key).Keys == Deltas(table, b, a, key).Keys
    ensures forall m :: m in Deltas(table, a, b, key) ==> Deltas(table, a, b, key)[m] == -Deltas(table, b, a, key)[m]
  {}

  lemma SwapSelections(keys: set<string>, table: Table, a: RunId, b: RunId)
    ensures RegressionsAmong(keys, table, [a, b]) == ImprovementsAmong(keys, table, [b, a])
  {}

  lemma SwapDeltas(c: Comparison, d: Comparison, table: Table, a: RunId, b: RunId, key: string, thresholds: Thresholds)
    requires Compares(c, table, [a, b], key, thresholds) && Compares(d, table, [b, a], key, thresholds)
    ensures b in c.deltas && a in d.deltas && c.deltas[b].Keys == d.deltas[a].Keys
    ensures forall m :: m in c.deltas[b] ==> c.deltas[b][m] == -d.deltas[a][m]
  {
    assert [a, b][1..] == [b] && [b, a][1..] == [a];
    SwapNegatesDeltas(table, a, b, key);
  }

  /** Swapping the baseline of two runs exchanges the lists of regressions and improvements, keeps the tasks compared,
      and negates every metric delta. */
  lemma SwapDuality(forward: Report, backward: Report, table: Table, a: RunId, b: RunId, thresholds: Thresholds)
    requires a != b && Reports(forward, table, [a, b], thresholds) && Reports(backward, table, [b, a], thresholds)
    ensures forward.regressions == backward.improvements && forward.improvements == backward.regressions
    ensures Keys(forward.comparisons) == Keys(backward.comparisons)
    ensures forall i :: 0 <= i < |forward.comparisons| ==>
              var c, d := forward.comparisons[i], backward.comparisons[i];
              && b in c.deltas && a in d.deltas && c.deltas[b].Keys == d.deltas[a].Keys
              && forall m :: m in c.deltas[b] ==> c.deltas[b][m] == -d.deltas[a][m]
  {
    var keys := AllKeys(table, [a, b]);
    assert keys == AllKeys(table, [b, a]);
    SwapSelections(keys, table, a, b);
    SwapSelections(keys, table, b, a);
    SelectionIsUnique(forward.regressions, backward.improvements, RegressionsAmong(keys, table, [a, b]));
    SelectionIsUnique(forward.improvements, backward.regressions, ImprovementsAmong(keys, table, [a, b]));
    SelectionIsUnique(Keys(forward.comparisons), Keys(backward.comparisons), keys);
    forall i | 0 <= i < |forward.comparisons|
      ensures var c, d := forward.comparisons[i], backward.comparisons[i];
              && b in c.deltas && a in d.deltas && c.deltas[b].Keys == d.deltas[a].Keys
              && forall m :: m in c.deltas[b] ==> c.deltas[b][m] == -d.deltas[a][m]
    {
      var k := Keys(forward.comparisons)[i];
      assert k == Keys(backward.comparisons)[i];
      SwapDeltas(forward.comparisons[i], backward.comparisons[i], table, a, b, k, thresholds);
    }
  }

  /** No task is a regression and an improvement by status at once, whatever the list of runs. */
  lemma NeverBoth(rep: Report, table: Table, runIds: seq<RunId>, thresholds: Thresholds)
    requires |runIds| > 0 && Reports(rep, table, runIds, thresholds)
    ensures forall k :: k in rep.regressions ==> k !in rep.improvements
    ensures forall k :: k in rep.metricRegressions ==> k !in rep.regressions
  {}

  /** A metric delta and its negative both regress exactly when the threshold is negative and the delta is within it. */
  lemma RegressesBothWaysExactly(metric: string, delta: real, thresholds: Thresholds)
    ensures IsMetricRegression(metric, delta, thresholds) && IsMetricRegression(metric, -delta, thresholds) <==>
            metric in thresholds && thresholds[metric] < 0.0 && thresholds[metric] < delta < -thresholds[metric]
  {}

  /** With nonnegative thresholds no metric regresses in both directions of a comparison. */
  lemma NoMetricRegressesBothWays(table: Table, a: RunId, b: RunId, key: string, metric: string, thresholds: Thresholds)
    requires metric in thresholds ==> thresholds[metric] >= 0.0
    ensures !(metric in Regressed(Deltas(table, a, b, key), thresholds)
              && metric in Regressed(Deltas(table, b, a, key), thresholds))
  {
    SwapNegatesDeltas(table, a, b, key);
    if metric in Deltas(table, a, b, key) {
      RegressesBothWaysExactly(metric, Deltas(table, a, b, key)[metric], thresholds);
    }
  }
}
