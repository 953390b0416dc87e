/** The result validator: is a handler's result trustworthy, whatever its performance? */
module Validator {
  import opened Records

  const ADAPTER_METHODS: set<string> := {"lora", "adalora", "ia3", "prefix", "prompt", "adapter"}

  const BOUNDED_METRICS: set<string> := {
    "accuracy", "f1", "f1_macro", "f1_micro", "f1_weighted",
    "precision", "recall", "auc", "roc_auc", "balanced_accuracy"
  }

  const NON_NEGATIVE_METRICS: set<string> := {"loss", "loss_start", "loss_end", "val_loss"}

  /** The entries besides metrics that some check looks up. */
  const READ_BY_NAME: set<string> := {
    "caught_exception", "method", "technique", "eval_examples", "predictions_non_empty", "adapter_loaded",
    "trainable_params", "total_params", "predictions_constant", "all_zeros_expected"
  }

  const TOP_METRICS: seq<string> := ["accuracy", "f1", "auc", "roc_auc"]

  datatype Status = Validated | WithWarnings | FailedValidation | DegenerateResult

  datatype Issue =
    | NotADict
    | CaughtException
    | MetricNaN(key: string)
    | MetricInf(key: string)
    | OutOfRange(key: string)
    | NegativeLoss(key: string)
    | NoEvalExamples
    | EmptyPredictions
    | AdapterNotLoaded
    | NoTrainableParams
    | MoreTrainableThanTotal
    | AllMetricsZero

  datatype Outcome = Outcome(
    status: Status,
    poorPerformance: Option<bool>,
    errors: seq<Issue>,
    constantPredictions: bool)

  /** The OverflowError of converting an int too large for a float, and the AttributeError of calling `.lower()` on a
      method name that is not text. */
  datatype Crash = IntegerTooLarge | MethodIsNotText

  // ----- Python values -----

  /** The numbers a float can hold. */
  predicate Numeric(v: Value) {
    v.Number? || v.Bool?
  }

  /** `float(v)`; a bool counts as a number. */
  function AsFloat(v: Value): Float
    requires Numeric(v)
  {
    match v
    case Number(f) => f
    case Bool(b) => Finite(if b then 1.0 else 0.0)
  }

  predicate Truthy(v: Value) {
    match v
    case Number(f) => f != Finite(0.0)
    case Huge => true
    case Bool(b) => b
    case Text(s) => s != ""
    case Null => false
    case Other(t, _, _) => t
  }

  predicate Greater(a: Float, b: Float) {
    match (a, b)
    case (Finite(x), Finite(y)) => x > y
    case (PosInf, Finite(_)) => true
    case (PosInf, NegInf) => true
    case (Finite(_), NegInf) => true
    case _ => false
  }

  function Get(r: ResultDict, key: string): Value {
    if key in r then r[key] else Null
  }

  function LowerChar(c: char): char {
    if 'A' <= c <= 'Z' then c - 'A' + 'a' else c
  }

  function Lower(s: string): (t: string)
    ensures |t| == |s|
  {
    if s == "" then "" else [LowerChar(s[0])] + Lower(s[1..])
  }

  // ----- The checks -----

  /** The method argument if it says anything, else the result's own method, else its technique. */
  function EffectiveMethod(r: ResultDict, methodName: Value): Value {
    if Truthy(methodName) then methodName
    else if Truthy(Get(r, "method")) then Get(r, "method")
    else Get(r, "technique")
  }

  /** `lower()` raises. */
  predicate NotTextLike(v: Value) {
    !v.Null? && !v.Text? && !(v.Other? && v.lowers)
  }

  predicate IsAdapter(v: Value) {
    v.Text? && Lower(v.s) in ADAPTER_METHODS
  }

  /** The numeric check of one entry of the result. */
  function MetricIssue(key: string, v: Value): Option<Issue> {
    if !Numeric(v) then None
    else
      match AsFloat(v) {
        case NaN => Some(MetricNaN(key))
        case PosInf => Some(MetricInf(key))
        case NegInf => Some(MetricInf(key))
        case Finite(x) =>
          if key in BOUNDED_METRICS && !(0.0 <= x <= 1.0) then Some(OutOfRange(key))
          else if key in NON_NEGATIVE_METRICS && x < 0.0 then Some(NegativeLoss(key))
          else None
      }
  }

  predicate EvaluatedNothing(r: ResultDict) {
    var v := Get(r, "eval_examples");
    Numeric(v) && (AsFloat(v) == NegInf || (AsFloat(v).Finite? && AsFloat(v).r <= 0.0))
  }

  predicate ZeroTrainable(r: ResultDict) {
    Numeric(Get(r, "trainable_params")) && AsFloat(Get(r, "trainable_params")) == Finite(0.0)
  }

  predicate TrainableExceedsTotal(r: ResultDict) {
    && Numeric(Get(r, "trainable_params")) && Numeric(Get(r, "total_params"))
    && Greater(AsFloat(Get(r, "trainable_params")), AsFloat(Get(r, "total_params")))
  }

  predicate SomeBounded(r: ResultDict) {
    exists k | k in BOUNDED_METRICS :: Numeric(Get(r, k))
  }

  predicate AllBoundedZero(r: ResultDict) {
    && SomeBounded(r)
    && (forall k | k in BOUNDED_METRICS :: Numeric(Get(r, k)) ==> AsFloat(Get(r, k)) == Finite(0.0))
    && !Truthy(Get(r, "all_zeros_expected"))
  }

  predicate HasError(r: ResultDict) {
    || Truthy(Get(r, "caught_exception"))
    || (exists k | k in r :: MetricIssue(k, r[k]).Some?)
    || EvaluatedNothing(r)
  }

  predicate IsDegenerate(r: ResultDict, methodName: Value) {
    || Get(r, "predictions_non_empty") == Bool(false)
    || Get(r, "adapter_loaded") == Bool(false)
    || (IsAdapter(EffectiveMethod(r, methodName)) && ZeroTrainable(r))
    || TrainableExceedsTotal(r)
    || AllBoundedZero(r)
  }

  predicate HasHuge(r: ResultDict) {
    exists k | k in r :: r[k].Huge?
  }

  /** The verdict, independently of the order of the entries. */
  function StatusOf(r: ResultDict, methodName: Value): Result<Status, Crash> {
    if HasHuge(r) then Err(IntegerTooLarge)
    else if NotTextLike(EffectiveMethod(r, methodName)) then Err(MethodIsNotText)
    else if HasError(r) then Ok(FailedValidation)
    else if IsDegenerate(r, methodName) then Ok(DegenerateResult)
    else if Get(r, "predictions_constant") == Bool(true) then Ok(WithWarnings)
    else Ok(Validated)
  }

  // ----- The validator -----

  /** `order` is the insertion order of the dictionary. */
  ghost predicate IsOrder(order: seq<string>, r: ResultDict) {
    (forall k :: k in order <==> k in r) && forall i, j :: 0 <= i < j < |order| ==> order[i] != order[j]
  }

  /** The issues of the numeric check, in dictionary order. */
  function MetricIssues(r: ResultDict, order: seq<string>, n: nat): seq<Issue>
    requires n <= |order|
  {
    if n == 0 then []
    else
      var issue := MetricIssue(order[n - 1], Get(r, order[n - 1]));
      MetricIssues(r, order, n - 1) + if issue.Some? then [issue.value] else []
  }

  lemma {:induction false} MetricIssuesEmpty(r: ResultDict, order: seq<string>, n: nat)
    requires n <= |order|
    ensures MetricIssues(r, order, n) == [] <==>
            forall i :: 0 <= i < n ==> MetricIssue(order[i], Get(r, order[i])).None?
  {
    if n == 0 {
    } else {
      MetricIssuesEmpty(r, order, n - 1);
    }
  }

  function ErrorsOf(r: ResultDict, order: seq<string>): seq<Issue> {
    (if Truthy(Get(r, "caught_exception")) then [CaughtException] else [])
    + MetricIssues(r, order, |order|)
    + if EvaluatedNothing(r) then [NoEvalExamples] else []
  }

  lemma ErrorsExactly(r: ResultDict, order: seq<string>)
    requires IsOrder(order, r)
    ensures ErrorsOf(r, order) != [] <==> HasError(r)
  {
    MetricIssuesEmpty(r, order, |order|);
    if k :| k in r && MetricIssue(k, r[k]).Some? {
      var i :| 0 <= i < |order| && order[i] == k;
      assert MetricIssue(order[i], Get(r, order[i])).Some?;
    }
    if i :| 0 <= i < |order| && MetricIssue(order[i], Get(r, order[i])).Some? {
      assert order[i] in order;
      assert MetricIssue(order[i], r[order[i]]).Some?;
    }
  }

  /** The checks that make a result unusable: a caught exception, impossible metric values, an empty evaluation. None
      when converting an entry to a float raises. */
  method CollectErrors(r: ResultDict, order: seq<string>) returns (errors: Option<seq<Issue>>)
    requires IsOrder(order, r)
    ensures errors.None? <==> HasHuge(r)
    ensures errors.Some? ==> errors.value == ErrorsOf(r, order) && (errors.value != [] <==> HasError(r))
  {
    var found := if Truthy(Get(r, "caught_exception")) then [CaughtException] else [];
    ghost var first := found;
    for i := 0 to |order|
      invariant found == first + MetricIssues(r, order, i)
      invariant forall j :: 0 <= j < i ==> !Get(r, order[j]).Huge?
    {
      if Get(r, order[i]).Huge? {
        assert order[i] in order;
        return None;
      }
      var issue := MetricIssue(order[i], Get(r, order[i]));
      if issue.Some? {
        found := found + [issue.value];
      }
    }
    NoneIsHuge(r, order);
    if EvaluatedNothing(r) {
      found := found + [NoEvalExamples];
    }
    ErrorsExactly(r, order);
    errors := Some(found);
  }

  lemma NoneIsHuge(r: ResultDict, order: seq<string>)
    requires IsOrder(order, r) && forall j :: 0 <= j < |order| ==> !Get(r, order[j]).Huge?
    ensures !HasHuge(r)
  {
    forall k | k in r ensures !r[k].Huge? {
      var j :| 0 <= j < |order| && order[j] == k;
    }
  }

  method ValidateResult(result: Option<ResultDict>, order: seq<string>, methodName: Value)
    returns (out: Result<Outcome, Crash>)
    requires result.Some? ==> IsOrder(order, result.value)
    ensures result.None? ==> out == Ok(Outcome(FailedValidation, None, [NotADict], false))
    ensures result.Some? && out.Err? ==> StatusOf(result.value, methodName) == Err(out.error)
    ensures result.Some? && out.Ok? ==> StatusOf(result.value, methodName) == Ok(out.value.status)
    ensures result.Some? && out.Ok? ==>
              (out.value.errors == [] <==> out.value.status in {Validated, WithWarnings})
    ensures result.Some? && out.Ok? && HasError(result.value) ==>
              out.value.errors == ErrorsOf(result.value, order)
    ensures result.Some? && out.Ok? && out.value.status == DegenerateResult ==>
              out.value.errors == DegeneracyReasons(result.value, methodName)
    ensures result.Some? && out.Ok? ==>
              && out.value.poorPerformance == PoorPerformance(result.value)
              && (out.value.constantPredictions <==> Get(result.value, "predictions_constant") == Bool(true))
  {
    if result.None? {
      return Ok(Outcome(FailedValidation, None, [NotADict], false));
    }
    var r := result.value;
    var found := CollectErrors(r, order);
    if found.None? {
      return Err(IntegerTooLarge);
    }
    var errors := found.value;
    if NotTextLike(EffectiveMethod(r, methodName)) {
      return Err(MethodIsNotText);
    }
    var reasons := DegeneracyReasons(r, methodName);
    var constant := Get(r, "predictions_constant") == Bool(true);
    var poor := PoorPerformance(r);
    if errors != [] {
      out := Ok(Outcome(FailedValidation, poor, errors, constant));
    } else if reasons != [] {
      out := Ok(Outcome(DegenerateResult, poor, reasons, constant));
    } else {
      out := Ok(Outcome(if constant then WithWarnings else Validated, poor, [], constant));
    }
  }

  function If(condition: bool, issue: Issue): seq<Issue> {
    if condition then [issue] else []
  }

  function DegeneracyReasons(r: ResultDict, methodName: Value): (reasons: seq<Issue>)
    ensures reasons != [] <==> IsDegenerate(r, methodName)
  {
    If(Get(r, "predictions_non_empty") == Bool(false), EmptyPredictions)
    + If(Get(r, "adapter_loaded") == Bool(false), AdapterNotLoaded)
    + If(IsAdapter(EffectiveMethod(r, methodName)) && ZeroTrainable(r), NoTrainableParams)
    + If(TrainableExceedsTotal(r), MoreTrainableThanTotal)
    + If(AllBoundedZero(r), AllMetricsZero)
  }

  /** `max(.., default=None)` over the first n top metrics: a later value wins only when it compares greater. */
  function TopMetric(r: ResultDict, n: nat): Option<Float>
    requires n <= |TOP_METRICS|
  {
    if n == 0 then None
    else
      var best := TopMetric(r, n - 1);
      var v := Get(r, TOP_METRICS[n - 1]);
      if !Numeric(v) then best
      else if best.None? || Greater(AsFloat(v), best.value) then Some(AsFloat(v))
      else best
  }

  /** The value of the i-th top metric, when it is a number. */
  function TopValue(r: ResultDict, i: nat): Option<Float>
    requires i < |TOP_METRICS|
  {
    var v := Get(r, TOP_METRICS[i]);
    if Numeric(v) then Some(AsFloat(v)) else None
  }

  /** The top metric is one of the numbers reported, and no other compares greater; there is none only if none of them
      is a number. A NaN that comes first stays, since nothing compares greater. */
  lemma {:induction false} TopMetricIsGreatest(r: ResultDict, n: nat)
    requires n <= |TOP_METRICS|
    ensures TopMetric(r, n).None? <==> forall i: nat :: i < n ==> TopValue(r, i).None?
    ensures TopMetric(r, n).Some? ==> exists i: nat :: i < n && TopValue(r, i) == TopMetric(r, n)
    ensures TopMetric(r, n).Some? ==> forall i: nat :: i < n && TopValue(r, i).Some? ==>
                                        !Greater(TopValue(r, i).value, TopMetric(r, n).value)
  {
    if n == 0 {
    } else {
      TopMetricIsGreatest(r, n - 1);
      assert TopValue(r, n - 1).Some? <==> Numeric(Get(r, TOP_METRICS[n - 1]));
    }
  }

  function PoorPerformance(r: ResultDict): Option<bool> {
    var top := TopMetric(r, |TOP_METRICS|);
    if top.Some? && top.value.Finite? then Some(top.value.r < 0.55) else None
  }

  // ----- Low performance is not an error -----

  /** A finite number; a bool is one too. */
  predicate FiniteNumber(v: Value) {
    Numeric(v) && AsFloat(v).Finite?
  }

  predicate SameOrMetric(key: string, v: Value, w: Value) {
    || v == w
    || (key in BOUNDED_METRICS && FiniteNumber(v) && FiniteNumber(w)
        && 0.0 < AsFloat(v).r <= 1.0 && 0.0 < AsFloat(w).r <= 1.0)
    || (key in NON_NEGATIVE_METRICS && FiniteNumber(v) && FiniteNumber(w)
        && AsFloat(v).r >= 0.0 && AsFloat(w).r >= 0.0)
    || (key !in BOUNDED_METRICS && key !in NON_NEGATIVE_METRICS && key !in READ_BY_NAME && FiniteNumber(v)
        && FiniteNumber(w))
  }

  /** The entries the checks read by name are none of the metrics. */
  lemma SpecialKeys(key: string)
    requires key in READ_BY_NAME
    ensures key !in BOUNDED_METRICS && key !in NON_NEGATIVE_METRICS
  {}

  ghost predicate DifferInMetricsOnly(a: ResultDict, b: ResultDict) {
    a.Keys == b.Keys && forall k :: k in a ==> SameOrMetric(k, a[k], b[k])
  }

  /** Two results that differ only in how good their metrics are, or in numbers no check looks up, get the same
      verdict. */
  lemma LowPerformanceIsNoError(a: ResultDict, b: ResultDict, methodName: Value)
    requires DifferInMetricsOnly(a, b)
    ensures StatusOf(a, methodName) == StatusOf(b, methodName)
  {
    SpecialEntriesAgree(a, b);
    ErrorsAgree(a, b);
    DegeneracyAgrees(a, b, methodName);
    SameHuge(a, b);
  }

  lemma ErrorsAgree(a: ResultDict, b: ResultDict)
    requires DifferInMetricsOnly(a, b)
    ensures HasError(a) <==> HasError(b)
  {
    SpecialEntriesAgree(a, b);
    SameErrors(a, b);
  }

  lemma DegeneracyAgrees(a: ResultDict, b: ResultDict, methodName: Value)
    requires DifferInMetricsOnly(a, b)
    ensures EffectiveMethod(a, methodName) == EffectiveMethod(b, methodName)
    ensures IsDegenerate(a, methodName) <==> IsDegenerate(b, methodName)
  {
    SpecialEntriesAgree(a, b);
    SameZeros(a, b);
  }

  lemma SameErrors(a: ResultDict, b: ResultDict)
    requires DifferInMetricsOnly(a, b)
    ensures (exists k | k in a :: MetricIssue(k, a[k]).Some?) <==> (exists k | k in b :: MetricIssue(k, b[k]).Some?)
  {
    forall k | k in a ensures MetricIssue(k, a[k]).Some? <==> MetricIssue(k, b[k]).Some? {
      BoundedOrLoss(k);
    }
  }

  lemma SameHuge(a: ResultDict, b: ResultDict)
    requires DifferInMetricsOnly(a, b)
    ensures HasHuge(a) <==> HasHuge(b)
  {
    forall k | k in a ensures a[k].Huge? <==> b[k].Huge? {
      assert SameOrMetric(k, a[k], b[k]);
    }
  }

  lemma BoundedOrLoss(key: string)
    ensures !(key in BOUNDED_METRICS && key in NON_NEGATIVE_METRICS)
  {}

  lemma SameZeros(a: ResultDict, b: ResultDict)
    requires DifferInMetricsOnly(a, b) && Get(a, "all_zeros_expected") == Get(b, "all_zeros_expected")
    ensures AllBoundedZero(a) <==> AllBoundedZero(b)
  {
    forall k | k in BOUNDED_METRICS
      ensures Numeric(Get(a, k)) <==> Numeric(Get(b, k))
      ensures Numeric(Get(a, k)) ==> (AsFloat(Get(a, k)) == Finite(0.0) <==> AsFloat(Get(b, k)) == Finite(0.0))
    {
      assert k in a ==> SameOrMetric(k, a[k], b[k]);
      BoundedOrLoss(k);
    }
  }

  lemma SpecialEntriesAgree(a: ResultDict, b: ResultDict)
    requires DifferInMetricsOnly(a, b)
    ensures Get(a, "caught_exception") == Get(b, "caught_exception") && Get(a, "method") == Get(b, "method")
    ensures Get(a, "technique") == Get(b, "technique") && Get(a, "eval_examples") == Get(b, "eval_examples")
    ensures Get(a, "predictions_non_empty") == Get(b, "predictions_non_empty")
    ensures Get(a, "adapter_loaded") == Get(b, "adapter_loaded")
    ensures Get(a, "trainable_params") == Get(b, "trainable_params")
    ensures Get(a, "total_params") == Get(b, "total_params")
    ensures Get(a, "predictions_constant") == Get(b, "predictions_constant")
    ensures Get(a, "all_zeros_expected") == Get(b, "all_zeros_expected")
  {
    SpecialKeys("caught_exception");
    SpecialKeys("method");
    SpecialKeys("technique");
    SpecialKeys("eval_examples");
    SpecialKeys("predictions_non_empty");
    SpecialKeys("adapter_loaded");
    SpecialKeys("trainable_params");
    SpecialKeys("total_params");
    SpecialKeys("predictions_constant");
    SpecialKeys("all_zeros_expected");
  }

  // ----- What the worker stores -----

  const WALL := "wall_seconds"
  const VERDICT := "_validation_status"
  const ISSUES := "_validation_errors"

  /** `run_once` adds the wall time when the handler did not. */
  function WithWall(r: ResultDict, seconds: real): ResultDict {
    if WALL in r then r else r[WALL := Number(Finite(seconds))]
  }

  predicate Accepted(s: Status) {
    s in {Validated, WithWarnings}
  }

  function VerdictName(v: Status): string {
    match v
    case Validated => "SUCCEEDED_VALIDATED"
    case WithWarnings => "SUCCEEDED_WITH_WARNINGS"
    case FailedValidation => "FAILED_VALIDATION"
    case DegenerateResult => "DEGENERATE_RESULT"
  }

  /** It stores the verdict's name with the rest, and the list of issues with a result that was rejected. */
  function StoredResult(r: ResultDict, v: Status): ResultDict {
    var named := r[VERDICT := Text(VerdictName(v))];
    if Accepted(v) then named else named[ISSUES := Other(true, true, false)]
  }

  // ----- Validating a stored result again -----

  /** The entries the worker adds are read by no check. */
  lemma StoredKeysAreNeutral(r: ResultDict, v: Status)
    ensures VERDICT !in BOUNDED_METRICS && ISSUES !in BOUNDED_METRICS
    ensures var s := StoredResult(r, v);
            && Get(s, "caught_exception") == Get(r, "caught_exception") && Get(s, "method") == Get(r, "method")
            && Get(s, "technique") == Get(r, "technique") && Get(s, "eval_examples") == Get(r, "eval_examples")
            && Get(s, "predictions_non_empty") == Get(r, "predictions_non_empty")
            && Get(s, "adapter_loaded") == Get(r, "adapter_loaded")
            && Get(s, "trainable_params") == Get(r, "trainable_params")
            && Get(s, "total_params") == Get(r, "total_params")
            && Get(s, "predictions_constant") == Get(r, "predictions_constant")
            && Get(s, "all_zeros_expected") == Get(r, "all_zeros_expected")
  {}

  lemma StoredKeepsErrors(r: ResultDict, v: Status)
    requires !HasError(r)
    ensures !HasError(StoredResult(r, v))
  {
    var s := StoredResult(r, v);
    StoredKeysAreNeutral(r, v);
    forall k | k in s ensures MetricIssue(k, s[k]).None? {
      if k != VERDICT && k != ISSUES { assert k in r; }
    }
  }

  lemma StoredKeepsZeros(r: ResultDict, v: Status)
    ensures AllBoundedZero(StoredResult(r, v)) <==> AllBoundedZero(r)
  {
    StoredKeysAreNeutral(r, v);
    forall k | k in BOUNDED_METRICS ensures Get(StoredResult(r, v), k) == Get(r, k) {}
  }

  /** Without the payload's method, degeneracy is what it was, but for the adapter check on the result's own method. */
  lemma StoredDegeneracy(r: ResultDict, v: Status, methodName: Value)
    requires !IsDegenerate(r, methodName)
    ensures IsDegenerate(StoredResult(r, v), Null) <==> IsAdapter(EffectiveMethod(r, Null)) && ZeroTrainable(r)
  {
    StoredKeysAreNeutral(r, v);
    StoredKeepsZeros(r, v);
  }

  lemma AgainRaises(r: ResultDict, v: Status)
    requires !HasHuge(r)
    ensures StatusOf(StoredResult(r, v), Null).Err? <==> NotTextLike(EffectiveMethod(r, Null))
  {
    StoredKeysAreNeutral(r, v);
    assert forall k :: k in StoredResult(r, v) ==> k in r || k == VERDICT || k == ISSUES;
  }

  /** Validating an accepted, stored result again without the payload's method agrees with the first verdict exactly
      unless the payload named a method and so hid the result's own: a name that is not text makes it raise, and an
      adapter method with zero trainable parameters makes it reject. */
  lemma ValidatedAgainExactly(r: ResultDict, v: Status, methodName: Value)
    requires StatusOf(r, methodName) == Ok(v) && Accepted(v)
    ensures var again := StatusOf(StoredResult(r, v), Null); var own := EffectiveMethod(r, Null);
            && (again.Err? <==> NotTextLike(own))
            && (again.Ok? ==> again.value == if IsAdapter(own) && ZeroTrainable(r) then DegenerateResult else v)
  {
    AgainRaises(r, v);
    StoredKeysAreNeutral(r, v);
    StoredKeepsErrors(r, v);
    StoredDegeneracy(r, v, methodName);
  }
}
