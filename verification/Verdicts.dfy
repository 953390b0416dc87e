/** What each verdict of the validator says of the result's entries, key by key and bound by bound. */
module Verdicts {
  import opened Records
  import V = Validator

  // ----- Reading a result -----

  predicate HasNumber(r: ResultDict, key: string) {
    key in r && (r[key].Number? || r[key].Bool?)
  }

  /** True counts as one and False as zero. */
  function NumberAt(r: ResultDict, key: string): Float
    requires HasNumber(r, key)
  {
    match r[key]
    case Number(f) => f
    case Bool(b) => if b then Finite(1.0) else Finite(0.0)
  }

  predicate HasReal(r: ResultDict, key: string) {
    HasNumber(r, key) && NumberAt(r, key).Finite?
  }

  function RealAt(r: ResultDict, key: string): real
    requires HasReal(r, key)
  {
    NumberAt(r, key).r
  }

  /** The entry is there and does not count as false. */
  predicate Says(r: ResultDict, key: string) {
    && key in r
    && match r[key] {
         case Null => false
         case Bool(b) => b
         case Text(s) => |s| > 0
         case Number(f) => !(f.Finite? && f.r == 0.0)
         case Huge => true
         case Other(truthy, _, _) => truthy
       }
  }

  /** Letter by letter, in either case; word is in lower case. */
  predicate Spells(s: string, word: string) {
    |s| == |word| && forall i :: 0 <= i < |s| ==> s[i] == word[i] || ('A' <= s[i] <= 'Z' && s[i] - 'A' + 'a' == word[i])
  }

  /** The method the payload names, else the result's own, else its technique. */
  function MethodInForce(r: ResultDict, named: Value): Value {
    if Says(map["method" := named], "method") then named
    else if Says(r, "method") then r["method"]
    else if "technique" in r then r["technique"]
    else Null
  }

  predicate Adapter(name: Value) {
    && name.Text?
    && (|| Spells(name.s, "lora") || Spells(name.s, "adalora") || Spells(name.s, "ia3")
        || Spells(name.s, "prefix") || Spells(name.s, "prompt") || Spells(name.s, "adapter"))
  }

  // ----- The findings -----

  predicate Bounded(key: string) {
    || key == "accuracy" || key == "f1" || key == "f1_macro" || key == "f1_micro" || key == "f1_weighted"
    || key == "precision" || key == "recall" || key == "auc" || key == "roc_auc" || key == "balanced_accuracy"
  }

  predicate Loss(key: string) {
    key == "loss" || key == "loss_start" || key == "loss_end" || key == "val_loss"
  }

  predicate IsNaN(r: ResultDict, key: string) {
    HasNumber(r, key) && NumberAt(r, key).NaN?
  }

  predicate IsInfinite(r: ResultDict, key: string) {
    HasNumber(r, key) && (NumberAt(r, key).PosInf? || NumberAt(r, key).NegInf?)
  }

  predicate OutOfBounds(r: ResultDict, key: string) {
    Bounded(key) && HasReal(r, key) && (RealAt(r, key) < 0.0 || RealAt(r, key) > 1.0)
  }

  predicate BelowZero(r: ResultDict, key: string) {
    Loss(key) && HasReal(r, key) && RealAt(r, key) < 0.0
  }

  predicate NothingEvaluated(r: ResultDict) {
    && HasNumber(r, "eval_examples")
    && (NumberAt(r, "eval_examples").NegInf? || (HasReal(r, "eval_examples") && RealAt(r, "eval_examples") <= 0.0))
  }

  /** Some value cannot be right. */
  predicate Faulty(r: ResultDict) {
    || Says(r, "caught_exception") || NothingEvaluated(r)
    || exists k | k in r :: IsNaN(r, k) || IsInfinite(r, k) || OutOfBounds(r, k) || BelowZero(r, k)
  }

  predicate IsFalse(r: ResultDict, key: string) {
    key in r && r[key] == Bool(false)
  }

  predicate NothingToTrain(r: ResultDict, named: Value) {
    Adapter(MethodInForce(r, named)) && HasReal(r, "trainable_params") && RealAt(r, "trainable_params") == 0.0
  }

  predicate MoreTrainableThanThereAre(r: ResultDict) {
    && HasReal(r, "trainable_params") && HasReal(r, "total_params")
    && RealAt(r, "trainable_params") > RealAt(r, "total_params")
  }

  /** Every bounded metric reported as a number is zero, there is one, and that is not what was expected. */
  predicate AllZero(r: ResultDict) {
    && (exists k | k in r :: Bounded(k) && HasNumber(r, k))
    && (forall k | k in r :: Bounded(k) && HasNumber(r, k) ==> NumberAt(r, k) == Finite(0.0))
    && !Says(r, "all_zeros_expected")
  }

  /** The experiment was not what it claims to be. */
  predicate Hollow(r: ResultDict, named: Value) {
    || IsFalse(r, "predictions_non_empty") || IsFalse(r, "adapter_loaded") || NothingToTrain(r, named)
    || MoreTrainableThanThereAre(r) || AllZero(r)
  }

  predicate ConstantPredictions(r: ResultDict) {
    "predictions_constant" in r && r["predictions_constant"] == Bool(true)
  }

  predicate TooLarge(r: ResultDict) {
    exists k | k in r :: r[k].Huge?
  }

  /** None, text, or something with a `lower()` of its own. */
  predicate Nameable(name: Value) {
    name.Null? || name.Text? || (name.Other? && name.lowers)
  }

  // ----- The two agree -----

  lemma ReadsAgree(r: ResultDict, key: string)
    ensures V.Numeric(V.Get(r, key)) <==> HasNumber(r, key)
    ensures HasNumber(r, key) ==> V.AsFloat(V.Get(r, key)) == NumberAt(r, key)
    ensures V.Truthy(V.Get(r, key)) <==> Says(r, key)
  {}

  lemma {:induction false} LowerSpells(s: string, word: string)
    requires forall i :: 0 <= i < |word| ==> !('A' <= word[i] <= 'Z')
    ensures V.Lower(s) == word <==> Spells(s, word)
  {
    if s == "" {
    } else {
      var t := V.Lower(s);
      assert t == [V.LowerChar(s[0])] + V.Lower(s[1..]);
      if |word| > 0 {
        LowerSpells(s[1..], word[1..]);
        assert word == [word[0]] + word[1..];
        assert t == word <==> V.LowerChar(s[0]) == word[0] && V.Lower(s[1..]) == word[1..] by {
          assert t[0] == V.LowerChar(s[0]) && t[1..] == V.Lower(s[1..]);
        }
        assert Spells(s, word) <==> V.LowerChar(s[0]) == word[0] && Spells(s[1..], word[1..]) by {
          SpellsHead(s, word);
        }
      }
    }
  }

  lemma SpellsHead(s: string, word: string)
    requires |s| > 0 && |word| > 0 && forall i :: 0 <= i < |word| ==> !('A' <= word[i] <= 'Z')
    ensures Spells(s, word) <==> V.LowerChar(s[0]) == word[0] && Spells(s[1..], word[1..])
  {
    if V.LowerChar(s[0]) == word[0] && Spells(s[1..], word[1..]) {
      forall i | 0 <= i < |s|
        ensures s[i] == word[i] || ('A' <= s[i] <= 'Z' && s[i] - 'A' + 'a' == word[i])
      {
        if i > 0 { assert s[i] == s[1..][i - 1] && word[i] == word[1..][i - 1]; }
      }
    }
  }

  lemma AdaptersAgree(name: Value)
    ensures V.IsAdapter(name) <==> Adapter(name)
  {
    if name.Text? {
      LowerSpells(name.s, "lora");
      LowerSpells(name.s, "adalora");
      LowerSpells(name.s, "ia3");
      LowerSpells(name.s, "prefix");
      LowerSpells(name.s, "prompt");
      LowerSpells(name.s, "adapter");
    }
  }

  lemma MethodsAgree(r: ResultDict, named: Value)
    ensures V.EffectiveMethod(r, named) == MethodInForce(r, named)
  {
    ReadsAgree(r, "method");
    ReadsAgree(map["method" := named], "method");
  }

  lemma MetricsAgree(r: ResultDict, k: string)
    requires k in r
    ensures V.MetricIssue(k, r[k]) == Some(V.MetricNaN(k)) <==> IsNaN(r, k)
    ensures V.MetricIssue(k, r[k]) == Some(V.MetricInf(k)) <==> IsInfinite(r, k)
    ensures V.MetricIssue(k, r[k]) == Some(V.OutOfRange(k)) <==> OutOfBounds(r, k)
    ensures V.MetricIssue(k, r[k]) == Some(V.NegativeLoss(k)) <==> BelowZero(r, k)
    ensures V.MetricIssue(k, r[k]).Some? <==> IsNaN(r, k) || IsInfinite(r, k) || OutOfBounds(r, k) || BelowZero(r, k)
    ensures forall i :: V.MetricIssue(k, r[k]) == Some(i) ==>
              i in {V.MetricNaN(k), V.MetricInf(k), V.OutOfRange(k), V.NegativeLoss(k)}
  {}

  lemma FaultsAgree(r: ResultDict)
    ensures V.HasError(r) <==> Faulty(r)
  {
    ReadsAgree(r, "caught_exception");
    ReadsAgree(r, "eval_examples");
    forall k | k in r
      ensures V.MetricIssue(k, r[k]).Some? <==> IsNaN(r, k) || IsInfinite(r, k) || OutOfBounds(r, k) || BelowZero(r, k)
    {
      MetricsAgree(r, k);
    }
  }

  lemma ZerosAgree(r: ResultDict)
    ensures V.AllBoundedZero(r) <==> AllZero(r)
  {
    ReadsAgree(r, "all_zeros_expected");
    forall k ensures k in V.BOUNDED_METRICS <==> Bounded(k) {}
    forall k ensures V.Numeric(V.Get(r, k)) <==> HasNumber(r, k) { ReadsAgree(r, k); }
    if V.SomeBounded(r) {
      var k :| k in V.BOUNDED_METRICS && V.Numeric(V.Get(r, k));
      assert Bounded(k) && HasNumber(r, k);
    }
    if k :| k in r && Bounded(k) && HasNumber(r, k) {
      assert k in V.BOUNDED_METRICS && V.Numeric(V.Get(r, k));
    }
    forall k | Bounded(k) && HasNumber(r, k) ensures V.AsFloat(V.Get(r, k)) == NumberAt(r, k) {
      ReadsAgree(r, k);
    }
  }

  /** No number in a result without faults is infinite. */
  lemma HollowsAgree(r: ResultDict, named: Value)
    requires !Faulty(r)
    ensures V.IsDegenerate(r, named) <==> Hollow(r, named)
  {
    MethodsAgree(r, named);
    AdaptersAgree(MethodInForce(r, named));
    ReadsAgree(r, "trainable_params");
    ReadsAgree(r, "total_params");
    ZerosAgree(r);
    forall k | k in r ensures HasNumber(r, k) ==> HasReal(r, k) {
      assert !IsNaN(r, k) && !IsInfinite(r, k);
    }
  }

  // ----- What the verdicts mean -----

  /** FAILED_VALIDATION says that some value is faulty; DEGENERATE_RESULT that none is, but that the experiment was
      hollow; and of the rest, constant predictions alone get a warning. */
  lemma VerdictMeaning(r: ResultDict, named: Value)
    ensures V.StatusOf(r, named) == Err(V.IntegerTooLarge) <==> TooLarge(r)
    ensures V.StatusOf(r, named) == Err(V.MethodIsNotText) <==> !TooLarge(r) && !Nameable(MethodInForce(r, named))
    ensures V.StatusOf(r, named).Ok? <==> !TooLarge(r) && Nameable(MethodInForce(r, named))
    ensures var v := V.StatusOf(r, named);
            v.Ok? ==>
              && (v.value == V.FailedValidation <==> Faulty(r))
              && (v.value == V.DegenerateResult <==> !Faulty(r) && Hollow(r, named))
              && (v.value == V.WithWarnings <==> !Faulty(r) && !Hollow(r, named) && ConstantPredictions(r))
              && (v.value == V.Validated <==> !Faulty(r) && !Hollow(r, named) && !ConstantPredictions(r))
  {
    MethodsAgree(r, named);
    FaultsAgree(r);
    if !Faulty(r) {
      HollowsAgree(r, named);
    }
  }

  /** Each error that is listed, and when. */
  predicate Found(r: ResultDict, issue: V.Issue) {
    match issue
    case CaughtException => Says(r, "caught_exception")
    case NoEvalExamples => NothingEvaluated(r)
    case MetricNaN(k) => IsNaN(r, k)
    case MetricInf(k) => IsInfinite(r, k)
    case OutOfRange(k) => OutOfBounds(r, k)
    case NegativeLoss(k) => BelowZero(r, k)
    case _ => false
  }

  lemma {:induction false} MetricIssuesMeaning(r: ResultDict, order: seq<string>, n: nat, issue: V.Issue)
    requires V.IsOrder(order, r) && n <= |order|
    ensures issue in V.MetricIssues(r, order, n) <==>
            exists i :: 0 <= i < n && V.MetricIssue(order[i], V.Get(r, order[i])) == Some(issue)
  {
    if n == 0 {
    } else {
      MetricIssuesMeaning(r, order, n - 1, issue);
    }
  }

  /** The validator lists exactly the errors there are. */
  lemma ErrorsMeaning(r: ResultDict, order: seq<string>, issue: V.Issue)
    requires V.IsOrder(order, r)
    ensures issue in V.ErrorsOf(r, order) <==> Found(r, issue)
  {
    ReadsAgree(r, "caught_exception");
    ReadsAgree(r, "eval_examples");
    MetricIssuesMeaning(r, order, |order|, issue);
    MetricListed(r, order, issue);
  }

  lemma MetricListed(r: ResultDict, order: seq<string>, issue: V.Issue)
    requires V.IsOrder(order, r)
    ensures (exists i :: 0 <= i < |order| && V.MetricIssue(order[i], V.Get(r, order[i])) == Some(issue)) <==>
            Found(r, issue) && !issue.CaughtException? && !issue.NoEvalExamples?
  {
    if i :| 0 <= i < |order| && V.MetricIssue(order[i], V.Get(r, order[i])) == Some(issue) {
      assert order[i] in order;
      MetricsAgree(r, order[i]);
    }
    if Found(r, issue) && !issue.CaughtException? && !issue.NoEvalExamples? {
      var i :| 0 <= i < |order| && order[i] == issue.key;
      MetricsAgree(r, issue.key);
    }
  }

  /** And, of a result without errors, exactly the reasons why it is degenerate. */
  lemma ReasonsMeaning(r: ResultDict, named: Value)
    requires !Faulty(r)
    ensures var reasons := V.DegeneracyReasons(r, named);
            && (V.EmptyPredictions in reasons <==> IsFalse(r, "predictions_non_empty"))
            && (V.AdapterNotLoaded in reasons <==> IsFalse(r, "adapter_loaded"))
            && (V.NoTrainableParams in reasons <==> NothingToTrain(r, named))
            && (V.MoreTrainableThanTotal in reasons <==> MoreTrainableThanThereAre(r))
            && (V.AllMetricsZero in reasons <==> AllZero(r))
  {
    MethodsAgree(r, named);
    AdaptersAgree(MethodInForce(r, named));
    ReadsAgree(r, "trainable_params");
    ReadsAgree(r, "total_params");
    ZerosAgree(r);
    forall k | k in r ensures HasNumber(r, k) ==> HasReal(r, k) {
      assert !IsNaN(r, k) && !IsInfinite(r, k);
    }
  }

  // ----- Poor performance -----

  predicate Headline(key: string) {
    key == "accuracy" || key == "f1" || key == "auc" || key == "roc_auc"
  }

  /** A result without errors performed poorly when every headline metric it reports is below 0.55; there is no saying
      when it reports none. */
  lemma PoorMeaning(r: ResultDict)
    requires !Faulty(r)
    ensures V.PoorPerformance(r).None? <==> forall k | k in r :: !(Headline(k) && HasReal(r, k))
    ensures V.PoorPerformance(r).Some? ==>
              (V.PoorPerformance(r).value <==>
               forall k | k in r :: Headline(k) && HasReal(r, k) ==> RealAt(r, k) < 0.55)
  {
    V.TopMetricIsGreatest(r, 4);
    forall k | k in r ensures HasNumber(r, k) ==> HasReal(r, k) {
      assert !IsNaN(r, k) && !IsInfinite(r, k);
    }
    TopValues(r);
    if V.PoorPerformance(r).Some? {
      var i: nat :| i < 4 && V.TopValue(r, i) == V.TopMetric(r, 4);
    }
  }

  lemma TopValues(r: ResultDict)
    ensures V.TopValue(r, 0) == if HasNumber(r, "accuracy") then Some(NumberAt(r, "accuracy")) else None
    ensures V.TopValue(r, 1) == if HasNumber(r, "f1") then Some(NumberAt(r, "f1")) else None
    ensures V.TopValue(r, 2) == if HasNumber(r, "auc") then Some(NumberAt(r, "auc")) else None
    ensures V.TopValue(r, 3) == if HasNumber(r, "roc_auc") then Some(NumberAt(r, "roc_auc")) else None
  {
    ReadsAgree(r, "accuracy");
    ReadsAgree(r, "f1");
    ReadsAgree(r, "auc");
    ReadsAgree(r, "roc_auc");
  }
}
