/** The early-stopping hook: a small machine over the metric values of successful tasks. */
module EarlyStopping {
  import opened Records

  /** patience and min_delta, and whether larger is better. */
  datatype Config = Config(patience: int, minDelta: real, maximize: bool)

  predicate Improves(c: Config, value: real, best: real) {
    if c.maximize then value - best > c.minDelta else best - value > c.minDelta
  }

  // ----- What a history of values amounts to -----

  /** The last value that improved on everything kept before it. */
  function BestIndex(c: Config, h: seq<real>): (i: nat)
    requires |h| > 0
    ensures i < |h|
  {
    if |h| == 1 then 0
    else
      var i := BestIndex(c, h[..|h| - 1]);
      if Improves(c, h[|h| - 1], h[i]) then |h| - 1 else i
  }

  function BestOf(c: Config, h: seq<real>): Option<real> {
    if h == [] then None else Some(h[BestIndex(c, h)])
  }

  /** How many values came after the last improvement. */
  function Trailing(c: Config, h: seq<real>): nat {
    if h == [] then 0 else |h| - 1 - BestIndex(c, h)
  }

  function Improvements(c: Config, h: seq<real>): nat {
    if |h| <= 1 then 0
    else Improvements(c, h[..|h| - 1]) + if BestIndex(c, h) == |h| - 1 then 1 else 0
  }

  /** Some prefix of the history ended a run of non-improvements as long as the patience. */
  ghost predicate Fired(c: Config, h: seq<real>) {
    exists n :: 0 < n <= |h| && Trailing(c, h[..n]) >= 1 && Trailing(c, h[..n]) >= c.patience
  }

  // ----- The hook -----

  class EarlyStoppingHook {
    const metric: string
    const config: Config
    var best: Option<real>
    var counter: int
    var stopping: bool
    ghost var seen: seq<real>

    ghost predicate Valid()
      reads this
    {
      best == BestOf(config, seen) && counter == Trailing(config, seen) && (stopping <==> Fired(config, seen))
    }

    constructor (metric: string, config: Config)
      ensures Valid() && seen == [] && this.metric == metric && this.config == config
    {
      this.metric, this.config := metric, config;
      best, counter, stopping, seen := None, 0, false, [];
    }

    /** A result without the metric is ignored; any other is one more value of the history. */
    method AfterTaskSuccess(result: map<string, real>)
      requires Valid()
      modifies this
      ensures Valid() && seen == old(seen) + if metric in result then [result[metric]] else []
      ensures metric !in result ==> best == old(best) && counter == old(counter) && stopping == old(stopping)
      ensures metric in result && old(best).None? ==>
                best == Some(result[metric]) && counter == 0 && stopping == old(stopping)
      ensures metric in result && old(best).Some? ==>
                var gain := if config.maximize then result[metric] - old(best).value
                            else old(best).value - result[metric];
                && (gain > config.minDelta ==>
                      best == Some(result[metric]) && counter == 0 && stopping == old(stopping))
                && (gain <= config.minDelta ==>
                      && best == old(best) && counter == old(counter) + 1
                      && (stopping <==> old(stopping) || counter >= config.patience))
    {
      if metric !in result {
        return;
      }
      var value := result[metric];
      ghost var was := seen;
      seen := seen + [value];
      assert seen[..|was|] == was;
      FiredStep(config, was, value);
      if best.None? {
        best := Some(value);
        counter := 0;
        return;
      }
      if Improves(config, value, best.value) {
        best := Some(value);
        counter := 0;
      } else {
        counter := counter + 1;
        if counter >= config.patience {
          stopping := true;
        }
      }
    }

    method ShouldStop() returns (stop: bool)
      requires Valid()
      ensures stop <==> Fired(config, seen)
    {
      stop := stopping;
    }

    method Reset()
      requires Valid()
      modifies this
      ensures Valid() && seen == [] && !stopping
    {
      best, counter, stopping, seen := None, 0, false, [];
    }
  }

  lemma FiredStep(c: Config, h: seq<real>, value: real)
    ensures var h' := h + [value];
            Fired(c, h') <==> Fired(c, h) || (Trailing(c, h') >= 1 && Trailing(c, h') >= c.patience)
  {
    var h' := h + [value];
    assert h'[..|h'|] == h';
    forall n | 0 < n <= |h| ensures h'[..n] == h[..n] {}
    if Fired(c, h) {
      var n :| 0 < n <= |h| && Trailing(c, h[..n]) >= 1 && Trailing(c, h[..n]) >= c.patience;
      assert h'[..n] == h[..n];
    }
  }

  // ----- What the history functions mean -----

  /** Once fired, the flag stays whatever comes next; only a reset clears it. */
  lemma FiredIsSticky(c: Config, h: seq<real>, more: seq<real>)
    requires Fired(c, h)
    ensures Fired(c, h + more)
  {
    var n :| 0 < n <= |h| && Trailing(c, h[..n]) >= 1 && Trailing(c, h[..n]) >= c.patience;
    assert (h + more)[..n] == h[..n];
  }

  /** One more value, in arithmetic: it becomes the best when it is ahead of the best by more than min_delta, upwards or
      downwards as the mode says, and otherwise adds one to the counter, which fires once it reaches the patience. The
      first value is the best and counts for nothing. */
  lemma HookStep(c: Config, h: seq<real>, v: real)
    ensures !Fired(c, [])
    ensures h == [] ==> BestOf(c, h + [v]) == Some(v) && Trailing(c, h + [v]) == 0 && !Fired(c, h + [v])
    ensures h != [] ==>
              var best := BestOf(c, h).value;
              var ahead := if c.maximize then v - best else best - v;
              && (ahead > c.minDelta ==>
                    BestOf(c, h + [v]) == Some(v) && Trailing(c, h + [v]) == 0 && (Fired(c, h + [v]) <==> Fired(c, h)))
              && (ahead <= c.minDelta ==>
                    && BestOf(c, h + [v]) == Some(best) && Trailing(c, h + [v]) == Trailing(c, h) + 1
                    && (Fired(c, h + [v]) <==> Fired(c, h) || Trailing(c, h) + 1 >= c.patience))
  {
    assert (h + [v])[..|h|] == h;
    FiredStep(c, h, v);
  }

  /** The kept best is a value that was seen, the counter is the length of the run since it, in which nothing was ahead
      of it by more than min_delta. No value ever seen is, exactly when min_delta is not negative. */
  lemma {:induction false} BestIsNearlyOptimal(c: Config, h: seq<real>)
    requires |h| > 0
    ensures BestOf(c, h) == Some(h[|h| - 1 - Trailing(c, h)])
    ensures var best := BestOf(c, h).value;
            forall j :: |h| - Trailing(c, h) <= j < |h| ==>
                          if c.maximize then h[j] - best <= c.minDelta else best - h[j] <= c.minDelta
    ensures var best := BestOf(c, h).value;
            c.minDelta >= 0.0 <==>
            forall j :: 0 <= j < |h| ==> if c.maximize then h[j] - best <= c.minDelta else best - h[j] <= c.minDelta
  {
    if |h| == 1 {
    } else {
      var init := h[..|h| - 1];
      BestIsNearlyOptimal(c, init);
      forall j | 0 <= j < |h| && (c.minDelta >= 0.0 || j >= |h| - Trailing(c, h))
        ensures !Improves(c, h[j], BestOf(c, h).value)
      {
        if j < |h| - 1 {
          assert h[j] == init[j];
        }
      }
    }
    assert c.minDelta < 0.0 ==> Improves(c, h[BestIndex(c, h)], BestOf(c, h).value);
  }

  /** How many values without improvement the hook stands: at least one, even for a patience below one. */
  function Stands(c: Config): nat {
    if c.patience < 1 then 1 else c.patience
  }

  lemma OneMore(p: nat, k: nat)
    ensures p * (k + 1) == p * k + p
  {}

  lemma UnfiredPrefix(c: Config, h: seq<real>)
    requires |h| > 0 && !Fired(c, h)
    ensures !Fired(c, h[..|h| - 1]) && Trailing(c, h) < Stands(c)
  {
    assert h[..|h|] == h;
    assert h[..|h| - 1] + [h[|h| - 1]] == h;
    FiredStep(c, h[..|h| - 1], h[|h| - 1]);
  }

  /** Without a firing, each stretch between improvements is shorter than the patience. */
  lemma {:induction false} UnfiredIsShort(c: Config, h: seq<real>)
    requires !Fired(c, h)
    ensures |h| > 0 ==> Trailing(c, h) < Stands(c)
    ensures |h| <= Stands(c) * Improvements(c, h) + Trailing(c, h) + if h == [] then 0 else 1
  {
    if |h| > 0 {
      var init := h[..|h| - 1];
      UnfiredPrefix(c, h);
      UnfiredIsShort(c, init);
      OneMore(Stands(c), Improvements(c, init));
    }
  }

  /** Improvements climb, each by more than min_delta. */
  lemma {:induction false} ImprovementsClimb(c: Config, h: seq<real>)
    requires |h| > 0
    ensures var gain := if c.maximize then BestOf(c, h).value - h[0] else h[0] - BestOf(c, h).value;
            Improvements(c, h) as real * c.minDelta <= gain
  {
    if |h| > 1 {
      var init := h[..|h| - 1];
      ImprovementsClimb(c, init);
      if BestIndex(c, h) == |h| - 1 {
        assert (Improvements(c, init) + 1) as real * c.minDelta ==
               Improvements(c, init) as real * c.minDelta + c.minDelta;
      }
    }
  }

  /** Early stopping fires in bounded time: n values in [lo, hi] without a firing satisfy n <= p (k + 1), where k, the
      number of improvements, satisfies k d <= hi - lo. */
  lemma StopsInBoundedTime(c: Config, h: seq<real>, lo: real, hi: real)
    requires |h| > 0 && (forall v :: v in h ==> lo <= v <= hi) && !Fired(c, h)
    ensures |h| <= Stands(c) * (Improvements(c, h) + 1)
    ensures Improvements(c, h) as real * c.minDelta <= hi - lo
  {
    UnfiredIsShort(c, h);
    OneMore(Stands(c), Improvements(c, h));
    ImprovementsClimb(c, h);
    assert h[0] in h && h[BestIndex(c, h)] in h;
  }

  /** Minimising a metric is maximising its negative. */
  function Negated(h: seq<real>): seq<real> {
    seq(|h|, i requires 0 <= i < |h| => -h[i])
  }

  lemma {:induction false} MinMirrorsMax(c: Config, h: seq<real>)
    requires |h| > 0
    ensures BestIndex(c.(maximize := !c.maximize), Negated(h)) == BestIndex(c, h)
    ensures Improvements(c.(maximize := !c.maximize), Negated(h)) == Improvements(c, h)
  {
    if |h| > 1 {
      MinMirrorsMax(c, h[..|h| - 1]);
      assert Negated(h)[..|h| - 1] == Negated(h[..|h| - 1]);
    }
  }

  /** So the mirrored hook fires on exactly the mirrored histories. */
  lemma MirrorFires(c: Config, h: seq<real>)
    ensures Fired(c.(maximize := !c.maximize), Negated(h)) <==> Fired(c, h)
  {
    var m := c.(maximize := !c.maximize);
    forall n | 0 < n <= |h| ensures Trailing(m, Negated(h)[..n]) == Trailing(c, h[..n]) {
      assert Negated(h)[..n] == Negated(h[..n]);
      MinMirrorsMax(c, h[..n]);
    }
  }
}
