/** How long retries of one task may sleep in all. */
module Backoff {
  import opened Records
  import opened Protocol
  import opened Ledger

  datatype RetryPolicy = RetryPolicy(baseDelay: real, maxDelay: real)

  function Pow2(n: nat): nat {
    if n == 0 then 1 else 2 * Pow2(n - 1)
  }

  /** The delay before jitter: `min(cap, base * 2^(attempt - 1))`, and none before the first attempt. */
  function FullDelay(p: RetryPolicy, attempt: nat): real {
    if attempt == 0 then 0.0
    else
      var exp := p.baseDelay * (Pow2(attempt - 1) as real);
      if exp < p.maxDelay then exp else p.maxDelay
  }

  function Least(x: real, y: real): real {
    if x <= y then x else y
  }

  /** No delay before the first attempt; the base before the first retry; then twice as much each time, as long as the
      cap allows. Once at the cap a delay that grows stays there. */
  lemma DelayDoubles(p: RetryPolicy, attempt: nat)
    ensures FullDelay(p, 0) == 0.0 && FullDelay(p, 1) == Least(p.baseDelay, p.maxDelay)
    ensures attempt >= 1 && FullDelay(p, attempt) < p.maxDelay ==>
              FullDelay(p, attempt + 1) == Least(2.0 * FullDelay(p, attempt), p.maxDelay)
    ensures attempt >= 1 && FullDelay(p, attempt) == p.maxDelay && p.baseDelay >= 0.0 ==>
              FullDelay(p, attempt + 1) == p.maxDelay
  {
    assert Pow2(0) == 1;
    if attempt >= 1 {
      var x := Pow2(attempt - 1) as real;
      assert Pow2(attempt) as real == 2.0 * x && x >= 1.0 by { PowersGrow(attempt - 1); }
      assert p.baseDelay * (2.0 * x) == 2.0 * (p.baseDelay * x);
      if p.baseDelay >= 0.0 {
        assert p.baseDelay * x >= 0.0;
      }
    }
  }

  lemma {:induction false} PowersGrow(n: nat)
    ensures Pow2(n) >= 1
  {
    if n == 0 {
    } else {
      PowersGrow(n - 1);
    }
  }

  function Positive(x: real): real {
    if x < 0.0 then 0.0 else x
  }

  /** What a worker may sleep after this attempt: `delay_for_attempt` draws anywhere between zero and the full delay,
      and a delay that is not positive is not slept. */
  predicate DelayFor(p: RetryPolicy, attempt: nat, slept: real) {
    0.0 <= slept <= Positive(FullDelay(p, attempt))
  }

  /** The sleeps of the retries scheduled after the attempts in `retried`, for attempts below n. */
  function TotalSlept(retried: set<nat>, delays: nat -> real, n: nat): real {
    if n == 0 then 0.0
    else TotalSlept(retried, delays, n - 1) + if n - 1 in retried then delays(n - 1) else 0.0
  }

  /** With jitter any delay from none to the full one may be drawn, and none else; a full delay that is not positive is
      not slept. */
  lemma SleepMeaning(p: RetryPolicy, attempt: nat, slept: real)
    ensures DelayFor(p, attempt, slept) <==>
            if FullDelay(p, attempt) > 0.0 then 0.0 <= slept <= FullDelay(p, attempt) else slept == 0.0
  {}

  lemma FullDelayBounds(p: RetryPolicy, attempt: nat)
    requires attempt >= 1
    ensures Positive(FullDelay(p, attempt)) <= Positive(p.maxDelay)
    ensures Positive(FullDelay(p, attempt)) <= Positive(p.baseDelay) * (Pow2(attempt - 1) as real)
  {
    var n := Pow2(attempt - 1) as real;
    if p.baseDelay < 0.0 {
      assert p.baseDelay * n <= 0.0;
      assert Positive(p.baseDelay) * n == 0.0;
    } else {
      assert p.baseDelay * n >= 0.0;
    }
  }

  /** bound(1) + .. + bound(n). */
  function Sum(bound: nat -> real, n: nat): real {
    if n == 0 then 0.0 else Sum(bound, n - 1) + bound(n)
  }

  lemma {:induction false} SleptBelowSum(retried: set<nat>, delays: nat -> real, bound: nat -> real, n: nat)
    requires 0 !in retried && forall a :: 0.0 <= bound(a)
    requires forall a :: a in retried ==> delays(a) <= bound(a)
    ensures TotalSlept(retried, delays, n + 1) <= Sum(bound, n)
  {
    if n == 0 {
      assert TotalSlept(retried, delays, 0) == 0.0;
    } else {
      SleptBelowSum(retried, delays, bound, n - 1);
    }
  }

  lemma Distribute(base: real, x: real, y: real)
    ensures base * (x + y) == base * x + base * y
  {}

  /** cap + cap + .., n terms. */
  lemma {:induction false} CapsSum(bound: nat -> real, cap: real, n: nat)
    requires forall a :: bound(a) == cap
    ensures Sum(bound, n) == cap * (n as real)
  {
    if n == 0 {
      assert n as real == 0.0;
    } else {
      CapsSum(bound, cap, n - 1);
      assert n as real == (n - 1) as real + 1.0;
      Distribute(cap, (n - 1) as real, 1.0);
    }
  }

  /** base + 2 base + 4 base + .., n terms. */
  lemma {:induction false} DoublingsSum(bound: nat -> real, base: real, n: nat)
    requires forall a: nat :: bound(a) == Doubled(base, a)
    ensures Sum(bound, n) == base * ((Pow2(n) - 1) as real)
  {
    if n == 0 {
    } else {
      DoublingsSum(bound, base, n - 1);
      var x := Pow2(n - 1) as real;
      assert (Pow2(n - 1) - 1) as real == x - 1.0 && (Pow2(n) - 1) as real == (x - 1.0) + x;
      Distribute(base, x - 1.0, x);
    }
  }

  predicate SleptWithin(p: RetryPolicy, slept: real, limit: nat)
    requires limit >= 1
  {
    && slept <= Positive(p.maxDelay) * ((limit - 1) as real)
    && slept <= Positive(p.baseDelay) * ((Pow2(limit - 1) - 1) as real)
  }

  /** The delay without its cap. */
  function Doubled(base: real, attempt: nat): (r: real)
    ensures base >= 0.0 ==> r >= 0.0
  {
    if attempt == 0 then 0.0 else base * (Pow2(attempt - 1) as real)
  }

  lemma DelayBounds(p: RetryPolicy, attempt: nat, slept: real)
    requires DelayFor(p, attempt, slept)
    ensures slept <= Positive(p.maxDelay) && slept <= Doubled(Positive(p.baseDelay), attempt)
  {
    if attempt > 0 {
      FullDelayBounds(p, attempt);
    }
  }

  lemma SleptBelowCaps(p: RetryPolicy, retried: set<nat>, delays: nat -> real, n: nat)
    requires 0 !in retried && forall a :: a in retried ==> delays(a) <= Positive(p.maxDelay)
    ensures TotalSlept(retried, delays, n + 1) <= Positive(p.maxDelay) * (n as real)
  {
    var bound := (a: nat) => Positive(p.maxDelay);
    SleptBelowSum(retried, delays, bound, n);
    CapsSum(bound, Positive(p.maxDelay), n);
  }

  lemma SleptBelowDoublings(base: real, retried: set<nat>, delays: nat -> real, n: nat)
    requires 0 !in retried && base >= 0.0 && forall a :: a in retried ==> delays(a) <= Doubled(base, a)
    ensures TotalSlept(retried, delays, n + 1) <= base * ((Pow2(n) - 1) as real)
  {
    var bound := (a: nat) => Doubled(base, a);
    SleptBelowSum(retried, delays, bound, n);
    DoublingsSum(bound, base, n);
  }

  /** Retries after distinct attempt numbers below the limit. */
  lemma SleptIsBounded(p: RetryPolicy, retried: set<nat>, delays: nat -> real, limit: nat)
    requires limit >= 1 && 0 !in retried
    requires forall a :: a in retried ==> DelayFor(p, a, delays(a))
    ensures SleptWithin(p, TotalSlept(retried, delays, limit), limit)
  {
    forall a | a in retried
      ensures delays(a) <= Positive(p.maxDelay) && delays(a) <= Doubled(Positive(p.baseDelay), a)
    {
      DelayBounds(p, a, delays(a));
    }
    SleptBelowCaps(p, retried, delays, limit - 1);
    SleptBelowDoublings(Positive(p.baseDelay), retried, delays, limit - 1);
  }

  /** Over any run of any number of workers in which no crash of the task leaves an attempt limit above M, the backoff
      slept for it is at most min((M - 1) * cap, base * (2^(M - 1) - 1)): each retry follows a different attempt number
      below M. */
  lemma TotalBackoffIsBounded(s: System, actions: seq<Action>, id: TaskId, m: nat, p: RetryPolicy,
                              delays: nat -> real)
    requires Initial(s) && id < |s.store.tasks| && m >= 1 && LimitsWithin(s, actions, id, m)
    requires forall a :: a in After(s, actions).history[id].retried ==> DelayFor(p, a, delays(a))
    ensures var retried := After(s, actions).history[id].retried;
            && (forall a :: a in retried ==> 1 <= a < m)
            && SleptWithin(p, TotalSlept(retried, delays, m), m)
  {
    InitialBooks(s);
    RunKeepsBooks(s, actions);
    RunKeepsLimit(s, actions, id, m);
    assert WithinBudgets(AccountOf(After(s, actions), id), s.limits.maxOomRetries);
    SleptIsBounded(p, After(s, actions).history[id].retried, delays, m);
  }
}
