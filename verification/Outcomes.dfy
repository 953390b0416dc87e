/** What an attempt leaves in the store, told from the end of the handler's call: the record of its task, the event that
    goes with it, and what the worker reports. */
module Outcomes {
  import opened Lifecycle
  import opened Records
  import opened StoreOps
  import opened Decision
  import opened Verdicts
  import V = Validator

  // ----- When there is no answer -----

  /** A result the JSON store cannot write. The verdict and, of a rejected result, the list of errors replace what the
      handler put there. */
  predicate Unwritable(r: ResultDict, rejected: bool) {
    exists k | k in r :: r[k].Other? && !r[k].json && k != "_validation_status"
                         && (k == "_validation_errors" ==> !rejected)
  }

  /** Adding a wall time makes a dictionary of any mapping. */
  predicate Examined(e: HandlerEnd)
    requires e.Gave?
  {
    e.isDict || "wall_seconds" !in e.result
  }

  predicate GoneWrong(e: HandlerEnd)
    requires e.Gave?
  {
    !Examined(e) || Faulty(e.result) || Hollow(e.result, e.left.methodName)
  }

  predicate HasOomLeft(e: HandlerEnd, k: nat, limits: Limits)
    requires e.Threw?
  {
    e.oomLike && k < limits.maxOomRetries
  }

  /** The attempt raises between its mark and its final write. */
  predicate NoAnswer(payload: Payload, k: nat, limits: Limits, e: HandlerEnd) {
    || limits.seedRefused
    || payload.timeout.Unconvertible?
    || match e {
         case GaveNoMapping => true
         case TookTooLong(_, _) => false
         case Gave(r, _, _, left) =>
           || (Examined(e) && (TooLarge(r) || !Nameable(MethodInForce(r, left.methodName))))
           || (limits.jsonStore && Unwritable(r, GoneWrong(e)))
         case Threw(_, _, left) =>
           !HasOomLeft(e, k, limits) && (left.maxAttempts.SetToNone? || left.maxAttempts.Unconvertible?)
       }
  }

  // ----- The record -----

  function VerdictText(e: HandlerEnd): string
    requires e.Gave?
  {
    if !Examined(e) || Faulty(e.result) then "FAILED_VALIDATION"
    else if Hollow(e.result, e.left.methodName) then "DEGENERATE_RESULT"
    else if ConstantPredictions(e.result) then "SUCCEEDED_WITH_WARNINGS"
    else "SUCCEEDED_VALIDATED"
  }

  /** Everything the handler returned, with the wall time, the verdict's name and, if it was rejected, its errors; and
      nothing else. */
  ghost predicate Keeps(stored: ResultDict, e: HandlerEnd, seconds: real)
    requires e.Gave?
  {
    && (forall k :: k in stored <==>
          || k in e.result || k == "wall_seconds" || k == "_validation_status"
          || (GoneWrong(e) && k == "_validation_errors"))
    && (forall k :: k in e.result && k != "_validation_status" && !(GoneWrong(e) && k == "_validation_errors") ==>
          k in stored && stored[k] == e.result[k])
    && "_validation_status" in stored && stored["_validation_status"] == Text(VerdictText(e))
    && ("wall_seconds" !in e.result ==>
          "wall_seconds" in stored && stored["wall_seconds"] == Number(Finite(seconds)))
  }

  /** t is what this end of its latest attempt leaves, if it leaves anything. */
  ghost predicate RecordOf(t: Task, e: HandlerEnd, seconds: real) {
    && t.owner.None? && t.until.None?
    && match e {
         case GaveNoMapping => false
         case Gave(_, _, _, _) =>
           && t.result.Some? && Keeps(t.result.value, e, seconds)
           && (if GoneWrong(e) then t.status == Degenerate && t.error == Some(ErrorNote.Rejected)
               else t.status == Succeeded && t.error == None)
         case TookTooLong(message, _) =>
           t.status == TimedOut && t.result == None && t.error == Some(Raised(message))
         case Threw(message, _, _) =>
           && (t.status == Pending || t.status == TaskStatus.Failed)
           && t.result == None && t.error == Some(Raised(message))
       }
  }

  /** The attempt limit the handler leaves. */
  function LimitLeft(left: Payload, policyAttempts: int): int {
    match left.maxAttempts
    case SetTo(n) => if n > 1 then n else 1
    case _ => if policyAttempts > 1 then policyAttempts else 1
  }

  /** The event of attempt n after k OOM requeues, and whether the task is tried again. */
  predicate EventOf(kind: Kind, retried: bool, e: HandlerEnd, worker: WorkerId, n: nat, k: nat, limits: Limits) {
    match e
    case GaveNoMapping => false
    case Gave(_, _, _, _) =>
      !retried && kind == if GoneWrong(e) then TaskDegenerate(worker, n) else TaskSucceeded(worker, n)
    case TookTooLong(_, _) => !retried && kind == TaskTimedOut(worker, n)
    case Threw(_, _, left) =>
      var m := LimitLeft(left, limits.policyAttempts);
      if HasOomLeft(e, k, limits) then retried && kind == OomRequeued(worker, n, k + 1)
      else if n < m then retried && kind.RetryScheduled? && kind == RetryScheduled(worker, n, kind.maxAttempts)
                         && kind.maxAttempts == m
      else !retried && kind == TaskFailed(worker, n)
  }

  // ----- The answer agrees -----

  /** full has the entries of r, and a wall time. */
  ghost predicate AddsWall(r: ResultDict, full: ResultDict) {
    && "wall_seconds" !in r && "wall_seconds" in full
    && full["wall_seconds"].Number? && full["wall_seconds"].f.Finite?
    && forall k :: k != "wall_seconds" ==> (k in full <==> k in r) && (k in r ==> full[k] == r[k])
  }

  lemma WallFaults(r: ResultDict, full: ResultDict)
    requires AddsWall(r, full)
    ensures Faulty(full) <==> Faulty(r)
  {
    forall k | k in r
      ensures k in full && (IsNaN(full, k) <==> IsNaN(r, k)) && (IsInfinite(full, k) <==> IsInfinite(r, k))
      ensures (OutOfBounds(full, k) <==> OutOfBounds(r, k)) && (BelowZero(full, k) <==> BelowZero(r, k))
    {}
    var w := "wall_seconds";
    assert !IsNaN(full, w) && !IsInfinite(full, w) && !OutOfBounds(full, w) && !BelowZero(full, w);
  }

  lemma WallZeros(r: ResultDict, full: ResultDict)
    requires AddsWall(r, full)
    ensures AllZero(full) <==> AllZero(r)
  {
    assert !Bounded("wall_seconds");
  }

  lemma WallHollow(r: ResultDict, full: ResultDict, named: Value)
    requires AddsWall(r, full)
    ensures MethodInForce(full, named) == MethodInForce(r, named) && (Hollow(full, named) <==> Hollow(r, named))
  {
    WallZeros(r, full);
    WallMethod(r, full, named);
  }

  lemma WallMethod(r: ResultDict, full: ResultDict, named: Value)
    requires AddsWall(r, full)
    ensures MethodInForce(full, named) == MethodInForce(r, named)
  {}

  lemma WallTooLarge(r: ResultDict, full: ResultDict)
    requires AddsWall(r, full)
    ensures TooLarge(full) <==> TooLarge(r)
  {
    forall k | k in r ensures k in full && full[k] == r[k] {}
  }

  lemma WallAgrees(r: ResultDict, named: Value, seconds: real)
    ensures var full := V.WithWall(r, seconds);
            && (TooLarge(full) <==> TooLarge(r)) && MethodInForce(full, named) == MethodInForce(r, named)
            && (Faulty(full) <==> Faulty(r)) && (Hollow(full, named) <==> Hollow(r, named))
            && (ConstantPredictions(full) <==> ConstantPredictions(r))
  {
    var full := V.WithWall(r, seconds);
    if "wall_seconds" !in r {
      WallAdded(r, seconds);
      WallFaults(r, full);
      WallHollow(r, full, named);
      WallTooLarge(r, full);
    }
  }

  lemma WallAdded(r: ResultDict, seconds: real)
    requires "wall_seconds" !in r
    ensures AddsWall(r, V.WithWall(r, seconds))
  {}

  lemma VerdictsAgree(e: HandlerEnd, seconds: real)
    requires e.Gave?
    ensures VerdictOf(e, seconds).Err? <==>
            Examined(e) && (TooLarge(e.result) || !Nameable(MethodInForce(e.result, e.left.methodName)))
    ensures VerdictOf(e, seconds).Ok? ==>
              var v := VerdictOf(e, seconds).value;
              V.VerdictName(v) == VerdictText(e) && (V.Accepted(v) <==> !GoneWrong(e))
  {
    VerdictMeaning(V.WithWall(e.result, seconds), e.left.methodName);
    WallAgrees(e.result, e.left.methodName, seconds);
  }

  lemma StoredAgrees(e: HandlerEnd, seconds: real)
    requires e.Gave? && VerdictOf(e, seconds).Ok?
    ensures Keeps(V.StoredResult(V.WithWall(e.result, seconds), VerdictOf(e, seconds).value), e, seconds)
  {
    VerdictsAgree(e, seconds);
  }

  /** The attempt has no answer exactly then. */
  lemma NoAnswerExactly(payload: Payload, k: nat, limits: Limits, e: HandlerEnd)
    ensures Strands(payload, k, limits, e) <==> NoAnswer(payload, k, limits, e)
  {
    if e.Gave? {
      VerdictsAgree(e, 0.0);
      VerdictMeaning(e.result, e.left.methodName);
    }
  }

  /** What the worker writes, seen from the handler's end. */
  ghost predicate WritesDown(x: Writing, e: HandlerEnd, worker: WorkerId, n: nat, k: nat, limits: Limits,
                             seconds: real) {
    && (forall t: Task :: RecordOf(t.(status := x.status, result := x.result, error := x.error, owner := None,
                                      until := None), e, seconds))
    && EventOf(x.kind, x.status == Pending, e, worker, n, k, limits)
  }

  lemma AnswerMeaning(s: State, id: TaskId, worker: WorkerId, n: nat, e: HandlerEnd, seconds: real, limits: Limits)
    requires id < |s.tasks|
    ensures var x := Answer(s, id, worker, n, e, seconds, limits); var k := Count(s.events, id, Oom);
            && (x.None? <==> NoAnswer(s.tasks[id].payload, k, limits, e))
            && (x.Some? ==> WritesDown(x.value, e, worker, n, k, limits, seconds))
  {
    AnswerFailsExactly(s, id, worker, n, e, seconds, limits);
    NoAnswerExactly(s.tasks[id].payload, Count(s.events, id, Oom), limits, e);
    if e.Gave? && VerdictOf(e, seconds).Ok? {
      VerdictsAgree(e, seconds);
      StoredAgrees(e, seconds);
    }
  }
}
