/** What a worker makes of an attempt once its handler has ended: judge the result, then choose what to write. */
module Decision {
  import opened Lifecycle
  import opened Records
  import opened StoreOps
  import Validator

  /** What calling the handler comes to: a mapping (a `dict` or another kind), some other value, or an exception.
      `oomLike` says whether `is_oom_error` recognises the exception that follows. The handler gets a copy of the
      payload it may change, and the method and the attempt limit are read after it, from the copy as it is left. */
  datatype HandlerEnd =
    | Gave(result: ResultDict, isDict: bool, oomLike: bool, left: Payload)
    | GaveNoMapping
    | TookTooLong(message: string, oomLike: bool)
    | Threw(message: string, oomLike: bool, left: Payload)

  /** How the handler's call for an attempt of a task ends. No attempt of a task occurs twice. */
  type Handler = (TaskId, nat) -> HandlerEnd

  /** How an attempt ends that was judged. */
  datatype Ending =
    | Returned(result: ResultDict)
    | Unusable(result: ResultDict, oomLike: bool)
    | Overran(message: string, oomLike: bool)
    | Crashed(message: string, oomLike: bool, left: Payload)

  /** `_max_oom_retries` of the worker, the attempt limit of its retry policy, whether its store writes results as JSON,
      and whether a random number library refuses the run's seed. */
  datatype Limits = Limits(maxOomRetries: int, policyAttempts: int, jsonStore: bool, seedRefused: bool)

  // ----- Judging the result -----

  /** `json.dumps` accepts every value of the result. */
  predicate Encodable(r: ResultDict) {
    forall k | k in r :: r[k].Other? ==> r[k].json
  }

  /** Adding the wall time makes a dictionary of any mapping; a mapping that brings its own wall time stays what it
      is. */
  predicate IsDictByThen(e: HandlerEnd) {
    e.Gave? && (e.isDict || Validator.WALL !in e.result)
  }

  function VerdictOf(e: HandlerEnd, seconds: real): Result<Validator.Status, Validator.Crash>
    requires e.Gave?
  {
    if IsDictByThen(e) then Validator.StatusOf(Validator.WithWall(e.result, seconds), e.left.methodName)
    else Ok(Validator.FailedValidation)
  }

  /** None when judging raises: a value that is no mapping cannot take its wall time or its verdict, the validator may
      raise, and a store that writes JSON refuses what it cannot encode. */
  function Judge(e: HandlerEnd, seconds: real, jsonStore: bool): Option<Ending> {
    match e
    case GaveNoMapping => None
    case TookTooLong(m, oomLike) => Some(Overran(m, oomLike))
    case Threw(m, oomLike, left) => Some(Crashed(m, oomLike, left))
    case Gave(result, _, oomLike, _) =>
      match VerdictOf(e, seconds) {
        case Err(_) => None
        case Ok(v) =>
          var kept := Validator.StoredResult(Validator.WithWall(result, seconds), v);
          if jsonStore && !Encodable(kept) then None
          else if Validator.Accepted(v) then Some(Returned(kept))
          else Some(Unusable(kept, oomLike))
      }
  }

  /** Some value the worker will store cannot be written as JSON; the entries it writes itself replace the handler's. */
  predicate StoreRefuses(r: ResultDict, rejected: bool) {
    exists k | k in r :: r[k].Other? && !r[k].json && k != Validator.VERDICT && !(rejected && k == Validator.ISSUES)
  }

  predicate VerdictRejects(e: HandlerEnd) {
    e.Gave? && VerdictOf(e, 0.0).Ok? && !Validator.Accepted(VerdictOf(e, 0.0).value)
  }

  /** The handler returned no mapping, or a dictionary with an int too large for a float or with a method in force that
      is not like text, or something its store cannot write. */
  predicate Unreadable(e: HandlerEnd, jsonStore: bool) {
    || e.GaveNoMapping?
    || (IsDictByThen(e)
        && (Validator.HasHuge(e.result)
            || Validator.NotTextLike(Validator.EffectiveMethod(e.result, e.left.methodName))))
    || (e.Gave? && jsonStore && StoreRefuses(e.result, VerdictRejects(e)))
  }

  lemma WallKeepsEntries(r: ResultDict, seconds: real)
    ensures Validator.HasHuge(Validator.WithWall(r, seconds)) <==> Validator.HasHuge(r)
    ensures forall m :: Validator.EffectiveMethod(Validator.WithWall(r, seconds), m) == Validator.EffectiveMethod(r, m)
  {
    var a := Validator.WithWall(r, seconds);
    assert forall k :: k in r ==> k in a && a[k] == r[k];
  }

  /** The verdict does not depend on how long the handler took. */
  lemma WallIsNeutral(r: ResultDict, methodName: Value, seconds: real)
    ensures Validator.StatusOf(Validator.WithWall(r, seconds), methodName) ==
            Validator.StatusOf(Validator.WithWall(r, 0.0), methodName)
    ensures Validator.HasHuge(Validator.WithWall(r, seconds)) <==> Validator.HasHuge(r)
    ensures Validator.EffectiveMethod(Validator.WithWall(r, seconds), methodName) ==
            Validator.EffectiveMethod(r, methodName)
  {
    var a, b := Validator.WithWall(r, seconds), Validator.WithWall(r, 0.0);
    Validator.LowPerformanceIsNoError(a, b, methodName);
    WallKeepsEntries(r, seconds);
  }

  lemma KeptIsEncodable(r: ResultDict, seconds: real, v: Validator.Status)
    ensures Encodable(Validator.StoredResult(Validator.WithWall(r, seconds), v)) <==>
            !StoreRefuses(r, !Validator.Accepted(v))
  {
    var kept := Validator.StoredResult(Validator.WithWall(r, seconds), v);
    forall k | k in r && k != Validator.VERDICT && !(!Validator.Accepted(v) && k == Validator.ISSUES)
      ensures k in kept && kept[k] == r[k]
    {}
  }

  /** The verdict is the same however long the handler took. */
  lemma VerdictIsTimeless(e: HandlerEnd, seconds: real)
    requires e.Gave?
    ensures VerdictOf(e, seconds) == VerdictOf(e, 0.0)
  {
    WallIsNeutral(e.result, e.left.methodName, seconds);
  }

  /** Judging raises exactly on what is unreadable. */
  lemma JudgeRaisesExactly(e: HandlerEnd, seconds: real, jsonStore: bool)
    ensures Judge(e, seconds, jsonStore).None? <==> Unreadable(e, jsonStore)
  {
    if e.Gave? {
      WallIsNeutral(e.result, e.left.methodName, seconds);
      match VerdictOf(e, seconds)
      case Err(_) =>
      case Ok(v) => KeptIsEncodable(e.result, seconds, v);
    }
  }

  // ----- Choosing what to write -----

  /** `_resolve_max_attempts`: the payload's own limit, else the policy's, and never below one. None when it raises. */
  function MaxAttempts(payload: Payload, limits: Limits): Option<nat> {
    match payload.maxAttempts
    case Unset => Some(if limits.policyAttempts < 1 then 1 else limits.policyAttempts)
    case SetTo(n) => Some(if n < 1 then 1 else n)
    case _ => None
  }

  /** How many attempts ordinary retries may make: just the first where the limit cannot be read. */
  function RetryLimit(payload: Payload, limits: Limits): (m: nat)
    ensures m >= 1
  {
    var limit := MaxAttempts(payload, limits);
    if limit.Some? then limit.value else 1
  }

  /** The status write of one ending, and the event that records it. */
  datatype Writing = Writing(status: TaskStatus, result: Option<ResultDict>, error: Option<ErrorNote>, kind: Kind)

  predicate OomLeft(oomLike: bool, oomed: nat, limits: Limits) {
    limits.maxOomRetries > 0 && oomLike && oomed < limits.maxOomRetries
  }

  /** None when the attempt limit is needed and cannot be read. */
  function Decide(s: State, id: TaskId, worker: WorkerId, attempt: nat, ending: Ending, limits: Limits): Option<Writing>
    requires id < |s.tasks|
  {
    match ending
    case Returned(result) => Some(Writing(Succeeded, Some(result), None, TaskSucceeded(worker, attempt)))
    case Unusable(result, _) =>
      Some(Writing(Degenerate, Some(result), Some(ErrorNote.Rejected), TaskDegenerate(worker, attempt)))
    case Overran(message, _) => Some(Writing(TimedOut, None, Some(Raised(message)), TaskTimedOut(worker, attempt)))
    case Crashed(message, oomLike, left) =>
      var prior := Count(s.events, id, Oom);
      var limit := MaxAttempts(left, limits);
      if OomLeft(oomLike, prior, limits) then
        Some(Writing(Pending, None, Some(Raised(message)), OomRequeued(worker, attempt, prior + 1)))
      else if limit.None? then None
      else if attempt < limit.value then
        Some(Writing(Pending, None, Some(Raised(message)), RetryScheduled(worker, attempt, limit.value)))
      else
        Some(Writing(TaskStatus.Failed, None, Some(Raised(message)), TaskFailed(worker, attempt)))
  }

  /** Read backwards: what each status written says about the attempt. Only a crash is ever tried again, and then
      exactly when an OOM requeue or an ordinary attempt is left. */
  lemma DecisionMeaning(s: State, id: TaskId, worker: WorkerId, attempt: nat, ending: Ending, limits: Limits)
    requires id < |s.tasks| && Decide(s, id, worker, attempt, ending, limits).Some?
    ensures var w := Decide(s, id, worker, attempt, ending, limits).value;
            var oomLeft := ending.Crashed? && ending.oomLike && Count(s.events, id, Oom) < limits.maxOomRetries;
            && (w.status == Succeeded <==> ending.Returned?) && (w.status == Degenerate <==> ending.Unusable?)
            && (w.status == TimedOut <==> ending.Overran?)
            && (w.status == Pending <==>
                ending.Crashed? && (oomLeft || attempt < RetryLimit(ending.left, limits)))
            && (w.kind.OomRequeued? <==> oomLeft)
            && (w.status == TaskStatus.Failed ==> attempt >= RetryLimit(ending.left, limits))
            && (w.result.Some? <==> ending.Returned? || ending.Unusable?) && (w.error.None? <==> ending.Returned?)
            && w.status in TaskMoves(TaskStatus.Running)
  {}

  /** The write and its event, taken as one step. */
  function Conclude(s: State, id: TaskId, w: Writing): Result<State, Fault>
    requires id < |s.tasks|
  {
    match UpdateTaskStatus(s, id, w.status, w.result, w.error)
    case Err(e) => Err(e)
    case Ok(s1) => Ok(AppendEvent(s1, Event(s.tasks[id].runId, Some(id), w.kind)))
  }

  // ----- Between the mark and the final write -----

  /** What is written about an attempt, from the handler's end to the decision. None when `run_once` raises on the way
      and so leaves the task RUNNING; applying the seed and reading the timeout may raise before the handler is
      called. */
  function Answer(s: State, id: TaskId, worker: WorkerId, attempt: nat, e: HandlerEnd, seconds: real, limits: Limits)
    : Option<Writing>
    requires id < |s.tasks|
  {
    if limits.seedRefused || s.tasks[id].payload.timeout.Unconvertible? then None
    else
      var ending := Judge(e, seconds, limits.jsonStore);
      if ending.None? then None else Decide(s, id, worker, attempt, ending.value, limits)
  }

  /** The run's seed is refused, or the payload's timeout cannot be read, or what the handler returned cannot, or the
      attempt limit cannot and the crash needs it. */
  predicate Strands(payload: Payload, oomed: nat, limits: Limits, e: HandlerEnd) {
    || limits.seedRefused || payload.timeout.Unconvertible?
    || Unreadable(e, limits.jsonStore)
    || (e.Threw? && !OomLeft(e.oomLike, oomed, limits) && e.left.maxAttempts in {SetToNone, Unconvertible})
  }

  /** The latest attempt of the task got no answer, or would have got none. */
  predicate LastStrands(s: State, id: TaskId, limits: Limits, handler: Handler)
    requires id < |s.tasks|
  {
    var t := s.tasks[id];
    Strands(t.payload, Count(s.events, id, Oom), limits, handler(id, t.attempts))
  }

  /** An attempt gets no final write exactly when it strands. */
  lemma AnswerFailsExactly(s: State, id: TaskId, worker: WorkerId, attempt: nat, e: HandlerEnd, seconds: real,
                           limits: Limits)
    requires id < |s.tasks|
    ensures Answer(s, id, worker, attempt, e, seconds, limits).None? <==>
            Strands(s.tasks[id].payload, Count(s.events, id, Oom), limits, e)
  {
    JudgeRaisesExactly(e, seconds, limits.jsonStore);
  }

  /** Every answer is a decision about some judged ending. */
  lemma AnswerIsDecision(s: State, id: TaskId, worker: WorkerId, attempt: nat, e: HandlerEnd, seconds: real,
                         limits: Limits) returns (ending: Ending)
    requires id < |s.tasks| && Answer(s, id, worker, attempt, e, seconds, limits).Some?
    ensures Decide(s, id, worker, attempt, ending, limits) == Answer(s, id, worker, attempt, e, seconds, limits)
    ensures ending.Crashed? <==> e.Threw?
    ensures ending.Crashed? ==> ending.left == e.left
  {
    ending := Judge(e, seconds, limits.jsonStore).value;
  }

  /** A timeout of "2h" strands the task before its handler runs. */
  lemma TextTimeoutStrands(oomed: nat, limits: Limits, e: HandlerEnd)
    ensures Strands(Payload(Unset, Unconvertible, Null), oomed, limits, e)
  {}

  /** An attempt limit of null, left in the payload, strands a crash, and nothing else. */
  lemma NullLimitStrandsCrashes(oomed: nat, limits: Limits, m: string)
    requires !limits.seedRefused
    ensures Strands(Payload(SetToNone, Unset, Null), oomed, limits, Threw(m, false, Payload(SetToNone, Unset, Null)))
    ensures !Strands(Payload(SetToNone, Unset, Null), oomed, limits, TookTooLong(m, false))
  {}

  /** So does one the handler writes there before it raises, whatever the payload was. */
  lemma HandlersLimitStrandsCrashes(payload: Payload, oomed: nat, limits: Limits, m: string)
    ensures Strands(payload, oomed, limits, Threw(m, false, payload.(maxAttempts := Unconvertible)))
  {}

  /** And a method the handler takes out of its payload no longer hides the result's own: an adapter with nothing to
      train is then degenerate, where it was not under a method that is no adapter. */
  lemma HandlersMethodDecides(r: ResultDict, named: Payload, seconds: real)
    requires Validator.Truthy(named.methodName) && Validator.IsAdapter(Validator.EffectiveMethod(r, Null))
    requires Validator.ZeroTrainable(r)
    requires VerdictOf(Gave(r, true, false, named), seconds).Ok?
    requires Validator.Accepted(VerdictOf(Gave(r, true, false, named), seconds).value)
    ensures VerdictOf(Gave(r, true, false, named.(methodName := Null)), seconds) == Ok(Validator.DegenerateResult)
  {
    var full := Validator.WithWall(r, seconds);
    WallKeepsEntries(r, seconds);
    assert Validator.ZeroTrainable(full) <==> Validator.ZeroTrainable(r);
  }

  /** {"tokens": 10**400} strands, although no check looks at "tokens". */
  lemma HugeIntegerStrands(payload: Payload, oomed: nat, limits: Limits, left: Payload)
    ensures Strands(payload, oomed, limits, Gave(map["tokens" := Huge], true, false, left))
  {
    assert "tokens" in map["tokens" := Huge];
  }

  /** A mapping that is no dictionary and brings its own wall time is rejected without being looked at. */
  lemma ForeignMappingIsRejected(r: ResultDict, left: Payload, seconds: real)
    requires Validator.WALL in r
    ensures var e := Gave(r, false, false, left);
            !Unreadable(e, false) && Judge(e, seconds, false).value.Unusable?
  {}
}
