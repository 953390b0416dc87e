/** The records the state store keeps. */
module Records {
  import opened Lifecycle

  datatype Option<+T> = None | Some(value: T)

  datatype Result<+T, +E> = Ok(value: T) | Err(error: E)

  /** Runs and workers are named; a task's id stands for the uuid of the n-th task created. */
  type RunId = nat
  type WorkerId = nat
  type TaskId = nat

  /** An instant, in microseconds. A lease is live up to and including its instant. */
  type Time = int

  /** The exceptions the store and the runner raise. */
  datatype Fault =
    | KeyError
    | InvalidTaskTransition(taskFrom: TaskStatus, taskTo: TaskStatus)
    | InvalidRunTransition(runFrom: RunStatus, runTo: RunStatus)

  /** A Python float, and the values a handler's result dictionary may hold. An int too large for a float is kept apart
      from the other numbers. Any other value has a truth value, can be written as JSON or cannot, and has a `lower()`
      as bytes do, which makes no method name known here, or has none. */
  datatype Float = Finite(r: real) | NaN | PosInf | NegInf

  datatype Value =
    | Number(f: Float)
    | Huge
    | Bool(b: bool)
    | Text(s: string)
    | Null
    | Other(truthy: bool, json: bool, lowers: bool)

  type ResultDict = map<string, Value>

  datatype ErrorNote =
    | Raised(message: string)
    | Rejected
    | DiedUnreported(worker: WorkerId, priorReclaims: nat)

  /** An optional integer of a payload, as `int(..)` takes it: absent, present as None, convertible, or neither. */
  datatype Setting = Unset | SetToNone | SetTo(n: int) | Unconvertible

  /** What the harness reads of a task's payload: its attempt limit, its timeout, and its method, Null when it names
      none. Nothing checks these when the run is created. */
  datatype Payload = Payload(maxAttempts: Setting, timeout: Setting, methodName: Value)

  datatype Task = Task(
    runId: RunId,
    key: string,
    payload: Payload,
    status: TaskStatus,
    result: Option<ResultDict>,
    error: Option<ErrorNote>,
    owner: Option<WorkerId>,
    until: Option<Time>,
    attempts: nat)

  datatype Run = Run(status: RunStatus, finishedAt: Option<Time>)

  datatype Kind =
    | RunCreated
    | RunValidated
    | TaskCreated
    | RunStatusChanged(from: RunStatus, to: RunStatus)
    | TaskRunning(worker: WorkerId, attempt: nat)
    | TaskSucceeded(worker: WorkerId, attempt: nat)
    | TaskDegenerate(worker: WorkerId, attempt: nat)
    | TaskTimedOut(worker: WorkerId, attempt: nat)
    | TaskFailed(worker: WorkerId, attempt: nat)
    | RetryScheduled(worker: WorkerId, attempt: nat, maxAttempts: nat)
    | OomRequeued(worker: WorkerId, attempt: nat, oomAttempt: nat)
    | LeaseExpired(previousOwner: Option<WorkerId>, reclaimedBy: Option<WorkerId>)
    | LeaseReclaimed(deadWorker: WorkerId, prior: nat)
    | TaskAbandoned(deadWorker: WorkerId, prior: nat)

  datatype Event = Event(runId: RunId, taskId: Option<TaskId>, kind: Kind)

  /** Everything the store holds. Tasks stand in the order they were created. */
  datatype State = State(runs: map<RunId, Run>, tasks: seq<Task>, events: seq<Event>)

  datatype Reclaim = NoTask | Requeued | Abandoned
}
