/** The statuses of runs and tasks, and the transition tables every checked write consults. */
module Lifecycle {

  datatype RunStatus = Created | Validated | Running | PartialFailed | Failed | Completed | Cancelled

  datatype TaskStatus = Pending | Leased | Running | Succeeded | Failed | TimedOut | Degenerate | Cancelled

  function RunMoves(from: RunStatus): set<RunStatus> {
    match from
    case Created => {Validated, RunStatus.Cancelled}
    case Validated => {RunStatus.Running, RunStatus.Cancelled}
    case Running => {PartialFailed, RunStatus.Failed, Completed, RunStatus.Cancelled}
    case PartialFailed => {RunStatus.Failed, Completed, RunStatus.Cancelled}
    case _ => {}
  }

  function TaskMoves(from: TaskStatus): set<TaskStatus> {
    match from
    case Pending => {Leased, TaskStatus.Cancelled}
    case Leased => {TaskStatus.Running, TaskStatus.Cancelled, TimedOut}
    case Running => {Succeeded, TaskStatus.Failed, TimedOut, Degenerate, TaskStatus.Cancelled, Pending}
    case _ => {}
  }

  /** A task in a terminal status is never moved again. */
  predicate Terminal(s: TaskStatus) {
    TaskMoves(s) == {}
  }

  predicate InProgress(s: TaskStatus) {
    s in {Pending, Leased, TaskStatus.Running}
  }

  predicate Unsuccessful(s: TaskStatus) {
    s in {TaskStatus.Failed, TimedOut, Degenerate}
  }

  /** What the stores really do to a task: the table, and the three moves of lease recovery that bypass it. */
  predicate StoreMove(from: TaskStatus, to: TaskStatus) {
    || to in TaskMoves(from)
    || (from == Leased && to in {Leased, Pending, TaskStatus.Failed})
  }

  lemma TerminalIsFinal(s: TaskStatus)
    ensures Terminal(s) <==> !InProgress(s)
    ensures Terminal(s) <==> forall t :: !StoreMove(s, t)
  {
    match s
    case Pending => assert StoreMove(s, Leased);
    case Leased => assert StoreMove(s, Pending);
    case Running => assert StoreMove(s, Pending);
    case _ =>
  }

  /** The tables read backwards: where each status can be reached from. */
  lemma ReachedFrom(from: TaskStatus, to: TaskStatus)
    ensures to in TaskMoves(from) <==>
            match to
            case Pending => from.Running?
            case Leased => from.Pending?
            case Running => from.Leased?
            case Succeeded => from.Running?
            case Failed => from.Running?
            case TimedOut => from.Leased? || from.Running?
            case Degenerate => from.Running?
            case Cancelled => from.Pending? || from.Leased? || from.Running?
  {}

  lemma RunReachedFrom(from: RunStatus, to: RunStatus)
    ensures to in RunMoves(from) <==>
            match to
            case Created => false
            case Validated => from.Created?
            case Running => from.Validated?
            case PartialFailed => from.Running?
            case Failed => from.Running? || from.PartialFailed?
            case Completed => from.Running? || from.PartialFailed?
            case Cancelled => from.Created? || from.Validated? || from.Running? || from.PartialFailed?
  {}
}
