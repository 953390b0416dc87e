/** Refreshes that interleave. A refresh reads the run, reads the tasks, and writes blindly, as separate store calls;
    any number of them run between one another's calls and between task operations. */
module RefreshRace {
  import opened Lifecycle
  import opened Records
  import opened RunStatusFold

  /** How far a refresh has come, with the values it still remembers. */
  datatype Stage =
    | Idle
    | SawRun(seen: Run)
    | Decided(seen: Run, target: RunStatus)
    | Stepped(target: RunStatus)
    | Rechecking(seen: Run, target: RunStatus)
    | Stamping
    | RaisedOut

  /** The run's record and the refreshes in flight. The last two fields are bookkeeping that no call reads: which
      refreshes read the tasks since what they call for last changed, and whether one of those wrote the status last. */
  datatype Board = Board(row: Run, stages: map<nat, Stage>, current: set<nat>, upToDate: bool)

  /** What the tasks look like to a refresh: the fold of their statuses, and whether any was attempted. */
  datatype Sight = Sight(aggregate: RunStatus, attempted: bool)

  datatype Action = ReadRun | ReadTasks | Advance(at: Time)

  function NewBoard(row: Run): Board {
    Board(row, map[], {}, false)
  }

  function At(b: Board, p: nat): Stage {
    if p in b.stages then b.stages[p] else Idle
  }

  predicate Enabled(b: Board, p: nat, a: Action) {
    match a
    case ReadRun => At(b, p).Idle?
    case ReadTasks => At(b, p).SawRun?
    case Advance(_) => At(b, p).Decided? || At(b, p).Stepped? || At(b, p).Rechecking? || At(b, p).Stamping?
  }

  /** One store call of refresh p, while the tasks look like `now`. */
  function Next(b: Board, p: nat, a: Action, now: Sight): Board
    requires Enabled(b, p, a)
  {
    match a
    case ReadRun => b.(stages := b.stages[p := SawRun(b.row)], current := b.current - {p})
    case ReadTasks => b.(stages := b.stages[p := Decided(At(b, p).seen, now.aggregate)], current := b.current + {p})
    case Advance(at) =>
      match At(b, p) {
        case Decided(seen, target) =>
          if target == seen.status then b.(stages := b.stages[p := Idle])
          else if StepsThrough(seen.status, target) then
            b.(row := b.row.(status := RunStatus.Running), stages := b.stages[p := Stepped(target)], upToDate := false)
          else Finish(b, p, seen, target)
        case Stepped(target) => b.(stages := b.stages[p := Rechecking(b.row, target)])
        case Rechecking(seen, target) => Finish(b, p, seen, target)
        case Stamping => b.(row := b.row.(finishedAt := Some(at)), stages := b.stages[p := Idle])
        case _ => b
      }
  }

  /** The last check and the blind write; the finishing time follows in a call of its own, when the record read had
      none. */
  function Finish(b: Board, p: nat, seen: Run, target: RunStatus): Board {
    if target in RunMoves(seen.status) then
      b.(row := b.row.(status := target),
         stages := b.stages[p := if Finishing(target) && seen.finishedAt.None? then Stamping else Idle],
         upToDate := p in b.current)
    else b.(stages := b.stages[p := RaisedOut])
  }

  /** A call reads and writes the run's record and its own refresh's stage, and nothing else matters to it. */
  lemma CallIsLocal(b: Board, c: Board, p: nat, a: Action, now: Sight, q: nat)
    requires Enabled(b, p, a) && c.row == b.row && At(c, p) == At(b, p)
    ensures Enabled(c, p, a) && Next(c, p, a, now).row == Next(b, p, a, now).row
    ensures At(Next(c, p, a, now), p) == At(Next(b, p, a, now), p)
    ensures q != p ==> At(Next(c, p, a, now), q) == At(c, q)
  {}

  /** A task operation changes no record of the run; it may make what the refreshes have read stale. */
  function AfterWork(b: Board, now: Sight, later: Sight): Board {
    if later.attempted && later != now then b.(current := {}, upToDate := false) else b
  }

  // ----- Whole runs over a changing task table -----

  datatype Turn = Work(tasks: seq<Task>) | Call(p: nat, action: Action)

  ghost function SightOf(tasks: seq<Task>, run: RunId): Sight {
    Sight(Aggregate(tasks, run), Attempted(tasks, run))
  }

  /** tasks and b become tasks' and b' by this interleaving of task operations and refresh calls. A worker refreshes
      only after its own `increment_task_attempts`, so some task was attempted whenever a refresh makes a call. */
  ghost predicate Runs(run: RunId, tasks: seq<Task>, b: Board, es: seq<Turn>, tasks': seq<Task>, b': Board)
    decreases |es|
  {
    if es == [] then tasks' == tasks && b' == b
    else
      var now := SightOf(tasks, run);
      match es[0] {
        case Work(ts) =>
          Progresses(tasks, ts) && Runs(run, ts, AfterWork(b, now, SightOf(ts, run)), es[1..], tasks', b')
        case Call(p, a) =>
          now.attempted && Enabled(b, p, a) && Runs(run, tasks, Next(b, p, a, now), es[1..], tasks', b')
      }
  }

  // ----- Safety -----

  /** What a refresh in flight knows is not ahead of the tasks, and its target is what they call for exactly when it is
      current. */
  predicate StageSound(stage: Stage, current: bool, status: RunStatus, now: Sight) {
    match stage
    case Idle => true
    case SawRun(seen) => now.attempted && NotAhead(seen.status, now.aggregate)
    case Decided(seen, target) =>
      && now.attempted && NotAhead(seen.status, target) && NotAhead(target, now.aggregate) && target != Validated
      && (current <==> target == now.aggregate)
    case Stepped(target) =>
      && now.attempted && NotAhead(RunStatus.Running, target) && NotAhead(target, now.aggregate) && status != Validated
      && (current <==> target == now.aggregate)
    case Rechecking(seen, target) =>
      && now.attempted && NotAhead(seen.status, now.aggregate) && NotAhead(RunStatus.Running, target)
      && seen.status != Validated && status != Validated && NotAhead(target, now.aggregate)
      && (current <==> target == now.aggregate)
    case Stamping => now.attempted && Finishing(now.aggregate) && status != Validated
    case RaisedOut => true
  }

  predicate OnLadder(s: RunStatus) {
    s in {Validated, RunStatus.Running, PartialFailed, RunStatus.Failed, Completed}
  }

  ghost predicate Sound(b: Board, now: Sight) {
    && OnLadder(now.aggregate)
    && NotAhead(b.row.status, now.aggregate)
    && (if now.attempted then now.aggregate != Validated else b.row.status == Validated)
    && (b.row.finishedAt.Some? ==> now.attempted && Finishing(now.aggregate))
    && (now.attempted ==> (b.upToDate <==> b.row.status == now.aggregate))
    && forall p :: p in b.stages ==> StageSound(b.stages[p], p in b.current, b.row.status, now)
  }

  lemma StageKept(b: Board, p: nat, a: Action, now: Sight, q: nat)
    requires Sound(b, now) && now.attempted && Enabled(b, p, a) && q in Next(b, p, a, now).stages
    ensures var b' := Next(b, p, a, now); StageSound(b'.stages[q], q in b'.current, b'.row.status, now)
  {
    assert StageSound(At(b, p), p in b.current, b.row.status, now);
    if q != p {
      assert StageSound(b.stages[q], q in b.current, b.row.status, now);
    }
  }

  lemma RowKept(b: Board, p: nat, a: Action, now: Sight)
    requires Sound(b, now) && now.attempted && Enabled(b, p, a)
    ensures var b' := Next(b, p, a, now);
            && NotAhead(b'.row.status, now.aggregate) && (b'.row.finishedAt.Some? ==> Finishing(now.aggregate))
            && (b'.upToDate <==> b'.row.status == now.aggregate)
  {
    assert StageSound(At(b, p), p in b.current, b.row.status, now);
  }

  lemma CallKeepsSound(b: Board, p: nat, a: Action, now: Sight)
    requires Sound(b, now) && now.attempted && Enabled(b, p, a)
    ensures Sound(Next(b, p, a, now), now)
  {
    RowKept(b, p, a, now);
    forall q | q in Next(b, p, a, now).stages
      ensures var b' := Next(b, p, a, now); StageSound(b'.stages[q], q in b'.current, b'.row.status, now)
    {
      StageKept(b, p, a, now, q);
    }
  }

  lemma WorkKeepsSound(b: Board, now: Sight, later: Sight)
    requires Sound(b, now) && OnLadder(later.aggregate) && (later.attempted ==> later.aggregate != Validated)
    requires now.attempted ==> later.attempted && NotAhead(now.aggregate, later.aggregate)
    ensures Sound(AfterWork(b, now, later), later)
  {
    var b' := AfterWork(b, now, later);
    forall p | p in b'.stages ensures StageSound(b'.stages[p], p in b'.current, b'.row.status, later) {
      assert StageSound(b.stages[p], p in b.current, b.row.status, now);
    }
  }

  lemma SightFacts(tasks: seq<Task>, run: RunId)
    ensures OnLadder(Aggregate(tasks, run)) && (Attempted(tasks, run) ==> Aggregate(tasks, run) != Validated)
  {
    FoldCases(tasks, run);
    FoldMeaning(Statuses(tasks, run), Attempted(tasks, run));
    if Attempted(tasks, run) {
      var i :| 0 <= i < |tasks| && tasks[i].runId == run && tasks[i].attempts > 0;
      assert tasks[i].status in Statuses(tasks, run);
    }
  }

  lemma TasksKeepSound(run: RunId, tasks: seq<Task>, later: seq<Task>, b: Board)
    requires Sound(b, SightOf(tasks, run)) && Progresses(tasks, later)
    ensures Sound(AfterWork(b, SightOf(tasks, run), SightOf(later, run)), SightOf(later, run))
  {
    SightFacts(later, run);
    if Attempted(tasks, run) { AggregateMonotone(tasks, later, run); }
    WorkKeepsSound(b, SightOf(tasks, run), SightOf(later, run));
  }

  /** Whatever the interleaving: the run's status is never ahead of what its tasks call for, it carries a finishing time
      only once they are all finished, and it is what they call for exactly when the refresh that wrote it last had read
      the tasks since that last changed. */
  lemma {:induction false} NeverAhead(run: RunId, tasks: seq<Task>, b: Board, es: seq<Turn>, tasks': seq<Task>,
                                    b': Board)
    requires Sound(b, SightOf(tasks, run)) && Runs(run, tasks, b, es, tasks', b')
    ensures Sound(b', SightOf(tasks', run)) && NotAhead(b'.row.status, Aggregate(tasks', run))
    ensures b'.row.finishedAt.Some? ==> Aggregate(tasks', run) in {Completed, RunStatus.Failed}
    ensures Attempted(tasks', run) ==> (b'.row.status == Aggregate(tasks', run) <==> b'.upToDate)
    decreases |es|
  {
    if es == [] {
    } else {
      var now := SightOf(tasks, run);
      match es[0] {
        case Work(ts) =>
          TasksKeepSound(run, tasks, ts, b);
          NeverAhead(run, ts, AfterWork(b, now, SightOf(ts, run)), es[1..], tasks', b');
        case Call(p, a) =>
          CallKeepsSound(b, p, a, now);
          NeverAhead(run, tasks, Next(b, p, a, now), es[1..], tasks', b');
      }
    }
  }

  /** A run created and not yet worked on is a sound place to start. */
  lemma FreshBoardSound(run: RunId, tasks: seq<Task>)
    requires !Attempted(tasks, run)
    ensures Sound(NewBoard(Run(Validated, None)), SightOf(tasks, run))
  {
    SightFacts(tasks, run);
    FoldCases(tasks, run);
    assert OnLadder(Aggregate(tasks, run));
  }

  // ----- When a refresh raises -----

  /** A refresh raises in exactly one situation: it stepped through RUNNING, and the status it read back has meanwhile
      reached or passed its target. A refresh that need not step through never raises. */
  lemma RaisesExactly(b: Board, p: nat, now: Sight, at: Time)
    requires Sound(b, now) && now.attempted && Enabled(b, p, Advance(at))
    ensures At(Next(b, p, Advance(at), now), p).RaisedOut? <==>
            At(b, p).Rechecking? && NotAhead(At(b, p).target, At(b, p).seen.status)
  {
    assert StageSound(At(b, p), p in b.current, b.row.status, now);
    if At(b, p).Rechecking? {
      LadderMeets(At(b, p).seen.status, At(b, p).target, now.aggregate);
    }
  }

  /** Two statuses below a common one compare, and below it the table allows exactly the upward moves out of RUNNING
      and PARTIAL_FAILED. */
  lemma LadderMeets(seen: RunStatus, target: RunStatus, now: RunStatus)
    requires OnLadder(now) && NotAhead(seen, now) && NotAhead(target, now) && NotAhead(RunStatus.Running, target)
    ensures seen != Validated ==> (target !in RunMoves(seen) <==> NotAhead(target, seen))
  {}

  // ----- The undisturbed refresh -----

  /** The call a refresh makes next. */
  function NextCall(stage: Stage, at: Time): Action {
    if stage.Idle? then ReadRun else if stage.SawRun? then ReadTasks else Advance(at)
  }

  /** n calls of refresh p in a row. */
  function Alone(b: Board, p: nat, now: Sight, at: Time, n: nat): Board
    decreases n
  {
    if n == 0 || At(b, p).RaisedOut? then b
    else Alone(Next(b, p, NextCall(At(b, p), at), now), p, now, at, n - 1)
  }

  function AloneTurns(b: Board, p: nat, now: Sight, at: Time, n: nat): seq<Turn>
    decreases n
  {
    if n == 0 || At(b, p).RaisedOut? then []
    else
      var a := NextCall(At(b, p), at);
      [Call(p, a)] + AloneTurns(Next(b, p, a, now), p, now, at, n - 1)
  }

  lemma {:induction false} AloneRuns(run: RunId, tasks: seq<Task>, b: Board, p: nat, at: Time, n: nat)
    requires Attempted(tasks, run)
    ensures var now := SightOf(tasks, run); var es := AloneTurns(b, p, now, at, n);
            Runs(run, tasks, b, es, tasks, Alone(b, p, now, at, n)) && forall e :: e in es ==> e.Call? && e.p == p
    decreases n
  {
    if n > 0 && !At(b, p).RaisedOut? {
      var now := SightOf(tasks, run);
      var b1 := Next(b, p, NextCall(At(b, p), at), now);
      AloneRuns(run, tasks, b1, p, at, n - 1);
      assert AloneTurns(b, p, now, at, n)[1..] == AloneTurns(b1, p, now, at, n - 1);
    }
  }

  lemma AloneStep(b: Board, p: nat, now: Sight, at: Time, n: nat)
    requires n > 0 && !At(b, p).RaisedOut?
    ensures Alone(b, p, now, at, n) == Alone(Next(b, p, NextCall(At(b, p), at), now), p, now, at, n - 1)
  {}

  /** How many calls a refresh takes: three when it has nothing to write, two more to step through RUNNING, one more to
      stamp the finishing time. */
  function CallsNeeded(row: Run, target: RunStatus): nat {
    if target == row.status then 3
    else
      (if StepsThrough(row.status, target) then 5 else 3)
      + if Finishing(target) && row.finishedAt.None? then 1 else 0
  }

  /** The record after one undisturbed refresh. */
  function Settled(row: Run, target: RunStatus, at: Time): Run {
    if target == row.status then row
    else Run(target, if Finishing(target) && row.finishedAt.None? then Some(at) else row.finishedAt)
  }

  lemma AloneLands(b: Board, p: nat, now: Sight, at: Time)
    requires Sound(b, now) && now.attempted && At(b, p).Idle?
    ensures var b' := Alone(b, p, now, at, CallsNeeded(b.row, now.aggregate));
            At(b', p).Idle? && b'.row == Settled(b.row, now.aggregate, at)
  {
    var n := CallsNeeded(b.row, now.aggregate);
    AloneStep(b, p, now, at, n);
    var b1 := Next(b, p, ReadRun, now);
    AloneStep(b1, p, now, at, n - 1);
    var b2 := Next(b1, p, ReadTasks, now);
    AloneStep(b2, p, now, at, n - 2);
    var b3 := Next(b2, p, Advance(at), now);
    if At(b3, p).Stepped? {
      AloneStep(b3, p, now, at, n - 3);
      var b4 := Next(b3, p, Advance(at), now);
      AloneStep(b4, p, now, at, n - 4);
      AloneStamps(Next(b4, p, Advance(at), now), p, now, at, n - 5);
    } else if At(b3, p).Stamping? {
      AloneStamps(b3, p, now, at, n - 3);
    }
  }

  lemma AloneStamps(b: Board, p: nat, now: Sight, at: Time, n: nat)
    requires if At(b, p).Stamping? then n == 1 else n == 0
    ensures var b' := Alone(b, p, now, at, n);
            if n == 1 then b'.row == b.row.(finishedAt := Some(at)) && At(b', p).Idle? else b' == b
  {
    if n == 1 {
      AloneStep(b, p, now, at, 1);
    }
  }

  /** From every reachable board, a refresh left alone ends on what the tasks call for, with the record the atomic
      refresh leaves. */
  lemma UndisturbedLands(s: State, run: RunId, b: Board, p: nat, now: Time)
    requires Sound(b, SightOf(s.tasks, run)) && At(b, p).Idle? && Attempted(s.tasks, run)
    requires run in s.runs && s.runs[run] == b.row
    ensures exists es: seq<Turn>, b': Board ::
              && Runs(run, s.tasks, b, es, s.tasks, b') && (forall e :: e in es ==> e.Call? && e.p == p)
              && At(b', p).Idle? && b'.row.status == Aggregate(s.tasks, run)
              && Refresh(s, run, now).1 == Ok(b'.row.status) && Refresh(s, run, now).0.runs[run] == b'.row
  {
    var sight := SightOf(s.tasks, run);
    var n := CallsNeeded(b.row, sight.aggregate);
    AloneLands(b, p, sight, now);
    AloneRuns(run, s.tasks, b, p, now, n);
    AtomicSettles(s, run, sight.aggregate, now);
    var es, b' := AloneTurns(b, p, sight, now, n), Alone(b, p, sight, now, n);
    assert Runs(run, s.tasks, b, es, s.tasks, b');
  }

  lemma AtomicSettles(s: State, run: RunId, target: RunStatus, now: Time)
    requires OnLadder(target) && run in s.runs && NotAhead(s.runs[run].status, target)
    ensures RefreshTo(s, run, target, now).1 == Ok(target)
    ensures RefreshTo(s, run, target, now).0.runs[run] == Settled(s.runs[run], target, now)
  {}
}
