/** A concurrent drain that exits with a task left RUNNING: one task, one device, one child, and a handler that
    returns no mapping. */
module StrandedDrain {
  import opened Lifecycle
  import opened Records
  import opened StoreOps
  import opened RunStatusFold
  import opened Decision
  import opened Protocol
  import opened Exclusion
  import opened Admission
  import opened SharedRun
  import opened ConcurrentDrain
  import Race = RefreshRace

  const ONE := Config(1, 0.0, 1)

  function OneTask(run: RunId): System {
    var task := Task(run, "a", Payload(Unset, Unset, Null), Pending, None, None, None, None, 0);
    System(State(map[run := Run(Validated, None)], [task], []), map[], {}, [History(0, 0, 0, {}, 1)],
           Limits(0, 1, true, false))
  }

  function NewDrain(run: RunId): Drain {
    Drain(run, ONE, (id: TaskId, n: nat) => GaveNoMapping, OneTask(run), Race.NewBoard(Run(Validated, None)),
          Start(ONE), map[], {})
  }

  /** What the children have done: the only task's status and attempts, the only child's phase and refresh, the
      record. */
  datatype Gist = Gist(status: TaskStatus, attempts: nat, phase: Phase, stage: Race.Stage, row: Run)

  /** At work on the task, the run refreshed. */
  const AT_WORK := Gist(TaskStatus.Running, 1, Executing(0, 1), Race.Stage.Idle, Run(RunStatus.Running, None))

  ghost predicate SysMatches(s: System, run: RunId, g: Gist) {
    && WellFormed(s) && s.dead == {} && s.limits == Limits(0, 1, true, false) && |s.store.tasks| == 1
    && s.store.tasks[0].runId == run && s.store.tasks[0].payload == Payload(Unset, Unset, Null)
    && s.store.tasks[0].status == g.status && s.store.tasks[0].attempts == g.attempts && PhaseOf(s, 1) == g.phase
  }

  /** Everything but the parent's pool and mail. */
  ghost predicate Matches(d: Drain, run: RunId, g: Gist) {
    && d.run == run && d.config == ONE && (forall id, n :: d.handler(id, n) == GaveNoMapping)
    && SysMatches(d.sys, run, g) && d.board.row == g.row && Race.At(d.board, 1) == g.stage
  }

  ghost predicate SameParent(d: Drain, d': Drain) {
    d'.pool == d.pool && d'.mail == d.mail && d'.reported == d.reported
  }

  lemma OneMove(d: Drain, m: Move)
    requires WellFormed(d.sys) && ConcurrentDrain.Enabled(d, m)
    ensures ConcurrentDrain.Runs(d, [m], After1(d, m))
  {
    assert [m][1..] == [];
  }

  lemma FirstMove(d: Drain, m: Move, moves: seq<Move>, d': Drain)
    requires WellFormed(d.sys) && ConcurrentDrain.Enabled(d, m) && ConcurrentDrain.Runs(After1(d, m), moves, d')
    ensures ConcurrentDrain.Runs(d, [m] + moves, d')
  {
    assert ([m] + moves)[1..] == moves;
  }

  lemma {:induction false} ThenMove(d0: Drain, moves: seq<Move>, d: Drain, m: Move)
    requires ConcurrentDrain.Runs(d0, moves, d) && WellFormed(d.sys) && ConcurrentDrain.Enabled(d, m)
    ensures ConcurrentDrain.Runs(d0, moves + [m], After1(d, m))
    decreases |moves|
  {
    if moves == [] {
      OneMove(d, m);
      assert moves + [m] == [m];
    } else {
      ThenMove(After1(d0, moves[0]), moves[1..], d, m);
      FirstMove(d0, moves[0], moves[1..] + [m], After1(d, m));
      assert [moves[0]] + (moves[1..] + [m]) == moves + [m];
    }
  }

  // ----- The child -----

  /** A child's step, known on the system, is a move of the drain. */
  lemma StepIsMove(d: Drain, a: Action, run: RunId, g: Gist, g': Gist)
    requires Matches(d, run, g) && g.stage.Idle? && g'.stage.Idle? && g'.row == g.row && d.pool.childSeq == 1
    requires ActorOf(a) == Some(1) && (a.Lease? || a.Increment? || a.Mark? || a.End?) && (a.Lease? ==> a.run == run)
    requires !TakesLiveLease(d.sys, a) && (a.End? ==> a.end == GaveNoMapping) && SysMatches(Next(d.sys, a), run, g')
    ensures ConcurrentDrain.Enabled(d, Child(a)) && Matches(After1(d, Child(a)), run, g')
    ensures SameParent(d, After1(d, Child(a)))
  {
    StepLeavesBoard(SharedOf(d), Next(d.sys, a));
  }

  lemma LeaseMatches(s: System, run: RunId, g: Gist)
    requires SysMatches(s, run, g) && g.status == Pending && g.phase.Idle?
    ensures SysMatches(Next(s, Lease(1, run, 0, 10)), run, g.(status := Leased, phase := Holding(0)))
    ensures !TakesLiveLease(s, Lease(1, run, 0, 10))
  {
    NextWellFormed(s, Lease(1, run, 0, 10));
    assert Candidate(s.store.tasks, run, 0, 0);
    assert NextLeaseable(s.store.tasks, run, 0) == Some(0);
  }

  lemma IncrementMatches(s: System, run: RunId, g: Gist)
    requires SysMatches(s, run, g) && g.phase == Holding(0)
    ensures SysMatches(Next(s, Increment(1)), run, g.(attempts := g.attempts + 1, phase := Counted(0, g.attempts + 1)))
  {
    NextWellFormed(s, Increment(1));
    assert Next(s, Increment(1)) == IncrementStep(s, 1, 0);
  }

  lemma MarkMatches(s: System, run: RunId, g: Gist)
    requires SysMatches(s, run, g) && g.phase == Counted(0, 1) && g.status == Leased
    ensures SysMatches(Next(s, Mark(1)), run, g.(status := TaskStatus.Running, phase := Executing(0, 1)))
  {
    NextWellFormed(s, Mark(1));
    assert Next(s, Mark(1)) == MarkStep(s, 1, 0, 1);
  }

  lemma EndMatches(s: System, run: RunId, g: Gist)
    requires SysMatches(s, run, g) && g.phase == Executing(0, 1)
    ensures SysMatches(Next(s, End(1, GaveNoMapping, 0.0)), run, g.(phase := Stranded(0, 1)))
  {
    NextWellFormed(s, End(1, GaveNoMapping, 0.0));
    assert Answer(s.store, 0, 1, 1, GaveNoMapping, 0.0, s.limits).None?;
  }

  lemma OneRunning(tasks: seq<Task>, run: RunId)
    requires |tasks| == 1 && tasks[0].runId == run && tasks[0].status == TaskStatus.Running && tasks[0].attempts == 1
    ensures Race.SightOf(tasks, run) == Race.Sight(RunStatus.Running, true)
  {
    assert tasks[0].status in Statuses(tasks, run);
    assert Statuses(tasks, run) == {TaskStatus.Running};
    assert tasks[0].attempts > 0;
    FoldMeaning({TaskStatus.Running}, true);
  }

  /** A refresh call while the task is RUNNING. */
  predicate CallsFor(g: Gist, c: Race.Action, g': Gist) {
    match c
    case ReadRun => g.stage.Idle? && g' == g.(stage := Race.SawRun(g.row))
    case ReadTasks => g.stage.SawRun? && g' == g.(stage := Race.Decided(g.stage.seen, RunStatus.Running))
    case Advance(_) =>
      && g.stage == Race.Decided(Run(Validated, None), RunStatus.Running)
      && g' == g.(stage := Race.Stage.Idle, row := g.row.(status := RunStatus.Running))
  }

  lemma CallWrites(b: Race.Board, g: Gist, c: Race.Action, g': Gist)
    requires CallsFor(g, c, g') && b.row == g.row && Race.At(b, 1) == g.stage
    ensures Race.Enabled(b, 1, c)
    ensures var b' := Race.Next(b, 1, c, Race.Sight(RunStatus.Running, true));
            b'.row == g'.row && Race.At(b', 1) == g'.stage
  {}

  /** The refresh after the mark writes RUNNING. */
  lemma CallIsMove(d: Drain, run: RunId, g: Gist, c: Race.Action, g': Gist)
    requires Matches(d, run, g) && g.phase.Executing? && g.status == TaskStatus.Running && g.attempts == 1
    requires d.pool.childSeq == 1 && d.reported == {} && CallsFor(g, c, g')
    ensures ConcurrentDrain.Enabled(d, Move.Refresh(1, c)) && Matches(After1(d, Move.Refresh(1, c)), run, g')
    ensures SameParent(d, After1(d, Move.Refresh(1, c)))
  {
    OneRunning(d.sys.store.tasks, run);
    CallWrites(d.board, g, c, g');
  }

  lemma ChildMoves(d0: Drain, moves0: seq<Move>, d: Drain, run: RunId) returns (moves: seq<Move>, d': Drain)
    requires WellFormed(d0.sys) && ConcurrentDrain.Runs(d0, moves0, d) && d.pool.childSeq == 1
    requires Matches(d, run, Gist(Pending, 0, Idle, Race.Stage.Idle, Run(Validated, None)))
    ensures ConcurrentDrain.Runs(d0, moves, d') && SameParent(d, d')
    ensures Matches(d', run, Gist(TaskStatus.Running, 1, Executing(0, 1), Race.Stage.Idle, Run(Validated, None)))
  {
    var g := Gist(Pending, 0, Idle, Race.Stage.Idle, Run(Validated, None));
    var a, b, c := Lease(1, run, 0, 10), Increment(1), Mark(1);
    LeaseMatches(d.sys, run, g);
    StepIsMove(d, a, run, g, g.(status := Leased, phase := Holding(0)));
    ThenMove(d0, moves0, d, Child(a));
    moves, d', g := moves0 + [Child(a)], After1(d, Child(a)), g.(status := Leased, phase := Holding(0));
    IncrementMatches(d'.sys, run, g);
    StepIsMove(d', b, run, g, g.(attempts := 1, phase := Counted(0, 1)));
    ThenMove(d0, moves, d', Child(b));
    moves, d', g := moves + [Child(b)], After1(d', Child(b)), g.(attempts := 1, phase := Counted(0, 1));
    MarkMatches(d'.sys, run, g);
    StepIsMove(d', c, run, g, g.(status := TaskStatus.Running, phase := Executing(0, 1)));
    ThenMove(d0, moves, d', Child(c));
    moves, d' := moves + [Child(c)], After1(d', Child(c));
  }

  /** And a whole refresh. */
  lemma ChildRefreshes(d0: Drain, moves0: seq<Move>, d: Drain, run: RunId) returns (moves: seq<Move>, d': Drain)
    requires WellFormed(d0.sys) && ConcurrentDrain.Runs(d0, moves0, d) && d.pool.childSeq == 1 && d.reported == {}
    requires Matches(d, run, Gist(TaskStatus.Running, 1, Executing(0, 1), Race.Stage.Idle, Run(Validated, None)))
    ensures ConcurrentDrain.Runs(d0, moves, d') && SameParent(d, d')
    ensures Matches(d', run, AT_WORK)
  {
    var g := Gist(TaskStatus.Running, 1, Executing(0, 1), Race.Stage.Idle, Run(Validated, None));
    var g1 := g.(stage := Race.SawRun(g.row));
    var g2 := g.(stage := Race.Decided(g.row, RunStatus.Running));
    CallIsMove(d, run, g, Race.ReadRun, g1);
    ThenMove(d0, moves0, d, Move.Refresh(1, Race.ReadRun));
    moves, d' := moves0 + [Move.Refresh(1, Race.ReadRun)], After1(d, Move.Refresh(1, Race.ReadRun));
    CallIsMove(d', run, g1, Race.ReadTasks, g2);
    ThenMove(d0, moves, d', Move.Refresh(1, Race.ReadTasks));
    moves, d' := moves + [Move.Refresh(1, Race.ReadTasks)], After1(d', Move.Refresh(1, Race.ReadTasks));
    CallIsMove(d', run, g2, Race.Advance(0), g.(row := Run(RunStatus.Running, None)));
    ThenMove(d0, moves, d', Move.Refresh(1, Race.Advance(0)));
    moves, d' := moves + [Move.Refresh(1, Race.Advance(0))], After1(d', Move.Refresh(1, Race.Advance(0)));
  }

  lemma ChildStrands(d0: Drain, moves0: seq<Move>, d: Drain, run: RunId) returns (moves: seq<Move>, d': Drain)
    requires WellFormed(d0.sys) && ConcurrentDrain.Runs(d0, moves0, d) && d.pool.childSeq == 1
    requires Matches(d, run, AT_WORK)
    ensures ConcurrentDrain.Runs(d0, moves, d') && SameParent(d, d')
    ensures Matches(d', run, Gist(TaskStatus.Running, 1, Stranded(0, 1), Race.Stage.Idle, Run(RunStatus.Running, None)))
  {
    var g := AT_WORK;
    var a := End(1, GaveNoMapping, 0.0);
    EndMatches(d.sys, run, g);
    StepIsMove(d, a, run, g, g.(phase := Stranded(0, 1)));
    ThenMove(d0, moves0, d, Child(a));
    moves, d' := moves0 + [Child(a)], After1(d, Child(a));
  }

  // ----- The parent -----

  lemma Admits(run: RunId) returns (d: Drain)
    ensures var d0 := NewDrain(run); var m := Admit([], 0, 0);
            && WellFormed(d0.sys) && Begins(d0) && ConcurrentDrain.Enabled(d0, m) && d == After1(d0, m)
    ensures Matches(d, run, Gist(Pending, 0, Idle, Race.Stage.Idle, Run(Validated, None)))
    ensures d.pool.childSeq == 1 && d.pool.inFlight == map[1 := 0] && d.mail == map[] && d.reported == {}
  {
    var d0 := NewDrain(run);
    assert Candidate(d0.sys.store.tasks, run, 0, 0);
    CountLeaseableZero(d0.sys.store.tasks, run, 0, 1);
    d := After1(d0, Admit([], 0, 0));
  }

  lemma HearsAndExits(d0: Drain, moves0: seq<Move>, d: Drain, run: RunId) returns (moves: seq<Move>, d': Drain)
    requires WellFormed(d0.sys) && ConcurrentDrain.Runs(d0, moves0, d)
    requires d.pool.childSeq == 1 && d.pool.inFlight == map[1 := 0]
    requires Matches(d, run, Gist(TaskStatus.Running, 1, Stranded(0, 1), Race.Stage.Idle, Run(RunStatus.Running, None)))
    requires d.mail == map[] && d.reported == {}
    ensures ConcurrentDrain.Runs(d0, moves, d') && d'.sys == d.sys && d'.run == run && Exits(d', 0)
  {
    var send, receive := Send(1, Failure), Receive(1);
    ThenMove(d0, moves0, d, send);
    HearingEmptiesPool(d, run);
    ThenMove(d0, moves0 + [send], After1(d, send), receive);
    moves, d' := moves0 + [send] + [receive], After1(After1(d, send), receive);
  }

  lemma HearingEmptiesPool(d: Drain, run: RunId)
    requires d.pool.childSeq == 1 && d.pool.inFlight == map[1 := 0] && d.mail == map[] && d.reported == {}
    requires Matches(d, run, Gist(TaskStatus.Running, 1, Stranded(0, 1), Race.Stage.Idle, Run(RunStatus.Running, None)))
    ensures ConcurrentDrain.Enabled(d, Send(1, Failure))
    ensures var m := After1(d, Send(1, Failure));
            && m.sys == d.sys && ConcurrentDrain.Enabled(m, Receive(1))
            && var d' := After1(m, Receive(1)); d'.sys == d.sys && d'.run == run && Exits(d', 0)
  {
    var d' := After1(After1(d, Send(1, Failure)), Receive(1));
    assert d'.pool.inFlight == map[];
    CountLeaseableZero(d.sys.store.tasks, run, 0, 1);
  }

  lemma Starts(run: RunId) returns (moves: seq<Move>, d: Drain)
    ensures Begins(NewDrain(run)) && WellFormed(NewDrain(run).sys) && ConcurrentDrain.Runs(NewDrain(run), moves, d)
    ensures Matches(d, run, Gist(Pending, 0, Idle, Race.Stage.Idle, Run(Validated, None)))
    ensures d.pool.childSeq == 1 && d.pool.inFlight == map[1 := 0] && d.mail == map[] && d.reported == {}
  {
    d := Admits(run);
    assert ConcurrentDrain.Runs(NewDrain(run), [], NewDrain(run));
    ThenMove(NewDrain(run), [], NewDrain(run), Admit([], 0, 0));
    moves := [] + [Admit([], 0, 0)];
  }

  /** The only child begins its attempt, and the run is RUNNING. */
  lemma GetsGoing(run: RunId) returns (moves: seq<Move>, d: Drain)
    ensures Begins(NewDrain(run)) && WellFormed(NewDrain(run).sys) && ConcurrentDrain.Runs(NewDrain(run), moves, d)
    ensures Matches(d, run, AT_WORK)
    ensures d.pool.childSeq == 1 && d.pool.inFlight == map[1 := 0] && d.mail == map[] && d.reported == {}
  {
    moves, d := Starts(run);
    moves, d := ChildMoves(NewDrain(run), moves, d, run);
    moves, d := ChildRefreshes(NewDrain(run), moves, d, run);
  }

  lemma StrandsAndExits(run: RunId) returns (moves: seq<Move>, d: Drain)
    ensures Begins(NewDrain(run)) && WellFormed(NewDrain(run).sys) && ConcurrentDrain.Runs(NewDrain(run), moves, d)
    ensures Exits(d, 0) && d.run == run && |d.sys.store.tasks| == 1 && d.sys.store.tasks[0].status == TaskStatus.Running
  {
    moves, d := GetsGoing(run);
    moves, d := ChildStrands(NewDrain(run), moves, d, run);
    moves, d := HearsAndExits(NewDrain(run), moves, d, run);
  }

  /** The drain's loop can exit with a task RUNNING. */
  lemma ExitLeavesTaskRunning(run: RunId)
    ensures exists d: Drain, moves: seq<Move>, d': Drain ::
              && Begins(d) && ConcurrentDrain.Runs(d, moves, d') && Exits(d', 0) && d'.run == run
              && |d'.sys.store.tasks| == 1 && d'.sys.store.tasks[0].status == TaskStatus.Running
  {
    var moves, d := StrandsAndExits(run);
    assert Begins(NewDrain(run)) && ConcurrentDrain.Runs(NewDrain(run), moves, d);
  }

  // ----- A status nobody refreshes -----

  lemma DeathIsMove(d: Drain, run: RunId)
    requires d.pool.childSeq == 1 && d.pool.inFlight == map[1 := 0]
    requires Matches(d, run, AT_WORK)
    ensures ConcurrentDrain.Enabled(d, Child(Die(1)))
    ensures var m := After1(d, Child(Die(1)));
            && m.sys == d.sys.(dead := {1}) && m.run == run && m.board.row == d.board.row && m.pool == d.pool
            && m.mail == d.mail && m.reported == d.reported
  {
    StepLeavesBoard(SharedOf(d), Next(d.sys, Die(1)));
    assert d.sys.dead + {1} == {1};
  }

  /** No recovery is left to the task of a dead child, so it is given up. */
  lemma RecoveryGivesUp(s: System, run: RunId)
    requires WellFormed(s) && s.dead == {1} && s.limits.maxOomRetries == 0
    requires |s.store.tasks| == 1 && s.store.tasks[0].runId == run
    requires s.store.tasks[0].status == TaskStatus.Running && s.store.tasks[0].owner == Some(1)
    ensures var tasks := Next(s, Reclaim(1, run)).store.tasks;
            && |tasks| == 1 && tasks[0].status == TaskStatus.Failed && tasks[0].runId == run
            && CountLeaseable(tasks, run, 0, 1) == 0
  {
    assert HeldBy(s.store.tasks, run, 1, 0);
    assert FirstHeld(s.store.tasks, run, 1, 0) == Some(0);
    CountLeaseableZero(Next(s, Reclaim(1, run)).store.tasks, run, 0, 1);
  }

  /** The parent finds the child dead. */
  lemma ReapGivesUp(d: Drain, run: RunId)
    requires WellFormed(d.sys) && d.run == run && d.sys.dead == {1} && d.sys.limits.maxOomRetries == 0
    requires |d.sys.store.tasks| == 1 && d.sys.store.tasks[0].runId == run
    requires d.sys.store.tasks[0].status == TaskStatus.Running && d.sys.store.tasks[0].owner == Some(1)
    requires d.pool.inFlight == map[1 := 0]
    ensures ConcurrentDrain.Enabled(d, Reap(1))
    ensures var m := After1(d, Reap(1));
            && m.run == run && m.board.row == d.board.row && Exits(m, 0)
            && |m.sys.store.tasks| == 1 && m.sys.store.tasks[0].status == TaskStatus.Failed
            && m.sys.store.tasks[0].runId == run
  {
    RecoveryGivesUp(d.sys, run);
    StepLeavesBoard(SharedOf(d), Next(d.sys, Reclaim(1, run)));
    assert After1(d, Reap(1)).pool.inFlight == map[];
  }

  lemma OneFailed(tasks: seq<Task>, run: RunId)
    requires |tasks| == 1 && tasks[0].runId == run && tasks[0].status == TaskStatus.Failed
    ensures Aggregate(tasks, run) == RunStatus.Failed
  {
    assert tasks[0].status in Statuses(tasks, run);
    assert Statuses(tasks, run) == {TaskStatus.Failed};
    FoldMeaning({TaskStatus.Failed}, Attempted(tasks, run));
  }

  /** The task in the child's hands is recorded as its own. */
  lemma OwnerIsChild(d0: Drain, moves: seq<Move>, d: Drain, run: RunId)
    requires Begins(d0) && ConcurrentDrain.Runs(d0, moves, d) && PhaseOf(d.sys, 1) == Executing(0, 1)
    ensures 0 < |d.sys.store.tasks| && d.sys.store.tasks[0].owner == Some(1)
  {
    BeginsSound(d0);
    RunsSound(d0, moves, d);
    assert WorkerOwns(d.sys, 1);
  }

  lemma DiesAndIsReaped(d0: Drain, moves0: seq<Move>, d: Drain, run: RunId) returns (moves: seq<Move>, d': Drain)
    requires WellFormed(d0.sys) && ConcurrentDrain.Runs(d0, moves0, d)
    requires d.pool.childSeq == 1 && d.pool.inFlight == map[1 := 0]
    requires Matches(d, run, AT_WORK)
    requires d.sys.store.tasks[0].owner == Some(1)
    ensures ConcurrentDrain.Runs(d0, moves, d') && Exits(d', 0) && d'.run == run
    ensures d'.board.row == d.board.row && Aggregate(d'.sys.store.tasks, run) == RunStatus.Failed
  {
    DeathIsMove(d, run);
    ThenMove(d0, moves0, d, Child(Die(1)));
    moves, d' := moves0 + [Child(Die(1))], After1(d, Child(Die(1)));
    ReapGivesUp(d', run);
    ThenMove(d0, moves, d', Reap(1));
    moves, d' := moves + [Reap(1)], After1(d', Reap(1));
    OneFailed(d'.sys.store.tasks, run);
  }

  /** The loop can exit with its only task FAILED and the run still RUNNING: the child died, and the parent that gave
      the task up does not refresh the run. */
  lemma ExitLeavesRunRunning(run: RunId)
    ensures exists d: Drain, moves: seq<Move>, d': Drain ::
              && Begins(d) && ConcurrentDrain.Runs(d, moves, d') && Exits(d', 0) && d'.run == run
              && d'.board.row.status == RunStatus.Running && Aggregate(d'.sys.store.tasks, run) == RunStatus.Failed
  {
    var moves, d := GetsGoing(run);
    OwnerIsChild(NewDrain(run), moves, d, run);
    moves, d := DiesAndIsReaped(NewDrain(run), moves, d, run);
    assert Begins(NewDrain(run)) && ConcurrentDrain.Runs(NewDrain(run), moves, d);
  }
}
