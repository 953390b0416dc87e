/** What interleaved refreshes can come to: two runs of two workers, step by step from a new run of two tasks. Worker 1
    works on the first task and worker 2 on the second. */
module StaleRefresh {
  import opened Lifecycle
  import opened Records
  import opened StoreOps
  import opened RunStatusFold
  import opened Decision
  import opened Protocol
  import opened SharedRun
  import Race = RefreshRace

  const PLAIN := Payload(Unset, Unset, Null)
  const NONE := Race.Stage.Idle

  function NewTask(run: RunId, key: string): Task {
    Task(run, key, PLAIN, Pending, None, None, None, None, 0)
  }

  /** Two tasks, one attempt each. */
  function TwoTasks(run: RunId): Shared {
    var none := History(0, 0, 0, {}, 1);
    var store := State(map[run := Run(Validated, None)], [NewTask(run, "a"), NewTask(run, "b")], []);
    Shared(run, System(store, map[], {}, [none, none], Limits(0, 1, false, false)), Race.NewBoard(Run(Validated, None)))
  }

  /** What changes along these runs: each worker's phase and refresh with its task's status and attempts, and the run's
      record. */
  datatype Side = Side(status: TaskStatus, attempts: nat, phase: Phase, stage: Race.Stage)

  datatype Gist = Gist(one: Side, two: Side, row: Run)

  datatype Who = First | Second

  function Of(g: Gist, i: Who): Side {
    if i == First then g.one else g.two
  }

  function With(g: Gist, i: Who, side: Side): Gist {
    if i == First then g.(one := side) else g.(two := side)
  }

  function Id(i: Who): TaskId {
    if i == First then 0 else 1
  }

  function Worker(i: Who): WorkerId {
    if i == First then 1 else 2
  }

  predicate TaskFits(t: Task, run: RunId, key: string, side: Side) {
    t.runId == run && t.key == key && t.payload == PLAIN && t.status == side.status && t.attempts == side.attempts
  }

  ghost predicate SysMatches(s: System, run: RunId, g: Gist) {
    && WellFormed(s) && s.dead == {} && s.limits == Limits(0, 1, false, false) && |s.store.tasks| == 2
    && TaskFits(s.store.tasks[0], run, "a", g.one) && TaskFits(s.store.tasks[1], run, "b", g.two)
    && PhaseOf(s, 1) == g.one.phase && PhaseOf(s, 2) == g.two.phase
  }

  ghost predicate BoardMatches(b: Race.Board, g: Gist) {
    && b.row == g.row && Race.At(b, 1) == g.one.stage && Race.At(b, 2) == g.two.stage
    && forall w :: w != 1 && w != 2 ==> Race.At(b, w).Idle?
  }

  ghost predicate Matches(s: Shared, run: RunId, g: Gist) {
    s.run == run && SysMatches(s.sys, run, g) && BoardMatches(s.board, g)
  }

  // ----- Moves -----

  /** A worker leases its task, counts the attempt, marks the task, its handler raises, or it makes one call of a
      refresh. */
  datatype Move = Grab(i: Who) | Tally(i: Who) | Begin(i: Who) | Fail(i: Who) | Refresh(i: Who, call: Race.Action)

  predicate CanDo(g: Gist, m: Move) {
    var x := Of(g, m.i);
    match m
    case Grab(i) =>
      x.status == Pending && x.phase.Idle? && x.stage.Idle? && (i == Second ==> g.one.status !in {Pending, Leased})
    case Tally(i) => x.status == Leased && x.phase == Holding(Id(i)) && x.stage.Idle?
    case Begin(i) => x.status == Leased && x.phase == Counted(Id(i), 1) && x.stage.Idle?
    case Fail(i) => x.status == TaskStatus.Running && x.phase == Executing(Id(i), 1) && x.stage.Idle?
    case Refresh(i, c) => Refreshing(x.phase) && x.attempts > 0 && Race.Enabled(OneStage(g, i), Worker(i), c)
  }

  function OneStage(g: Gist, i: Who): Race.Board {
    Race.Board(g.row, map[Worker(i) := Of(g, i).stage], {}, false)
  }

  function SightOfGist(g: Gist): Race.Sight {
    Race.Sight(Fold({g.one.status, g.two.status}, true), true)
  }

  function Do(g: Gist, m: Move): Gist
    requires CanDo(g, m)
  {
    var x := Of(g, m.i);
    match m
    case Grab(i) => With(g, i, x.(status := Leased, phase := Holding(Id(i))))
    case Tally(i) => With(g, i, x.(attempts := x.attempts + 1, phase := Counted(Id(i), x.attempts + 1)))
    case Begin(i) => With(g, i, x.(status := TaskStatus.Running, phase := Executing(Id(i), 1)))
    case Fail(i) => With(g, i, x.(status := TaskStatus.Failed, phase := Done(Failure)))
    case Refresh(i, c) =>
      var b := Race.Next(OneStage(g, i), Worker(i), c, SightOfGist(g));
      With(g, i, x.(stage := Race.At(b, Worker(i)))).(row := b.row)
  }

  function TurnOf(run: RunId, m: Move): Turn {
    match m
    case Grab(i) => Step(Lease(Worker(i), run, 0, 10))
    case Tally(i) => Step(Increment(Worker(i)))
    case Begin(i) => Step(Mark(Worker(i)))
    case Fail(i) => Step(End(Worker(i), Threw("", false, PLAIN), 0.0))
    case Refresh(i, c) => Call(Worker(i), c)
  }

  // ----- A move of the gist is a turn of the workers -----

  lemma FirstIsNext(s: System, run: RunId, g: Gist, i: Who)
    requires SysMatches(s, run, g) && CanDo(g, Grab(i))
    ensures NextLeaseable(s.store.tasks, run, 0) == Some(Id(i))
  {
    var tasks := s.store.tasks;
    assert tasks[Id(i)].runId == run;
    forall j: nat | Candidate(tasks, run, 0, j) && j != Id(i) ensures KeyBefore(tasks, Id(i), j) {
      assert i == First && j == 1;
    }
    NextIsUnique(tasks, run, 0, Id(i));
  }

  lemma GrabMatches(s: System, run: RunId, g: Gist, i: Who)
    requires CanDo(g, Grab(i)) && SysMatches(s, run, g)
    ensures SysMatches(Next(s, Lease(Worker(i), run, 0, 10)), run, Do(g, Grab(i)))
  {
    NextWellFormed(s, Lease(Worker(i), run, 0, 10));
    FirstIsNext(s, run, g, i);
    assert Next(s, Lease(Worker(i), run, 0, 10)) == GrantStep(s, Worker(i), run, Id(i), 10);
  }

  lemma TallyMatches(s: System, run: RunId, g: Gist, i: Who)
    requires CanDo(g, Tally(i)) && SysMatches(s, run, g)
    ensures SysMatches(Next(s, Increment(Worker(i))), run, Do(g, Tally(i)))
  {
    NextWellFormed(s, Increment(Worker(i)));
    assert Next(s, Increment(Worker(i))) == IncrementStep(s, Worker(i), Id(i));
  }

  lemma BeginMatches(s: System, run: RunId, g: Gist, i: Who)
    requires CanDo(g, Begin(i)) && SysMatches(s, run, g)
    ensures SysMatches(Next(s, Mark(Worker(i))), run, Do(g, Begin(i)))
  {
    NextWellFormed(s, Mark(Worker(i)));
    assert Next(s, Mark(Worker(i))) == MarkStep(s, Worker(i), Id(i), 1);
  }

  lemma FailureIsWritten(s: System, w: WorkerId, i: nat)
    requires WellFormed(s) && i < |s.store.tasks| && s.store.tasks[i].status == TaskStatus.Running
    requires s.store.tasks[i].payload == PLAIN && s.limits == Limits(0, 1, false, false)
    ensures var s' := EndStep(s, w, i, 1, Threw("", false, PLAIN), 0.0); var t := s.store.tasks[i];
            && s'.phases == s.phases[w := Done(Failure)] && s'.dead == s.dead && s'.limits == s.limits
            && s'.store.tasks == s.store.tasks[i := t.(status := TaskStatus.Failed, result := None, owner := None,
                                                       until := None, error := Some(Raised("")))]
  {}

  lemma FailMatches(s: System, run: RunId, g: Gist, i: Who)
    requires CanDo(g, Fail(i)) && SysMatches(s, run, g)
    ensures SysMatches(Next(s, End(Worker(i), Threw("", false, PLAIN), 0.0)), run, Do(g, Fail(i)))
  {
    NextWellFormed(s, End(Worker(i), Threw("", false, PLAIN), 0.0));
    FailureIsWritten(s, Worker(i), Id(i));
  }

  lemma SightMatches(s: System, run: RunId, g: Gist)
    requires SysMatches(s, run, g) && (g.one.attempts > 0 || g.two.attempts > 0)
    ensures Race.SightOf(s.store.tasks, run) == SightOfGist(g)
  {
    var tasks := s.store.tasks;
    assert tasks[0].status in Statuses(tasks, run) && tasks[1].status in Statuses(tasks, run);
    assert Statuses(tasks, run) == {g.one.status, g.two.status};
    assert tasks[0].attempts > 0 || tasks[1].attempts > 0;
  }

  lemma CallMatches(b: Race.Board, g: Gist, i: Who, c: Race.Action)
    requires CanDo(g, Refresh(i, c)) && BoardMatches(b, g)
    ensures Race.Enabled(b, Worker(i), c)
    ensures BoardMatches(Race.Next(b, Worker(i), c, SightOfGist(g)), Do(g, Refresh(i, c)))
  {
    var now := SightOfGist(g);
    forall q ensures Race.Enabled(b, Worker(i), c)
                     && Race.Next(b, Worker(i), c, now).row == Race.Next(OneStage(g, i), Worker(i), c, now).row
                     && Race.At(Race.Next(b, Worker(i), c, now), Worker(i)) ==
                        Race.At(Race.Next(OneStage(g, i), Worker(i), c, now), Worker(i))
                     && (q != Worker(i) ==> Race.At(Race.Next(b, Worker(i), c, now), q) == Race.At(b, q)) {
      Race.CallIsLocal(OneStage(g, i), b, Worker(i), c, now, q);
    }
  }

  lemma StepMatches(s: Shared, sys': System, run: RunId, g: Gist)
    requires s.run == run && SysMatches(sys', run, g) && BoardMatches(s.board, g)
    ensures Matches(AfterStep(s, sys', s.board), run, g)
  {
    StepLeavesBoard(s, sys');
    forall w | w != 1 && w != 2 ensures Race.At(AfterStep(s, sys', s.board).board, w).Idle? {
      assert Race.At(s.board, w).Idle?;
    }
  }

  lemma MoveIsTurn(s: Shared, run: RunId, g: Gist, m: Move)
    requires CanDo(g, m) && Matches(s, run, g)
    ensures May(s, TurnOf(run, m)) && Matches(Take(s, TurnOf(run, m)), run, Do(g, m))
  {
    match m
    case Grab(i) =>
      GrabMatches(s.sys, run, g, i);
      StepMatches(s, Next(s.sys, Lease(Worker(i), run, 0, 10)), run, Do(g, m));
    case Tally(i) =>
      TallyMatches(s.sys, run, g, i);
      StepMatches(s, Next(s.sys, Increment(Worker(i))), run, Do(g, m));
    case Begin(i) =>
      BeginMatches(s.sys, run, g, i);
      StepMatches(s, Next(s.sys, Mark(Worker(i))), run, Do(g, m));
    case Fail(i) =>
      FailMatches(s.sys, run, g, i);
      StepMatches(s, Next(s.sys, End(Worker(i), Threw("", false, PLAIN), 0.0)), run, Do(g, m));
    case Refresh(i, c) =>
      SightMatches(s.sys, run, g);
      CallMatches(s.board, g, i, c);
  }

  /** A run of the gist. */
  datatype Path = Stop(g: Gist) | Go(g: Gist, m: Move, rest: Path)

  predicate Valid(p: Path) {
    match p
    case Stop(_) => true
    case Go(g, m, rest) => CanDo(g, m) && Do(g, m) == rest.g && Valid(rest)
  }

  function Last(p: Path): Gist {
    match p
    case Stop(g) => g
    case Go(_, _, rest) => Last(rest)
  }

  lemma {:induction false} PathRuns(s: Shared, run: RunId, p: Path) returns (turns: seq<Turn>, s': Shared)
    requires Valid(p) && Matches(s, run, p.g)
    ensures Runs(s, turns, s') && Matches(s', run, Last(p))
    decreases p
  {
    match p
    case Stop(_) => turns, s' := [], s;
    case Go(g, m, rest) =>
      MoveIsTurn(s, run, g, m);
      turns, s' := PathRuns(Take(s, TurnOf(run, m)), run, rest);
      FirstTurn(s, TurnOf(run, m), turns, s');
      turns := [TurnOf(run, m)] + turns;
  }

  lemma FirstTurn(s: Shared, t: Turn, turns: seq<Turn>, s': Shared)
    requires WellFormed(s.sys) && May(s, t) && Runs(Take(s, t), turns, s')
    ensures Runs(s, [t] + turns, s')
  {
    assert ([t] + turns)[1..] == turns;
  }

  lemma TwoTasksIsNew(run: RunId)
    ensures New(TwoTasks(run)) && Matches(TwoTasks(run), run, Gist(NEW, NEW, VALIDATED))
  {}

  lemma Folds()
    ensures Fold({TaskStatus.Running, Pending}, true) == RunStatus.Running
    ensures Fold({TaskStatus.Running, TaskStatus.Running}, true) == RunStatus.Running
    ensures Fold({TaskStatus.Running, TaskStatus.Failed}, true) == PartialFailed
    ensures Fold({TaskStatus.Failed, TaskStatus.Running}, true) == PartialFailed
    ensures Fold({TaskStatus.Failed, TaskStatus.Failed}, true) == RunStatus.Failed
  {
    FoldMeaning({TaskStatus.Running, Pending}, true);
    FoldMeaning({TaskStatus.Running}, true);
    FoldMeaning({TaskStatus.Running, TaskStatus.Failed}, true);
    FoldMeaning({TaskStatus.Failed}, true);
  }

  const VALIDATED := Run(Validated, None)
  const RUNNING := Run(RunStatus.Running, None)
  const PARTIAL_FAILED := Run(PartialFailed, None)
  const NEW := Side(Pending, 0, Idle, NONE)
  const AT1 := Side(TaskStatus.Running, 1, Executing(0, 1), NONE)
  const AT2 := Side(TaskStatus.Running, 1, Executing(1, 1), NONE)
  const OVER := Side(TaskStatus.Failed, 1, Done(Failure), NONE)

  /** A worker leases, counts and marks its task. */
  lemma Starts(g: Gist, i: Who, rest: Path) returns (p: Path)
    requires Of(g, i) == NEW && (i == Second ==> g.one.status !in {Pending, Leased})
    requires Valid(rest) && rest.g == With(g, i, if i == First then AT1 else AT2)
    ensures Valid(p) && p.g == g && Last(p) == Last(rest)
  {
    var g1 := With(g, i, NEW.(status := Leased, phase := Holding(Id(i))));
    var g2 := With(g, i, Side(Leased, 1, Counted(Id(i), 1), NONE));
    p := Go(g2, Begin(i), rest);
    assert Valid(p) && Last(p) == Last(rest);
    p := Go(g1, Tally(i), p);
    assert Valid(p) && Last(p) == Last(rest);
    p := Go(g, Grab(i), p);
  }

  lemma CallThen(g: Gist, i: Who, c: Race.Action, rest: Path) returns (p: Path)
    requires CanDo(g, Refresh(i, c)) && Do(g, Refresh(i, c)) == rest.g && Valid(rest)
    ensures Valid(p) && p.g == g && Last(p) == Last(rest)
  {
    p := Go(g, Refresh(i, c), rest);
  }

  lemma FailThen(g: Gist, i: Who, rest: Path) returns (p: Path)
    requires CanDo(g, Fail(i)) && Do(g, Fail(i)) == rest.g && Valid(rest)
    ensures Valid(p) && p.g == g && Last(p) == Last(rest)
  {
    p := Go(g, Fail(i), rest);
  }

  /** A whole refresh while the tasks call for RUNNING. */
  lemma RefreshesToRunning(g: Gist, i: Who, rest: Path) returns (p: Path)
    requires Of(g, i) == if i == First then AT1 else AT2
    requires SightOfGist(g).aggregate == RunStatus.Running && g.row in {VALIDATED, RUNNING}
    requires Valid(rest) && rest.g == g.(row := RUNNING)
    ensures Valid(p) && p.g == g && Last(p) == Last(rest)
  {
    var x := Of(g, i);
    var g1 := With(g, i, x.(stage := Race.SawRun(g.row)));
    var g2 := With(g, i, x.(stage := Race.Decided(g.row, RunStatus.Running)));
    p := CallThen(g2, i, Race.Advance(0), rest);
    p := CallThen(g1, i, Race.ReadTasks, p);
    p := CallThen(g, i, Race.ReadRun, p);
  }

  // ----- A refresh that raises -----

  /** Worker 1 has read VALIDATED and stalls, worker 2 refreshes to RUNNING, and its task fails. */
  lemma RaceStarts(rest: Path) returns (p: Path)
    requires Valid(rest) && rest.g == Gist(AT1.(stage := Race.SawRun(VALIDATED)), OVER, RUNNING)
    ensures Valid(p) && p.g == Gist(NEW, NEW, VALIDATED) && Last(p) == Last(rest)
  {
    Folds();
    var stalled := AT1.(stage := Race.SawRun(VALIDATED));
    p := FailThen(Gist(stalled, AT2, RUNNING), Second, rest);
    p := RefreshesToRunning(Gist(stalled, AT2, VALIDATED), Second, p);
    p := Starts(Gist(stalled, NEW, VALIDATED), Second, p);
    p := CallThen(Gist(AT1, NEW, VALIDATED), First, Race.ReadRun, p);
    p := Starts(Gist(NEW, NEW, VALIDATED), First, p);
  }

  /** Both workers aim for PARTIAL_FAILED. The first steps through RUNNING, the second writes PARTIAL_FAILED, and the
      first, reading that back, finds PARTIAL_FAILED to PARTIAL_FAILED not allowed. */
  lemma RaceEnds() returns (p: Path)
    ensures Valid(p) && p.g == Gist(AT1.(stage := Race.SawRun(VALIDATED)), OVER, RUNNING)
    ensures Last(p) == Gist(AT1.(stage := Race.RaisedOut), OVER, PARTIAL_FAILED)
  {
    Folds();
    p := Stop(Gist(AT1.(stage := Race.RaisedOut), OVER, PARTIAL_FAILED));
    p := CallThen(Gist(AT1.(stage := Race.Rechecking(PARTIAL_FAILED, PartialFailed)), OVER, PARTIAL_FAILED), First,
                  Race.Advance(0), p);
    p := CallThen(Gist(AT1.(stage := Race.Stepped(PartialFailed)), OVER, PARTIAL_FAILED), First, Race.Advance(0), p);
    p := Overtakes(p);
  }

  lemma Overtakes(rest: Path) returns (p: Path)
    requires Valid(rest) && rest.g == Gist(AT1.(stage := Race.Stepped(PartialFailed)), OVER, PARTIAL_FAILED)
    ensures Valid(p) && p.g == Gist(AT1.(stage := Race.SawRun(VALIDATED)), OVER, RUNNING) && Last(p) == Last(rest)
  {
    var aims := OVER.(stage := Race.Decided(RUNNING, PartialFailed));
    p := CallThen(Gist(AT1.(stage := Race.Stepped(PartialFailed)), aims, RUNNING), Second, Race.Advance(0), rest);
    p := CallThen(Gist(AT1.(stage := Race.Decided(VALIDATED, PartialFailed)), aims, RUNNING), First, Race.Advance(0),
                  p);
    p := BothAim(p);
  }

  lemma BothAim(rest: Path) returns (p: Path)
    requires Valid(rest)
    requires rest.g == Gist(AT1.(stage := Race.Decided(VALIDATED, PartialFailed)),
                            OVER.(stage := Race.Decided(RUNNING, PartialFailed)), RUNNING)
    ensures Valid(p) && p.g == Gist(AT1.(stage := Race.SawRun(VALIDATED)), OVER, RUNNING) && Last(p) == Last(rest)
  {
    Folds();
    var stalled := AT1.(stage := Race.SawRun(VALIDATED));
    p := CallThen(Gist(stalled, OVER.(stage := Race.Decided(RUNNING, PartialFailed)), RUNNING), First,
                  Race.ReadTasks, rest);
    p := CallThen(Gist(stalled, OVER.(stage := Race.SawRun(RUNNING)), RUNNING), Second, Race.ReadTasks, p);
    p := CallThen(Gist(stalled, OVER, RUNNING), Second, Race.ReadRun, p);
  }

  lemma RaceRuns(run: RunId) returns (turns: seq<Turn>, s: Shared)
    ensures Runs(TwoTasks(run), turns, s) && New(TwoTasks(run))
    ensures Matches(s, run, Gist(AT1.(stage := Race.RaisedOut), OVER, PARTIAL_FAILED))
  {
    TwoTasksIsNew(run);
    var p := RaceEnds();
    p := RaceStarts(p);
    turns, s := PathRuns(TwoTasks(run), run, p);
  }

  /** From a new run, two workers bring a refresh to raise before its handler starts, and its task stays RUNNING. */
  lemma RaceRaises(run: RunId)
    ensures exists s: Shared, turns: seq<Turn>, s': Shared ::
              && New(s) && Runs(s, turns, s') && s'.run == run
              && Race.At(s'.board, 1).RaisedOut? && PhaseOf(s'.sys, 1) == Stranded(0, 1)
              && |s'.sys.store.tasks| == 2 && s'.sys.store.tasks[0].status == TaskStatus.Running
  {
    var turns, s := RaceRuns(run);
    AbortStrands(s, run, Gist(AT1.(stage := Race.RaisedOut), OVER, PARTIAL_FAILED));
    ThenTurn(TwoTasks(run), turns, s, Step(Abort(1)));
    assert Runs(TwoTasks(run), turns + [Step(Abort(1))], Take(s, Step(Abort(1))));
  }

  lemma AbortStrands(s: Shared, run: RunId, g: Gist)
    requires Matches(s, run, g) && g.one.stage.RaisedOut? && g.one.phase == Executing(0, 1)
    ensures May(s, Step(Abort(1)))
    ensures var s' := Take(s, Step(Abort(1)));
            && s'.run == run && Race.At(s'.board, 1).RaisedOut? && PhaseOf(s'.sys, 1) == Stranded(0, 1)
            && s'.sys.store.tasks == s.sys.store.tasks
  {}

  // ----- A stale refresh that writes last -----

  /** Both workers start and refresh the run; the first task fails, and worker 1 reads the tasks and stalls. */
  lemma StaleStarts(rest: Path) returns (p: Path)
    requires Valid(rest) && rest.g == Gist(OVER.(stage := Race.Decided(RUNNING, PartialFailed)), AT2, RUNNING)
    ensures Valid(p) && p.g == Gist(NEW, NEW, VALIDATED) && Last(p) == Last(rest)
  {
    Folds();
    p := CallThen(Gist(OVER.(stage := Race.SawRun(RUNNING)), AT2, RUNNING), First,
                  Race.ReadTasks, rest);
    p := CallThen(Gist(OVER, AT2, RUNNING), First, Race.ReadRun, p);
    p := FailThen(Gist(AT1, AT2, RUNNING), First, p);
    p := RefreshesToRunning(Gist(AT1, AT2, RUNNING), Second, p);
    p := Starts(Gist(AT1, NEW, RUNNING), Second, p);
    p := RefreshesToRunning(Gist(AT1, NEW, VALIDATED), First, p);
    p := Starts(Gist(NEW, NEW, VALIDATED), First, p);
  }

  /** The second task fails too. Worker 2 writes FAILED and the finishing time; then worker 1 writes PARTIAL_FAILED. */
  lemma StaleEnds() returns (p: Path)
    ensures Valid(p) && p.g == Gist(OVER.(stage := Race.Decided(RUNNING, PartialFailed)), AT2, RUNNING)
    ensures Last(p) == Gist(OVER, OVER, Run(PartialFailed, Some(7)))
  {
    var late := OVER.(stage := Race.Decided(RUNNING, PartialFailed));
    p := StalePath();
    p := SecondFinishes(late, p);
    p := SecondAims(late, p);
    p := FailThen(Gist(late, AT2, RUNNING), Second, p);
  }

  lemma SecondFinishes(late: Side, rest: Path) returns (p: Path)
    requires late.status == TaskStatus.Failed && late.attempts == 1
    requires Valid(rest) && rest.g == Gist(late, OVER, Run(RunStatus.Failed, Some(7)))
    ensures Valid(p) && p.g == Gist(late, OVER.(stage := Race.Decided(RUNNING, RunStatus.Failed)), RUNNING)
    ensures Last(p) == Last(rest)
  {
    p := CallThen(Gist(late, OVER.(stage := Race.Stamping), Run(RunStatus.Failed, None)), Second, Race.Advance(7),
                  rest);
    p := CallThen(Gist(late, OVER.(stage := Race.Decided(RUNNING, RunStatus.Failed)), RUNNING), Second,
                  Race.Advance(0), p);
  }

  lemma StalePath() returns (p: Path)
    ensures Valid(p) && Last(p) == Gist(OVER, OVER, Run(PartialFailed, Some(7)))
    ensures p.g == Gist(OVER.(stage := Race.Decided(RUNNING, PartialFailed)), OVER, Run(RunStatus.Failed, Some(7)))
  {
    p := Stop(Gist(OVER, OVER, Run(PartialFailed, Some(7))));
    p := CallThen(Gist(OVER.(stage := Race.Decided(RUNNING, PartialFailed)), OVER, Run(RunStatus.Failed, Some(7))),
                  First, Race.Advance(0), p);
  }

  lemma SecondAims(late: Side, rest: Path) returns (p: Path)
    requires late.status == TaskStatus.Failed && late.attempts == 1 && Valid(rest)
    requires rest.g == Gist(late, OVER.(stage := Race.Decided(RUNNING, RunStatus.Failed)), RUNNING)
    ensures Valid(p) && p.g == Gist(late, OVER, RUNNING) && Last(p) == Last(rest)
  {
    Folds();
    p := CallThen(Gist(late, OVER.(stage := Race.SawRun(RUNNING)), RUNNING), Second, Race.ReadTasks, rest);
    p := CallThen(Gist(late, OVER, RUNNING), Second, Race.ReadRun, p);
  }

  /** From a new run, two workers bring it to rest with every task FAILED and the finishing time set, but the run at
      PARTIAL_FAILED: the stale refresh wrote last. */
  lemma StaleWriteLast(run: RunId)
    ensures exists s: Shared, turns: seq<Turn>, s': Shared ::
              && New(s) && Runs(s, turns, s') && s'.run == run && |s'.sys.store.tasks| == 2
              && (forall t :: t in s'.sys.store.tasks ==> t.status == TaskStatus.Failed)
              && (forall w :: Race.At(s'.board, w).Idle?) && s'.board.row == Run(PartialFailed, Some(7))
  {
    TwoTasksIsNew(run);
    var p := StaleEnds();
    p := StaleStarts(p);
    var turns, s := PathRuns(TwoTasks(run), run, p);
    AtRest(s, run);
    assert Runs(TwoTasks(run), turns, s);
  }

  lemma AtRest(s: Shared, run: RunId)
    requires Matches(s, run, Gist(OVER, OVER, Run(PartialFailed, Some(7))))
    ensures s.run == run && |s.sys.store.tasks| == 2 && s.board.row == Run(PartialFailed, Some(7))
    ensures (forall t :: t in s.sys.store.tasks ==> t.status == TaskStatus.Failed)
            && forall w :: Race.At(s.board, w).Idle?
  {}
}
