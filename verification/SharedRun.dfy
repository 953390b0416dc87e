/** One run shared by workers: the protocol's steps and the store calls of the workers' refreshes, in any order. While a
    worker refreshes it takes no other step; a refresh that raises before the handler strands its worker. */
module SharedRun {
  import opened Lifecycle
  import opened Records
  import opened RunStatusFold
  import opened Protocol
  import Race = RefreshRace
  import RunLife

  /** The run's record lives on the board; nothing reads the store's copy. */
  datatype Shared = Shared(run: RunId, sys: System, board: Race.Board)

  datatype Turn = Step(action: Action) | Call(worker: WorkerId, call: Race.Action)

  ghost function SightOf(s: Shared): Race.Sight {
    Race.SightOf(s.sys.store.tasks, s.run)
  }

  /** `run_once` refreshes after the mark and after the final write. */
  predicate Refreshing(p: Phase) {
    p.Executing? || (p.Done? && p.outcome != Empty)
  }

  predicate MayStep(s: Shared, a: Action) {
    match a
    case Die(_) => true
    case Reclaim(_, _) => true
    case Requeue(_, _) => true
    case Abort(w) => Race.At(s.board, w).RaisedOut?
    case Again(w) => PhaseOf(s.sys, w).Done? && (Race.At(s.board, w).Idle? || Race.At(s.board, w).RaisedOut?)
    case _ => Race.At(s.board, ActorOf(a).value).Idle?
  }

  predicate MayCall(s: Shared, w: WorkerId, c: Race.Action) {
    w !in s.sys.dead && Race.Enabled(s.board, w, c) && (c.ReadRun? ==> Refreshing(PhaseOf(s.sys, w)))
  }

  predicate May(s: Shared, t: Turn) {
    match t
    case Step(a) => MayStep(s, a)
    case Call(w, c) => MayCall(s, w, c)
  }

  /** A worker that goes on to its next task leaves its last refresh behind, raised or not. */
  function Cleared(b: Race.Board, a: Action): Race.Board {
    if a.Again? then b.(stages := b.stages[a.worker := Race.Stage.Idle]) else b
  }

  /** The tasks have become those of sys'; b is the board as the step leaves it. */
  ghost function AfterStep(s: Shared, sys': System, b: Race.Board): Shared {
    s.(sys := sys', board := Race.AfterWork(b, SightOf(s), Race.SightOf(sys'.store.tasks, s.run)))
  }

  lemma StepLeavesBoard(s: Shared, sys': System)
    ensures var s' := AfterStep(s, sys', s.board);
            s'.run == s.run && s'.sys == sys' && s'.board.row == s.board.row && s'.board.stages == s.board.stages
  {}

  ghost function Take(s: Shared, t: Turn): (s': Shared)
    requires WellFormed(s.sys) && May(s, t)
    ensures WellFormed(s'.sys)
  {
    match t
    case Step(a) =>
      NextWellFormed(s.sys, a);
      AfterStep(s, Next(s.sys, a), Cleared(s.board, a))
    case Call(w, c) => s.(board := Race.Next(s.board, w, c, SightOf(s)))
  }

  ghost predicate Runs(s: Shared, turns: seq<Turn>, s': Shared)
    requires WellFormed(s.sys)
    decreases |turns|
  {
    if turns == [] then s' == s else May(s, turns[0]) && Runs(Take(s, turns[0]), turns[1..], s')
  }

  // ----- Safety -----

  ghost predicate Sound(s: Shared) {
    RunLife.Reached(s.sys, s.run) && Race.Sound(s.board, SightOf(s))
  }

  /** A new run, its tasks untouched. */
  ghost predicate New(s: Shared) {
    RunLife.NewRun(s.sys, s.run) && s.board == Race.NewBoard(Run(Validated, None))
  }

  lemma NewIsSound(s: Shared)
    requires New(s)
    ensures Sound(s)
  {
    RunLife.InitialReached(s.sys, s.run);
    Race.FreshBoardSound(s.run, s.sys.store.tasks);
  }

  /** Whenever a refresh makes a call, some task was attempted: its own worker's increment came first. */
  lemma CallsFollowAttempts(s: Shared, w: WorkerId, c: Race.Action)
    requires Sound(s) && MayCall(s, w, c)
    ensures Attempted(s.sys.store.tasks, s.run)
  {
    if c.ReadRun? {
      assert RunLife.PastIncrement(PhaseOf(s.sys, w));
    } else {
      assert Race.StageSound(Race.At(s.board, w), w in s.board.current, s.board.row.status, SightOf(s));
    }
  }

  lemma TakeKeepsSound(s: Shared, t: Turn)
    requires Sound(s) && May(s, t)
    ensures Sound(Take(s, t))
  {
    match t
    case Step(a) =>
      RunLife.ReachedKept(s.sys, a, s.run);
      assert Race.Sound(Cleared(s.board, a), SightOf(s));
      Race.TasksKeepSound(s.run, s.sys.store.tasks, Next(s.sys, a).store.tasks, Cleared(s.board, a));
    case Call(w, c) =>
      CallsFollowAttempts(s, w, c);
      Race.CallKeepsSound(s.board, w, c, SightOf(s));
  }

  lemma {:induction false} RunsKeepSound(s: Shared, turns: seq<Turn>, s': Shared)
    requires Sound(s) && Runs(s, turns, s')
    ensures Sound(s')
    decreases |turns|
  {
    if turns == [] {
    } else {
      TakeKeepsSound(s, turns[0]);
      RunsKeepSound(Take(s, turns[0]), turns[1..], s');
    }
  }

  /** In every state workers can bring a new run to: its status is not ahead of its tasks; it carries a finishing time
      only once they are all finished; after the first attempt it is what they call for exactly when the refresh that
      wrote it last had read them since that last changed; and a refresh raises next exactly when it stepped through
      RUNNING and read back a status that has reached or passed its target. */
  lemma StatusFollowsTasks(s: Shared, turns: seq<Turn>, s': Shared, w: WorkerId, at: Time)
    requires New(s) && Runs(s, turns, s')
    ensures WellFormed(s'.sys)
    ensures var tasks := s'.sys.store.tasks; var row := s'.board.row;
            && NotAhead(row.status, Aggregate(tasks, s.run))
            && (row.finishedAt.Some? ==> Aggregate(tasks, s.run) in {Completed, RunStatus.Failed})
            && (Attempted(tasks, s.run) ==> (row.status == Aggregate(tasks, s.run) <==> s'.board.upToDate))
    ensures MayCall(s', w, Race.Advance(at)) ==>
              (Race.At(Take(s', Call(w, Race.Advance(at))).board, w).RaisedOut? <==>
               Race.At(s'.board, w).Rechecking?
               && NotAhead(Race.At(s'.board, w).target, Race.At(s'.board, w).seen.status))
  {
    NewIsSound(s);
    RunsKeepSound(s, turns, s');
    RunsKeepRun(s, turns, s');
    if MayCall(s', w, Race.Advance(at)) {
      CallsFollowAttempts(s', w, Race.Advance(at));
      Race.RaisesExactly(s'.board, w, SightOf(s'), at);
    }
  }

  lemma {:induction false} RunsKeepRun(s: Shared, turns: seq<Turn>, s': Shared)
    requires WellFormed(s.sys) && Runs(s, turns, s')
    ensures s'.run == s.run && WellFormed(s'.sys)
    decreases |turns|
  {
    if turns == [] {
    } else {
      RunsKeepRun(Take(s, turns[0]), turns[1..], s');
    }
  }

  lemma {:induction false} ThenTurn(s0: Shared, turns: seq<Turn>, s: Shared, t: Turn)
    requires WellFormed(s0.sys) && Runs(s0, turns, s) && WellFormed(s.sys) && May(s, t)
    ensures Runs(s0, turns + [t], Take(s, t))
    decreases |turns|
  {
    if turns == [] {
      assert ([t])[1..] == [];
    } else {
      ThenTurn(Take(s0, turns[0]), turns[1..], s, t);
      assert (turns + [t])[1..] == turns[1..] + [t];
    }
  }
}
