/** A concurrent drain that admits one child at a time: no refresh overlaps another, so none raises. */
module SoloDrain {
  import opened Lifecycle
  import opened Records
  import opened Protocol
  import opened Admission
  import SharedRun
  import opened ConcurrentDrain
  import Race = RefreshRace

  /** What the refresh has read of the run's record is still what stands there. */
  predicate Undisturbed(stage: Race.Stage, row: Run) {
    match stage
    case SawRun(seen) => seen == row
    case Decided(seen, _) => seen == row
    case Stepped(target) => row.status == RunStatus.Running && target in RunMoves(RunStatus.Running)
    case Rechecking(seen, target) => seen == row && row.status == RunStatus.Running && target in RunMoves(row.status)
    case _ => true
  }

  /** Only a child that the parent tracks has a refresh in flight that it can go on with, and that is undisturbed. */
  ghost predicate Alone(b: Race.Board, k: Counters, dead: set<WorkerId>, reported: set<WorkerId>) {
    && (forall w: nat :: !Race.At(b, w).Idle? ==> 1 <= w <= k.childSeq)
    && (forall w: nat :: 1 <= w <= k.childSeq && w !in k.inFlight ==> w in dead || w in reported)
    && (forall w :: w in reported ==> Race.At(b, w).Idle?)
    && (forall w :: w in k.inFlight && w !in dead ==> Undisturbed(Race.At(b, w), b.row))
    && (forall w: nat :: !Race.At(b, w).RaisedOut?)
  }

  ghost predicate Solo(d: Drain) {
    d.config.maxConcurrent <= 1 && Alone(d.board, d.pool, d.sys.dead, d.reported)
  }

  lemma StaysAlone(b: Race.Board, b': Race.Board, k: Counters, dead: set<WorkerId>, dead': set<WorkerId>,
                   reported: set<WorkerId>)
    requires Alone(b, k, dead, reported) && b'.row == b.row && b'.stages == b.stages && dead <= dead'
    ensures Alone(b', k, dead', reported)
  {
    assert forall w: nat :: Race.At(b', w) == Race.At(b, w);
  }

  lemma AdmitAlone(b: Race.Board, k: Counters, dead: set<WorkerId>, reported: set<WorkerId>, device: nat)
    requires Alone(b, k, dead, reported)
    ensures Alone(b, WithChild(k, device), dead, reported)
  {
    assert Race.At(b, k.childSeq + 1).Idle?;
  }

  lemma GoneAlone(b: Race.Board, k: Counters, k': Counters, dead: set<WorkerId>, reported: set<WorkerId>, w: WorkerId)
    requires Alone(b, k, dead, reported) && (w in dead || w in reported)
    requires k'.childSeq == k.childSeq && k'.inFlight == k.inFlight - {w}
    ensures Alone(b, k', dead, reported)
  {}

  lemma OnlyChild(k: Counters, v: WorkerId, w: WorkerId)
    requires |k.inFlight| <= 1 && v in k.inFlight && w in k.inFlight
    ensures v == w
  {
    if v != w {
      assert {v, w} <= k.inFlight.Keys;
      SmallerSet({v, w}, k.inFlight.Keys);
    }
  }

  lemma SmallerSet(xs: set<nat>, ys: set<nat>)
    requires xs <= ys
    ensures |xs| <= |ys|
  {
    assert ys == xs + (ys - xs);
  }

  /** A refresh nobody interferes with goes on undisturbed, and does not raise. */
  lemma CallUndisturbed(b: Race.Board, w: WorkerId, c: Race.Action, now: Race.Sight)
    requires Race.Sound(b, now) && now.attempted && Race.Enabled(b, w, c) && Undisturbed(Race.At(b, w), b.row)
    ensures var b' := Race.Next(b, w, c, now);
            Undisturbed(Race.At(b', w), b'.row) && !Race.At(b', w).RaisedOut?
  {
    if c.Advance? {
      Race.RaisesExactly(b, w, now, c.at);
    }
  }

  lemma CallAlone(b: Race.Board, k: Counters, dead: set<WorkerId>, reported: set<WorkerId>, w: WorkerId,
                  c: Race.Action, now: Race.Sight)
    requires Alone(b, k, dead, reported) && |k.inFlight| <= 1 && w in k.inFlight && 1 <= w <= k.childSeq
    requires w !in dead && w !in reported
    requires Race.Sound(b, now) && now.attempted && Race.Enabled(b, w, c)
    ensures Alone(Race.Next(b, w, c, now), k, dead, reported)
  {
    CallUndisturbed(b, w, c, now);
    var b' := Race.Next(b, w, c, now);
    forall v ensures v != w ==> Race.At(b', v) == Race.At(b, v) {
      Race.CallIsLocal(b, b, w, c, now, v);
    }
    forall v | v in k.inFlight && v !in dead ensures Undisturbed(Race.At(b', v), b'.row) {
      OnlyChild(k, v, w);
    }
  }

  lemma RefreshFacts(d: Drain, w: WorkerId, c: Race.Action)
    requires ConcurrentDrain.Sound(d) && Solo(d) && Enabled(d, Move.Refresh(w, c))
    ensures Race.Sound(d.board, SharedRun.SightOf(SharedOf(d))) && SharedRun.SightOf(SharedOf(d)).attempted
    ensures |d.pool.inFlight| <= 1
  {
    SharedRun.CallsFollowAttempts(SharedOf(d), w, c);
  }

  lemma RefreshSolo(d: Drain, w: WorkerId, c: Race.Action)
    requires Solo(d) && WellFormed(d.sys) && Enabled(d, Move.Refresh(w, c)) && |d.pool.inFlight| <= 1
    requires Race.Sound(d.board, SharedRun.SightOf(SharedOf(d))) && SharedRun.SightOf(SharedOf(d)).attempted
    ensures Solo(After1(d, Move.Refresh(w, c)))
  {
    CallAlone(d.board, d.pool, d.sys.dead, d.reported, w, c, SharedRun.SightOf(SharedOf(d)));
  }

  lemma ChildSolo(d: Drain, a: Action)
    requires Solo(d) && WellFormed(d.sys) && Enabled(d, Child(a))
    ensures Solo(After1(d, Child(a)))
  {
    SharedRun.StepLeavesBoard(SharedOf(d), Next(d.sys, a));
    StaysAlone(d.board, After1(d, Child(a)).board, d.pool, d.sys.dead, Next(d.sys, a).dead, d.reported);
  }

  lemma ReapSolo(d: Drain, w: WorkerId)
    requires Solo(d) && WellFormed(d.sys) && Enabled(d, Reap(w))
    ensures Solo(After1(d, Reap(w)))
  {
    var d' := After1(d, Reap(w));
    SharedRun.StepLeavesBoard(SharedOf(d), Next(d.sys, Reclaim(w, d.run)));
    StaysAlone(d.board, d'.board, d.pool, d.sys.dead, d'.sys.dead, d.reported);
    GoneAlone(d'.board, d.pool, d'.pool, d'.sys.dead, d.reported, w);
  }

  lemma MoveSolo(d: Drain, m: Move)
    requires ConcurrentDrain.Sound(d) && Solo(d) && Enabled(d, m)
    ensures Solo(After1(d, m))
  {
    match m
    case Admit(_, device, _) => AdmitAlone(d.board, d.pool, d.sys.dead, d.reported, device);
    case Child(a) => ChildSolo(d, a);
    case Refresh(w, c) =>
      RefreshFacts(d, w, c);
      RefreshSolo(d, w, c);
    case Send(w, _) => SendSolo(d, m);
    case Receive(w) => ReceiveSolo(d, w);
    case Reap(w) => ReapSolo(d, w);
  }

  lemma ReceiveSolo(d: Drain, w: WorkerId)
    requires Solo(d) && WellFormed(d.sys) && Enabled(d, Receive(w)) && w in d.reported
    ensures Solo(After1(d, Receive(w)))
  {
    GoneAlone(d.board, d.pool, After1(d, Receive(w)).pool, d.sys.dead, d.reported, w);
  }

  lemma SendSolo(d: Drain, m: Move)
    requires Solo(d) && WellFormed(d.sys) && m.Send? && Enabled(d, m)
    ensures Solo(After1(d, m))
  {}

  lemma {:induction false} RunsSolo(d: Drain, moves: seq<Move>, d': Drain)
    requires ConcurrentDrain.Sound(d) && Solo(d) && ConcurrentDrain.Runs(d, moves, d')
    ensures ConcurrentDrain.Sound(d') && Solo(d')
    decreases |moves|
  {
    if moves == [] {
    } else {
      MoveSound(d, moves[0]);
      MoveSolo(d, moves[0]);
      RunsSolo(After1(d, moves[0]), moves[1..], d');
    }
  }

  /** With a concurrency of one no refresh ever raises. */
  lemma SoloNeverRaises(d: Drain, moves: seq<Move>, d': Drain)
    requires Begins(d) && d.config.maxConcurrent <= 1 && ConcurrentDrain.Runs(d, moves, d')
    ensures forall w :: !Race.At(d'.board, w).RaisedOut?
  {
    BeginsSound(d);
    RunsSolo(d, moves, d');
  }

  /** So its loop leaves a task RUNNING if and only if the task was not given up and its latest attempt got no answer:
      the handler, the payload and the limits decide. */
  lemma SoloExitExactly(d: Drain, moves: seq<Move>, d': Drain, now: Time)
    requires Begins(d) && d.config.maxConcurrent <= 1 && ConcurrentDrain.Runs(d, moves, d') && Exits(d', now)
    ensures forall id: nat :: id < |d'.sys.store.tasks| ==>
              (d'.sys.store.tasks[id].status == TaskStatus.Running <==> Unanswered(d', id))
  {
    SoloNeverRaises(d, moves, d');
    ExitLeavesNothingBehind(d, moves, d', now);
  }
}
