/** The whole concurrent drain: the parent's loop beside its children, each child one `run_once` in its own process. */
module ConcurrentDrain {
  import opened Lifecycle
  import opened Records
  import opened StoreOps
  import opened Decision
  import opened Protocol
  import opened Exclusion
  import opened Admission
  import opened Stranding
  import opened SharedRun
  import Fate
  import Ledger
  import Race = RefreshRace
  import RunLife
  import RunStatusFold

  /** The run's record and the children's refreshes are on the board; mail holds the queue's unread messages, of which a
      child sends at most one. */
  datatype Drain = Drain(
    run: RunId,
    config: Config,
    handler: Handler,
    sys: System,
    board: Race.Board,
    pool: Counters,
    mail: map<WorkerId, Outcome>,
    reported: set<WorkerId>)

  datatype Move =
    | Admit(live: seq<real>, device: nat, now: Time)
    | Child(action: Action)
    | Refresh(worker: WorkerId, call: Race.Action)
    | Send(worker: WorkerId, outcome: Outcome)
    | Receive(worker: WorkerId)
    | Reap(worker: WorkerId)

  function SharedOf(d: Drain): Shared {
    Shared(d.run, d.sys, d.board)
  }

  function WithShared(d: Drain, s: Shared): Drain {
    d.(sys := s.sys, board := s.board)
  }

  /** What a child that has left `run_once` may report. */
  predicate MayReport(p: Phase, raised: bool, outcome: Outcome) {
    if raised then outcome == Failure
    else p == Done(outcome) || (p.Stranded? && (outcome == Failure || outcome == OutOfMemory))
  }

  /** The parent admits, hears and reaps; children only ever run one `run_once`, of this run, in time, on this
      handler. */
  ghost predicate Enabled(d: Drain, m: Move)
    requires WellFormed(d.sys)
  {
    match m
    case Admit(live, device, now) =>
      && |d.pool.inFlight| < d.pool.ceiling
      && CountLeaseable(d.sys.store.tasks, d.run, now, |d.sys.store.tasks|) > 0
      && IsChoice(d.config.devices, live, d.pool.inFlight, d.pool.minFree, Some(device))
    case Child(a) =>
      && ActorOf(a).Some? && !a.Again? && 1 <= ActorOf(a).value <= d.pool.childSeq
      && (a.Lease? ==> a.run == d.run) && !TakesLiveLease(d.sys, a)
      && MayStep(SharedOf(d), a) && Caused(d.sys, a, Raised(d.board), d.handler)
    case Refresh(w, c) => 1 <= w <= d.pool.childSeq && w !in d.reported && MayCall(SharedOf(d), w, c)
    case Send(w, outcome) =>
      && 1 <= w <= d.pool.childSeq && w !in d.sys.dead && w !in d.reported
      && (Race.At(d.board, w).Idle? || Race.At(d.board, w).RaisedOut?)
      && (PhaseOf(d.sys, w).Done? || PhaseOf(d.sys, w).Stranded?)
      && MayReport(PhaseOf(d.sys, w), Race.At(d.board, w).RaisedOut?, outcome)
    case Receive(w) => w in d.mail
    case Reap(w) => w in d.pool.inFlight && w in d.sys.dead
  }

  ghost function After1(d: Drain, m: Move): Drain
    requires WellFormed(d.sys) && Enabled(d, m)
  {
    match m
    case Admit(_, device, _) => d.(pool := WithChild(d.pool, device))
    case Child(a) => WithShared(d, Take(SharedOf(d), Step(a)))
    case Refresh(w, c) => WithShared(d, Take(SharedOf(d), Call(w, c)))
    case Send(w, outcome) => d.(mail := d.mail[w := outcome], reported := d.reported + {w})
    case Receive(w) => d.(mail := d.mail - {w}, pool := Heard(d.pool, w, d.mail[w]))
    case Reap(w) => WithShared(d, Take(SharedOf(d), Step(Reclaim(w, d.run)))).(pool := GaveUp(d.pool, w))
  }

  // ----- What holds of the children, whatever the parent does -----

  function Raised(b: Race.Board): set<WorkerId> {
    set w | w in b.stages && b.stages[w].RaisedOut?
  }

  ghost predicate Core(s: Shared, handler: Handler) {
    OwnerTrue(s.sys) && OneRun(s.sys, s.run) && SharedRun.Sound(s) && CausesKnown(s.sys, Raised(s.board), handler)
  }

  /** A child's step, or the recovery of its task by the parent. */
  lemma StepKeepsCore(s: Shared, a: Action, handler: Handler)
    requires Core(s, handler) && MayStep(s, a) && !a.Again? && (a.Reclaim? ==> a.run == s.run)
    requires !TakesLiveLease(s.sys, a) && Caused(s.sys, a, Raised(s.board), handler)
    ensures Core(Take(s, Step(a)), handler) && Take(s, Step(a)).sys == Next(s.sys, a) && Take(s, Step(a)).run == s.run
  {
    OwnerKeptExactly(s.sys, a, s.run);
    StepKeepsRun(s.sys, a, s.run);
    TakeKeepsSound(s, Step(a));
    CausesKept(s.sys, a, Raised(s.board), handler);
    StepLeavesBoard(s, Next(s.sys, a));
    SameRaised(s.board, Take(s, Step(a)).board);
  }

  lemma SameRaised(b: Race.Board, b': Race.Board)
    requires b'.stages == b.stages
    ensures Raised(b') == Raised(b)
  {}

  lemma CallRaises(b: Race.Board, w: WorkerId, c: Race.Action, now: Race.Sight)
    requires Race.Enabled(b, w, c)
    ensures Raised(b) <= Raised(Race.Next(b, w, c, now))
  {
    forall v | v in Raised(b) ensures v in Raised(Race.Next(b, w, c, now)) {
      assert v != w;
      Race.CallIsLocal(b, b, w, c, now, v);
      assert Race.At(Race.Next(b, w, c, now), v).RaisedOut?;
    }
  }

  lemma CallKeepsCore(s: Shared, w: WorkerId, c: Race.Action, handler: Handler)
    requires Core(s, handler) && MayCall(s, w, c)
    ensures Core(Take(s, Call(w, c)), handler) && Take(s, Call(w, c)).sys == s.sys && Take(s, Call(w, c)).run == s.run
  {
    TakeKeepsSound(s, Call(w, c));
    CallRaises(s.board, w, c, SightOf(s));
    MoreRaised(s.sys, Raised(s.board), Raised(Take(s, Call(w, c)).board), handler);
  }

  // ----- What the parent knows of them -----

  /** A child that has left `run_once`, or died and was recovered. */
  predicate Finished(s: System, w: WorkerId) {
    PhaseOf(s, w).Done? || PhaseOf(s, w).Stranded? || (w in s.dead && PhaseOf(s, w).Idle?)
  }

  /** A child the parent no longer tracks is finished, and so is one that reported. */
  ghost predicate Tracked(s: System, pool: Counters, mail: map<WorkerId, Outcome>, reported: set<WorkerId>) {
    && (forall w :: w in s.phases || w in reported || w in pool.inFlight ==> 1 <= w <= pool.childSeq)
    && (forall w: nat :: 1 <= w <= pool.childSeq && w !in pool.inFlight ==> Finished(s, w))
    && (forall w :: w in reported ==> Finished(s, w))
    && (forall w :: w in mail ==> w in reported)
  }

  ghost function Winners(s: System, reported: set<WorkerId>): set<WorkerId> {
    set w | w in s.phases && s.phases[w] == Done(Success) && w !in reported
  }

  ghost function GoodNews(mail: map<WorkerId, Outcome>): set<WorkerId> {
    set w | w in mail && mail[w] == Success
  }

  ghost function SucceededTasks(tasks: seq<Task>): set<TaskId> {
    set i: nat | i < |tasks| && tasks[i].status == Succeeded
  }

  /** Every success counted, in the mail, or not yet sent is a different SUCCEEDED task. */
  ghost predicate Tallied(s: System, succeeded: nat, mail: map<WorkerId, Outcome>, reported: set<WorkerId>) {
    succeeded + |GoodNews(mail)| + |Winners(s, reported)| <= |SucceededTasks(s.store.tasks)|
  }

  ghost predicate Sound(d: Drain) {
    && Core(SharedOf(d), d.handler) && Admissible(d.config, d.pool)
    && Tracked(d.sys, d.pool, d.mail, d.reported) && Tallied(d.sys, d.pool.succeeded, d.mail, d.reported)
  }

  // ----- A child's step -----

  /** Only w's phase may have changed, and nobody came back to life. */
  ghost predicate OnlyMoves(s: System, s': System, w: WorkerId) {
    && (forall v :: v != w ==> (v in s'.phases <==> v in s.phases) && PhaseOf(s', v) == PhaseOf(s, v))
    && s.dead <= s'.dead
  }

  /** The step in which a handler's success is written. */
  predicate Wins(s: System, a: Action) {
    && a.End? && a.worker !in s.dead && PhaseOf(s, a.worker).Executing? && PhaseOf(s, a.worker).task < |s.store.tasks|
    && var p := PhaseOf(s, a.worker);
       var x := Answer(s.store, p.task, a.worker, p.attempt, a.end, a.seconds, s.limits);
       x.Some? && x.value.status == Succeeded
  }

  lemma ChildMoves(s: System, a: Action, w: WorkerId)
    requires WellFormed(s) && ActorOf(a) == Some(w) && !a.Again?
    ensures OnlyMoves(s, Next(s, a), w) && (Finished(s, w) ==> Finished(Next(s, a), w))
  {}

  lemma WinnersCome(s: System, a: Action, w: WorkerId)
    requires WellFormed(s) && PhaseOf(Next(s, a), w) == Done(Success)
    ensures PhaseOf(s, w) == Done(Success) || (Wins(s, a) && w == a.worker)
  {}

  lemma TrackingKept(s: System, s': System, w: WorkerId, pool: Counters, mail: map<WorkerId, Outcome>,
                     reported: set<WorkerId>)
    requires Tracked(s, pool, mail, reported) && OnlyMoves(s, s', w) && 1 <= w <= pool.childSeq
    requires Finished(s, w) ==> Finished(s', w)
    ensures Tracked(s', pool, mail, reported)
  {
    forall v: nat | Finished(s, v) ensures Finished(s', v) {
      assert v != w ==> PhaseOf(s', v) == PhaseOf(s, v);
    }
  }

  lemma Grown(xs: set<nat>, ys: set<nat>, x: nat)
    requires ys <= xs + {x}
    ensures |ys| <= |xs| + 1
  {
    var zs := xs + {x};
    if x in xs { assert zs == xs; }
    Contained(ys, zs);
  }

  lemma {:induction false} Contained(xs: set<nat>, ys: set<nat>)
    requires xs <= ys
    ensures |xs| <= |ys|
  {
    if xs == {} {
    } else {
      var x :| x in xs;
      Contained(xs - {x}, ys - {x});
    }
  }

  lemma SucceededStay(s: System, a: Action)
    requires WellFormed(s)
    ensures WellFormed(Next(s, a)) && SucceededTasks(s.store.tasks) <= SucceededTasks(Next(s, a).store.tasks)
  {
    RunLife.StepProgresses(s, a);
    forall i: nat | i in SucceededTasks(s.store.tasks) ensures Next(s, a).store.tasks[i].status == Succeeded {
      assert RunStatusFold.TaskProgresses(s.store.tasks[i], Next(s, a).store.tasks[i]);
    }
  }

  /** A success turns a task that had not succeeded into one that has. */
  lemma WinSucceeds(s: System, a: Action)
    requires OwnerTrue(s) && Wins(s, a)
    ensures WellFormed(Next(s, a))
    ensures |SucceededTasks(Next(s, a).store.tasks)| >= |SucceededTasks(s.store.tasks)| + 1
  {
    OwnerEnd(s, a.worker, a.end, a.seconds);
    SucceededStay(s, a);
    var id := PhaseOf(s, a.worker).task;
    var won, won' := SucceededTasks(s.store.tasks), SucceededTasks(Next(s, a).store.tasks);
    assert WorkerOwns(s, a.worker);
    assert id in won' && id !in won;
    Contained(won + {id}, won');
  }

  lemma StepTallied(s: System, a: Action, succeeded: nat, mail: map<WorkerId, Outcome>, reported: set<WorkerId>)
    requires OwnerTrue(s) && Tallied(s, succeeded, mail, reported)
    ensures WellFormed(Next(s, a)) && Tallied(Next(s, a), succeeded, mail, reported)
  {
    SucceededStay(s, a);
    var s' := Next(s, a);
    forall w | w in Winners(s', reported) ensures w in Winners(s, reported) || (Wins(s, a) && w == a.worker) {
      WinnersCome(s, a, w);
    }
    if Wins(s, a) {
      WinSucceeds(s, a);
      Grown(Winners(s, reported), Winners(s', reported), a.worker);
    } else {
      Contained(Winners(s', reported), Winners(s, reported));
      Contained(SucceededTasks(s.store.tasks), SucceededTasks(s'.store.tasks));
    }
  }

  lemma ChildSound(d: Drain, a: Action)
    requires Sound(d) && Enabled(d, Child(a))
    ensures Sound(After1(d, Child(a)))
  {
    var w := ActorOf(a).value;
    StepKeepsCore(SharedOf(d), a, d.handler);
    ChildMoves(d.sys, a, w);
    TrackingKept(d.sys, Next(d.sys, a), w, d.pool, d.mail, d.reported);
    StepTallied(d.sys, a, d.pool.succeeded, d.mail, d.reported);
  }

  // ----- The parent's moves -----

  lemma AdmitTracked(s: System, pool: Counters, device: nat, mail: map<WorkerId, Outcome>, reported: set<WorkerId>)
    requires Tracked(s, pool, mail, reported)
    ensures Tracked(s, WithChild(pool, device), mail, reported)
  {
    var pool' := WithChild(pool, device);
    forall w: nat | 1 <= w <= pool'.childSeq && w !in pool'.inFlight ensures Finished(s, w) {
      assert w !in pool.inFlight && w <= pool.childSeq;
    }
  }

  lemma SendTracked(s: System, pool: Counters, mail: map<WorkerId, Outcome>, reported: set<WorkerId>, w: WorkerId,
                    outcome: Outcome)
    requires Tracked(s, pool, mail, reported) && Finished(s, w) && w in s.phases
    ensures Tracked(s, pool, mail[w := outcome], reported + {w})
  {}

  lemma SendTallied(s: System, succeeded: nat, mail: map<WorkerId, Outcome>, reported: set<WorkerId>, w: WorkerId,
                    outcome: Outcome)
    requires Tallied(s, succeeded, mail, reported) && w !in mail && w !in reported
    requires outcome == Success ==> PhaseOf(s, w) == Done(Success)
    ensures Tallied(s, succeeded, mail[w := outcome], reported + {w})
  {
    var mail', reported' := mail[w := outcome], reported + {w};
    if outcome == Success {
      assert GoodNews(mail') == GoodNews(mail) + {w};
      assert Winners(s, reported) == Winners(s, reported') + {w};
    } else {
      assert GoodNews(mail') == GoodNews(mail);
      Contained(Winners(s, reported'), Winners(s, reported));
    }
  }

  lemma ReceiveTallied(s: System, pool: Counters, mail: map<WorkerId, Outcome>, reported: set<WorkerId>, w: WorkerId)
    requires Tallied(s, pool.succeeded, mail, reported) && w in mail
    ensures Tallied(s, Heard(pool, w, mail[w]).succeeded, mail - {w}, reported)
  {
    if mail[w] == Success {
      assert GoodNews(mail) == GoodNews(mail - {w}) + {w};
    } else {
      assert GoodNews(mail - {w}) == GoodNews(mail);
    }
  }

  /** The parent may stop tracking a finished child. */
  lemma Untracked(s: System, pool: Counters, pool': Counters, mail: map<WorkerId, Outcome>,
                  mail': map<WorkerId, Outcome>, reported: set<WorkerId>, w: WorkerId)
    requires Tracked(s, pool, mail, reported) && Finished(s, w) && forall v :: v in mail' ==> v in mail
    requires pool'.childSeq == pool.childSeq && pool'.inFlight == pool.inFlight - {w}
    ensures Tracked(s, pool', mail', reported)
  {
    forall v: nat | 1 <= v <= pool'.childSeq && v !in pool'.inFlight ensures Finished(s, v) {
      if v != w { assert v !in pool.inFlight; }
    }
  }

  lemma MailHeard(s: System, pool: Counters, mail: map<WorkerId, Outcome>, reported: set<WorkerId>, w: WorkerId)
    requires w in mail && Tracked(s, pool, mail, reported) && Tallied(s, pool.succeeded, mail, reported)
    ensures var pool' := Heard(pool, w, mail[w]);
            Tracked(s, pool', mail - {w}, reported) && Tallied(s, pool'.succeeded, mail - {w}, reported)
  {
    ReceiveTallied(s, pool, mail, reported, w);
    assert w in reported;
    Untracked(s, pool, Heard(pool, w, mail[w]), mail, mail - {w}, reported, w);
  }

  lemma ReceiveSound(d: Drain, w: WorkerId)
    requires Sound(d) && Enabled(d, Receive(w))
    ensures Sound(After1(d, Receive(w)))
  {
    HeardAdmissible(d.config, d.pool, w, d.mail[w]);
    MailHeard(d.sys, d.pool, d.mail, d.reported, w);
  }

  lemma ReapMoves(s: System, w: WorkerId, run: RunId)
    requires WellFormed(s) && w in s.dead
    ensures OnlyMoves(s, Next(s, Reclaim(w, run)), w) && Finished(Next(s, Reclaim(w, run)), w)
  {}

  lemma ReapSound(d: Drain, w: WorkerId)
    requires Sound(d) && Enabled(d, Reap(w))
    ensures Sound(After1(d, Reap(w)))
  {
    var a := Reclaim(w, d.run);
    StepKeepsCore(SharedOf(d), a, d.handler);
    ReapMoves(d.sys, w, d.run);
    TrackingKept(d.sys, Next(d.sys, a), w, d.pool, d.mail, d.reported);
    Untracked(Next(d.sys, a), d.pool, GaveUp(d.pool, w), d.mail, d.mail, d.reported, w);
    StepTallied(d.sys, a, d.pool.succeeded, d.mail, d.reported);
    GaveUpAdmissible(d.config, d.pool, w);
  }

  lemma MoveSound(d: Drain, m: Move)
    requires Sound(d) && Enabled(d, m)
    ensures Sound(After1(d, m))
  {
    match m
    case Admit(_, device, _) =>
      ChildAdmissible(d.config, d.pool, device);
      AdmitTracked(d.sys, d.pool, device, d.mail, d.reported);
    case Child(a) => ChildSound(d, a);
    case Refresh(w, c) => CallKeepsCore(SharedOf(d), w, c, d.handler);
    case Send(w, outcome) =>
      SendTracked(d.sys, d.pool, d.mail, d.reported, w, outcome);
      SendTallied(d.sys, d.pool.succeeded, d.mail, d.reported, w, outcome);
    case Receive(w) => ReceiveSound(d, w);
    case Reap(w) => ReapSound(d, w);
  }

  ghost predicate Runs(d: Drain, moves: seq<Move>, d': Drain)
    decreases |moves|
  {
    if moves == [] then d' == d
    else
      WellFormed(d.sys) && Enabled(d, moves[0]) && Runs(After1(d, moves[0]), moves[1..], d')
  }

  /** A drain begins on a new run with no child started. Children open the SQLite store, which writes results as JSON,
      and take the default retry policy of one attempt. */
  ghost predicate Begins(d: Drain) {
    && SharedRun.New(SharedOf(d)) && d.sys.limits.policyAttempts == 1 && d.sys.limits.jsonStore
    && d.pool == Start(d.config) && d.mail == map[] && d.reported == {}
  }

  lemma BeginsSound(d: Drain)
    requires Begins(d)
    ensures Sound(d)
  {
    InitialOwnerTrue(d.sys);
    NewIsSound(SharedOf(d));
    InitialCauses(d.sys, d.handler);
    StartAdmissible(d.config);
    assert Raised(d.board) == {};
    assert Winners(d.sys, d.reported) == {} && GoodNews(d.mail) == {};
  }

  lemma {:induction false} RunsSound(d: Drain, moves: seq<Move>, d': Drain)
    requires Sound(d) && Runs(d, moves, d')
    ensures Sound(d')
    decreases |moves|
  {
    if moves == [] {
    } else {
      MoveSound(d, moves[0]);
      RunsSound(After1(d, moves[0]), moves[1..], d');
    }
  }

  /** At every moment of every drain: the pool is never overfilled, the ceiling and headroom follow the OOMs and deaths,
      no two children execute one task, the successes counted are at most the tasks that succeeded, and the run's status
      is not ahead of its tasks. */
  lemma DrainStaysSound(d: Drain, moves: seq<Move>, d': Drain)
    requires Begins(d) && Runs(d, moves, d')
    ensures Admissible(d'.config, d'.pool) && Exclusive(d'.sys)
    ensures d'.pool.succeeded <= |SucceededTasks(d'.sys.store.tasks)|
    ensures RunStatusFold.NotAhead(d'.board.row.status, RunStatusFold.Aggregate(d'.sys.store.tasks, d'.run))
  {
    BeginsSound(d);
    RunsSound(d, moves, d');
    OwnerTrueIsExclusive(d'.sys);
  }

  /** The loop's normal exit: nothing in flight and nothing leaseable. */
  ghost predicate Exits(d: Drain, now: Time) {
    d.pool.inFlight == map[] && CountLeaseable(d.sys.store.tasks, d.run, now, |d.sys.store.tasks|) == 0
  }

  /** The task was not given up with a dead child, and its latest attempt got no answer. */
  predicate Unanswered(d: Drain, id: TaskId)
    requires id < |d.sys.store.tasks|
  {
    Count(d.sys.store.events, id, Abandonment) == 0 && LastStrands(d.sys.store, id, d.sys.limits, d.handler)
  }

  /** The refresh of the child that holds the task raised. */
  predicate RefreshRaised(d: Drain, id: TaskId)
    requires id < |d.sys.store.tasks|
  {
    var owner := d.sys.store.tasks[id].owner;
    owner.Some? && Race.At(d.board, owner.value).RaisedOut?
  }

  /** When the loop exits, however many children died and wherever, exactly those tasks are not terminal whose latest
      attempt got no answer (the seed was refused, or the payload's timeout, the handler's return or the attempt limit
      could not be read) or whose child's refresh raised. They are RUNNING. */
  lemma ExitLeavesNothingBehind(d: Drain, moves: seq<Move>, d': Drain, now: Time)
    requires Begins(d) && Runs(d, moves, d') && Exits(d', now)
    ensures forall id: nat :: id < |d'.sys.store.tasks| ==>
              (Terminal(d'.sys.store.tasks[id].status) <==> !Unanswered(d', id) && !RefreshRaised(d', id))
    ensures forall id: nat :: id < |d'.sys.store.tasks| ==>
              Terminal(d'.sys.store.tasks[id].status) || d'.sys.store.tasks[id].status == TaskStatus.Running
  {
    BeginsSound(d);
    RunsSound(d, moves, d');
    CountLeaseableZero(d'.sys.store.tasks, d'.run, now, |d'.sys.store.tasks|);
    forall id: nat | id < |d'.sys.store.tasks|
      ensures Terminal(d'.sys.store.tasks[id].status) <==> !Unanswered(d', id) && !RefreshRaised(d', id)
      ensures Terminal(d'.sys.store.tasks[id].status) || d'.sys.store.tasks[id].status == TaskStatus.Running
    {
      assert !Candidate(d'.sys.store.tasks, d'.run, now, id);
      LeftBehindExactly(d', id);
    }
  }

  lemma LeftBehindExactly(d: Drain, id: TaskId)
    requires Sound(d) && d.pool.inFlight == map[] && id < |d.sys.store.tasks|
    requires d.sys.store.tasks[id].status != Pending
    ensures Terminal(d.sys.store.tasks[id].status) <==> !Unanswered(d, id) && !RefreshRaised(d, id)
    ensures Terminal(d.sys.store.tasks[id].status) || d.sys.store.tasks[id].status == TaskStatus.Running
  {
    assert TaskOwned(d.sys, id) && WellEnded(d.sys, id, d.handler);
    TerminalIsFinal(d.sys.store.tasks[id].status);
    if !Terminal(d.sys.store.tasks[id].status) {
      var o := d.sys.store.tasks[id].owner.value;
      assert o in d.sys.phases;
      assert Finished(d.sys, o) && InHand(d.sys, o, Raised(d.board), d.handler);
    }
  }

  /** The store's step of a move, if it has one. */
  function StepOf(d: Drain, m: Move): seq<Action> {
    match m
    case Child(a) => [a]
    case Reap(w) => [Reclaim(w, d.run)]
    case _ => []
  }

  lemma MoveIsSteps(d: Drain, m: Move)
    requires WellFormed(d.sys) && Enabled(d, m)
    ensures After1(d, m).sys == After(d.sys, StepOf(d, m)) && WellFormed(After1(d, m).sys)
    ensures After1(d, m).handler == d.handler
  {
    var a := StepOf(d, m);
    if a != [] {
      assert a[1..] == [];
      assert After(d.sys, a) == Next(d.sys, a[0]);
    }
  }

  lemma MoveKeepsLimit(d: Drain, move: Move, id: TaskId, m: nat)
    requires WellFormed(d.sys) && Enabled(d, move) && id < |d.sys.store.tasks|
    requires Fate.Bounded(id, d.sys.limits, d.handler, m) && d.sys.history[id].limit <= m
    ensures After(d.sys, StepOf(d, move)).history[id].limit <= m
  {
    var a := StepOf(d, move);
    if a != [] {
      if a[0].End? && PhaseOf(d.sys, a[0].worker).Executing? {
        assert a[0].end == d.handler(PhaseOf(d.sys, a[0].worker).task, PhaseOf(d.sys, a[0].worker).attempt);
      }
      assert a[1..] == [];
      Ledger.RunKeepsLimit(d.sys, a, id, m);
    }
  }

  lemma {:induction false} RunsKeepBooks(d: Drain, moves: seq<Move>, d': Drain, id: TaskId, m: nat)
    requires WellFormed(d.sys) && Ledger.Books(d.sys) && Runs(d, moves, d') && id < |d.sys.store.tasks|
    requires Fate.Bounded(id, d.sys.limits, d.handler, m) && d.sys.history[id].limit <= m
    ensures WellFormed(d'.sys) && Ledger.Books(d'.sys)
    ensures |d'.sys.store.tasks| == |d.sys.store.tasks| && d'.sys.limits == d.sys.limits
    ensures d'.sys.history[id].limit <= m
    decreases |moves|
  {
    if moves == [] {
    } else {
      MoveIsSteps(d, moves[0]);
      Ledger.RunKeepsBooks(d.sys, StepOf(d, moves[0]));
      MoveKeepsLimit(d, moves[0], id, m);
      RunsKeepBooks(After1(d, moves[0]), moves[1..], d', id, m);
    }
  }

  /** In one drain with OOM budget K, where no crash of the task leaves an attempt limit above M, its handler starts at
      most M + 2K times. */
  lemma StartsPerDrain(d: Drain, moves: seq<Move>, d': Drain, id: TaskId, m: nat)
    requires Begins(d) && Runs(d, moves, d') && id < |d.sys.store.tasks|
    requires m >= 1 && Fate.Bounded(id, d.sys.limits, d.handler, m)
    ensures WellFormed(d'.sys) && id < |d'.sys.store.tasks|
    ensures d'.sys.history[id].starts <= m + 2 * Ledger.NonNegative(d.sys.limits.maxOomRetries)
  {
    Ledger.InitialBooks(d.sys);
    RunsKeepBooks(d, moves, d', id, m);
    Ledger.RetriesBelowLimit(Ledger.AccountOf(d'.sys, id).history.retried, m);
  }

  // ----- The run's status at the exit -----

  /** At every moment, and so at the loop's exit: once something was attempted, the run's status is what its tasks call
      for if and only if the refresh that wrote it last had read the tasks since they last changed. Before, it is
      VALIDATED. */
  lemma StatusUpToDateExactly(d: Drain, moves: seq<Move>, d': Drain)
    requires Begins(d) && Runs(d, moves, d')
    ensures var tasks := d'.sys.store.tasks; var status := d'.board.row.status;
            && (RunStatusFold.Attempted(tasks, d'.run) ==>
                  (status == RunStatusFold.Aggregate(tasks, d'.run) <==> d'.board.upToDate))
            && (!RunStatusFold.Attempted(tasks, d'.run) ==> status == Validated)
  {
    BeginsSound(d);
    RunsSound(d, moves, d');
    Race.SightFacts(d'.sys.store.tasks, d'.run);
  }
}
