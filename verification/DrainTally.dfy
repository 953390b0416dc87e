/** What the parent of a concurrent drain has counted, in terms of the moves that were made. */
module DrainTally {
  import opened Records
  import opened Protocol
  import opened Admission
  import opened ConcurrentDrain

  /** How many children were admitted. */
  function Admitted(moves: seq<Move>): nat {
    if moves == [] then 0 else Admitted(moves[..|moves| - 1]) + if moves[|moves| - 1].Admit? then 1 else 0
  }

  /** How many children were found dead. */
  function Reaped(moves: seq<Move>): nat {
    if moves == [] then 0 else Reaped(moves[..|moves| - 1]) + if moves[|moves| - 1].Reap? then 1 else 0
  }

  /** The message of a child, the last it sent. */
  function Said(moves: seq<Move>, w: WorkerId): Option<Outcome> {
    if moves == [] then None
    else if moves[|moves| - 1].Send? && moves[|moves| - 1].worker == w then Some(moves[|moves| - 1].outcome)
    else Said(moves[..|moves| - 1], w)
  }

  /** How many messages of this outcome were received. */
  function Received(moves: seq<Move>, outcome: Outcome): nat {
    if moves == [] then 0
    else
      var before, m := moves[..|moves| - 1], moves[|moves| - 1];
      Received(before, outcome) + if m.Receive? && Said(before, m.worker) == Some(outcome) then 1 else 0
  }

  predicate LetGo(moves: seq<Move>, w: WorkerId) {
    Move.Receive(w) in moves || Reap(w) in moves
  }

  /** The device the n-th child was admitted to. */
  function DeviceOf(moves: seq<Move>, w: WorkerId): nat
    requires 1 <= w <= Admitted(moves)
  {
    var before, m := moves[..|moves| - 1], moves[|moves| - 1];
    if m.Admit? && Admitted(moves) == w then m.device else DeviceOf(before, w)
  }

  function AtLeast(least: int, n: int): int {
    if n < least then least else n
  }

  /** x times 1.5, n times over. */
  function GrownByHalf(x: real, n: nat): real {
    if n == 0 then x else GrownByHalf(x, n - 1) * 3.0 / 2.0
  }

  /** The counters and the unread messages are what the moves made of them. */
  ghost predicate TalliedBy(c: Config, moves: seq<Move>, k: Counters, mail: map<WorkerId, Outcome>) {
    && k.childSeq == Admitted(moves)
    && k.succeeded == Received(moves, Success)
    && k.ceiling == AtLeast(1, AtLeast(1, c.maxConcurrent) - Received(moves, OutOfMemory) - Reaped(moves))
    && k.minFree == GrownByHalf(c.minFreeMb, Received(moves, OutOfMemory))
    && (forall w: nat :: w in k.inFlight <==> 1 <= w <= Admitted(moves) && !LetGo(moves, w))
    && (forall w :: w in k.inFlight ==> k.inFlight[w] == DeviceOf(moves, w))
    && (forall w: nat :: w in mail ==> w <= Admitted(moves) && Said(moves, w) == Some(mail[w]))
    && (forall w: nat :: LetGo(moves, w) ==> w <= Admitted(moves))
  }

  // ----- Every move keeps the tally -----

  lemma OneMore(moves: seq<Move>, m: Move)
    ensures var all := moves + [m];
            && Admitted(all) == Admitted(moves) + (if m.Admit? then 1 else 0)
            && Reaped(all) == Reaped(moves) + (if m.Reap? then 1 else 0)
            && (forall w :: Said(all, w) == if m.Send? && m.worker == w then Some(m.outcome) else Said(moves, w))
            && (forall o :: Received(all, o) ==
                  Received(moves, o) + if m.Receive? && Said(moves, m.worker) == Some(o) then 1 else 0)
            && (forall w :: LetGo(all, w) <==> LetGo(moves, w) || m == Move.Receive(w) || m == Reap(w))
  {
    var all := moves + [m];
    assert all[..|all| - 1] == moves && all[|all| - 1] == m;
  }

  lemma SameDevice(moves: seq<Move>, m: Move, w: WorkerId)
    requires 1 <= w <= Admitted(moves + [m])
    ensures Admitted(moves) <= Admitted(moves + [m])
    ensures w <= Admitted(moves) ==> DeviceOf(moves + [m], w) == DeviceOf(moves, w)
    ensures w > Admitted(moves) ==> m.Admit? && DeviceOf(moves + [m], w) == m.device
  {
    var all := moves + [m];
    assert all[..|all| - 1] == moves && all[|all| - 1] == m;
  }

  lemma SameDevices(moves: seq<Move>, m: Move)
    requires !m.Admit?
    ensures forall w: nat :: 1 <= w <= Admitted(moves) && w <= Admitted(moves + [m]) ==>
                               DeviceOf(moves + [m], w) == DeviceOf(moves, w)
  {
    forall w: nat | 1 <= w <= Admitted(moves) && w <= Admitted(moves + [m]) { SameDevice(moves, m, w); }
  }

  lemma AdmitTallied(c: Config, moves: seq<Move>, k: Counters, mail: map<WorkerId, Outcome>, m: Move)
    requires TalliedBy(c, moves, k, mail) && m.Admit?
    ensures TalliedBy(c, moves + [m], WithChild(k, m.device), mail)
  {
    OneMore(moves, m);
    forall w: nat | 1 <= w <= Admitted(moves + [m]) { SameDevice(moves, m, w); }
  }

  lemma ReceiveTalliedBy(c: Config, moves: seq<Move>, k: Counters, mail: map<WorkerId, Outcome>, w: WorkerId)
    requires TalliedBy(c, moves, k, mail) && w in mail
    ensures TalliedBy(c, moves + [Move.Receive(w)], Heard(k, w, mail[w]), mail - {w})
  {
    OneMore(moves, Move.Receive(w));
    SameDevices(moves, Move.Receive(w));
  }

  lemma ReapTalliedBy(c: Config, moves: seq<Move>, k: Counters, mail: map<WorkerId, Outcome>, w: WorkerId)
    requires TalliedBy(c, moves, k, mail) && w <= k.childSeq
    ensures TalliedBy(c, moves + [Reap(w)], GaveUp(k, w), mail)
  {
    OneMore(moves, Reap(w));
    SameDevices(moves, Reap(w));
  }

  lemma SendTalliedBy(c: Config, moves: seq<Move>, k: Counters, mail: map<WorkerId, Outcome>, w: WorkerId, o: Outcome)
    requires TalliedBy(c, moves, k, mail) && w <= k.childSeq
    ensures TalliedBy(c, moves + [Move.Send(w, o)], k, mail[w := o])
  {
    OneMore(moves, Move.Send(w, o));
    SameDevices(moves, Move.Send(w, o));
  }

  lemma ElseTalliedBy(c: Config, moves: seq<Move>, k: Counters, mail: map<WorkerId, Outcome>, m: Move)
    requires TalliedBy(c, moves, k, mail) && (m.Child? || m.Refresh?)
    ensures TalliedBy(c, moves + [m], k, mail)
  {
    OneMore(moves, m);
    SameDevices(moves, m);
  }

  lemma MoveTallied(c: Config, before: seq<Move>, d: Drain, m: Move)
    requires WellFormed(d.sys) && Enabled(d, m) && TalliedBy(c, before, d.pool, d.mail)
    ensures TalliedBy(c, before + [m], After1(d, m).pool, After1(d, m).mail)
  {
    match m
    case Admit(_, _, _) => AdmitTallied(c, before, d.pool, d.mail, m);
    case Receive(w) => ReceiveTalliedBy(c, before, d.pool, d.mail, w);
    case Reap(w) => ReapTalliedBy(c, before, d.pool, d.mail, w);
    case Send(w, o) => SendTalliedBy(c, before, d.pool, d.mail, w, o);
    case _ => ElseTalliedBy(c, before, d.pool, d.mail, m);
  }

  lemma StartTallied(c: Config)
    ensures TalliedBy(c, [], Start(c), map[])
  {}

  /** What holds of the moves made and the drain they led to, and is kept by every further move. */
  ghost predicate Kept(holds: (seq<Move>, Drain) -> bool) {
    forall before, d, m :: holds(before, d) && WellFormed(d.sys) && Enabled(d, m) ==> holds(before + [m], After1(d, m))
  }

  lemma {:induction false} RunsKeep(holds: (seq<Move>, Drain) -> bool, before: seq<Move>, d: Drain, moves: seq<Move>,
                                    d': Drain)
    requires Kept(holds) && holds(before, d) && ConcurrentDrain.Runs(d, moves, d')
    ensures holds(before + moves, d')
    decreases |moves|
  {
    if moves == [] {
      assert before + moves == before;
    } else {
      RunsKeep(holds, before + [moves[0]], After1(d, moves[0]), moves[1..], d');
      assert before + moves == (before + [moves[0]]) + moves[1..];
    }
  }

  /** Over every drain: the children admitted are numbered in order, each on its device, and tracked until they are
      heard or reaped; the successes counted are the successes received; the ceiling is the configured one, at least
      one, less one for each OOM received and each child reaped, and never below one; and the headroom has grown by
      half for each OOM received. */
  lemma CountersMeaning(d: Drain, moves: seq<Move>, d': Drain)
    requires Begins(d) && ConcurrentDrain.Runs(d, moves, d')
    ensures TalliedBy(d.config, moves, d'.pool, d'.mail)
  {
    var c := d.config;
    var holds := (before: seq<Move>, e: Drain) => TalliedBy(c, before, e.pool, e.mail);
    StartTallied(c);
    forall before: seq<Move>, e: Drain, m: Move | holds(before, e) && WellFormed(e.sys) && Enabled(e, m)
      ensures holds(before + [m], After1(e, m))
    {
      MoveTallied(c, before, e, m);
    }
    RunsKeep(holds, [], d, moves, d');
    assert [] + moves == moves;
  }
}
