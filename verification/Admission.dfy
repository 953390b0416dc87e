/** The parent's side of a concurrent drain: which device takes the next child, and the counters the loop keeps. */
module Admission {
  import opened Order
  import opened Records
  import opened Protocol

  // ----- Choosing a device -----

  /** Free memory of a device in the latest reading; a device the reading does not cover counts as full. */
  function FreeOf(live: seq<real>, d: nat): real {
    if d < |live| then live[d] else 0.0
  }

  /** Most free memory first, ties by device number. */
  predicate FreerThan(live: seq<real>, i: nat, j: nat) {
    FreeOf(live, i) > FreeOf(live, j) || (FreeOf(live, i) == FreeOf(live, j) && i < j)
  }

  function DeviceOrder(live: seq<real>): (nat, nat) -> bool {
    (i: nat, j: nat) => FreerThan(live, i, j)
  }

  predicate Busy(inFlight: map<WorkerId, nat>, d: nat) {
    exists w | w in inFlight :: inFlight[w] == d
  }

  /** An idle device with the most free memory; failing that, the busy device with the most free memory, and only if
      it clears the headroom. */
  ghost predicate IsChoice(devices: nat, live: seq<real>, inFlight: map<WorkerId, nat>, minFree: real,
                           choice: Option<nat>) {
    match choice
    case Some(d) =>
      && d < devices
      && (if Busy(inFlight, d)
          then (forall e: nat :: e < devices ==> Busy(inFlight, e) && (e != d ==> FreerThan(live, d, e)))
               && FreeOf(live, d) >= minFree
          else forall e: nat :: e < devices && e != d && !Busy(inFlight, e) ==> FreerThan(live, d, e))
    case None => forall e: nat :: e < devices ==> Busy(inFlight, e) && FreeOf(live, e) < minFree
  }

  predicate Taken(inFlight: map<WorkerId, nat>, d: nat) {
    d in inFlight.Values
  }

  /** As much as the latest reading says, and none for a device it does not cover. */
  function MemoryOf(live: seq<real>, d: nat): real {
    if |live| <= d then 0.0 else live[d]
  }

  /** A device is chosen exactly when it is below the number of devices and either is free of children and no other such
      device has more memory, or as much and a smaller number; or, every device having a child, clears the headroom and
      no other device has more memory, or as much and a smaller number. No device is chosen exactly when every device
      has a child and none clears the headroom. */
  lemma ChoiceMeaning(devices: nat, live: seq<real>, inFlight: map<WorkerId, nat>, minFree: real, d: nat)
    ensures IsChoice(devices, live, inFlight, minFree, Some(d)) <==>
            && d < devices
            && (Taken(inFlight, d) ==>
                  MemoryOf(live, d) >= minFree && forall e: nat :: e < devices ==> Taken(inFlight, e))
            && forall e: nat :: e < devices && (Taken(inFlight, d) || !Taken(inFlight, e)) ==>
                 MemoryOf(live, e) < MemoryOf(live, d) || (MemoryOf(live, e) == MemoryOf(live, d) && d <= e)
    ensures IsChoice(devices, live, inFlight, minFree, None) <==>
            forall e: nat :: e < devices ==> Taken(inFlight, e) && MemoryOf(live, e) < minFree
  {
    forall e: nat ensures Busy(inFlight, e) <==> Taken(inFlight, e) {
      if Busy(inFlight, e) {
        var w :| w in inFlight && inFlight[w] == e;
      }
    }
    forall e: nat ensures MemoryOf(live, e) == FreeOf(live, e) {}
    forall e: nat ensures FreerThan(live, d, e) <==>
                          MemoryOf(live, e) < MemoryOf(live, d)
                          || (MemoryOf(live, e) == MemoryOf(live, d) && d < e) {}
    if Taken(inFlight, d) {
      assert Busy(inFlight, d);
    } else {
      assert !Busy(inFlight, d);
    }
  }

  lemma DeviceOrderOrders(live: seq<real>, devices: nat)
    ensures Orders(DeviceOrder(live), devices)
  {}

  method DevicesByFree(devices: nat, live: seq<real>) returns (order: seq<nat>)
    ensures Lists(order, Below(devices), DeviceOrder(live))
  {
    order := [];
    DeviceOrderOrders(live, devices);
    for d := 0 to devices
      invariant Lists(order, Below(d), DeviceOrder(live))
    {
      InsertRowLists(order, Below(d), d, DeviceOrder(live), devices);
      order := InsertRow(order, d, DeviceOrder(live));
    }
  }

  method ChooseDevice(devices: nat, live: seq<real>, inFlight: map<WorkerId, nat>, minFree: real)
    returns (choice: Option<nat>)
    ensures IsChoice(devices, live, inFlight, minFree, choice)
  {
    var order := DevicesByFree(devices, live);
    var i := 0;
    while i < |order|
      invariant 0 <= i <= |order|
      invariant forall j :: 0 <= j < i ==> Busy(inFlight, order[j])
    {
      if !Busy(inFlight, order[i]) {
        assert order[i] in order;
        forall e: nat | e < devices && e != order[i] && !Busy(inFlight, e) ensures FreerThan(live, order[i], e) {
          assert e in order;
          var j :| 0 <= j < |order| && order[j] == e;
          assert DeviceOrder(live)(order[i], order[j]);
        }
        return Some(order[i]);
      }
      i := i + 1;
    }
    assert forall e :: e in order ==> Busy(inFlight, e);
    i := 0;
    while i < |order|
      invariant 0 <= i <= |order|
      invariant forall j :: 0 <= j < i ==> FreeOf(live, order[j]) < minFree
    {
      if FreeOf(live, order[i]) >= minFree {
        assert order[i] in order;
        forall e: nat | e < devices && e != order[i] ensures FreerThan(live, order[i], e) {
          assert e in order;
          var j :| 0 <= j < |order| && order[j] == e;
          if i < j {
            assert DeviceOrder(live)(order[i], order[j]);
          }
        }
        return Some(order[i]);
      }
      i := i + 1;
    }
    assert forall e :: e in order ==> FreeOf(live, e) < minFree;
    choice := None;
  }

  /** A run on at least one device never stalls with nothing in flight: some device is idle. */
  lemma EmptyPoolAdmits(devices: nat, live: seq<real>, minFree: real, choice: Option<nat>)
    requires devices >= 1 && IsChoice(devices, live, map[], minFree, choice)
    ensures choice.Some? && !Busy(map[], choice.value)
  {
    assert !Busy(map[], 0);
  }

  // ----- The counters -----

  datatype Config = Config(maxConcurrent: int, minFreeMb: real, devices: nat)

  datatype Counters = Counters(
    inFlight: map<WorkerId, nat>,
    ceiling: nat,
    minFree: real,
    succeeded: nat,
    childSeq: nat,
    ooms: nat,
    deaths: nat)

  function AtLeastOne(n: int): nat {
    if n < 1 then 1 else n
  }

  function Raised(base: real, times: nat): real {
    if times == 0 then base else Raised(base, times - 1) * 1.5
  }

  function Start(c: Config): Counters {
    Counters(map[], AtLeastOne(c.maxConcurrent), c.minFreeMb, 0, 0, 0, 0)
  }

  function WithChild(k: Counters, device: nat): Counters {
    k.(childSeq := k.childSeq + 1, inFlight := k.inFlight[k.childSeq + 1 := device])
  }

  /** A message from the queue. A child already given up as dead may still be heard from. */
  function Heard(k: Counters, w: WorkerId, outcome: Outcome): Counters {
    var k1 := k.(inFlight := k.inFlight - {w});
    match outcome
    case Success => k1.(succeeded := k.succeeded + 1)
    case OutOfMemory => k1.(ceiling := AtLeastOne(k.ceiling - 1), minFree := k.minFree * 1.5, ooms := k.ooms + 1)
    case _ => k1
  }

  function GaveUp(k: Counters, w: WorkerId): Counters {
    k.(inFlight := k.inFlight - {w}, ceiling := AtLeastOne(k.ceiling - 1), deaths := k.deaths + 1)
  }

  /** The ceiling has come down once for every OOM and every unreported death, the headroom has grown by half for every
      OOM, and the pool was never overfilled. */
  ghost predicate Admissible(c: Config, k: Counters) {
    && k.ceiling == AtLeastOne(AtLeastOne(c.maxConcurrent) - k.ooms - k.deaths)
    && k.minFree == Raised(c.minFreeMb, k.ooms)
    && |k.inFlight| <= AtLeastOne(c.maxConcurrent)
    && forall w :: w in k.inFlight ==> 1 <= w <= k.childSeq && k.inFlight[w] < c.devices
  }

  lemma StartAdmissible(c: Config)
    ensures Admissible(c, Start(c))
  {}

  lemma InsertionGrows(m: map<WorkerId, nat>, w: WorkerId, device: nat)
    ensures |m[w := device]| <= |m| + 1
  {}

  lemma ChildAdmissible(c: Config, k: Counters, device: nat)
    requires Admissible(c, k) && |k.inFlight| < k.ceiling && device < c.devices
    ensures Admissible(c, WithChild(k, device))
  {
    InsertionGrows(k.inFlight, k.childSeq + 1, device);
  }

  lemma RemovalShrinks(m: map<WorkerId, nat>, w: WorkerId)
    ensures |m - {w}| <= |m|
  {}

  lemma HeardAdmissible(c: Config, k: Counters, w: WorkerId, outcome: Outcome)
    requires Admissible(c, k)
    ensures Admissible(c, Heard(k, w, outcome))
  {
    RemovalShrinks(k.inFlight, w);
  }

  lemma GaveUpAdmissible(c: Config, k: Counters, w: WorkerId)
    requires Admissible(c, k)
    ensures Admissible(c, GaveUp(k, w))
  {
    RemovalShrinks(k.inFlight, w);
  }

  /** The loop's local variables. */
  class Pool {
    const config: Config
    var inFlight: map<WorkerId, nat>
    var ceiling: nat
    var minFree: real
    var succeeded: nat
    var childSeq: nat
    ghost var ooms: nat
    ghost var deaths: nat

    ghost function View(): Counters
      reads this
    {
      Counters(inFlight, ceiling, minFree, succeeded, childSeq, ooms, deaths)
    }

    ghost predicate Valid()
      reads this
    {
      Admissible(config, View())
    }

    constructor (config: Config)
      ensures Valid() && this.config == config && View() == Start(config)
    {
      this.config := config;
      inFlight, minFree, succeeded, childSeq, ooms, deaths := map[], config.minFreeMb, 0, 0, 0, 0;
      ceiling := AtLeastOne(config.maxConcurrent);
    }

    /** One round of the admission loop: `leaseable` is `_count_leaseable`, `live` the latest memory reading. */
    method TryAdmit(leaseable: nat, live: seq<real>) returns (child: Option<WorkerId>)
      requires Valid()
      modifies this
      ensures Valid()
      ensures child.None? ==> View() == old(View())
      ensures child.None? <==>
              || old(|inFlight|) >= old(ceiling) || leaseable == 0
              || IsChoice(config.devices, live, old(inFlight), old(minFree), None)
      ensures child.Some? ==> exists d :: IsChoice(config.devices, live, old(inFlight), old(minFree), Some(d))
                                          && View() == WithChild(old(View()), d) && child.value == childSeq
      ensures old(inFlight) == map[] && leaseable > 0 && config.devices >= 1 ==> child.Some?
    {
      if |inFlight| >= ceiling || leaseable == 0 {
        return None;
      }
      var choice := ChooseDevice(config.devices, live, inFlight, minFree);
      if inFlight == map[] && config.devices >= 1 {
        EmptyPoolAdmits(config.devices, live, minFree, choice);
      }
      if choice.None? {
        return None;
      }
      NotBothChoices(config.devices, live, inFlight, minFree, choice.value);
      ChildAdmissible(config, View(), choice.value);
      childSeq := childSeq + 1;
      inFlight := inFlight[childSeq := choice.value];
      child := Some(childSeq);
    }

    method Hear(w: WorkerId, outcome: Outcome)
      requires Valid()
      modifies this
      ensures Valid() && View() == Heard(old(View()), w, outcome)
    {
      HeardAdmissible(config, View(), w, outcome);
      inFlight := inFlight - {w};
      if outcome == Success {
        succeeded := succeeded + 1;
      } else if outcome == OutOfMemory {
        ceiling := AtLeastOne(ceiling - 1);
        minFree := minFree * 1.5;
        ooms := ooms + 1;
      }
    }

    method GiveUp(w: WorkerId)
      requires Valid()
      modifies this
      ensures Valid() && View() == GaveUp(old(View()), w)
    {
      GaveUpAdmissible(config, View(), w);
      inFlight := inFlight - {w};
      ceiling := AtLeastOne(ceiling - 1);
      deaths := deaths + 1;
    }
  }

  lemma NotBothChoices(devices: nat, live: seq<real>, inFlight: map<WorkerId, nat>, minFree: real, d: nat)
    requires IsChoice(devices, live, inFlight, minFree, Some(d))
    ensures !IsChoice(devices, live, inFlight, minFree, None)
  {}
}
