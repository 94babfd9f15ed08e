/** Boot counters leased in blocks, kept over deep sleep in RTC memory, and never used twice. */
module BootLease {
  import opened Wrappers
  import opened Bytes
  import opened HexText
  import opened B1Record

  const BLOCK := 256

  /** The part of the sleep identity that holds the lease: the next counter and the last one. */
  datatype Lease = Lease(next: u64, limit: u64)

  const NO_LEASE := Lease(0, 0)

  datatype Taken = Taken(lease: Lease, reserve: bool, counter: u64)

  /** b1_boot_lease_take: from the lease while it is the newest, else from a new block. */
  function Take(id: Lease, high: u64, rtc: bool): Option<Taken> {
    if rtc && id.limit == high && id.next != 0 && id.next <= high then
      Some(Taken(Lease((id.next + 1) % 0x1_0000_0000_0000_0000, id.limit), false, id.next))
    else if high > U64_MAX - (BLOCK + 1) then None
    else Some(Taken(Lease(high + 2, high + BLOCK), true, high + 1))
  }

  /** The durable counter may have one of two values after a commit that failed. */
  type Stored = s: set<u64> | s != {} witness {0}

  datatype Phase = Off | Awake(lease: Lease) | Asleep(snapshot: Lease)

  /**
   * used is every counter that went into a boot identity, in order; saved is every lease ever put
   * into RTC memory; newest is the last of them while no counter has been used since.
   */
  datatype Device = Device(stored: Stored, phase: Phase, used: seq<u64>, saved: set<Lease>, newest: Option<Lease>)

  /** A boot may be offered any lease from RTC memory that passes the snapshot's checks, or none. */
  datatype Event =
    | Boot(offered: Option<Lease>, high: u64, readable: bool, save: SaveOutcome, named: bool)
    | PlainBoot(high: u64, save: SaveOutcome)
    | Sleep
    | Reset

  /** The counter on flash after a reservation whose commit ended as o. */
  function Reserved(high: u64, limit: u64, o: SaveOutcome): Stored {
    if o == Committed then {limit} else {high, limit}
  }

  /** A boot with deep sleep; no identity is made when a call fails. */
  function Booted(d: Device, offered: Option<Lease>, high: u64, readable: bool, o: SaveOutcome, named: bool): Device {
    if high !in d.stored then d
    else if !readable then d.(phase := Off)
    else
      match Take(if offered.Some? then offered.value else NO_LEASE, high, offered.Some?)
      case None => d.(stored := {high}, phase := Off)
      case Some(t) =>
        var stored := if t.reserve then Reserved(high, t.lease.limit, o) else {high};
        if (t.reserve && o != Committed) || !named then d.(stored := stored, phase := Off)
        else Device(stored, Awake(t.lease), d.used + [t.counter], d.saved, None)
  }

  /** b1_new_boot_identity, without deep sleep: one committed counter a boot. */
  function PlainBooted(d: Device, high: u64, o: SaveOutcome): Device {
    if high !in d.stored then d
    else if high == U64_MAX then d.(stored := {high}, phase := Off)
    else if o != Committed then d.(stored := {high, high + 1}, phase := Off)
    else Device({high + 1}, Awake(NO_LEASE), d.used + [high + 1], d.saved, None)
  }

  function Step(d: Device, e: Event): Device {
    match e
    case Boot(offered, high, readable, o, named) => Booted(d, offered, high, readable, o, named)
    case PlainBoot(high, o) => PlainBooted(d, high, o)
    case Sleep =>
      if d.phase.Awake? then
        d.(phase := Asleep(d.phase.lease), saved := d.saved + {d.phase.lease}, newest := Some(d.phase.lease))
      else d
    case Reset => d.(phase := Off)
  }

  /** A lease of the newest block that still offers a counter although it is not the newest lease. */
  predicate Stale(d: Device, l: Lease, high: u64) {
    l.limit == high && 0 < l.next <= high && d.newest != Some(l)
  }

  /** What RTC memory may hold at a boot: nothing, or a lease once saved that is not stale. */
  predicate Tolerable(d: Device, e: Event) {
    e.Boot? && e.offered.Some? ==> e.offered.value in d.saved && !Stale(d, e.offered.value, e.high)
  }

  /** What the firmware sees to: a snapshot counts only at the timer wake that ends its own sleep. */
  predicate Disciplined(d: Device, e: Event) {
    e.Boot? && e.offered.Some? ==> d.phase == Asleep(e.offered.value)
  }

  ghost predicate Reaches(d: Device, events: seq<Event>, e: Device)
    decreases |events|
  {
    if events == [] then d == e else Tolerable(d, events[0]) && Reaches(Step(d, events[0]), events[1..], e)
  }

  ghost predicate ReachesDisciplined(d: Device, events: seq<Event>, e: Device)
    decreases |events|
  {
    if events == [] then d == e else Disciplined(d, events[0]) && ReachesDisciplined(Step(d, events[0]), events[1..], e)
  }

  // ---- counters ----------------------------------------------------------------------------------------

  ghost predicate Increasing(used: seq<u64>) {
    forall i, j :: 0 <= i < j < |used| ==> used[i] < used[j]
  }

  ghost predicate AllBelow(used: seq<u64>, bound: u64) {
    forall i :: 0 <= i < |used| ==> used[i] < bound
  }

  ghost predicate UsedOk(used: seq<u64>, stored: Stored) {
    && Increasing(used) && (forall i :: 0 <= i < |used| ==> 0 < used[i])
    && forall h :: h in stored ==> forall i :: 0 <= i < |used| ==> used[i] <= h
  }

  predicate Offers(l: Lease, stored: Stored) {
    l.limit in stored && 0 < l.next <= l.limit
  }

  /** A lease whose counters nobody has used. */
  ghost predicate Unused(l: Lease, used: seq<u64>, stored: Stored) {
    (Offers(l, stored) ==> AllBelow(used, l.next)) && forall h :: h in stored ==> l.limit <= h
  }

  ghost predicate SavedOk(d: Device) {
    forall l :: l in d.saved ==>
      && (forall h :: h in d.stored ==> l.limit <= h)
      && (d.newest != Some(l) && Offers(l, d.stored) ==> l.next in d.used)
  }

  ghost predicate Inv(d: Device) {
    && UsedOk(d.used, d.stored) && SavedOk(d)
    && (d.newest.Some? ==> d.newest.value in d.saved && Unused(d.newest.value, d.used, d.stored))
    && match d.phase
       case Off => true
       case Awake(l) => d.newest == None && Unused(l, d.used, d.stored)
       case Asleep(l) => d.newest == Some(l)
  }

  /** A counter is taken without wrapping, from a lease that ends below the largest number. */
  lemma TakeAdvances(id: Lease, high: u64, rtc: bool)
    ensures Take(id, high, rtc).Some? ==>
              var t := Take(id, high, rtc).value;
              && 0 < t.counter <= t.lease.limit && t.lease.next == (if t.counter < U64_MAX then t.counter + 1 else 0)
              && (if t.reserve then t.counter == high + 1 && t.lease.limit == high + 256
                  else t.counter == id.next && t.lease.limit == id.limit == high && 0 < id.next <= high && rtc)
    ensures rtc && id.limit == high && 0 < id.next <= high ==>
            Take(id, high, rtc).Some? && !Take(id, high, rtc).value.reserve
    ensures high + 257 <= U64_MAX ==> Take(id, high, rtc).Some?
  {
  }

  /** The counter of a lease that is not stale lies above every used one. */
  lemma TakenIsNew(d: Device, offered: Option<Lease>, high: u64)
    requires Inv(d) && high in d.stored
    requires offered.Some? ==> offered.value in d.saved && !Stale(d, offered.value, high)
    requires Take(if offered.Some? then offered.value else NO_LEASE, high, offered.Some?).Some?
    ensures AllBelow(d.used, Take(if offered.Some? then offered.value else NO_LEASE, high, offered.Some?).value.counter)
  {
    hide Take, SavedOk, Increasing;
    TakeAdvances(if offered.Some? then offered.value else NO_LEASE, high, offered.Some?);
  }

  lemma UsedGrows(used: seq<u64>, stored: Stored, next: Stored, c: u64)
    requires UsedOk(used, stored) && 0 < c && AllBelow(used, c) && forall h :: h in next ==> c <= h
    ensures UsedOk(used + [c], next)
  {
  }

  /** A device that took counter c from a lease or a block and is awake with what is left of it. */
  lemma AwakeInv(d: Device, l: Lease, c: u64)
    requires Inv(d) && 0 < c <= l.limit && AllBelow(d.used, c) && l.next == (if c < U64_MAX then c + 1 else 0)
    requires (forall h :: h in d.stored && l.limit !in d.stored ==> h < l.limit)
    requires d.newest.Some? && Offers(d.newest.value, {l.limit}) && d.newest.value.limit in d.stored ==>
             d.newest.value.next == c
    ensures Inv(Device({l.limit}, Awake(l), d.used + [c], d.saved, None))
  {
    hide Increasing;
    UsedGrows(d.used, d.stored, {l.limit}, c);
    var e := Device({l.limit}, Awake(l), d.used + [c], d.saved, None);
    forall x | x in d.saved
      ensures x.limit <= l.limit
      ensures Offers(x, {l.limit}) ==> x.next in e.used
    {
      var h :| h in d.stored;
      if Offers(x, {l.limit}) {
        assert l.limit in d.stored;
        assert c in e.used by { assert e.used[|d.used|] == c; }
      }
    }
  }

  /** A start that used no counter, with the stored number unchanged or raised. */
  lemma OffKeeps(d: Device, high: u64, stored: Stored)
    requires Inv(d) && high in d.stored && high in stored && forall h :: h in stored ==> high <= h
    ensures Inv(d.(stored := stored, phase := Off))
  {
    hide Increasing;
  }

  lemma BootKeeps(d: Device, offered: Option<Lease>, high: u64, readable: bool, o: SaveOutcome, named: bool)
    requires Inv(d) && Tolerable(d, Boot(offered, high, readable, o, named))
    ensures Inv(Booted(d, offered, high, readable, o, named))
  {
    hide Take, UsedOk, SavedOk, Unused;
    AsleepOff(d);
    if high in d.stored && readable {
      var id := if offered.Some? then offered.value else NO_LEASE;
      TakeAdvances(id, high, offered.Some?);
      OffKeeps(d, high, {high});
      if Take(id, high, offered.Some?).Some? {
        var t := Take(id, high, offered.Some?).value;
        TakenIsNew(d, offered, high);
        if t.reserve {
          OffKeeps(d, high, {high, t.lease.limit});
          BlockTaken(d, high, t.lease, t.counter);
        } else {
          assert offered == d.newest;
          AwakeInv(d, t.lease, t.counter);
        }
      }
    }
  }

  lemma AsleepOff(d: Device)
    requires Inv(d)
    ensures Inv(d.(phase := Off))
  {
    hide UsedOk;
  }

  /** A new block that was committed: used for a boot, or given up before. */
  lemma BlockTaken(d: Device, high: u64, l: Lease, c: u64)
    requires Inv(d) && high in d.stored && l.limit == high + BLOCK && high < c <= l.limit && AllBelow(d.used, c)
    requires l.next == (if c < U64_MAX then c + 1 else 0)
    ensures Inv(Device({l.limit}, Awake(l), d.used + [c], d.saved, None))
    ensures Inv(d.(stored := {l.limit}, phase := Off))
  {
    hide Increasing;
    OffKeeps(d, high, {high, l.limit});
    var raised := d.(stored := {high, l.limit}, phase := Off);
    Raised(raised, high, l.limit);
    AwakeInv(raised.(stored := {l.limit}), l, c);
  }

  lemma Raised(d: Device, high: u64, limit: u64)
    requires Inv(d) && d.stored == {high, limit} && high < limit && d.phase == Off
    requires forall l :: l in d.saved ==> l.limit <= high
    ensures Inv(d.(stored := {limit}))
  {
    hide Increasing;
  }

  lemma PlainBootKeeps(d: Device, high: u64, o: SaveOutcome)
    requires Inv(d)
    ensures Inv(PlainBooted(d, high, o))
  {
    hide Increasing;
    if high in d.stored {
      OffKeeps(d, high, {high});
      if high < U64_MAX {
        OffKeeps(d, high, {high, high + 1});
        UsedGrows(d.used, d.stored, {high + 1}, high + 1);
      }
    }
  }

  lemma StepKeeps(d: Device, e: Event)
    requires Inv(d) && Tolerable(d, e)
    ensures Inv(Step(d, e))
  {
    hide UsedOk, Booted, PlainBooted, AllBelow;
    match e
    case Boot(offered, high, readable, o, named) => BootKeeps(d, offered, high, readable, o, named);
    case PlainBoot(high, o) => PlainBootKeeps(d, high, o);
    case Sleep =>
    case Reset =>
  }

  lemma {:induction false} RunKeeps(d: Device, events: seq<Event>, e: Device)
    requires Inv(d) && Reaches(d, events, e)
    ensures Inv(e)
    decreases |events|
  {
    hide Inv, Step, Tolerable;
    if events != [] {
      StepKeeps(d, events[0]);
      RunKeeps(Step(d, events[0]), events[1..], e);
    }
  }

  function NewDevice(h: u64): Device {
    Device({h}, Off, [], {}, None)
  }

  /**
   * Over every run of boots, sleeps and resets, with lost snapshots, snapshots of older blocks, read
   * errors and commits that fail with unknown effect, the counters of boot identities strictly
   * increase as long as no stale lease of the newest block is offered.
   */
  lemma CountersNeverRepeat(h: u64, events: seq<Event>, d: Device)
    requires Reaches(NewDevice(h), events, d)
    ensures Increasing(d.used)
  {
    RunKeeps(NewDevice(h), events, d);
  }

  /**
   * The condition is exact: when a reachable device boots with a lease it once saved and uses a
   * counter, the counters go on increasing if and only if the lease was not stale; a stale one
   * repeats a counter.
   */
  lemma StaleLeaseRepeats(h: u64, events: seq<Event>, d: Device, l: Lease, high: u64)
    requires Reaches(NewDevice(h), events, d) && l in d.saved && high in d.stored
    requires Take(l, high, true).Some?
    ensures var e := Step(d, Boot(Some(l), high, true, Committed, true));
            && e.used == d.used + [Take(l, high, true).value.counter]
            && (Increasing(e.used) <==> !Stale(d, l, high))
            && (Stale(d, l, high) ==> Take(l, high, true).value.counter in d.used)
  {
    hide Take;
    RunKeeps(NewDevice(h), events, d);
    TakeAdvances(l, high, true);
    var c := Take(l, high, true).value.counter;
    if Stale(d, l, high) {
      assert Offers(l, d.stored);
      Repeated(d.used, c);
    } else {
      StepKeeps(d, Boot(Some(l), high, true, Committed, true));
    }
  }

  lemma Repeated(used: seq<u64>, c: u64)
    requires c in used
    ensures !Increasing(used + [c])
  {
    var i :| 0 <= i < |used| && used[i] == c;
    assert (used + [c])[i] == (used + [c])[|used|];
  }

  /** The snapshot of the sleep that a timer wake ends is the newest lease, so it is never stale. */
  lemma {:induction false} DisciplineSuffices(d: Device, events: seq<Event>, e: Device)
    requires Inv(d) && ReachesDisciplined(d, events, e)
    ensures Reaches(d, events, e) && Increasing(e.used)
    decreases |events|
  {
    hide Step, UsedOk, SavedOk, Unused;
    if events != [] {
      StepKeeps(d, events[0]);
      DisciplineSuffices(Step(d, events[0]), events[1..], e);
    } else {
      RunKeeps(d, events, e);
      InvIncreasing(e);
    }
  }

  lemma InvIncreasing(d: Device)
    requires Inv(d)
    ensures Increasing(d.used)
  {
  }

  /** MAC in twelve digits, counter in sixteen, and random text. */
  function BootId(mac: Text, counter: u64, random: Text): Text
    requires |mac| == 12
  {
    var r := mac + [45] + Hex(counter, 16) + [45] + random;
    assert forall c :: c in r ==> c in mac || c == 45 || c in Hex(counter, 16) || c in random;
    r
  }

  lemma SixteenDigits()
    ensures Pow16(16) == 0x1_0000_0000_0000_0000
  {
    EightDigits();
    assert Pow16(10) == 256 * Pow16(8) by { assert Pow16(9) == 16 * Pow16(8); }
    assert Pow16(12) == 256 * Pow16(10) by { assert Pow16(11) == 16 * Pow16(10); }
    assert Pow16(14) == 256 * Pow16(12) by { assert Pow16(13) == 16 * Pow16(12); }
    assert Pow16(16) == 256 * Pow16(14) by { assert Pow16(15) == 16 * Pow16(14); }
  }

  /** Different boots give their samples different identities, whatever their random parts are. */
  lemma SamplesOfBootsDiffer(mac: Text, i: u64, j: u64, x: Text, y: Text, m: u32, n: u32)
    requires |mac| == 12 && i != j
    ensures SampleId(BootId(mac, i, x), m) != SampleId(BootId(mac, j, y), n)
  {
    hide Hex, SampleId;
    if SampleId(BootId(mac, i, x), m) == SampleId(BootId(mac, j, y), n) {
      SampleIdInjective(BootId(mac, i, x), BootId(mac, j, y), m, n);
      assert Hex(i, 16) == BootId(mac, i, x)[13..29] && Hex(j, 16) == BootId(mac, j, y)[13..29];
      SixteenDigits();
      HexInjective(i, j, 16);
    }
  }

  // ---- the C functions -----------------------------------------------------------------------------------

  class SleepIdentity {
    var next: u64
    var limit: u64

    constructor (l: Lease)
      ensures next == l.next && limit == l.limit
    {
      next, limit := l.next, l.limit;
    }

    /** b1_boot_lease_take. */
    method BootLeaseTake(high: u64, rtc: bool) returns (ok: bool, reserve: bool, counter: u64)
      modifies this
      ensures match Take(Lease(old(next), old(limit)), high, rtc)
              case None => !ok && next == old(next) && limit == old(limit)
              case Some(t) => ok && t == Taken(Lease(next, limit), reserve, counter)
    {
      counter := 0;
      reserve := !(rtc && limit == high && next != 0 && next <= high);
      if reserve {
        if high > U64_MAX - 257 {
          return false, reserve, 0;
        }
        next := high + 1;
        limit := high + 256;
      }
      counter := next;
      next := (next + 1) % 0x1_0000_0000_0000_0000;
      ok := true;
    }

    /** b1_sleep_boot_identity: the block is committed before its first counter is used. */
    method SleepBootIdentity(stored: Option<u64>, readable: bool, rtcValid: bool, save: SaveOutcome, named: bool)
      returns (counter: Option<u64>, written: Option<u64>)
      modifies this
      ensures var high := if stored.Some? then stored.value else 0;
              var t := Take(Lease(old(next), old(limit)), high, rtcValid && stored.Some?);
              && (counter.Some? <==> readable && t.Some? && (t.value.reserve ==> save == Committed) && named)
              && (counter.Some? ==> t.value.counter == counter.value && t.value.lease == Lease(next, limit))
              && (written.Some? ==>
                && readable && t.Some? && t.value.reserve && save != LostUnapplied
                && written.value == t.value.lease.limit)
              && (counter.Some? && t.value.reserve ==> written == Some(limit))
    {
      counter, written := None, None;
      if !readable {
        return;
      }
      var high := if stored.Some? then stored.value else 0;
      var ok, reserve, taken := BootLeaseTake(high, rtcValid && stored.Some?);
      if !ok {
        return;
      }
      if reserve {
        if save != LostUnapplied {
          written := Some(limit);
        }
        if save != Committed {
          return;
        }
      }
      if named {
        counter := Some(taken);
      }
    }
  }
}
