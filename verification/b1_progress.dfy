/** That the outbox of B1 keeps trying and ends: retry times, transmission, and the slots it gives back. */
module B1Progress {
  import opened Wrappers
  import opened Bytes
  import opened B1Record
  import opened B1Outbox
  import opened B1Store
  import B1Checkpoint

  // ---- the retry times of a silent peer ------------------------------------------------------------------

  function Power2(n: nat): nat {
    if n == 0 then 1 else 2 * Power2(n - 1)
  }

  /** Milliseconds from the time-out of attempt k to attempt k + 1: five rapid attempts, then probes. */
  function Wait(k: nat): nat
    requires k > 0
  {
    if k < 5 then 1000 * Power2(k - 1)
    else if k < 9 then 60000 * Power2(k - 5)
    else 900000
  }

  /** An entry after attempt k timed out. */
  ghost predicate Silent(e: Entry, k: nat)
    requires k > 0
  {
    && e.attempts == (if k < 5 then k else 5)
    && if k < 5 then e.state == RETRY_PENDING && !e.probing
       else e.state == FAILED && e.probeDelay == Wait(k) && (e.probing <==> k > 5)
  }

  /** An attempt that is not answered, launched at now. */
  function Unanswered(e: Entry, now: u64, windowEnd: u64): Entry {
    TimedOut(Launched(e, now, windowEnd))
  }

  lemma Waits(k: nat)
    requires k > 0
    ensures k < 5 ==> Wait(k) == [1000, 2000, 4000, 8000][k - 1]
    ensures 5 <= k <= 9 ==> Wait(k) == [60000, 120000, 240000, 480000, 900000][k - 5]
    ensures k >= 9 ==> Wait(k) == 900000
    ensures Wait(k) <= 900000
  {
    assert Power2(0) == 1 && Power2(1) == 2 && Power2(2) == 4 && Power2(3) == 8;
  }

  /**
   * To a silent peer a record goes five times, after one, two, four and eight seconds, and then as a probe
   * after one, two, four and eight minutes and every quarter of an hour for ever.
   */
  lemma SilentPeer(e: Entry, k: nat, now: u64, windowEnd: u64)
    requires (k == 0 && e.state == PENDING && e.attempts == 0) || (k > 0 && Silent(e, k))
    ensures var f := Unanswered(e, now, windowEnd);
            var timedOut := if now + ACK_TIMEOUT <= windowEnd then now + ACK_TIMEOUT else windowEnd as int;
            && Silent(f, k + 1)
            && (timedOut + 900000 <= U64_MAX && now + ACK_TIMEOUT <= U64_MAX ==> f.due == timedOut + Wait(k + 1))
  {
    Waits(k + 1);
    if k > 0 { Waits(k); }
  }

  // ---- places for records of high importance --------------------------------------------------------------

  function HighCount(entries: seq<Entry>): nat {
    if entries == [] then 0
    else
      var e := entries[|entries| - 1];
      HighCount(entries[..|entries| - 1]) + (if Held(e) && e.record.high != 0 then 1 else 0)
  }

  lemma {:induction false} AllHeld(entries: seq<Entry>)
    ensures NormalCount(entries) + HighCount(entries) <= |entries|
    ensures (forall i :: 0 <= i < |entries| ==> Held(entries[i])) ==>
              NormalCount(entries) + HighCount(entries) == |entries|
    decreases |entries|
  {
    if entries != [] {
      AllHeld(entries[..|entries| - 1]);
    }
  }

  predicate Normal(e: Entry) {
    Held(e) && e.record.high == 0
  }

  lemma {:induction false} NormalReplaced(entries: seq<Entry>, i: nat, e: Entry)
    requires i < |entries|
    ensures NormalCount(entries[i := e]) ==
            NormalCount(entries) + (if Normal(e) then 1 else 0) - (if Normal(entries[i]) then 1 else 0)
    decreases |entries|
  {
    var n := |entries| - 1;
    if i == n {
      assert entries[i := e][..n] == entries[..n];
    } else {
      assert entries[i := e][..n] == entries[..n][i := e];
      NormalReplaced(entries[..n], i, e);
    }
  }

  lemma {:induction false} NormalSame(p: seq<Entry>, q: seq<Entry>)
    requires |p| == |q| && forall i :: 0 <= i < |p| ==> (Normal(q[i]) ==> Normal(p[i]))
    ensures NormalCount(q) <= NormalCount(p)
    decreases |p|
  {
    if p != [] {
      var n := |p| - 1;
      NormalSame(p[..n], q[..n]);
      assert Normal(q[n]) ==> Normal(p[n]);
    }
  }

  // ---- clocks ---------------------------------------------------------------------------------------------

  const SOON := 900000

  ghost predicate NearEntry(e: Entry, now: u64) {
    && e.due <= now + SOON && (e.probing || e.state == FAILED ==> e.probeDelay <= PROBE_MAX)
    && (e.alertAcked ==> e.record.hasAlert == 1)
  }

  /** Everything the outbox waits for is at most a quarter of an hour away. */
  ghost predicate Near(q: Outbox) {
    && q.now < U64_MAX && (q.windowOpen ==> q.windowEnd <= q.now + WINDOW) && q.pauseUntil <= q.now + PROBE_MIN
    && forall i :: 0 <= i < |q.entries| && q.entries[i].active ==> NearEntry(q.entries[i], q.now)
  }

  lemma NearLater(e: Entry, now: u64, later: u64)
    requires NearEntry(e, now) && now <= later
    ensures NearEntry(TickEntry(e, later), later)
    ensures e.active && e.state == IN_FLIGHT && later >= e.due ==> TickEntry(e, later).due <= e.due + SOON
  {
  }

  lemma NearTick(q: Outbox, now: u64)
    requires Near(q)
    ensures Near(Tick(q, now))
  {
    hide TickEntry, NearEntry;
    if !Ignores(q, now) {
      forall i | 0 <= i < |q.entries| && q.entries[i].active
        ensures TickAll(q.entries, now)[i].active ==> NearEntry(TickAll(q.entries, now)[i], now)
      {
        NearLater(q.entries[i], q.now, now);
      }
      ActiveTicks(q, now);
    }
  }

  lemma ActiveTicks(q: Outbox, now: u64)
    ensures forall i :: 0 <= i < |q.entries| ==>
              TickEntry(q.entries[i], now).active == q.entries[i].active
              && TickEntry(q.entries[i], now).record == q.entries[i].record
  {
  }

  lemma NearLaunch(q: Outbox, i: nat, now: u64)
    requires Near(q) && i < |q.entries| && now == q.now && q.entries[i].active
    ensures Near(Launch(q, i, now).0)
  {
  }

  lemma NearNext(q: Outbox, now: u64)
    requires Near(q)
    ensures Near(Next(q, now).0)
  {
    hide Near, Tick, Launch;
    NearTick(q, now);
    var t := Tick(q, now);
    var i := Best(t.entries, |t.entries|, now);
    if !Ignores(q, now) && i < |t.entries| {
      TickClock(q, now);
      NearLaunch(t, i, now);
    }
  }

  lemma TickClock(q: Outbox, now: u64)
    ensures !Ignores(q, now) ==> Tick(q, now).now == now
    ensures |Tick(q, now).entries| == |q.entries|
  {
  }

  // ---- what every device keeps ------------------------------------------------------------------------------

  ghost predicate Steady(d: Device) {
    Inv(d) && Near(d.q) && NormalCount(d.q.entries) <= NORMAL_LIMIT
  }

  lemma AdmitSteady(q: Outbox, r: Record, saved: bool)
    requires Near(q) && NormalCount(q.entries) <= NORMAL_LIMIT
    ensures var p := Admit(q, r, saved).0; Near(p) && NormalCount(p.entries) <= NORMAL_LIMIT
  {
    hide Valid, B1Outbox.Known, NormalCount, Numbered;
    if !Refuses(q, r) {
      var copy, i := Numbered(r, q.nextOrder), Free(q.entries, 0);
      NumberedHigh(r, q.nextOrder);
      NormalReplaced(q.entries, i, if copy.high == 0 || saved then Fresh(copy) else Reserved(copy));
    }
  }

  lemma NumberedHigh(r: Record, order: u64)
    ensures Numbered(r, order).high == r.high && Numbered(r, order).sampleId == r.sampleId
  {
  }

  lemma AckSteady(q: Outbox, id: Text, removed: bool)
    requires Near(q) && NormalCount(q.entries) <= NORMAL_LIMIT
    ensures var p := Ack(q, id, removed).0; Near(p) && NormalCount(p.entries) <= NORMAL_LIMIT
  {
    hide NormalCount, Complete;
    var i := Answered(q.entries, id, 0);
    if i < |q.entries| {
      var e := Marked(q.entries[i], id);
      NormalReplaced(q.entries, i, e);
      NormalReplaced(q.entries, i, e.(active := false));
    }
  }

  lemma {:induction false} NoneNormal(entries: seq<Entry>)
    requires forall i :: 0 <= i < |entries| ==> !Normal(entries[i])
    ensures NormalCount(entries) == 0
    decreases |entries|
  {
    if entries != [] {
      NoneNormal(entries[..|entries| - 1]);
    }
  }

  lemma CrashSteady(d: Device, contents: seq<Option<Blob>>)
    requires Inv(d) && Possible(d.flash, contents)
    ensures Near(Rebooted(d, contents).q) && NormalCount(Rebooted(d, contents).q.entries) == 0
  {
    hide Valid, B1Checkpoint.Encode, B1Checkpoint.Decode, Complete, LoadFrom;
    ReloadSucceeds(d, contents);
    var q := Rebooted(d, contents).q;
    forall i | 0 <= i < CAPACITY ensures !Normal(q.entries[i]) {
      if contents[i].Some? {
        assert SlotOk(d.q.entries[i], d.flash[i]);
        StoredRecord(d.q.entries[i], d.flash[i], contents[i]);
      }
    }
    NoneNormal(q.entries);
  }

  lemma StepSteady(d: Device, e: Event)
    requires Steady(d)
    ensures |d.flash| == |d.q.entries| && Steady(Step(d, e))
  {
    hide Inv, Near, NormalCount, Admit, Ack, Tick, Next, Rebooted, Refuses, Save, Marked, Complete;
    StepKeeps(d, e);
    match e
    case Admission(r, call, commit) =>
      AdmitSteady(d.q, r, true);
      AdmitSteady(d.q, r, false);
    case Acknowledgement(id, call, commit) =>
      AckSteady(d.q, id, true);
      AckSteady(d.q, id, false);
    case Clock(now) =>
      NearTick(d.q, now);
      TimeNormal(d.q, now);
    case Poll(now) =>
      NearNext(d.q, now);
      TimeNormal(d.q, now);
    case Crash(contents) =>
      if Possible(d.flash, contents) {
        CrashSteady(d, contents);
      }
  }

  lemma TimeNormal(q: Outbox, now: u64)
    ensures NormalCount(Tick(q, now).entries) <= NormalCount(q.entries)
    ensures NormalCount(Next(q, now).0.entries) <= NormalCount(q.entries)
  {
    hide Tick, Next;
    TimeKeepsHolding(q, now);
    var t, n := Tick(q, now).entries, Next(q, now).0.entries;
    assert forall i :: 0 <= i < |q.entries| ==> SameSlot(q.entries[i], t[i]) && SameSlot(q.entries[i], n[i]);
    NormalSame(q.entries, t);
    NormalSame(q.entries, n);
  }

  lemma {:induction false} RunSteady(d: Device, events: seq<Event>, e: Device)
    requires Steady(d) && Reaches(d, events, e)
    ensures Steady(e)
    decreases |events|
  {
    hide Steady, Step;
    if events != [] {
      StepSteady(d, events[0]);
      RunSteady(Step(d, events[0]), events[1..], e);
    }
  }

  lemma NewSteady()
    ensures Steady(NewDevice())
  {
    NewDeviceInv();
    NoneNormal(NewDevice().q.entries);
  }

  /**
   * Over every run with crashes and failing saves four places stay for records of high importance: as
   * long as fewer than four are held, a valid new one is not refused, however many normal ones came.
   */
  lemma PlacesForHigh(events: seq<Event>, d: Device, r: Record)
    requires Reaches(NewDevice(), events, d) && HighCount(d.q.entries) < 4
    requires r.high == 1 && Valid(Numbered(r, d.q.nextOrder)) && d.q.nextOrder != U64_MAX
    requires forall i :: 0 <= i < |d.q.entries| && Held(d.q.entries[i]) ==> d.q.entries[i].record.sampleId != r.sampleId
    ensures !Refuses(d.q, r)
  {
    hide Valid, Numbered, Step, Near, NormalCount, HighCount;
    NewSteady();
    RunSteady(NewDevice(), events, d);
    SlotCounts(d.q.entries, d.flash);
    AllHeld(d.q.entries);
  }

  // ---- transmission and release ---------------------------------------------------------------------------

  /** By then every attempt under way has timed out, every wait is over and the window has been closed. */
  const ROUND := 2000000

  ghost predicate Oldest(entries: seq<Entry>, i: nat) {
    i < |entries| && entries[i].active
    && forall j :: 0 <= j < |entries| && entries[j].active ==> entries[i].record.order <= entries[j].record.order
  }

  lemma Rested(q: Outbox)
    requires Near(q) && q.now + ROUND < U64_MAX
    ensures var now: u64 := q.now + ROUND;
            var t := Tick(q, now);
            && !Ignores(q, now) && t.now == now && !t.windowOpen && t.pauseUntil <= now && |t.entries| == |q.entries|
            && (forall i :: 0 <= i < |q.entries| ==>
                  && t.entries[i].active == q.entries[i].active && t.entries[i].record == q.entries[i].record
                  && (q.entries[i].active ==> !Flying(t.entries[i]) && t.entries[i].due <= now))
  {
    hide TickEntry, NearEntry;
    var now: u64 := q.now + ROUND;
    forall i | 0 <= i < |q.entries|
      ensures TickEntry(q.entries[i], now).active == q.entries[i].active
      ensures TickEntry(q.entries[i], now).record == q.entries[i].record
      ensures q.entries[i].active ==> !Flying(TickEntry(q.entries[i], now)) && TickEntry(q.entries[i], now).due <= now
    {
      RestedEntry(q.entries[i], q.now, now);
    }
  }

  lemma RestedEntry(e: Entry, was: u64, now: u64)
    requires now == was + ROUND
    ensures TickEntry(e, now).active == e.active && TickEntry(e, now).record == e.record
    ensures e.active && NearEntry(e, was) ==> !Flying(TickEntry(e, now)) && TickEntry(e, now).due <= now
  {
  }

  /** With records waiting, a later poll sends the oldest one, whatever went unanswered before. */
  lemma OldestIsSent(q: Outbox)
    requires Near(q) && q.now + ROUND < U64_MAX && !Empty(q.entries)
    ensures var (p, slot) := Next(q, q.now + ROUND);
            && p.now == q.now + ROUND && slot.Some? && slot.value < |q.entries| == |p.entries|
            && Oldest(q.entries, slot.value) && p.entries[slot.value].totalAttempts > 0
            && SameHolding(q.entries, p.entries)
  {
    hide Near, Tick, Launch;
    var now: u64 := q.now + ROUND;
    Rested(q);
    TimeKeepsHolding(q, now);
    var t := Tick(q, now);
    var i := Best(t.entries, |t.entries|, now);
    var k :| 0 <= k < |q.entries| && q.entries[k].active;
    assert Due(t.entries[k], now);
    assert !SomethingFlies(t.entries);
    Launches(t, i, now);
    forall j | 0 <= j < |q.entries| && q.entries[j].active
      ensures q.entries[i].record.order <= q.entries[j].record.order
    {
      assert Due(t.entries[j], now);
    }
  }

  lemma Launches(q: Outbox, i: nat, now: u64)
    requires i < |q.entries| && !q.windowOpen
    ensures var (p, slot) := Launch(q, i, now);
            slot == Some(i) && p.now == q.now && |p.entries| == |q.entries| && p.entries[i].totalAttempts > 0
  {
  }

  lemma IdsDiffer(a: Record, b: Record, x: byte, y: byte)
    requires x != 0 && y != 0 && (a.sampleId != b.sampleId || x != y)
    ensures MessageId(a, x) != MessageId(b, y)
  {
    var s, t := MessageId(a, x), MessageId(b, y);
    assert a.sampleId == s[..|s| - 2] && b.sampleId == t[..|t| - 2];
    assert s[|s| - 1] == x && t[|t| - 1] == y;
  }

  /** An identity finds its own slot. */
  lemma FindsSlot(d: Device, i: nat, suffix: byte)
    requires Inv(d) && i < |d.q.entries| && d.q.entries[i].active && d.q.entries[i].totalAttempts > 0
    requires suffix == 83 || (suffix == 65 && d.q.entries[i].record.hasAlert == 1)
    ensures Answered(d.q.entries, MessageId(d.q.entries[i].record, suffix), 0) == i
  {
    hide SlotsOk, Below, Accounted, MessageId;
    var id := MessageId(d.q.entries[i].record, suffix);
    forall j | 0 <= j < i ensures !Answers(d.q.entries[j], id) {
      if d.q.entries[j].active {
        IdsDiffer(d.q.entries[j].record, d.q.entries[i].record, 83, suffix);
        IdsDiffer(d.q.entries[j].record, d.q.entries[i].record, 65, suffix);
      }
    }
  }

  lemma AckedSizes(d: Device, id: Text, call: CallResult, commit: bool)
    requires |d.flash| == |d.q.entries|
    ensures var r := Acked(d, id, call, commit); |r.flash| == |r.q.entries| == |d.q.entries|
  {
  }

  /** A successful acknowledgement of message suffix of the record in slot i. */
  function Confirmed(d: Device, i: nat, suffix: byte): (r: Device)
    requires |d.flash| == |d.q.entries| && i < |d.q.entries| && suffix != 0
    ensures |r.flash| == |r.q.entries| == |d.q.entries|
  {
    AckedSizes(d, MessageId(d.q.entries[i].record, suffix), OK, true);
    Acked(d, MessageId(d.q.entries[i].record, suffix), OK, true)
  }

  /** The acknowledgements of both messages; the second only when the first was not enough. */
  function Released(d: Device, i: nat): (r: Device)
    requires |d.flash| == |d.q.entries| && i < |d.q.entries|
    ensures |r.flash| == |r.q.entries| == |d.q.entries|
  {
    var s := Confirmed(d, i, 83);
    if s.q.entries[i].active then Confirmed(s, i, 65) else s
  }

  lemma ConfirmedSlot(d: Device, i: nat, suffix: byte)
    requires Inv(d) && |d.flash| == |d.q.entries|
    requires i < |d.q.entries| && d.q.entries[i].active && d.q.entries[i].totalAttempts > 0
    requires suffix == 83 || (suffix == 65 && d.q.entries[i].record.hasAlert == 1)
    ensures var e := d.q.entries[i];
            var m := if suffix == 83 then e.(sampleAcked := true) else e.(alertAcked := true);
            var r := Confirmed(d, i, suffix);
            && r.q.entries == d.q.entries[i := if Complete(m) then m.(active := false) else m]
            && r.completed == d.completed + (if Complete(m) then {e.record} else {})
            && r.q.now == d.q.now && (Complete(m) && e.record.high == 1 ==> r.flash[i] == {None})
            && r.admitted == d.admitted
  {
    hide MessageId, Complete, Accounted, Distinct, Below, SlotOk;
    FindsSlot(d, i, suffix);
    IdsDiffer(d.q.entries[i].record, d.q.entries[i].record, 83, 65);
  }

  /**
   * Once both messages of a transmitted record are acknowledged, and the store works, its slot is free, its
   * flash is empty and no other slot has changed.
   */
  lemma SlotBecomesFree(d: Device, i: nat)
    requires Steady(d) && |d.flash| == |d.q.entries|
    requires i < |d.q.entries| && d.q.entries[i].active && d.q.entries[i].totalAttempts > 0
    ensures var t, r := Released(d, i), d.q.entries[i].record;
            && !Held(t.q.entries[i]) && r in t.completed && (r.high == 1 ==> t.flash[i] == {None})
            && (forall j :: 0 <= j < |d.q.entries| && j != i ==> t.q.entries[j] == d.q.entries[j])
            && t.q.now == d.q.now && t.admitted == d.admitted
    ensures Confirmed(d, i, 83).q.entries[i].active ==> d.q.entries[i].record.hasAlert == 1
    ensures Confirmed(d, i, 83).q.entries[i].record == d.q.entries[i].record
  {
    hide NormalCount, Confirmed, Distinct, Below, Accounted, B1Checkpoint.Encode, Valid;
    var e := d.q.entries[i];
    ConfirmedSlot(d, i, 83);
    assert SlotOk(e, d.flash[i]);
    AlertIsBit(e, d.flash[i]);
    ConfirmedKeeps(d, i, 83);
    var s := Confirmed(d, i, 83);
    if s.q.entries[i].active {
      ConfirmedSlot(s, i, 65);
    }
  }

  lemma AlertIsBit(e: Entry, f: set<Option<Blob>>)
    requires SlotOk(e, f) && e.active
    ensures e.record.hasAlert <= 1 && e.record.high <= 1
  {
  }

  lemma ConfirmedKeeps(d: Device, i: nat, suffix: byte)
    requires Inv(d) && |d.flash| == |d.q.entries| && i < |d.q.entries| && suffix != 0
    ensures Inv(Confirmed(d, i, suffix))
  {
    hide Acked, SlotsOk, Distinct, Below, Accounted;
    var id := MessageId(d.q.entries[i].record, suffix);
    AckKeepsSlots(d, id, OK, true);
    AckKeepsRest(d, id, OK, true);
  }
}
