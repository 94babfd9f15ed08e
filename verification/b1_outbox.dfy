/** The sixteen-slot delivery state machine of the B1 firmware; clocks in milliseconds. */
module B1Outbox {
  import opened Wrappers
  import opened Bytes
  import opened B1Record

  const CAPACITY := 16
  const NORMAL_LIMIT := 12
  const MAX_ATTEMPTS := 5
  const ACK_TIMEOUT := 3000
  const PROBE_MIN := 60000
  const PROBE_MAX := 900000
  const WINDOW := 30000
  const WINDOW_ATTEMPTS := CAPACITY * MAX_ATTEMPTS

  datatype Delivery = PENDING | IN_FLIGHT | RETRY_PENDING | FAILED

  datatype Entry = Entry(record: Record, active: bool, quarantined: bool, attempts: nat,
                         sampleAcked: bool, alertAcked: bool, probing: bool, probeDelay: u32,
                         totalAttempts: u64, state: Delivery, due: u64)

  datatype Outbox = Outbox(entries: seq<Entry>, nextOrder: u64, now: u64, windowEnd: u64, pauseUntil: u64,
                           windowAttempts: nat, windowOpen: bool)

  const NO_RECORD := Record(0, 0, 0, 0, 0, 0, 0, [], [], [])

  function Fresh(r: Record): Entry {
    Entry(r, true, false, 0, false, false, false, 0, 0, PENDING, 0)
  }

  function Reserved(r: Record): Entry {
    Fresh(r).(active := false, quarantined := true)
  }

  const UNUSED := Fresh(NO_RECORD).(active := false)

  function Initial(): Outbox {
    Outbox(seq(CAPACITY, _ => UNUSED), 1, 0, 0, 0, 0, false)
  }

  // ---- b1_retry.h --------------------------------------------------------------------------------

  /** now + delay, or the largest time, which never comes. */
  function Deadline(now: u64, delay: u32): (d: u64)
    ensures d == U64_MAX || d == now + delay
    ensures d >= now
  {
    if now > U64_MAX - delay then U64_MAX else now + delay
  }

  function ProbeDelay(previous: u32): (d: u32)
    ensures PROBE_MIN <= previous <= PROBE_MAX ==> PROBE_MIN <= d <= PROBE_MAX
  {
    if previous >= PROBE_MAX / 2 then PROBE_MAX else previous * 2
  }

  function Backoff(attempts: nat): (d: nat)
    requires attempts < MAX_ATTEMPTS
    ensures 1000 <= d <= 8000
  {
    match attempts case 0 => 1000 case 1 => 1000 case 2 => 2000 case 3 => 4000 case _ => 8000
  }

  // ---- admission ---------------------------------------------------------------------------------

  predicate Held(e: Entry) {
    e.active || e.quarantined
  }

  /** First slot that is neither in use nor reserved. */
  function Free(entries: seq<Entry>, n: nat): (i: nat)
    requires n <= |entries|
    ensures n <= i <= |entries| && (i < |entries| ==> !Held(entries[i]))
    ensures forall j :: n <= j < i ==> Held(entries[j])
    decreases |entries| - n
  {
    if n == |entries| || !Held(entries[n]) then n else Free(entries, n + 1)
  }

  function NormalCount(entries: seq<Entry>): nat {
    if entries == [] then 0
    else
      var e := entries[|entries| - 1];
      NormalCount(entries[..|entries| - 1]) + (if Held(e) && e.record.high == 0 then 1 else 0)
  }

  predicate Known(entries: seq<Entry>, id: Text) {
    exists i :: 0 <= i < |entries| && Held(entries[i]) && entries[i].record.sampleId == id
  }

  function Numbered(r: Record, order: u64): Record {
    Sealed(r.(order := order))
  }

  /** Why a record is turned away without touching the store. */
  predicate Refuses(q: Outbox, r: Record) {
    || !Valid(Numbered(r, q.nextOrder)) || Known(q.entries, r.sampleId)
    || Free(q.entries, 0) == |q.entries| || (r.high == 0 && NormalCount(q.entries) >= NORMAL_LIMIT)
    || q.nextOrder == U64_MAX
  }

  /** saved is the answer of the store, which is asked only for records of high importance. */
  function Admit(q: Outbox, r: Record, saved: bool): (Outbox, bool) {
    if Refuses(q, r) then (q, false)
    else
      var copy, i := Numbered(r, q.nextOrder), Free(q.entries, 0);
      var ok := copy.high == 0 || saved;
      (q.(entries := q.entries[i := if ok then Fresh(copy) else Reserved(copy)], nextOrder := q.nextOrder + 1), ok)
  }

  // ---- restore -----------------------------------------------------------------------------------

  predicate Clashes(entries: seq<Entry>, r: Record) {
    exists i :: 0 <= i < |entries| && entries[i].active
      && (entries[i].record.order == r.order || entries[i].record.sampleId == r.sampleId)
  }

  function Restore(q: Outbox, slot: nat, r: Record): (Outbox, bool) {
    if slot >= |q.entries| || q.entries[slot].active || r.high == 0 || !Valid(r) || Clashes(q.entries, r) then
      (q, false)
    else
      (q.(entries := q.entries[slot := Fresh(r)],
          nextOrder := if q.nextOrder <= r.order then (r.order + 1) % 0x1_0000_0000_0000_0000 else q.nextOrder), true)
  }

  // ---- time --------------------------------------------------------------------------------------

  /** An attempt whose acknowledgement did not come in time. */
  function TimedOut(e: Entry): Entry {
    if e.probing || e.attempts >= MAX_ATTEMPTS then
      var delay := if e.probing then ProbeDelay(e.probeDelay) else PROBE_MIN;
      e.(probeDelay := delay, state := FAILED, due := Deadline(e.due, delay))
    else
      e.(state := RETRY_PENDING, due := Deadline(e.due, Backoff(e.attempts)))
  }

  function TickEntry(e: Entry, now: u64): Entry {
    if e.active && e.state == IN_FLIGHT && now >= e.due then TimedOut(e) else e
  }

  function TickAll(entries: seq<Entry>, now: u64): (r: seq<Entry>)
    ensures |r| == |entries| && forall i :: 0 <= i < |r| ==> r[i] == TickEntry(entries[i], now)
  {
    seq(|entries|, i requires 0 <= i < |entries| => TickEntry(entries[i], now))
  }

  predicate Ignores(q: Outbox, now: u64) {
    now < q.now || now == U64_MAX
  }

  function Tick(q: Outbox, now: u64): Outbox {
    if Ignores(q, now) then q
    else
      var over := q.windowOpen && now >= q.windowEnd;
      q.(now := now, windowOpen := q.windowOpen && !over,
         pauseUntil := if over then Deadline(q.windowEnd, PROBE_MIN) else q.pauseUntil,
         entries := TickAll(q.entries, now))
  }

  // ---- next --------------------------------------------------------------------------------------

  predicate Flying(e: Entry) {
    e.active && e.state == IN_FLIGHT
  }

  predicate SomethingFlies(entries: seq<Entry>) {
    exists i :: 0 <= i < |entries| && Flying(entries[i])
  }

  predicate Due(e: Entry, now: u64) {
    e.active && now >= e.due
  }

  /** The due entry of least order among the first n, n itself standing for none. */
  function Best(entries: seq<Entry>, n: nat, now: u64): (i: nat)
    requires n <= |entries|
    ensures i <= |entries| && (i < |entries| ==> i < n && Due(entries[i], now))
    ensures i == |entries| ==> forall j :: 0 <= j < n ==> !Due(entries[j], now)
    ensures i < |entries| ==> forall j :: 0 <= j < n && Due(entries[j], now) ==>
            entries[i].record.order <= entries[j].record.order
  {
    if n == 0 then |entries|
    else
      var b := Best(entries, n - 1, now);
      if Due(entries[n - 1], now) && (b == |entries| || entries[n - 1].record.order < entries[b].record.order)
      then n - 1 else b
  }

  function Opened(q: Outbox, now: u64): Outbox {
    if q.windowOpen then q else q.(windowOpen := true, windowAttempts := 0, windowEnd := Deadline(now, WINDOW))
  }

  /** The entry as it goes on the wire. */
  function Launched(e: Entry, now: u64, windowEnd: u64): Entry {
    var probing := e.state == FAILED;
    var due := Deadline(now, ACK_TIMEOUT);
    e.(probing := probing, attempts := if probing then e.attempts else e.attempts + 1,
       totalAttempts := if e.totalAttempts < U64_MAX then e.totalAttempts + 1 else e.totalAttempts,
       state := IN_FLIGHT, due := if due > windowEnd then windowEnd else due)
  }

  function Launch(q: Outbox, i: nat, now: u64): (Outbox, Option<nat>)
    requires i < |q.entries|
  {
    var w := Opened(q, now);
    if w.windowAttempts >= WINDOW_ATTEMPTS then
      (w.(windowOpen := false, pauseUntil := Deadline(now, PROBE_MIN)), None)
    else
      (w.(windowAttempts := w.windowAttempts + 1, entries := w.entries[i := Launched(w.entries[i], now, w.windowEnd)]),
       Some(i))
  }

  /** The slot to transmit now, if any. */
  function Next(q: Outbox, now: u64): (Outbox, Option<nat>) {
    if Ignores(q, now) then (q, None)
    else
      var t := Tick(q, now);
      var i := Best(t.entries, |t.entries|, now);
      if SomethingFlies(t.entries) || i == |t.entries| || now < t.pauseUntil then (t, None) else Launch(t, i, now)
  }

  // ---- acknowledgement ---------------------------------------------------------------------------

  /** The entry was transmitted and the identity is one of its own. */
  predicate Answers(e: Entry, id: Text) {
    e.active && e.totalAttempts > 0
    && (id == MessageId(e.record, 83) || (e.record.hasAlert == 1 && id == MessageId(e.record, 65)))
  }

  function Answered(entries: seq<Entry>, id: Text, n: nat): (i: nat)
    requires n <= |entries|
    ensures n <= i <= |entries| && (i < |entries| ==> Answers(entries[i], id))
    ensures forall j :: n <= j < i ==> !Answers(entries[j], id)
    decreases |entries| - n
  {
    if n == |entries| || Answers(entries[n], id) then n else Answered(entries, id, n + 1)
  }

  function Marked(e: Entry, id: Text): Entry {
    if id == MessageId(e.record, 83) then e.(sampleAcked := true) else e.(alertAcked := true)
  }

  predicate Complete(e: Entry) {
    e.sampleAcked && e.alertAcked == (e.record.hasAlert == 1)
  }

  predicate Empty(entries: seq<Entry>) {
    forall i :: 0 <= i < |entries| ==> !entries[i].active
  }

  /** removed is the answer of the store, which is asked only for a completed record of high importance. */
  function Ack(q: Outbox, id: Text, removed: bool): (Outbox, bool) {
    var i := Answered(q.entries, id, 0);
    if i == |q.entries| then (q, false)
    else
      var e := Marked(q.entries[i], id);
      if !Complete(e) then (q.(entries := q.entries[i := e]), true)
      else if e.record.high == 1 && !removed then (q.(entries := q.entries[i := e]), false)
      else
        var entries := q.entries[i := e.(active := false)];
        (q.(entries := entries, windowOpen := q.windowOpen && !Empty(entries)), true)
  }

  // ---- the C state machine -------------------------------------------------------------------------

  class B1OutboxQueue {
    const entries: array<Entry>
    var nextOrder: u64
    var now: u64
    var windowEnd: u64
    var pauseUntil: u64
    var windowAttempts: nat
    var windowOpen: bool

    ghost function View(): Outbox
      reads this, entries
    {
      Outbox(entries[..], nextOrder, now, windowEnd, pauseUntil, windowAttempts, windowOpen)
    }

    constructor ()
      ensures entries.Length == CAPACITY && fresh(entries) && View() == Initial()
    {
      var slots := new Entry[CAPACITY](_ => UNUSED);
      entries := slots;
      nextOrder, now, windowEnd, pauseUntil, windowAttempts, windowOpen := 1, 0, 0, 0, 0, false;
      new;
      assert entries[..] == Initial().entries;
    }

    method Count() returns (n: nat)
      ensures n == 0 <==> Empty(entries[..])
    {
      n := 0;
      for i := 0 to entries.Length
        invariant n == 0 <==> Empty(entries[..i])
      {
        if entries[i].active {
          n := n + 1;
          assert entries[..i + 1][i].active;
        }
        assert entries[..i + 1][..i] == entries[..i];
      }
      assert entries[..entries.Length] == entries[..];
    }

    method RestoreSlot(slot: nat, r: Record) returns (ok: bool)
      modifies this, entries
      ensures (View(), ok) == Restore(old(View()), slot, r)
    {
      hide Valid, Fresh;
      if slot >= entries.Length || entries[slot].active || r.high == 0 || !Valid(r) {
        return false;
      }
      for i := 0 to entries.Length
        invariant forall j :: 0 <= j < i ==>
                    !(entries[j].active
                      && (entries[j].record.order == r.order || entries[j].record.sampleId == r.sampleId))
        modifies {}
      {
        if entries[i].active && (entries[i].record.order == r.order || entries[i].record.sampleId == r.sampleId) {
          assert entries[..][i] == entries[i];
          return false;
        }
      }
      entries[slot] := Fresh(r);
      if nextOrder <= r.order {
        nextOrder := (r.order + 1) % 0x1_0000_0000_0000_0000;
      }
      ok := true;
      assert entries[..] == old(entries[..])[slot := Fresh(r)];
    }

    /** The scan of b1_outbox_admit; known is set as soon as the identity is met. */
    method Survey(id: Text) returns (free: nat, normal: nat, known: bool)
      ensures known <==> Known(entries[..], id)
      ensures !known ==> free == Free(entries[..], 0) && normal == NormalCount(entries[..])
    {
      free, normal, known := entries.Length, 0, false;
      for i := 0 to entries.Length
        invariant free <= entries.Length
        invariant if free < i then free == Free(entries[..], 0)
                  else free == entries.Length && Free(entries[..], 0) == Free(entries[..], i)
        invariant normal == NormalCount(entries[..i])
        invariant forall j :: 0 <= j < i ==> !(Held(entries[j]) && entries[j].record.sampleId == id)
      {
        assert entries[..i + 1][..i] == entries[..i];
        if Held(entries[i]) {
          if entries[i].record.high == 0 {
            normal := normal + 1;
          }
          if entries[i].record.sampleId == id {
            assert entries[..][i] == entries[i];
            return free, normal, true;
          }
        } else if free == entries.Length {
          free := i;
        }
      }
      assert entries[..entries.Length] == entries[..];
    }

    method AdmitRecord(r: Record, saved: bool) returns (ok: bool)
      requires entries.Length == CAPACITY
      modifies this, entries
      ensures (View(), ok) == Admit(old(View()), r, saved)
    {
      hide Valid, Fresh, Reserved, Numbered, Held, Known, NormalCount;
      var copy := Numbered(r, nextOrder);
      NumberedKeeps(r, nextOrder);
      if !Valid(copy) {
        return false;
      }
      var free, normal, known := Survey(r.sampleId);
      if known {
        return false;
      }
      if free == entries.Length || (r.high == 0 && normal >= NORMAL_LIMIT) || nextOrder == U64_MAX {
        return false;
      }
      ok := copy.high == 0 || saved;
      entries[free] := if ok then Fresh(copy) else Reserved(copy);
      nextOrder := nextOrder + 1;
      assert entries[..] == old(entries[..])[free := entries[free]];
    }

    method TickTo(t: u64)
      modifies this, entries
      ensures View() == Tick(old(View()), t)
    {
      hide TickEntry;
      if t < now || t == U64_MAX {
        return;
      }
      now := t;
      if windowOpen && t >= windowEnd {
        windowOpen, pauseUntil := false, Deadline(windowEnd, PROBE_MIN);
      }
      ghost var was := entries[..];
      for i := 0 to entries.Length
        invariant forall j :: 0 <= j < i ==> entries[j] == TickEntry(was[j], t)
        invariant forall j :: i <= j < entries.Length ==> entries[j] == was[j]
        modifies entries
      {
        entries[i] := TickEntry(entries[i], t);
      }
      assert entries[..] == TickAll(was, t);
    }

    /** The entry to transmit; none while one is in flight. */
    method Choose(t: u64) returns (best: nat)
      ensures if SomethingFlies(entries[..]) then best == entries.Length
              else best == Best(entries[..], entries.Length, t)
    {
      best := entries.Length;
      for i := 0 to entries.Length
        invariant best == Best(entries[..], i, t)
        invariant forall j :: 0 <= j < i ==> !Flying(entries[j])
      {
        if Flying(entries[i]) {
          assert Flying(entries[..][i]);
          return entries.Length;
        }
        if entries[i].active && t >= entries[i].due
           && (best == entries.Length || entries[i].record.order < entries[best].record.order) {
          best := i;
        }
      }
    }

    method NextSlot(t: u64) returns (slot: Option<nat>)
      modifies this, entries
      ensures (View(), slot) == Next(old(View()), t)
    {
      hide TickAll, Launched, Best, SomethingFlies;
      if t < now || t == U64_MAX {
        return None;
      }
      TickTo(t);
      var best := Choose(t);
      if best == entries.Length || t < pauseUntil {
        return None;
      }
      ghost var ticked := View();
      if !windowOpen {
        windowOpen, windowAttempts, windowEnd := true, 0, Deadline(t, WINDOW);
      }
      if windowAttempts >= WINDOW_ATTEMPTS {
        windowOpen, pauseUntil := false, Deadline(t, PROBE_MIN);
        return None;
      }
      windowAttempts := windowAttempts + 1;
      entries[best] := Launched(entries[best], t, windowEnd);
      slot := Some(best);
      assert entries[..] == ticked.entries[best := entries[best]];
    }

    method AckMessage(id: Text, removed: bool) returns (ok: bool)
      modifies this, entries
      ensures (View(), ok) == Ack(old(View()), id, removed)
    {
      hide Answers, Marked, Complete, Empty;
      var i := 0;
      while i < entries.Length && !Answers(entries[i], id)
        invariant i <= entries.Length && Answered(entries[..], id, 0) == Answered(entries[..], id, i)
        modifies {}
      {
        i := i + 1;
      }
      if i == entries.Length {
        return false;
      }
      var e := Marked(entries[i], id);
      entries[i] := e;
      assert entries[..] == old(entries[..])[i := e];
      if !Complete(e) {
        return true;
      }
      if e.record.high == 1 && !removed {
        return false;
      }
      entries[i] := e.(active := false);
      assert entries[..] == old(entries[..])[i := entries[i]];
      var n := Count();
      if n == 0 {
        windowOpen := false;
      }
      ok := true;
    }
  }

  lemma NumberedKeeps(r: Record, order: u64)
    ensures Numbered(r, order).high == r.high && Numbered(r, order).sampleId == r.sampleId
    ensures Numbered(r, order).hasAlert == r.hasAlert && Numbered(r, order).order == order
  {
  }
}
