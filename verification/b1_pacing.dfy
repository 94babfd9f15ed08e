/** How the outbox paces its attempts: whole runs of one boot. */
module B1Pacing {
  import opened Wrappers
  import opened Bytes
  import opened B1Record
  import opened B1Outbox
  import opened HexText
  import opened Bitmask
  import Crc32

  datatype Attempt = Attempt(time: u64, order: u64, probe: bool)

  /** A run so far: attempts, start of the last window, whether an ack emptied the outbox in an open window. */
  datatype Trace = Trace(q: Outbox, log: seq<Attempt>, start: u64, emptied: bool)

  datatype Event =
    | Admission(record: Record, saved: bool)
    | Clock(now: u64)
    | Poll(now: u64)
    | Acknowledgement(id: Text, removed: bool)

  function Polled(t: Trace, now: u64): Trace {
    var (q, slot) := Next(t.q, now);
    if slot == None then t.(q := q)
    else
      var ticked := Tick(t.q, now);
      var e := ticked.entries[slot.value];
      Trace(q, t.log + [Attempt(now, e.record.order, e.state == FAILED)],
            if ticked.windowOpen then t.start else now, t.emptied)
  }

  function Step(t: Trace, e: Event): Trace {
    match e
    case Admission(r, saved) => t.(q := Admit(t.q, r, saved).0)
    case Clock(now) => t.(q := Tick(t.q, now))
    case Poll(now) => Polled(t, now)
    case Acknowledgement(id, removed) =>
      var (q, ok) := Ack(t.q, id, removed);
      t.(q := q, emptied := t.emptied || (t.q.windowOpen && Empty(q.entries) && !Empty(t.q.entries)))
  }

  function Run(t: Trace, events: seq<Event>): Trace
    decreases |events|
  {
    if events == [] then t else Run(Step(t, events[0]), events[1..])
  }

  // ---- the invariant ---------------------------------------------------------------------------------

  /** Rapid attempts, that is attempts that are no probes, of one record. */
  function Rapid(log: seq<Attempt>, order: u64): nat {
    if log == [] then 0
    else
      var a := log[|log| - 1];
      Rapid(log[..|log| - 1], order) + (if a.order == order && !a.probe then 1 else 0)
  }

  ghost predicate AllBy(log: seq<Attempt>, order: u64, time: int) {
    forall i :: 0 <= i < |log| && log[i].order == order ==> log[i].time <= time
  }

  predicate Patient(e: Entry) {
    e.attempts == MAX_ATTEMPTS && PROBE_MIN <= e.probeDelay <= PROBE_MAX
  }

  ghost predicate StateOk(e: Entry, q: Outbox, log: seq<Attempt>) {
    match e.state
    case PENDING => e.attempts == 0 && !e.probing
    case RETRY_PENDING => 1 <= e.attempts < MAX_ATTEMPTS && !e.probing
    case IN_FLIGHT =>
      && q.windowOpen && q.now < e.due <= q.windowEnd && 1 <= e.attempts
      && (e.probing ==> Patient(e)) && AllBy(log, e.record.order, e.due)
    case FAILED => Patient(e) && (e.due == U64_MAX || AllBy(log, e.record.order, e.due - PROBE_MIN))
  }

  ghost predicate EntryOk(e: Entry, q: Outbox, log: seq<Attempt>) {
    e.active ==>
      && e.attempts <= MAX_ATTEMPTS && e.attempts == Rapid(log, e.record.order)
      && e.record.order < q.nextOrder && StateOk(e, q, log)
  }

  ghost predicate EntriesOk(q: Outbox, log: seq<Attempt>) {
    forall i :: 0 <= i < |q.entries| ==> EntryOk(q.entries[i], q, log)
  }

  ghost predicate OrdersDiffer(entries: seq<Entry>) {
    forall i, j :: 0 <= i < j < |entries| && entries[i].active && entries[j].active ==>
      entries[i].record.order != entries[j].record.order
  }

  /** At most one record is in flight. */
  ghost predicate OneFlies(entries: seq<Entry>) {
    forall i, j :: 0 <= i < j < |entries| ==> !(Flying(entries[i]) && Flying(entries[j]))
  }

  ghost predicate LogOk(q: Outbox, log: seq<Attempt>) {
    && (forall i :: 0 <= i < |log| ==> log[i].time <= q.now && log[i].order < q.nextOrder)
    && forall o: u64 :: Rapid(log, o) <= MAX_ATTEMPTS
  }

  ghost predicate WindowOk(q: Outbox) {
    q.windowOpen ==> q.now < q.windowEnd
  }

  ghost predicate Old(log: seq<Attempt>, n: int, time: int) {
    forall i :: 0 <= i < n && i < |log| ==> log[i].time + PROBE_MIN <= time
  }

  /** Attempts before the open window are a minute older than it; a closed window leaves a minute's pause. */
  ghost predicate Separated(q: Outbox, log: seq<Attempt>, start: u64) {
    if q.windowOpen then
      && q.windowAttempts <= |log| && q.windowAttempts <= WINDOW_ATTEMPTS && start <= q.now
      && Old(log, |log| - q.windowAttempts, start)
      && forall i :: |log| - q.windowAttempts <= i < |log| ==> start <= log[i].time
    else
      q.pauseUntil == U64_MAX || Old(log, |log|, q.pauseUntil)
  }

  /** The 81st attempt after any other comes at least a minute later. */
  ghost predicate Spaced(log: seq<Attempt>) {
    forall i, j :: 0 <= i && j == i + WINDOW_ATTEMPTS && j < |log| ==> log[j].time >= log[i].time + PROBE_MIN
  }

  /** A probe comes at least a minute after every earlier attempt of its record. */
  ghost predicate ProbesApart(log: seq<Attempt>) {
    forall i, j :: 0 <= i < j < |log| && log[i].order == log[j].order && log[j].probe ==>
      log[j].time >= log[i].time + PROBE_MIN
  }

  ghost predicate Sorted(log: seq<Attempt>) {
    forall i, j :: 0 <= i < j < |log| ==> log[i].time <= log[j].time
  }

  ghost predicate Inv(t: Trace) {
    && EntriesOk(t.q, t.log) && OrdersDiffer(t.q.entries) && OneFlies(t.q.entries) && LogOk(t.q, t.log)
    && WindowOk(t.q) && ProbesApart(t.log) && Sorted(t.log)
    && (!t.emptied ==> Separated(t.q, t.log, t.start) && Spaced(t.log))
  }

  // ---- tick ------------------------------------------------------------------------------------------

  lemma TickEntryOk(e: Entry, q: Outbox, log: seq<Attempt>, now: u64)
    requires EntryOk(e, q, log) && !Ignores(q, now) && WindowOk(q)
    ensures EntryOk(TickEntry(e, now), Tick(q, now), log)
  {
    hide Rapid;
  }

  lemma TickKeeps(t: Trace, now: u64)
    requires Inv(t)
    ensures Inv(t.(q := Tick(t.q, now)))
    ensures !Ignores(t.q, now) ==> Tick(t.q, now).now == now
  {
    hide Rapid, StateOk, EntryOk, Spaced, ProbesApart, Sorted, TickEntry;
    if !Ignores(t.q, now) {
      forall i | 0 <= i < |t.q.entries| ensures EntryOk(Tick(t.q, now).entries[i], Tick(t.q, now), t.log) {
        TickEntryOk(t.q.entries[i], t.q, t.log, now);
      }
      TickKeepsOrders(t.q.entries, now);
    }
  }

  lemma TickKeepsOrders(entries: seq<Entry>, now: u64)
    requires OrdersDiffer(entries) && OneFlies(entries)
    ensures OrdersDiffer(TickAll(entries, now)) && OneFlies(TickAll(entries, now))
    ensures Empty(TickAll(entries, now)) <==> Empty(entries)
  {
    var r := TickAll(entries, now);
    forall i | 0 <= i < |r| ensures r[i].active == entries[i].active && r[i].record == entries[i].record
                            ensures Flying(r[i]) ==> Flying(entries[i]) {}
  }

  // ---- an attempt ------------------------------------------------------------------------------------

  lemma RapidAppend(log: seq<Attempt>, a: Attempt, order: u64)
    ensures Rapid(log + [a], order) == Rapid(log, order) + (if a.order == order && !a.probe then 1 else 0)
  {
    assert (log + [a])[..|log|] == log;
  }

  lemma LaunchedOk(e: Entry, q: Outbox, log: seq<Attempt>, now: u64)
    requires EntryOk(e, q, log) && e.active && e.state != IN_FLIGHT && LogOk(q, log)
    requires q.now == now < U64_MAX && q.windowOpen && now < q.windowEnd
    ensures var a := Attempt(now, e.record.order, e.state == FAILED);
            EntryOk(Launched(e, now, q.windowEnd), q, log + [a])
  {
    hide Rapid;
    RapidAppend(log, Attempt(now, e.record.order, e.state == FAILED), e.record.order);
  }

  lemma OtherOk(e: Entry, q: Outbox, log: seq<Attempt>, a: Attempt)
    requires EntryOk(e, q, log) && (e.active ==> e.record.order != a.order)
    ensures EntryOk(e, q, log + [a])
  {
    hide Rapid;
    RapidAppend(log, a, e.record.order);
  }

  lemma OpenedOk(q: Outbox, log: seq<Attempt>, now: u64)
    requires EntriesOk(q, log) && WindowOk(q) && q.now == now < U64_MAX
    ensures EntriesOk(Opened(q, now), log) && WindowOk(Opened(q, now))
  {
    hide Rapid;
    forall i | 0 <= i < |q.entries| ensures EntryOk(q.entries[i], Opened(q, now), log) {
      assert EntryOk(q.entries[i], q, log);
    }
  }

  /** Entries after slot i went on the wire. */
  lemma LaunchEntries(q: Outbox, log: seq<Attempt>, i: nat, now: u64)
    requires EntriesOk(q, log) && OrdersDiffer(q.entries) && LogOk(q, log) && WindowOk(q)
    requires q.now == now < U64_MAX && q.windowOpen && i < |q.entries| && q.entries[i].active
    requires !SomethingFlies(q.entries)
    ensures var e := q.entries[i];
            var entries := q.entries[i := Launched(e, now, q.windowEnd)];
            && EntriesOk(q.(entries := entries), log + [Attempt(now, e.record.order, e.state == FAILED)])
            && OrdersDiffer(entries) && OneFlies(entries)
  {
    hide Rapid, StateOk, EntryOk, LogOk;
    var e := q.entries[i];
    var a := Attempt(now, e.record.order, e.state == FAILED);
    var entries := q.entries[i := Launched(e, now, q.windowEnd)];
    LaunchedOk(e, q, log, now);
    forall j | 0 <= j < |entries| ensures EntryOk(entries[j], q.(entries := entries), log + [a]) {
      if j != i {
        OtherOk(q.entries[j], q, log, a);
      }
      SameClock(entries[j], q, q.(entries := entries), log + [a]);
    }
  }

  /** An entry depends on the outbox only through its clock, its window and its next order. */
  lemma SameClock(e: Entry, p: Outbox, q: Outbox, log: seq<Attempt>)
    requires EntryOk(e, p, log)
    requires p.now == q.now && (p.windowOpen ==> q.windowOpen && p.windowEnd == q.windowEnd)
             && p.nextOrder <= q.nextOrder
    ensures EntryOk(e, q, log)
  {
    hide Rapid;
  }

  lemma LaunchLog(q: Outbox, log: seq<Attempt>, i: nat, now: u64)
    requires EntriesOk(q, log) && LogOk(q, log) && ProbesApart(log) && Sorted(log)
    requires q.now == now < U64_MAX && i < |q.entries| && Due(q.entries[i], now) && q.entries[i].state != IN_FLIGHT
    ensures var e := q.entries[i];
            var log' := log + [Attempt(now, e.record.order, e.state == FAILED)];
            LogOk(q, log') && ProbesApart(log') && Sorted(log')
  {
    hide Rapid;
    var e := q.entries[i];
    var a := Attempt(now, e.record.order, e.state == FAILED);
    assert EntryOk(e, q, log);
    forall o: u64 ensures Rapid(log + [a], o) <= MAX_ATTEMPTS {
      RapidAppend(log, a, o);
    }
    forall k | 0 <= k < |log| && log[k].order == a.order && a.probe ensures a.time >= log[k].time + PROBE_MIN {
      assert AllBy(log, e.record.order, e.due - PROBE_MIN);
    }
  }

  lemma OpenedSeparated(q: Outbox, log: seq<Attempt>, start: u64, now: u64)
    requires Separated(q, log, start) && q.now == now < U64_MAX && now >= q.pauseUntil && LogOk(q, log)
    ensures Separated(Opened(q, now), log, if q.windowOpen then start else now)
  {
    hide Rapid;
  }

  lemma LaunchSeparated(q: Outbox, log: seq<Attempt>, start: u64, a: Attempt, i: nat, e: Entry)
    requires Separated(q, log, start) && Spaced(log) && q.windowOpen && q.windowAttempts < WINDOW_ATTEMPTS
    requires a.time == q.now && i < |q.entries|
    ensures Spaced(log + [a])
    ensures Separated(q.(windowAttempts := q.windowAttempts + 1, entries := q.entries[i := e]), log + [a], start)
  {
    var log' := log + [a];
    forall k, j | 0 <= k && j == k + WINDOW_ATTEMPTS && j < |log'| ensures log'[j].time >= log'[k].time + PROBE_MIN {
      if j < |log| {
        assert log[j].time >= log[k].time + PROBE_MIN;
      } else {
        assert k < |log| - q.windowAttempts;
      }
    }
  }

  lemma ClosedSeparated(q: Outbox, log: seq<Attempt>, start: u64, now: u64)
    requires LogOk(q, log) && q.now == now < U64_MAX
    ensures Separated(q.(windowOpen := false, pauseUntil := Deadline(now, PROBE_MIN)), log, start)
  {
    hide Rapid;
  }

  /** Nothing in flight: the entries do not care whether the window is open. */
  lemma ClosedEntries(q: Outbox, log: seq<Attempt>, p: Outbox)
    requires EntriesOk(q, log) && !SomethingFlies(q.entries)
    requires p.entries == q.entries && p.now == q.now && p.nextOrder == q.nextOrder
    ensures EntriesOk(p, log)
  {
    hide Rapid;
    forall i | 0 <= i < |q.entries| ensures EntryOk(q.entries[i], p, log) {
      assert EntryOk(q.entries[i], q, log) && !Flying(q.entries[i]);
    }
  }

  lemma LaunchKeeps(t: Trace, i: nat, now: u64)
    requires Inv(t) && t.q.now == now < U64_MAX && i < |t.q.entries| && Due(t.q.entries[i], now)
    requires !SomethingFlies(t.q.entries) && now >= t.q.pauseUntil
    ensures var (q, slot) := Launch(t.q, i, now);
            var e := t.q.entries[i];
            Inv(if slot == None then t.(q := q)
                else Trace(q, t.log + [Attempt(now, e.record.order, e.state == FAILED)],
                           if t.q.windowOpen then t.start else now, t.emptied))
  {
    hide EntriesOk, Rapid, OrdersDiffer, OneFlies, ProbesApart, Sorted, Spaced, Separated, SomethingFlies, Launched;
    var w := Opened(t.q, now);
    var start := if t.q.windowOpen then t.start else now;
    OpenedOk(t.q, t.log, now);
    if !t.emptied {
      OpenedSeparated(t.q, t.log, t.start, now);
    }
    if w.windowAttempts >= WINDOW_ATTEMPTS {
      ClosedEntries(t.q, t.log, Launch(t.q, i, now).0);
      ClosedSeparated(t.q, t.log, t.start, now);
    } else {
      var e := t.q.entries[i];
      var a := Attempt(now, e.record.order, e.state == FAILED);
      NotFlying(t.q.entries, i);
      LaunchLog(t.q, t.log, i, now);
      LaunchEntries(w, t.log, i, now);
      var entries := w.entries[i := Launched(e, now, w.windowEnd)];
      CountedEntries(w.(entries := entries), t.log + [a]);
      if !t.emptied {
        LaunchSeparated(w, t.log, start, a, i, Launched(e, now, w.windowEnd));
      }
    }
  }

  lemma CountedEntries(q: Outbox, log: seq<Attempt>)
    requires EntriesOk(q, log)
    ensures EntriesOk(q.(windowAttempts := q.windowAttempts + 1), log)
  {
    hide EntryOk;
    forall i | 0 <= i < |q.entries| ensures EntryOk(q.entries[i], q.(windowAttempts := q.windowAttempts + 1), log) {
      SameClock(q.entries[i], q, q.(windowAttempts := q.windowAttempts + 1), log);
    }
  }

  lemma NotFlying(entries: seq<Entry>, i: nat)
    requires !SomethingFlies(entries) && i < |entries| && entries[i].active
    ensures entries[i].state != IN_FLIGHT
  {
    assert !Flying(entries[i]);
  }

  lemma PollKeeps(t: Trace, now: u64)
    requires Inv(t)
    ensures Inv(Polled(t, now))
  {
    hide Inv, Launch, Tick, SomethingFlies, Best;
    TickKeeps(t, now);
    if !Ignores(t.q, now) {
      var ticked := t.(q := Tick(t.q, now));
      var i := Best(ticked.q.entries, |ticked.q.entries|, now);
      if !SomethingFlies(ticked.q.entries) && i < |ticked.q.entries| && now >= ticked.q.pauseUntil {
        LaunchKeeps(ticked, i, now);
        LaunchSlot(ticked.q, i, now);
      }
    }
  }

  lemma LaunchSlot(q: Outbox, i: nat, now: u64)
    requires i < |q.entries|
    ensures Launch(q, i, now).1 in {None, Some(i)}
  {
  }

  // ---- admission and acknowledgement -------------------------------------------------------------------

  lemma NewOrder(log: seq<Attempt>, order: u64)
    requires forall i :: 0 <= i < |log| ==> log[i].order < order
    ensures Rapid(log, order) == 0
  {
    if log != [] {
      NewOrder(log[..|log| - 1], order);
    }
  }

  lemma AdmitKeeps(t: Trace, r: Record, saved: bool)
    requires Inv(t)
    ensures Inv(t.(q := Admit(t.q, r, saved).0))
  {
    hide Rapid, Valid, Known, NormalCount, Spaced, ProbesApart, Sorted, EntryOk, Numbered;
    if !Refuses(t.q, r) {
      var copy, i := Numbered(r, t.q.nextOrder), Free(t.q.entries, 0);
      var p := Admit(t.q, r, saved).0;
      NumberedKeeps(r, t.q.nextOrder);
      NewOrder(t.log, t.q.nextOrder);
      FreshOk(copy, p, t.log);
      forall j | 0 <= j < |p.entries| ensures EntryOk(p.entries[j], p, t.log) {
        if j != i {
          SameClock(t.q.entries[j], t.q, p, t.log);
        }
      }
      AdmitOrders(t.q, t.log, i, p.entries[i]);
    }
  }

  lemma FreshOk(r: Record, q: Outbox, log: seq<Attempt>)
    requires r.order < q.nextOrder && Rapid(log, r.order) == 0
    ensures EntryOk(Fresh(r), q, log) && EntryOk(Reserved(r), q, log)
  {
  }

  lemma AdmitOrders(q: Outbox, log: seq<Attempt>, i: nat, e: Entry)
    requires EntriesOk(q, log) && OrdersDiffer(q.entries) && OneFlies(q.entries) && i < |q.entries|
    requires e.active ==> e.record.order == q.nextOrder && e.state == PENDING
    ensures OrdersDiffer(q.entries[i := e]) && OneFlies(q.entries[i := e])
  {
    hide StateOk, Rapid;
    forall j | 0 <= j < |q.entries| && q.entries[j].active ensures q.entries[j].record.order < q.nextOrder {
      assert EntryOk(q.entries[j], q, log);
    }
  }

  /** Marking or dropping an entry that answered keeps everything but the window of an emptied outbox. */
  lemma AckKeeps(t: Trace, id: Text, removed: bool)
    requires Inv(t)
    ensures Inv(Step(t, Acknowledgement(id, removed)))
  {
    hide EntriesOk, Rapid, Spaced, ProbesApart, Sorted, Separated, Answers, Marked, Complete, OrdersDiffer, OneFlies,
         Empty;
    var i := Answered(t.q.entries, id, 0);
    if i < |t.q.entries| {
      var q := Ack(t.q, id, removed).0;
      AckEntries(t.q, t.log, id, removed);
      NotEmpty(t.q.entries, id, i);
      if q.windowOpen == t.q.windowOpen {
        SeparatedIgnoresEntries(t.q, q, t.log, t.start);
      }
    }
  }

  lemma NotEmpty(entries: seq<Entry>, id: Text, i: nat)
    requires i < |entries| && Answers(entries[i], id)
    ensures !Empty(entries)
  {
  }

  lemma AckEntries(q: Outbox, log: seq<Attempt>, id: Text, removed: bool)
    requires EntriesOk(q, log) && OrdersDiffer(q.entries) && OneFlies(q.entries)
    ensures var p := Ack(q, id, removed).0; EntriesOk(p, log) && OrdersDiffer(p.entries) && OneFlies(p.entries)
  {
    hide Rapid, EntryOk, Answers, Complete, Marked, OrdersDiffer, OneFlies, Flying;
    var i := Answered(q.entries, id, 0);
    if i < |q.entries| {
      var p := Ack(q, id, removed).0;
      MarkedKeeps(q.entries[i], id);
      AnsweredActive(q.entries[i], id);
      AckOrders(q.entries, i, p.entries[i]);
      assert p.entries == q.entries[i := p.entries[i]];
      forall j | 0 <= j < |p.entries| ensures EntryOk(p.entries[j], p, log) {
        AckedEntry(q, id, q.entries[j], p.entries[j], p, log);
      }
    }
  }

  lemma AckOrders(entries: seq<Entry>, i: nat, f: Entry)
    requires OrdersDiffer(entries) && OneFlies(entries) && i < |entries| && entries[i].active
    requires f.record == entries[i].record && f.state == entries[i].state
    ensures OrdersDiffer(entries[i := f]) && OneFlies(entries[i := f])
  {
  }

  lemma MarkedKeeps(e: Entry, id: Text)
    ensures Marked(e, id).(sampleAcked := e.sampleAcked, alertAcked := e.alertAcked) == e
  {
  }

  lemma AnsweredActive(e: Entry, id: Text)
    requires Answers(e, id)
    ensures e.active
  {
  }

  lemma AckedEntry(q: Outbox, id: Text, e: Entry, f: Entry, p: Outbox, log: seq<Attempt>)
    requires EntryOk(e, q, log)
    requires !f.active || f.(sampleAcked := e.sampleAcked, alertAcked := e.alertAcked) == e
    requires p.now == q.now && p.nextOrder == q.nextOrder && p.windowEnd == q.windowEnd
    requires p.windowOpen == q.windowOpen || !f.active
    ensures EntryOk(f, p, log)
  {
    hide Rapid;
  }

  lemma SeparatedIgnoresEntries(q: Outbox, p: Outbox, log: seq<Attempt>, start: u64)
    requires p == q.(entries := p.entries)
    ensures Separated(q, log, start) <==> Separated(p, log, start)
  {
  }

  // ---- whole runs ------------------------------------------------------------------------------------

  lemma StepKeeps(t: Trace, e: Event)
    requires Inv(t)
    ensures Inv(Step(t, e))
  {
    hide Inv, Polled, Tick, Admit, Ack;
    match e
    case Admission(r, saved) => AdmitKeeps(t, r, saved);
    case Clock(now) => TickKeeps(t, now);
    case Poll(now) => PollKeeps(t, now);
    case Acknowledgement(id, removed) => AckKeeps(t, id, removed);
  }

  lemma {:induction false} RunKeeps(t: Trace, events: seq<Event>)
    requires Inv(t)
    ensures Inv(Run(t, events))
    decreases |events|
  {
    hide Inv, Step;
    if events != [] {
      StepKeeps(t, events[0]);
      RunKeeps(Step(t, events[0]), events[1..]);
    }
  }

  /** An outbox as a load leaves it: pending records with different orders, nothing sent yet. */
  ghost predicate Booted(q: Outbox) {
    && |q.entries| == CAPACITY && 0 < q.nextOrder && (forall i :: 0 <= i < CAPACITY ==> !q.entries[i].quarantined)
    && q.now == 0 && q.pauseUntil == 0 && !q.windowOpen && OrdersDiffer(q.entries)
    && forall i :: 0 <= i < |q.entries| && q.entries[i].active ==>
         q.entries[i] == Fresh(q.entries[i].record) && q.entries[i].record.order < q.nextOrder
  }

  function Boot(q: Outbox): Trace {
    Trace(q, [], 0, false)
  }

  lemma BootInv(q: Outbox)
    requires Booted(q)
    ensures Inv(Boot(q))
  {
  }

  /**
   * In every run of a boot: at most one record is in flight, and only inside an open window that
   * ends no earlier than its own deadline.
   */
  lemma OneInFlight(q: Outbox, events: seq<Event>, i: nat, j: nat)
    requires Booted(q)
    ensures var p := Run(Boot(q), events).q;
            && (i < j < |p.entries| ==> !(Flying(p.entries[i]) && Flying(p.entries[j])))
            && (i < |p.entries| && Flying(p.entries[i]) ==> p.windowOpen && p.now < p.entries[i].due <= p.windowEnd)
  {
    hide Rapid, LogOk, Separated, Spaced, ProbesApart, Sorted;
    BootInv(q);
    RunKeeps(Boot(q), events);
    var t := Run(Boot(q), events);
    if i < |t.q.entries| {
      assert EntryOk(t.q.entries[i], t.q, t.log);
    }
  }

  /** A record gets at most five rapid attempts per boot; then probes, each a minute after the attempt before. */
  lemma RapidThenProbes(q: Outbox, events: seq<Event>, order: u64)
    requires Booted(q)
    ensures Rapid(Run(Boot(q), events).log, order) <= MAX_ATTEMPTS && ProbesApart(Run(Boot(q), events).log)
  {
    hide Rapid, EntriesOk, Separated, Spaced;
    BootInv(q);
    RunKeeps(Boot(q), events);
  }

  /** While no acknowledgement empties the outbox in an open window, no minute holds more than eighty attempts. */
  lemma EightyPerMinute(q: Outbox, events: seq<Event>, i: nat, j: nat)
    requires Booted(q) && !Run(Boot(q), events).emptied
    requires i <= j < |Run(Boot(q), events).log|
    requires Run(Boot(q), events).log[j].time < Run(Boot(q), events).log[i].time + PROBE_MIN
    ensures j - i < WINDOW_ATTEMPTS
  {
    hide Rapid, EntriesOk, Separated;
    BootInv(q);
    RunKeeps(Boot(q), events);
    if j >= i + WINDOW_ATTEMPTS {
      FarApart(Run(Boot(q), events).log, i, j);
    }
  }

  lemma FarApart(log: seq<Attempt>, i: nat, j: nat)
    requires Sorted(log) && Spaced(log) && i + WINDOW_ATTEMPTS <= j < |log|
    ensures log[j].time >= log[i].time + PROBE_MIN
  {
    var k := i + WINDOW_ATTEMPTS;
    assert log[k].time >= log[i].time + PROBE_MIN;
  }

  // ---- without the condition ---------------------------------------------------------------------------

  /** Reserved slots hold records of high importance, and an open window has no pause ahead. */
  ghost predicate Tidy(q: Outbox) {
    && |q.entries| == CAPACITY && 0 < q.nextOrder && q.now < U64_MAX && (q.windowOpen ==> q.pauseUntil <= q.now)
    && forall i :: 0 <= i < CAPACITY ==> TidyEntry(q.entries[i])
  }

  predicate TidyEntry(e: Entry) {
    !(e.active && e.quarantined) && (e.quarantined ==> e.record.high != 0)
  }

  lemma TidyTick(q: Outbox, now: u64)
    requires Tidy(q)
    ensures Tidy(Tick(q, now))
  {
    hide Deadline, Backoff, ProbeDelay;
    forall i | 0 <= i < CAPACITY && !Ignores(q, now) ensures TidyEntry(TickEntry(q.entries[i], now)) {
      assert TidyEntry(q.entries[i]);
    }
  }

  lemma TidyNext(q: Outbox, now: u64)
    requires Tidy(q)
    ensures Tidy(Next(q, now).0)
  {
    hide Tick, Best, SomethingFlies, Deadline;
    TidyTick(q, now);
    TickTime(q, now);
    var t := Tick(q, now);
    var i := Best(t.entries, |t.entries|, now);
    if i < CAPACITY {
      assert TidyEntry(t.entries[i]);
    }
  }

  lemma TickTime(q: Outbox, now: u64)
    ensures !Ignores(q, now) ==> Tick(q, now).now == now
  {
  }

  lemma TidyStep(t: Trace, e: Event)
    requires Tidy(t.q)
    ensures Tidy(Step(t, e).q)
  {
    hide Tick, Next, Valid, Numbered, Known, NormalCount, Answers, Complete, Empty, MessageId;
    match e
    case Admission(r, saved) => NumberedKeeps(r, t.q.nextOrder);
    case Clock(now) => TidyTick(t.q, now);
    case Poll(now) => TidyNext(t.q, now);
    case Acknowledgement(id, removed) =>
  }

  lemma {:induction false} TidyRun(t: Trace, events: seq<Event>)
    requires Tidy(t.q)
    ensures Tidy(Run(t, events).q)
    decreases |events|
  {
    hide Tidy, Step;
    if events != [] {
      TidyStep(t, events[0]);
      TidyRun(Step(t, events[0]), events[1..]);
    }
  }

  /** Nothing in use, a free slot, no window, no pause: as after an acknowledgement that emptied an open window. */
  ghost predicate Drained(q: Outbox, r: Record, now: u64) {
    && |q.entries| == CAPACITY && !q.windowOpen && q.pauseUntil <= now && q.now <= now < U64_MAX && 0 < q.nextOrder
    && (forall i :: 0 <= i < CAPACITY ==> !q.entries[i].active && TidyEntry(q.entries[i]))
    && Free(q.entries, 0) < CAPACITY && !Known(q.entries, r.sampleId)
  }

  /** A normal record that is valid under any order number. */
  function Small(sequence: u32): Record {
    Record(1, 0, 0, 0, sequence, 0, 0, [65], SampleId([65], sequence), [10])
  }

  /** Admission, transmission and acknowledgement of one record, all at one time. */
  function Cycle(r: Record, now: u64): seq<Event> {
    [Admission(r, true), Poll(now), Acknowledgement(MessageId(r, 83), true)]
  }

  function Cycles(n: nat, r: Record, now: u64): seq<Event> {
    if n == 0 then [] else Cycle(r, now) + Cycles(n - 1, r, now)
  }

  ghost predicate Plain(r: Record) {
    r.high == 0 && r.hasAlert == 0 && forall order: u64 :: 0 < order < U64_MAX ==> Valid(Numbered(r, order))
  }

  lemma SmallPlain(sequence: u32)
    requires sequence != 0
    ensures Plain(Small(sequence))
  {
    hide Crc32.Crc, Hex;
    var r := Small(sequence);
    forall order: u64 | 0 < order < U64_MAX ensures Valid(Numbered(r, order)) {
      SealIsIdempotent(r.(order := order));
    }
  }

  lemma {:induction false} NoNormals(entries: seq<Entry>)
    requires forall i :: 0 <= i < |entries| ==> !entries[i].active && TidyEntry(entries[i])
    ensures NormalCount(entries) == 0
  {
    if entries != [] {
      NoNormals(entries[..|entries| - 1]);
    }
  }

  lemma AdmitDrained(t: Trace, r: Record, now: u64)
    requires Drained(t.q, r, now) && Plain(r) && t.q.nextOrder < U64_MAX
    ensures var i := Free(t.q.entries, 0);
            Step(t, Admission(r, true))
            == t.(q := t.q.(entries := t.q.entries[i := Fresh(Numbered(r, t.q.nextOrder))],
                            nextOrder := t.q.nextOrder + 1))
  {
    hide Valid, Numbered, Known;
    NumberedKeeps(r, t.q.nextOrder);
    NoNormals(t.q.entries);
  }

  /** Slot i alone is in use. */
  ghost predicate Alone(entries: seq<Entry>, i: nat) {
    && i < |entries| == CAPACITY && !entries[i].quarantined
    && forall j :: 0 <= j < CAPACITY && j != i ==> !entries[j].active && TidyEntry(entries[j])
  }

  lemma PollOne(t: Trace, i: nat, r: Record, now: u64)
    requires Alone(t.q.entries, i) && t.q.entries[i] == Fresh(r)
    requires !t.q.windowOpen && t.q.pauseUntil <= now && t.q.now <= now < U64_MAX
    ensures var p := Step(t, Poll(now));
            && p.log == t.log + [Attempt(now, r.order, false)]
            && p.q == t.q.(now := now, windowOpen := true, windowAttempts := 1, windowEnd := p.q.windowEnd,
                            entries := p.q.entries)
            && p.q.entries == t.q.entries[i := Launched(Fresh(r), now, p.q.windowEnd)]
  {
    hide Launched, Deadline;
    var ticked := Tick(t.q, now);
    assert ticked.entries == t.q.entries;
    BestAlone(ticked.entries, CAPACITY, i, now);
  }

  lemma {:induction false} BestAlone(entries: seq<Entry>, n: nat, i: nat, now: u64)
    requires n <= |entries| && i < |entries| && Due(entries[i], now)
    requires forall j :: 0 <= j < |entries| && j != i ==> !entries[j].active
    ensures Best(entries, n, now) == if i < n then i else |entries|
  {
    if n > 0 {
      BestAlone(entries, n - 1, i, now);
    }
  }

  lemma AckOne(t: Trace, i: nat, r: Record, e: Entry, now: u64)
    requires Alone(t.q.entries, i) && t.q.entries[i] == e && e.active && e.totalAttempts > 0 && !e.alertAcked
    requires e.record == r && r.high == 0 && r.hasAlert == 0
    ensures var p := Step(t, Acknowledgement(MessageId(r, 83), true));
            && p.log == t.log
            && p.q == t.q.(windowOpen := false, entries := t.q.entries[i := e.(sampleAcked := true, active := false)])
  {
    hide MessageId;
    var id := MessageId(r, 83);
    assert Answers(t.q.entries[i], id);
    assert Answered(t.q.entries, id, 0) == i;
    var p := Step(t, Acknowledgement(id, true)).q;
    assert Empty(p.entries);
  }

  lemma LaunchedFresh(r: Record, now: u64, windowEnd: u64)
    ensures var e := Launched(Fresh(r), now, windowEnd);
            e.record == r && e.active && !e.quarantined && e.totalAttempts > 0 && !e.alertAcked
  {
  }

  lemma SameIds(r: Record, order: u64)
    ensures MessageId(Numbered(r, order), 83) == MessageId(r, 83)
  {
    NumberedKeeps(r, order);
  }

  /** The slots other than i are as before and slot i is free again. */
  lemma DrainedAgain(q: Outbox, p: Outbox, r: Record, i: nat, now: u64)
    requires Drained(q, r, now) && i == Free(q.entries, 0)
    requires |p.entries| == CAPACITY && !p.entries[i].active && !p.entries[i].quarantined
    requires forall j :: 0 <= j < CAPACITY && j != i ==> p.entries[j] == q.entries[j]
    requires !p.windowOpen && p.pauseUntil == q.pauseUntil && p.now == now && 0 < p.nextOrder
    ensures Drained(p, r, now)
  {
    assert !Held(p.entries[i]);
    forall j | 0 <= j < CAPACITY && Held(p.entries[j]) ensures p.entries[j].record.sampleId != r.sampleId {
      assert Held(q.entries[j]) && !Known(q.entries, r.sampleId);
    }
  }

  lemma CycleSends(t: Trace, r: Record, now: u64)
    requires Drained(t.q, r, now) && Plain(r) && t.q.nextOrder < U64_MAX
    ensures var p := Run(t, Cycle(r, now));
            && Drained(p.q, r, now) && p.q.nextOrder == t.q.nextOrder + 1
            && p.log == t.log + [Attempt(now, t.q.nextOrder, false)]
  {
    hide Step, Numbered, MessageId, Valid, Launched, Free, Known, Fresh;
    var c := Numbered(r, t.q.nextOrder);
    var events, i := Cycle(r, now), Free(t.q.entries, 0);
    NumberedKeeps(r, t.q.nextOrder);
    SameIds(r, t.q.nextOrder);
    FreshFree(c);
    AdmitDrained(t, r, now);
    var a := Step(t, events[0]);
    PollOne(a, i, c, now);
    var b := Step(a, events[1]);
    LaunchedFresh(c, now, b.q.windowEnd);
    AckOne(b, i, c, b.q.entries[i], now);
    var p := Step(b, events[2]);
    DrainedAgain(t.q, p.q, r, i, now);
    assert Run(t, events) == Run(a, events[1..]) == Run(b, events[1..][1..]) == Run(p, []);
  }

  lemma FreshFree(r: Record)
    ensures Fresh(r).active && !Fresh(r).quarantined && Fresh(r).record == r
  {
  }

  lemma {:induction false} RunJoins(t: Trace, a: seq<Event>, b: seq<Event>)
    ensures Run(t, a + b) == Run(Run(t, a), b)
    decreases |a|
  {
    hide Step;
    if a == [] {
      assert a + b == b;
    } else {
      assert (a + b)[1..] == a[1..] + b;
      RunJoins(Step(t, a[0]), a[1..], b);
    }
  }

  /** Attempts are only ever added to the log. */
  lemma {:induction false} LogKept(t: Trace, events: seq<Event>)
    ensures t.log <= Run(t, events).log
    decreases |events|
  {
    hide Next, Tick, Admit, Ack;
    if events != [] {
      LogKept(Step(t, events[0]), events[1..]);
    }
  }

  /** Records admitted and acknowledged one by one are sent any number of times at one instant. */
  lemma {:induction false} DrainedHasNoLimit(t: Trace, r: Record, n: nat, now: u64)
    requires Drained(t.q, r, now) && Plain(r) && t.q.nextOrder + n <= U64_MAX
    ensures var log := Run(t, Cycles(n, r, now)).log;
            |log| == |t.log| + n && forall i :: |t.log| <= i < |log| ==> log[i].time == now
    decreases n
  {
    hide Step, Cycle, Drained, Plain;
    if n > 0 {
      CycleSends(t, r, now);
      RunJoins(t, Cycle(r, now), Cycles(n - 1, r, now));
      DrainedHasNoLimit(Run(t, Cycle(r, now)), r, n - 1, now);
      LogKept(Run(t, Cycle(r, now)), Cycles(n - 1, r, now));
    }
  }

  // ---- a sample no slot knows ------------------------------------------------------------------------------

  /** Sequences up to seventeen whose sample is held. */
  ghost function Taken(entries: seq<Entry>): set<nat> {
    set k: nat | 0 < k < CAPACITY + 2 && Known(entries, SampleId([65], k))
  }

  lemma {:induction false} FewTaken(entries: seq<Entry>)
    ensures |Taken(entries)| <= |entries|
  {
    hide SampleId;
    if entries != [] {
      var n := |entries| - 1;
      var front, e := entries[..n], entries[n];
      FewTaken(front);
      if k :| k in Taken(entries) && k !in Taken(front) {
        forall j | j in Taken(entries) ensures j in Taken(front) + {k} {
          NewlyKnown(entries, k);
          if j !in Taken(front) {
            NewlyKnown(entries, j);
            SampleIdInjective([65], [65], j, k);
          }
        }
        SubsetSize(Taken(entries), Taken(front) + {k});
      } else {
        SubsetSize(Taken(entries), Taken(front));
      }
    }
  }

  lemma NewlyKnown(entries: seq<Entry>, k: nat)
    requires entries != [] && k in Taken(entries) && k !in Taken(entries[..|entries| - 1])
    ensures entries[|entries| - 1].record.sampleId == SampleId([65], k)
  {
    hide SampleId;
    var front := entries[..|entries| - 1];
    forall i | 0 <= i < |front| ensures !(Held(entries[i]) && entries[i].record.sampleId == SampleId([65], k)) {
      assert front[i] == entries[i];
    }
  }

  lemma UnknownSample(entries: seq<Entry>) returns (sequence: u32)
    requires |entries| == CAPACITY
    ensures sequence != 0 && !Known(entries, Small(sequence).sampleId)
  {
    hide SampleId, Known;
    FewTaken(entries);
    var all := Below(CAPACITY + 2) - {0};
    if all <= Taken(entries) {
      SubsetSize(all, Taken(entries));
      assert false;
    }
    var k: nat :| k in all && k !in Taken(entries);
    sequence := k;
  }

  /** An acknowledgement that empties an open window leaves a drained outbox. */
  lemma EmptyingDrains(q: Outbox, id: Text, removed: bool)
    requires Tidy(q) && q.windowOpen && !Empty(q.entries) && Empty(Ack(q, id, removed).0.entries)
    ensures var p := Ack(q, id, removed).0;
            && |p.entries| == CAPACITY && !p.windowOpen && p.pauseUntil <= p.now < U64_MAX && 0 < p.nextOrder
            && p.now == q.now
            && (forall i :: 0 <= i < CAPACITY ==> !p.entries[i].active && TidyEntry(p.entries[i]))
            && Free(p.entries, 0) < CAPACITY
  {
    hide Answers, Complete, MessageId;
    var i := Answered(q.entries, id, 0);
    if i < CAPACITY {
      var p := Ack(q, id, removed).0;
      AnsweredActive(q.entries[i], id);
      assert TidyEntry(q.entries[i]) && !Held(p.entries[i]);
    }
  }

  /**
   * The converse: in any run of a boot, once an acknowledgement empties the outbox while its window is
   * open, and order numbers are left, some continuation puts eighty-one attempts at one instant.
   */
  lemma EmptyingLiftsTheLimit(q: Outbox, events: seq<Event>, id: Text, removed: bool)
    requires Booted(q)
    requires var t := Run(Boot(q), events);
             var u := Step(t, Acknowledgement(id, removed));
             t.q.windowOpen && !Empty(t.q.entries) && Empty(u.q.entries)
             && u.q.nextOrder + WINDOW_ATTEMPTS + 1 <= U64_MAX
    ensures exists more: seq<Event> :: !Spaced(Run(Boot(q), events + [Acknowledgement(id, removed)] + more).log)
  {
    hide Tidy, Step, Drained, Plain, Cycles, Known, Spaced, Empty, Ack, Small;
    var t := Run(Boot(q), events);
    var e := Acknowledgement(id, removed);
    var u := Step(t, e);
    BootTidy(q);
    TidyRun(Boot(q), events);
    AckStep(t, id, removed);
    EmptyingDrains(t.q, id, removed);
    var k := UnknownSample(u.q.entries);
    SmallPlain(k);
    DrainedFrom(u.q, Small(k));
    DrainedHasNoLimit(u, Small(k), WINDOW_ATTEMPTS + 1, u.q.now);
    var more := Cycles(WINDOW_ATTEMPTS + 1, Small(k), u.q.now);
    RunJoins(Boot(q), events, [e]);
    assert Run(t, [e]) == Run(u, [e][1..]) == u;
    RunJoins(Boot(q), events + [e], more);
    NotSpaced(Run(u, more).log, |u.log|, u.q.now);
  }

  lemma NotSpaced(log: seq<Attempt>, from: nat, now: u64)
    requires |log| == from + WINDOW_ATTEMPTS + 1 && forall i :: from <= i < |log| ==> log[i].time == now
    ensures !Spaced(log)
  {
    assert log[from].time == now && log[from + WINDOW_ATTEMPTS].time == now;
  }

  lemma DrainedFrom(q: Outbox, r: Record)
    requires |q.entries| == CAPACITY && !q.windowOpen && q.pauseUntil <= q.now < U64_MAX && 0 < q.nextOrder
    requires (forall i :: 0 <= i < CAPACITY ==> !q.entries[i].active && TidyEntry(q.entries[i]))
    requires Free(q.entries, 0) < CAPACITY && !Known(q.entries, r.sampleId)
    ensures Drained(q, r, q.now)
  {
  }

  lemma BootTidy(q: Outbox)
    requires Booted(q)
    ensures Tidy(Boot(q).q)
  {
  }

  lemma AckStep(t: Trace, id: Text, removed: bool)
    ensures Step(t, Acknowledgement(id, removed)).q == Ack(t.q, id, removed).0
  {
    hide Ack;
  }
}
