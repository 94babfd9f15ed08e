/** The durable side of the outbox: saves with unknown commits, crashes, and the reload. */
module B1Store {
  import opened Wrappers
  import opened Bytes
  import opened B1Record
  import opened B1Checkpoint
  import opened B1Outbox
  import B1Pacing

  type Blob = seq<byte>

  datatype CallResult = OK | MISSING | ERROR

  datatype ReadResult = Stored(blob: Blob) | Absent | Unreadable

  /** For every slot the values that may be durable, given the calls that failed so far. */
  type Flash = seq<set<Option<Blob>>>

  /**
   * b1_backend_save: r is written, or the slot removed, and the change committed. A call that
   * fails leaves either value behind.
   */
  function Save(flash: Flash, slot: nat, r: Option<Record>, call: CallResult, commit: bool): (Flash, bool)
    requires slot < |flash|
  {
    if r.Some? && Encode(r.value) == None then (flash, false)
    else
      var v := if r.Some? then Encode(r.value) else None;
      if commit && (call == OK || (call == MISSING && r == None)) then (flash[slot := {v}], true)
      else (flash[slot := flash[slot] + {v}], false)
  }

  // ---- reload --------------------------------------------------------------------------------------

  /** The slots from the given one on, restored in order; the first problem ends the load. */
  function LoadFrom(q: Outbox, answers: seq<ReadResult>, slot: nat): (Outbox, bool)
    requires slot <= |answers|
    decreases |answers| - slot
  {
    if slot == |answers| then (q, true)
    else
      match answers[slot]
      case Absent => LoadFrom(q, answers, slot + 1)
      case Unreadable => (q, false)
      case Stored(blob) =>
        var r := Decode(blob);
        if r == None then (q, false)
        else
          var (p, ok) := Restore(q, slot, r.value);
          if ok then LoadFrom(p, answers, slot + 1) else (p, false)
  }

  /** b1_backend_load into a new outbox. */
  method BackendLoad(answers: seq<ReadResult>) returns (q: B1OutboxQueue, ok: bool)
    requires |answers| == CAPACITY
    ensures fresh(q) && fresh(q.entries)
    ensures (q.View(), ok) == LoadFrom(Initial(), answers, 0)
  {
    hide Decode, Restore;
    q := new B1OutboxQueue();
    var slot := 0;
    while slot < CAPACITY
      invariant slot <= CAPACITY
      invariant fresh(q) && fresh(q.entries)
      invariant LoadFrom(Initial(), answers, 0) == LoadFrom(q.View(), answers, slot)
    {
      if answers[slot] == Unreadable {
        return q, false;
      }
      if answers[slot].Stored? {
        var r := Decode(answers[slot].blob);
        if r == None {
          return q, false;
        }
        ok := q.RestoreSlot(slot, r.value);
        if !ok {
          return q, false;
        }
      }
      slot := slot + 1;
    }
    ok := true;
  }

  // ---- the device ------------------------------------------------------------------------------------

  /** Outbox and flash; admitted and completed record the past: no step answers them. */
  datatype Device = Device(q: Outbox, flash: Flash, admitted: set<Record>, completed: set<Record>)

  datatype Event =
    | Admission(record: Record, call: CallResult, commit: bool)
    | Acknowledgement(id: Text, call: CallResult, commit: bool)
    | Clock(now: u64)
    | Poll(now: u64)
    | Crash(contents: seq<Option<Blob>>)

  function Admitted(d: Device, r: Record, call: CallResult, commit: bool): Device
    requires |d.flash| == |d.q.entries|
  {
    var copy, i := Numbered(r, d.q.nextOrder), Free(d.q.entries, 0);
    if Refuses(d.q, r) then d
    else
      var (flash, saved) := if copy.high == 1 then Save(d.flash, i, Some(copy), call, commit) else (d.flash, true);
      var (q, ok) := Admit(d.q, r, saved);
      d.(q := q, flash := flash, admitted := if ok && copy.high == 1 then d.admitted + {copy} else d.admitted)
  }

  function Acked(d: Device, id: Text, call: CallResult, commit: bool): Device
    requires |d.flash| == |d.q.entries|
  {
    var i := Answered(d.q.entries, id, 0);
    if i == |d.q.entries| then d
    else
      var e := Marked(d.q.entries[i], id);
      var (flash, removed) := if Complete(e) && e.record.high == 1 then Save(d.flash, i, None, call, commit)
          else (d.flash, true);
      d.(q := Ack(d.q, id, removed).0, flash := flash,
         completed := if Complete(e) then d.completed + {e.record} else d.completed)
  }

  function ReadOf(v: Option<Blob>): ReadResult {
    match v case Some(b) => Stored(b) case None => Absent
  }

  function Reads(contents: seq<Option<Blob>>): (r: seq<ReadResult>)
    ensures |r| == |contents| && forall i :: 0 <= i < |r| ==> r[i] == ReadOf(contents[i])
  {
    seq(|contents|, i requires 0 <= i < |contents| => ReadOf(contents[i]))
  }

  /** What the flash may hold when the power comes back. */
  ghost predicate Possible(flash: Flash, contents: seq<Option<Blob>>) {
    |contents| == |flash| && forall i :: 0 <= i < |flash| ==> contents[i] in flash[i]
  }

  function Known(contents: seq<Option<Blob>>): (f: Flash)
    ensures |f| == |contents| && forall i :: 0 <= i < |f| ==> f[i] == {contents[i]}
  {
    seq(|contents|, i requires 0 <= i < |contents| => {contents[i]})
  }

  function Rebooted(d: Device, contents: seq<Option<Blob>>): Device {
    d.(q := LoadFrom(Initial(), Reads(contents), 0).0, flash := Known(contents))
  }

  ghost function Step(d: Device, e: Event): Device
    requires |d.flash| == |d.q.entries|
  {
    match e
    case Admission(r, call, commit) => Admitted(d, r, call, commit)
    case Acknowledgement(id, call, commit) => Acked(d, id, call, commit)
    case Clock(now) => d.(q := Tick(d.q, now))
    case Poll(now) => d.(q := Next(d.q, now).0)
    case Crash(contents) => if Possible(d.flash, contents) then Rebooted(d, contents) else d
  }

  // ---- the invariant -----------------------------------------------------------------------------------

  /** What a slot's flash may hold, given its entry. */
  ghost predicate SlotOk(e: Entry, f: set<Option<Blob>>) {
    && (Held(e) ==> Valid(e.record))
    && (e.active ==> !e.quarantined)
    && (e.quarantined ==> e.record.high == 1)
    && if !Held(e) || e.record.high == 0 then f == {None}
       else
         && Encode(e.record).Some? && f <= {None, Encode(e.record)}
         && (e.active && !Complete(e) ==> f == {Encode(e.record)})
  }

  ghost predicate SlotsOk(entries: seq<Entry>, flash: Flash) {
    |entries| == CAPACITY && |flash| == CAPACITY && forall i :: 0 <= i < CAPACITY ==> SlotOk(entries[i], flash[i])
  }

  ghost predicate Distinct(entries: seq<Entry>) {
    forall i, j :: 0 <= i < j < |entries| && Held(entries[i]) && Held(entries[j]) ==>
      entries[i].record.order != entries[j].record.order && entries[i].record.sampleId != entries[j].record.sampleId
  }

  ghost predicate Below(entries: seq<Entry>, next: u64) {
    forall i :: 0 <= i < |entries| && Held(entries[i]) ==> entries[i].record.order < next
  }

  ghost predicate HasSlot(entries: seq<Entry>, r: Record) {
    exists i :: 0 <= i < |entries| && entries[i].active && entries[i].record == r
  }

  /** Every admitted record has its slot until its acknowledgements are complete. */
  ghost predicate Accounted(d: Device) {
    && (forall r :: r in d.admitted ==> r.high == 1)
    && (forall r :: r in d.admitted && r !in d.completed ==> HasSlot(d.q.entries, r))
    && forall i :: 0 <= i < |d.q.entries| && d.q.entries[i].active && Complete(d.q.entries[i]) ==>
         d.q.entries[i].record in d.completed
  }

  ghost predicate Inv(d: Device) {
    && SlotsOk(d.q.entries, d.flash) && Distinct(d.q.entries) && Below(d.q.entries, d.q.nextOrder) && Accounted(d)
    && d.q.nextOrder > 0
  }

  /** A record of high importance that still waits for an acknowledgement. */
  predicate Owed(e: Entry) {
    e.active && e.record.high == 1 && !Complete(e)
  }

  // ---- a crash -----------------------------------------------------------------------------------------

  /** The outbox expected from the first n slots. */
  ghost predicate Restored(entries: seq<Entry>, contents: seq<Option<Blob>>, next: u64, p: Outbox, n: nat) {
    && |p.entries| == |entries| == |contents| && n <= |contents|
    && (forall i :: 0 <= i < |contents| ==> p.entries[i] == if i < n && contents[i].Some? then Fresh(entries[i].record)
        else UNUSED)
    && 0 < p.nextOrder <= next
    && (forall i :: 0 <= i < n && contents[i].Some? ==> entries[i].record.order < p.nextOrder)
    && p == Initial().(entries := p.entries, nextOrder := p.nextOrder)
  }

  lemma StoredRecord(e: Entry, f: set<Option<Blob>>, v: Option<Blob>)
    requires SlotOk(e, f) && v in f && v.Some?
    ensures Held(e) && Valid(e.record) && e.record.high == 1 && Decode(v.value) == Some(e.record)
  {
    hide Valid, Decode, Complete, Image;
    CheckpointIsCanonical(e.record, v.value);
  }

  lemma RestoreNext(entries: seq<Entry>, flash: Flash, contents: seq<Option<Blob>>, next: u64, p: Outbox, n: nat)
    requires SlotsOk(entries, flash) && Distinct(entries) && Below(entries, next) && Possible(flash, contents)
    requires Restored(entries, contents, next, p, n) && n < |contents| && contents[n].Some?
    ensures Decode(contents[n].value) == Some(entries[n].record)
    ensures var (q, ok) := Restore(p, n, entries[n].record); ok && Restored(entries, contents, next, q, n + 1)
  {
    hide Valid, Decode, Complete, Encode;
    assert SlotOk(entries[n], flash[n]);
    StoredRecord(entries[n], flash[n], contents[n]);
    var r := entries[n].record;
    forall i | 0 <= i < |p.entries| && p.entries[i].active
      ensures p.entries[i].record.order != r.order && p.entries[i].record.sampleId != r.sampleId
    {
      assert SlotOk(entries[i], flash[i]);
      StoredRecord(entries[i], flash[i], contents[i]);
    }
    assert !Clashes(p.entries, r);
    ValidOrder(r);
  }

  lemma ValidOrder(r: Record)
    requires Valid(r)
    ensures 0 < r.order < U64_MAX
  {
  }

  lemma {:induction false} LoadRestores(entries: seq<Entry>, flash: Flash, contents: seq<Option<Blob>>, next: u64,
                                        p: Outbox, n: nat)
    requires SlotsOk(entries, flash) && Distinct(entries) && Below(entries, next) && Possible(flash, contents)
    requires Restored(entries, contents, next, p, n)
    ensures var (q, ok) := LoadFrom(p, Reads(contents), n); ok && Restored(entries, contents, next, q, |contents|)
    decreases |contents| - n
  {
    hide SlotOk, Distinct, Decode, Restore, Valid;
    if n < |contents| {
      if contents[n].Some? {
        RestoreNext(entries, flash, contents, next, p, n);
        LoadRestores(entries, flash, contents, next, Restore(p, n, entries[n].record).0, n + 1);
      } else {
        LoadRestores(entries, flash, contents, next, p, n + 1);
      }
    }
  }

  /**
   * Whatever a crash leaves in flash, a reload without read errors succeeds; it restores every
   * record of high importance whose acknowledgements were incomplete, with its content and its
   * order in its slot; the next order lies above all restored ones.
   */
  lemma ReloadSucceeds(d: Device, contents: seq<Option<Blob>>)
    requires Inv(d) && Possible(d.flash, contents)
    ensures var (q, ok) := LoadFrom(Initial(), Reads(contents), 0);
            && ok && Restored(d.q.entries, contents, d.q.nextOrder, q, CAPACITY)
            && forall i :: 0 <= i < CAPACITY && Owed(d.q.entries[i]) ==> q.entries[i] == Fresh(d.q.entries[i].record)
  {
    hide Valid, Encode, Complete;
    LoadRestores(d.q.entries, d.flash, contents, d.q.nextOrder, Initial(), 0);
    forall i | 0 <= i < CAPACITY && Owed(d.q.entries[i]) ensures contents[i].Some? {
      assert SlotOk(d.q.entries[i], d.flash[i]);
    }
  }

  /** The reloaded outbox is one the pacing results start from. */
  lemma ReloadBoots(d: Device, contents: seq<Option<Blob>>)
    requires Inv(d) && Possible(d.flash, contents)
    ensures B1Pacing.Booted(LoadFrom(Initial(), Reads(contents), 0).0)
  {
    hide Valid, Encode, Complete, Restore;
    ReloadSucceeds(d, contents);
    CrashDistinct(d, contents);
  }

  lemma CrashDistinct(d: Device, contents: seq<Option<Blob>>)
    requires Inv(d) && Possible(d.flash, contents)
    ensures var q := LoadFrom(Initial(), Reads(contents), 0).0;
            Distinct(q.entries) && Below(q.entries, q.nextOrder)
  {
    hide Valid, Complete, Encode, LoadFrom;
    ReloadSucceeds(d, contents);
    forall i | 0 <= i < CAPACITY && contents[i].Some? ensures Held(d.q.entries[i]) {
      assert SlotOk(d.q.entries[i], d.flash[i]);
      StoredRecord(d.q.entries[i], d.flash[i], contents[i]);
    }
  }

  lemma FreshSlot(e: Entry, f: set<Option<Blob>>, v: Option<Blob>)
    requires SlotOk(e, f) && v in f
    ensures SlotOk(if v.Some? then Fresh(e.record) else UNUSED, {v})
    ensures v.Some? ==> !Complete(Fresh(e.record))
  {
    hide Valid, Decode, Image;
    if v.Some? {
      StoredRecord(e, f, v);
    }
  }

  lemma CrashKeeps(d: Device, contents: seq<Option<Blob>>)
    requires Inv(d) && Possible(d.flash, contents)
    ensures Inv(Rebooted(d, contents))
  {
    hide Valid, Encode, LoadFrom, SlotOk, Complete;
    var e := Rebooted(d, contents);
    ReloadSucceeds(d, contents);
    CrashDistinct(d, contents);
    forall i | 0 <= i < CAPACITY
      ensures SlotOk(e.q.entries[i], e.flash[i])
      ensures e.q.entries[i].active ==> !Complete(e.q.entries[i])
    {
      FreshSlot(d.q.entries[i], d.flash[i], contents[i]);
    }
    forall r | r in d.admitted && r !in d.completed ensures HasSlot(e.q.entries, r) {
      var i :| 0 <= i < CAPACITY && d.q.entries[i].active && d.q.entries[i].record == r;
      HighIncomplete(d, i);
      assert e.q.entries[i] == Fresh(r);
    }
  }

  lemma HighIncomplete(d: Device, i: nat)
    requires Inv(d) && i < CAPACITY && d.q.entries[i].active && d.q.entries[i].record in d.admitted
    requires d.q.entries[i].record !in d.completed
    ensures d.q.entries[i].record.high == 1 && !Complete(d.q.entries[i])
  {
  }

  // ---- the other steps -----------------------------------------------------------------------------

  lemma NewSlot(q: Outbox, flash: Flash, r: Record, call: CallResult, commit: bool)
    requires SlotsOk(q.entries, flash) && !Refuses(q, r)
    ensures var copy, i := Numbered(r, q.nextOrder), Free(q.entries, 0);
            var (f, saved) := if copy.high == 1 then Save(flash, i, Some(copy), call, commit) else (flash, true);
            && i < CAPACITY && |f| == CAPACITY && (forall j :: 0 <= j < CAPACITY && j != i ==> f[j] == flash[j])
            && SlotOk(if copy.high == 0 || saved then Fresh(copy) else Reserved(copy), f[i])
  {
    hide Valid, B1Outbox.Known, NormalCount, Numbered, Save, SlotOk, Encode;
    var copy, i := Numbered(r, q.nextOrder), Free(q.entries, 0);
    FreeSlotEmpty(q.entries[i], flash[i]);
    SaveIntoFree(flash, i, copy, call, commit);
  }

  lemma FreeSlotEmpty(e: Entry, f: set<Option<Blob>>)
    requires SlotOk(e, f) && !Held(e)
    ensures f == {None}
  {
  }

  lemma SaveIntoFree(flash: Flash, i: nat, r: Record, call: CallResult, commit: bool)
    requires i < |flash| && flash[i] == {None} && Valid(r)
    ensures var (f, saved) := if r.high == 1 then Save(flash, i, Some(r), call, commit) else (flash, true);
            && |f| == |flash| && (forall j :: 0 <= j < |flash| && j != i ==> f[j] == flash[j])
            && SlotOk(if r.high == 0 || saved then Fresh(r) else Reserved(r), f[i])
  {
    hide Image;
    assert r.high <= 1;
    hide Valid;
  }

  lemma AdmitKeepsSlots(d: Device, r: Record, call: CallResult, commit: bool)
    requires Inv(d)
    ensures var e := Admitted(d, r, call, commit); SlotsOk(e.q.entries, e.flash)
  {
    hide Valid, SlotOk, Save, Refuses, Numbered, Accounted, Fresh, Reserved;
    if !Refuses(d.q, r) {
      NewSlot(d.q, d.flash, r, call, commit);
      NumberedKeeps(r, d.q.nextOrder);
    }
  }

  lemma AdmitKeepsDistinct(q: Outbox, r: Record, saved: bool)
    requires Distinct(q.entries) && Below(q.entries, q.nextOrder)
    ensures var p := Admit(q, r, saved).0; Distinct(p.entries) && Below(p.entries, p.nextOrder)
  {
    hide Valid, Numbered, NormalCount;
    if !Refuses(q, r) {
      NumberedKeeps(r, q.nextOrder);
      var i := Free(q.entries, 0);
      forall j | 0 <= j < |q.entries| && Held(q.entries[j]) ensures q.entries[j].record.sampleId != r.sampleId {
        assert !B1Outbox.Known(q.entries, r.sampleId);
      }
    }
  }

  lemma AdmitKeepsAccount(d: Device, r: Record, call: CallResult, commit: bool)
    requires Inv(d)
    ensures Accounted(Admitted(d, r, call, commit))
  {
    hide Valid, Numbered, NormalCount, B1Outbox.Known, SlotOk, Save, Distinct, Below;
    if !Refuses(d.q, r) {
      var e := Admitted(d, r, call, commit);
      var i := Free(d.q.entries, 0);
      forall x | x in e.admitted && x !in e.completed ensures HasSlot(e.q.entries, x) {
        if x in d.admitted {
          var j :| 0 <= j < |d.q.entries| && d.q.entries[j].active && d.q.entries[j].record == x;
          assert e.q.entries[j] == d.q.entries[j];
        } else {
          assert e.q.entries[i].active;
        }
      }
      assert !Complete(Fresh(Numbered(r, d.q.nextOrder)));
    }
  }

  lemma AdmitKeeps(d: Device, r: Record, call: CallResult, commit: bool)
    requires Inv(d)
    ensures Inv(Admitted(d, r, call, commit))
  {
    hide SlotsOk, Distinct, Below, Accounted, Save, Refuses, Numbered;
    AdmitKeepsSlots(d, r, call, commit);
    AdmitKeepsAccount(d, r, call, commit);
    SlotCounts(d.q.entries, d.flash);
    AdmitKeepsDistinct(d.q, r, true);
    AdmitKeepsDistinct(d.q, r, false);
    AdmitOrder(d.q, r);
  }

  lemma SlotCounts(entries: seq<Entry>, flash: Flash)
    requires SlotsOk(entries, flash)
    ensures |entries| == |flash| == CAPACITY
  {
  }

  lemma AdmitOrder(q: Outbox, r: Record)
    requires q.nextOrder > 0
    ensures forall saved :: Admit(q, r, saved).0.nextOrder > 0
  {
  }

  lemma AckedSlot(e: Entry, id: Text, f: set<Option<Blob>>)
    requires SlotOk(e, f) && Answers(e, id)
    ensures SlotOk(Marked(e, id), f) || Complete(Marked(e, id))
    ensures Complete(Marked(e, id)) ==>
              && (e.record.high == 1 ==> SlotOk(Marked(e, id), f + {None}))
              && (e.record.high == 0 ==> SlotOk(Marked(e, id).(active := false), f))
              && SlotOk(Marked(e, id).(active := false), {None})
  {
    hide Valid, Image;
  }

  lemma AckKeepsSlots(d: Device, id: Text, call: CallResult, commit: bool)
    requires Inv(d)
    ensures var e := Acked(d, id, call, commit); SlotsOk(e.q.entries, e.flash)
  {
    hide Valid, SlotOk, Answers, Marked, Complete, Accounted, Distinct, Below, Empty;
    var i := Answered(d.q.entries, id, 0);
    if i < CAPACITY {
      MarkedRecord(d.q.entries[i], id);
      ActiveAnswer(d.q.entries[i], id);
      AckedSlot(d.q.entries[i], id, d.flash[i]);
      HighIsBit(d, i);
    }
  }

  lemma HighIsBit(d: Device, i: nat)
    requires Inv(d) && i < CAPACITY && d.q.entries[i].active
    ensures d.q.entries[i].record.high <= 1
  {
    assert SlotOk(d.q.entries[i], d.flash[i]);
  }

  lemma MarkedRecord(e: Entry, id: Text)
    ensures Marked(e, id).record == e.record && Marked(e, id).active == e.active
            && Marked(e, id).quarantined == e.quarantined
  {
  }

  lemma ActiveAnswer(e: Entry, id: Text)
    requires Answers(e, id)
    ensures e.active
  {
  }

  lemma ReplacedDistinct(entries: seq<Entry>, next: u64, i: nat, f: Entry)
    requires Distinct(entries) && Below(entries, next) && i < |entries| && Held(entries[i])
    requires f.record == entries[i].record
    ensures Distinct(entries[i := f]) && Below(entries[i := f], next)
  {
  }

  /** Slot i keeps its record; it may be given up only when that record is complete. */
  lemma ReplacedAccount(d: Device, i: nat, f: Entry, e: Device)
    requires Accounted(d) && i < |d.q.entries| && d.q.entries[i].active && f.record == d.q.entries[i].record
    requires e.q.entries == d.q.entries[i := f] && e.admitted == d.admitted
    requires e.completed == if f.active && !Complete(f) then d.completed else d.completed + {f.record}
    ensures Accounted(e)
  {
    hide Complete;
    forall r | r in e.admitted && r !in e.completed ensures HasSlot(e.q.entries, r) {
      var j :| 0 <= j < |d.q.entries| && d.q.entries[j].active && d.q.entries[j].record == r;
      assert e.q.entries[j].active && e.q.entries[j].record == r;
    }
  }

  lemma AckKeepsRest(d: Device, id: Text, call: CallResult, commit: bool)
    requires Inv(d)
    ensures var e := Acked(d, id, call, commit);
            Distinct(e.q.entries) && Below(e.q.entries, e.q.nextOrder) && Accounted(e)
    ensures Acked(d, id, call, commit).q.nextOrder == d.q.nextOrder
  {
    hide SlotOk, Answers, Marked, Complete, Empty, Save, Distinct, Below, Accounted;
    var i := Answered(d.q.entries, id, 0);
    if i < CAPACITY {
      var e := Acked(d, id, call, commit);
      MarkedRecord(d.q.entries[i], id);
      ActiveAnswer(d.q.entries[i], id);
      assert e.q.entries == d.q.entries[i := e.q.entries[i]];
      ReplacedDistinct(d.q.entries, d.q.nextOrder, i, e.q.entries[i]);
      ReplacedAccount(d, i, e.q.entries[i], e);
    }
  }

  /** Entries change in nothing the store depends on. */
  ghost predicate SameHolding(p: seq<Entry>, q: seq<Entry>) {
    |p| == |q| && forall i :: 0 <= i < |p| ==> SameSlot(p[i], q[i])
  }

  predicate SameSlot(p: Entry, q: Entry) {
    && p.record == q.record && p.active == q.active && p.quarantined == q.quarantined
    && p.sampleAcked == q.sampleAcked && p.alertAcked == q.alertAcked
  }

  lemma SameHoldingKeeps(d: Device, q: Outbox)
    requires Inv(d) && SameHolding(d.q.entries, q.entries) && q.nextOrder == d.q.nextOrder
    ensures Inv(d.(q := q))
  {
    hide Valid, Encode;
    forall i | 0 <= i < CAPACITY ensures SlotOk(q.entries[i], d.flash[i]) {
      assert SlotOk(d.q.entries[i], d.flash[i]) && SameSlot(d.q.entries[i], q.entries[i]);
    }
    forall r | r in d.admitted && r !in d.completed ensures HasSlot(q.entries, r) {
      var i :| 0 <= i < |d.q.entries| && d.q.entries[i].active && d.q.entries[i].record == r;
      assert SameSlot(d.q.entries[i], q.entries[i]);
    }
  }

  lemma TimeKeepsHolding(q: Outbox, now: u64)
    ensures SameHolding(q.entries, Tick(q, now).entries) && Tick(q, now).nextOrder == q.nextOrder
    ensures SameHolding(q.entries, Next(q, now).0.entries) && Next(q, now).0.nextOrder == q.nextOrder
  {
    hide SomethingFlies, Best, Ignores;
    var t := Tick(q, now);
    forall i | 0 <= i < |q.entries| ensures SameSlot(q.entries[i], t.entries[i]) {}
    assert SameHolding(q.entries, t.entries);
    var i := Best(t.entries, |t.entries|, now);
    if !Ignores(q, now) && i < |t.entries| {
      LaunchKeepsHolding(t, i, now);
    }
  }

  lemma LaunchKeepsHolding(q: Outbox, i: nat, now: u64)
    requires i < |q.entries|
    ensures SameHolding(q.entries, Launch(q, i, now).0.entries) && Launch(q, i, now).0.nextOrder == q.nextOrder
  {
  }

  lemma StepKeeps(d: Device, e: Event)
    requires Inv(d)
    ensures |d.flash| == |d.q.entries| && Inv(Step(d, e))
  {
    hide SlotsOk, Distinct, Below, Accounted, Admitted, Acked, Rebooted, Tick, Next, SameHolding;
    SlotCounts(d.q.entries, d.flash);
    match e
    case Admission(r, call, commit) => AdmitKeeps(d, r, call, commit);
    case Acknowledgement(id, call, commit) =>
      AckKeepsSlots(d, id, call, commit);
      AckKeepsRest(d, id, call, commit);
    case Clock(now) =>
      TimeKeepsHolding(d.q, now);
      SameHoldingKeeps(d, Tick(d.q, now));
    case Poll(now) =>
      TimeKeepsHolding(d.q, now);
      SameHoldingKeeps(d, Next(d.q, now).0);
    case Crash(contents) =>
      if Possible(d.flash, contents) {
        CrashKeeps(d, contents);
      }
  }

  function NewDevice(): Device {
    Device(Initial(), seq(CAPACITY, _ => {None}), {}, {})
  }

  lemma NewDeviceInv()
    ensures Inv(NewDevice())
  {
  }

  ghost predicate Reaches(d: Device, events: seq<Event>, e: Device)
    decreases |events|
  {
    if events == [] then d == e else |d.flash| == |d.q.entries| && Reaches(Step(d, events[0]), events[1..], e)
  }

  lemma {:induction false} RunKeeps(d: Device, events: seq<Event>, e: Device)
    requires Inv(d) && Reaches(d, events, e)
    ensures Inv(e)
    decreases |events|
  {
    hide Inv, Step;
    if events != [] {
      StepKeeps(d, events[0]);
      RunKeeps(Step(d, events[0]), events[1..], e);
    }
  }

  /**
   * Over every run from a new device, with failing store calls and crashes anywhere: a record of
   * high importance that was admitted and is not completely acknowledged is in the outbox, any
   * reload succeeds and keeps it, and the records held are valid with different orders and samples.
   */
  lemma AdmittedRecordsSurvive(events: seq<Event>, d: Device, contents: seq<Option<Blob>>, r: Record)
    requires Reaches(NewDevice(), events, d) && Possible(d.flash, contents)
    ensures LoadFrom(Initial(), Reads(contents), 0).1 && Distinct(d.q.entries) && Below(d.q.entries, d.q.nextOrder)
    ensures r in d.admitted && r !in d.completed ==>
              HasSlot(d.q.entries, r) && HasSlot(Rebooted(d, contents).q.entries, r)
  {
    hide SlotsOk, Distinct, Below, LoadFrom, HasSlot, Restored, Step;
    NewDeviceInv();
    RunKeeps(NewDevice(), events, d);
    ReloadSucceeds(d, contents);
    CrashKeeps(d, contents);
  }

  /** A load that fails met a slot it could not read, never one of the outbox's own records. */
  lemma LoadFailsOnlyUnread(events: seq<Event>, d: Device, contents: seq<Option<Blob>>, answers: seq<ReadResult>)
    requires Reaches(NewDevice(), events, d) && Possible(d.flash, contents) && |answers| == |contents|
    requires forall i :: 0 <= i < |answers| ==> answers[i] in {Unreadable, ReadOf(contents[i])}
    ensures !LoadFrom(Initial(), answers, 0).1 ==> exists i :: 0 <= i < |answers| && answers[i] == Unreadable
  {
    hide LoadFrom, ReadOf, Inv, Distinct, Below, Step;
    if forall i :: 0 <= i < |answers| ==> answers[i] != Unreadable {
      assert answers == Reads(contents);
      AdmittedRecordsSurvive(events, d, contents, NO_RECORD);
    }
  }
}
