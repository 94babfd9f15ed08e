/** The four-slot receiver of the firmware, and its simulation of the dictionary reassembler. */
module LoraReceiver {
  import opened Bytes
  import opened Bitmask
  import opened Wrappers
  import opened LoraFrame
  import opened Reassembler
  import Crc32

  const SLOTS := 4

  datatype CSlot = CSlot(active: bool, quarantined: bool, meta: Frame, deadline: u64, seen: bv64, data: seq<byte>)

  datatype CState = CState(slots: seq<CSlot>, now: u64, expired: u32, rejected: u32, duplicates: u32)

  const NO_FRAME := Frame(0, 0, 0, 0, Zeros(16), Zeros(16), 0, 0, 0, 0, 0, 0, 0, [])

  const EMPTY_SLOT := CSlot(false, false, NO_FRAME, 0, 0, Zeros(MAX_MESSAGE))

  function Cleared(now: u64): CState {
    CState([EMPTY_SLOT, EMPTY_SLOT, EMPTY_SLOT, EMPTY_SLOT], now, 0, 0, 0)
  }

  predicate SameKey(a: Frame, b: Frame) {
    && a.source == b.source && a.destination == b.destination && a.messageCrc == b.messageCrc
    && a.session == b.session && a.logical == b.logical
  }

  predicate SameMeta(a: Frame, b: Frame) {
    && SameKey(a, b) && a.kind == b.kind && a.zone == b.zone && a.sequence == b.sequence
    && a.generation == b.generation && a.count == b.count && a.total == b.total && a.chunk == b.chunk
  }

  /** The C comparisons are equality of the Python key and metadata tuples. */
  lemma Comparisons(a: Frame, b: Frame)
    ensures SameKey(a, b) <==> KeyOf(a) == KeyOf(b)
    ensures SameMeta(a, b) <==> MetaOf(a) == MetaOf(b)
  {
  }

  function Timeout(s: CSlot, now: u64): CSlot {
    if s.active && now >= s.deadline then s.(active := false) else s
  }

  function TimeoutAll(slots: seq<CSlot>, now: u64): (r: seq<CSlot>)
    ensures |r| == |slots| && forall i :: 0 <= i < |r| ==> r[i] == Timeout(slots[i], now)
  {
    seq(|slots|, i requires 0 <= i < |slots| => Timeout(slots[i], now))
  }

  function TimeoutCount(slots: seq<CSlot>, now: u64): nat {
    if slots == [] then 0
    else
      var n := |slots| - 1;
      TimeoutCount(slots[..n], now) + (if slots[n].active && now >= slots[n].deadline then 1 else 0)
  }

  /** Slot holding the fragment's message, |slots| when there is none; the last match wins. */
  function FindKey(slots: seq<CSlot>, f: Frame, n: nat): (i: nat)
    requires n <= |slots|
    ensures i < n ==> slots[i].active && SameKey(slots[i].meta, f)
    ensures i >= n ==> i == |slots| && forall j :: 0 <= j < n ==> !(slots[j].active && SameKey(slots[j].meta, f))
  {
    if n == 0 then |slots|
    else if slots[n - 1].active && SameKey(slots[n - 1].meta, f) then n - 1
    else FindKey(slots, f, n - 1)
  }

  /** First inactive slot, |slots| when all are in use. */
  function FindFree(slots: seq<CSlot>, n: nat): (i: nat)
    requires n <= |slots|
    ensures n <= i <= |slots|
    ensures i < |slots| ==> !slots[i].active
    ensures i == |slots| ==> forall j :: n <= j < |slots| ==> slots[j].active
    decreases |slots| - n
  {
    if n == |slots| || !slots[n].active then n else FindFree(slots, n + 1)
  }

  predicate WellSized(s: CSlot) {
    |s.data| == MAX_MESSAGE && (s.active ==> s.meta.total <= MAX_MESSAGE)
  }

  predicate AllSized(slots: seq<CSlot>) {
    forall i :: 0 <= i < |slots| ==> WellSized(slots[i])
  }

  function Started(f: Frame, now: u64): CSlot
    requires now <= U64_MAX - TIMEOUT
  {
    EMPTY_SLOT.(active := true, meta := f.(payload := []), deadline := now + TIMEOUT)
  }

  /** The fragment against its slot: None when the slot must be quarantined. */
  function Put(s: CSlot, f: Frame): (r: Option<CSlot>)
    requires Valid(f) && WellSized(s)
    ensures r.Some? ==> WellSized(r.value) && r.value.meta == s.meta && r.value.active == s.active
  {
    if s.quarantined || !SameMeta(s.meta, f) then None
    else
      FragmentFits(f);
      if Tests(s.seen, At(f.index)) then
        if s.data[Start(f)..Start(f) + |f.payload|] != f.payload then None else Some(s)
      else
        Some(s.(data := Patch(s.data, Start(f), f.payload), seen := With(s.seen, At(f.index))))
  }

  function Outcome(t: CSlot, f: Frame, cap: nat): Received
    requires Valid(f) && WellSized(t)
  {
    if t.seen != All(f.count) then Incomplete
    else if cap < f.total || Crc32.Crc(t.data[..f.total]) != f.messageCrc then Rejected
    else Complete(t.data[..f.total], f.(payload := []))
  }

  /** The fragment against slot s, which is written back at index i. */
  function FillAt(st: CState, i: nat, s: CSlot, f: Frame, cap: nat): (CState, Received)
    requires Valid(f) && i < |st.slots| && WellSized(s)
  {
    match Put(s, f)
    case None =>
      (st.(slots := st.slots[i := s.(quarantined := true)], rejected := Bump(st.rejected, 1)), Rejected)
    case Some(t) =>
      var r := Outcome(t, f, cap);
      (st.(slots := st.slots[i := if r == Incomplete then t else t.(active := false)],
           duplicates := if Tests(s.seen, At(f.index)) then Bump(st.duplicates, 1) else st.duplicates,
           rejected := if r == Rejected then Bump(st.rejected, 1) else st.rejected), r)
  }

  /** A decoded fragment, after expiry. */
  function ReceiveFrame(st: CState, f: Frame, cap: nat): (CState, Received)
    requires Valid(f) && AllSized(st.slots)
  {
    var found := FindKey(st.slots, f, |st.slots|);
    var i := if found < |st.slots| then found else FindFree(st.slots, 0);
    if found == |st.slots| && (i == |st.slots| || U64_MAX - st.now < TIMEOUT) then
      (st.(rejected := Bump(st.rejected, 1)), Rejected)
    else
      FillAt(st, i, if found < |st.slots| then st.slots[i] else Started(f, st.now), f, cap)
  }

  function Ticked(st: CState, now: u64): CState {
    st.(slots := TimeoutAll(st.slots, now), now := now, expired := Bump(st.expired, TimeoutCount(st.slots, now)))
  }

  /** al_receive. */
  function Receive(st: CState, wire: seq<byte>, now: u64, cap: nat): (CState, Received)
    requires AllSized(st.slots)
  {
    if now < st.now then (Cleared(now), Rejected)
    else
      var t := Ticked(st, now);
      match Decode(wire)
      case None => (t.(rejected := Bump(t.rejected, 1)), Rejected)
      case Some(f) =>
        CodecIsCanonical(f, wire);
        ReceiveFrame(t, f, cap)
  }

  // ---- abstraction -------------------------------------------------------------------------------

  function AbsSlot(s: CSlot): Slot
    requires WellSized(s) && s.active
  {
    Slot(MetaOf(s.meta), s.deadline, s.data[..s.meta.total], Bits(s.seen), s.quarantined)
  }

  predicate SlotSound(s: CSlot) {
    WellSized(s) && (s.active ==> Sound(KeyOf(s.meta), AbsSlot(s)))
  }

  /** At most one active slot per key. */
  predicate Unique(slots: seq<CSlot>) {
    forall i, j :: 0 <= i < j < |slots| && slots[i].active && slots[j].active ==>
      KeyOf(slots[i].meta) != KeyOf(slots[j].meta)
  }

  predicate Inv(slots: seq<CSlot>) {
    && |slots| == SLOTS && Unique(slots)
    && forall i :: 0 <= i < |slots| ==> SlotSound(slots[i])
  }

  function Abs(slots: seq<CSlot>): map<Key, Slot>
    requires AllSized(slots)
  {
    if slots == [] then map[]
    else
      var n := |slots| - 1;
      if slots[n].active then Abs(slots[..n])[KeyOf(slots[n].meta) := AbsSlot(slots[n])] else Abs(slots[..n])
  }

  /** The dictionary holds exactly the active slots. */
  lemma {:induction false} AbsMembers(slots: seq<CSlot>)
    requires AllSized(slots) && Unique(slots)
    ensures forall i :: 0 <= i < |slots| && slots[i].active ==>
              KeyOf(slots[i].meta) in Abs(slots) && Abs(slots)[KeyOf(slots[i].meta)] == AbsSlot(slots[i])
    ensures forall k :: k in Abs(slots) ==>
              exists i :: 0 <= i < |slots| && slots[i].active && KeyOf(slots[i].meta) == k
  {
    hide KeyOf, AbsSlot;
    if slots != [] {
      AbsMembers(slots[..|slots| - 1]);
    }
  }

  ghost predicate Holds(slots: seq<CSlot>, i: nat, k: Key) {
    i < |slots| && slots[i].active && KeyOf(slots[i].meta) == k
  }

  lemma AbsLookup(slots: seq<CSlot>, k: Key)
    requires AllSized(slots) && Unique(slots)
    ensures k in Abs(slots) <==> exists i: nat :: Holds(slots, i, k)
    ensures forall i: nat :: Holds(slots, i, k) ==> k in Abs(slots) && Abs(slots)[k] == AbsSlot(slots[i])
  {
    hide KeyOf, AbsSlot, Abs;
    AbsMembers(slots);
    if k in Abs(slots) {
      var i: nat :| i < |slots| && slots[i].active && KeyOf(slots[i].meta) == k;
      assert Holds(slots, i, k);
    }
  }

  lemma {:induction false} AbsSize(slots: seq<CSlot>)
    requires AllSized(slots) && Unique(slots)
    ensures |Abs(slots)| <= |slots|
    ensures |Abs(slots)| == |slots| <==> forall i :: 0 <= i < |slots| ==> slots[i].active
  {
    hide KeyOf, AbsSlot, WellSized;
    if slots != [] {
      var n := |slots| - 1;
      AbsSize(slots[..n]);
      if slots[n].active {
        LastIsNew(slots);
      }
    }
  }

  lemma LastIsNew(slots: seq<CSlot>)
    requires AllSized(slots) && Unique(slots) && slots != [] && slots[|slots| - 1].active
    ensures KeyOf(slots[|slots| - 1].meta) !in Abs(slots[..|slots| - 1])
  {
    hide KeyOf, AbsSlot, Abs, WellSized;
    AbsLookup(slots[..|slots| - 1], KeyOf(slots[|slots| - 1].meta));
  }

  /** Expiry of slots is expiry of dictionary entries. */
  lemma AbsOfTimeout(slots: seq<CSlot>, now: u64)
    requires AllSized(slots) && Unique(slots)
    ensures AllSized(TimeoutAll(slots, now)) && Unique(TimeoutAll(slots, now))
    ensures Abs(TimeoutAll(slots, now)) == Live(Abs(slots), now)
  {
    hide KeyOf, Abs;
    var t := TimeoutAll(slots, now);
    forall k ensures k in Abs(t) <==> k in Live(Abs(slots), now)
             ensures k in Abs(t) ==> Abs(t)[k] == Abs(slots)[k] {
      AbsLookup(slots, k);
      AbsLookup(t, k);
      if k in Live(Abs(slots), now) {
        var i :| Holds(slots, i, k);
        assert Holds(t, i, k);
      }
      if k in Abs(t) {
        var i :| Holds(t, i, k);
        assert Holds(slots, i, k);
      }
    }
  }

  lemma {:induction false} TimeoutCounts(slots: seq<CSlot>, now: u64)
    requires AllSized(slots) && Unique(slots)
    ensures TimeoutCount(slots, now) == |Abs(slots).Keys - Live(Abs(slots), now).Keys|
  {
    hide KeyOf, AbsSlot;
    if slots != [] {
      var n := |slots| - 1;
      var m := Abs(slots[..n]);
      TimeoutCounts(slots[..n], now);
      if slots[n].active {
        var k, v := KeyOf(slots[n].meta), AbsSlot(slots[n]);
        LastIsNew(slots);
        AbsDeadline(slots[n]);
        OneMore(m, k, v, now);
      }
    }
  }

  lemma AbsDeadline(s: CSlot)
    requires WellSized(s) && s.active
    ensures AbsSlot(s).deadline == s.deadline
  {
  }

  lemma OneMore(m: map<Key, Slot>, k: Key, v: Slot, now: nat)
    requires k !in m
    ensures var g := m[k := v];
            |g.Keys - Live(g, now).Keys| ==
            |m.Keys - Live(m, now).Keys| + (if now >= v.deadline then 1 else 0)
  {
    var g := m[k := v];
    if now >= v.deadline {
      assert g.Keys - Live(g, now).Keys == m.Keys - Live(m, now).Keys + {k};
    } else {
      assert g.Keys - Live(g, now).Keys == m.Keys - Live(m, now).Keys;
    }
  }

  /** Writing a slot whose key nobody else holds is writing that dictionary entry. */
  lemma AbsOfWrite(slots: seq<CSlot>, i: nat, t: CSlot)
    requires AllSized(slots) && Unique(slots) && i < |slots| && WellSized(t) && t.active
    requires forall j :: 0 <= j < |slots| && j != i && slots[j].active ==> KeyOf(slots[j].meta) != KeyOf(t.meta)
    requires slots[i].active ==> KeyOf(slots[i].meta) == KeyOf(t.meta)
    ensures Unique(slots[i := t]) && AllSized(slots[i := t])
    ensures Abs(slots[i := t]) == Abs(slots)[KeyOf(t.meta) := AbsSlot(t)]
  {
    hide KeyOf, AbsSlot, Abs, WellSized;
    var s, key := slots[i := t], KeyOf(t.meta);
    forall k ensures k in Abs(s) <==> k in Abs(slots) || k == key
             ensures k in Abs(s) ==> Abs(s)[k] == if k == key then AbsSlot(t) else Abs(slots)[k] {
      AbsLookup(slots, k);
      AbsLookup(s, k);
      assert Holds(s, i, key);
      if k in Abs(slots) && k != key {
        var j :| Holds(slots, j, k);
        assert Holds(s, j, k);
      }
      if k in Abs(s) && k != key {
        var j :| Holds(s, j, k);
        assert Holds(slots, j, k);
      }
    }
  }

  /** Freeing a slot is removing that dictionary entry. */
  lemma AbsOfFree(slots: seq<CSlot>, i: nat, t: CSlot, k0: Key)
    requires AllSized(slots) && Unique(slots) && i < |slots| && WellSized(t) && !t.active
    requires forall j :: 0 <= j < |slots| && j != i && slots[j].active ==> KeyOf(slots[j].meta) != k0
    requires slots[i].active ==> KeyOf(slots[i].meta) == k0
    ensures Unique(slots[i := t]) && AllSized(slots[i := t])
    ensures Abs(slots[i := t]) == Abs(slots) - {k0}
  {
    hide KeyOf, AbsSlot, Abs, WellSized;
    var s := slots[i := t];
    forall k ensures k in Abs(s) <==> k in Abs(slots) && k != k0
             ensures k in Abs(s) ==> Abs(s)[k] == Abs(slots)[k] {
      AbsLookup(slots, k);
      AbsLookup(s, k);
      if k in Abs(slots) && k != k0 {
        var j :| Holds(slots, j, k);
        assert Holds(s, j, k);
      }
      if k in Abs(s) {
        var j :| Holds(s, j, k);
        assert Holds(slots, j, k);
      }
    }
  }

  // ---- one fragment ------------------------------------------------------------------------------

  lemma PutIsStore(s: CSlot, f: Frame)
    requires Valid(f) && SlotSound(s) && s.active && KeyOf(s.meta) == KeyOf(f)
    ensures Put(s, f) == None <==> Store(AbsSlot(s), f) == None
    ensures Put(s, f).Some? ==> AbsSlot(Put(s, f).value) == Store(AbsSlot(s), f).value
    ensures Tests(s.seen, At(f.index)) <==> f.index in AbsSlot(s).seen
  {
    hide Tests, With, At, Bits;
    Comparisons(s.meta, f);
    FragmentFits(f);
    SetBit(s.seen, f.index);
    if MetaOf(s.meta) == MetaOf(f) {
      PatchPrefix(s.data, s.meta.total, Start(f), f.payload);
    }
  }

  lemma PatchPrefix(s: seq<byte>, n: nat, at: nat, x: seq<byte>)
    requires at + |x| <= n <= |s|
    ensures Patch(s, at, x)[..n] == Patch(s[..n], at, x)
    ensures s[..n][at..at + |x|] == s[at..at + |x|]
  {
  }

  ghost predicate Agree(c: Received, a: Received) {
    match c
    case Complete(message, meta) => a == Complete(message, MetaOf(meta))
    case _ => c == a
  }

  lemma OutcomeIsFinish(t: CSlot, f: Frame, cap: nat)
    requires Valid(f) && SlotSound(t) && t.active && MetaOf(t.meta) == MetaOf(f) && cap >= MAX_MESSAGE
    ensures Agree(Outcome(t, f, cap), Finish(AbsSlot(t), f))
    ensures Outcome(t, f, cap) == Incomplete <==> |AbsSlot(t).seen| != f.count
  {
    hide Bits, All, Crc32.Crc;
    FullMask(t.seen, f.count);
  }

  lemma StartedIsFresh(f: Frame, now: u64)
    requires Valid(f) && now <= U64_MAX - TIMEOUT
    ensures SlotSound(Started(f, now)) && AbsSlot(Started(f, now)) == Fresh(f, now)
  {
    hide Bits;
    NoBits();
    assert Zeros(MAX_MESSAGE)[..f.total] == Zeros(f.total);
  }

  lemma StoreKeepsMeta(s: CSlot, f: Frame)
    requires Valid(f) && SlotSound(s) && s.active && KeyOf(s.meta) == KeyOf(f) && Put(s, f).Some?
    ensures SlotSound(Put(s, f).value) && MetaOf(s.meta) == MetaOf(f)
  {
    hide Tests, With, At, Bits, CeilDiv;
    Comparisons(s.meta, f);
    PutIsStore(s, f);
  }

  // ---- simulation --------------------------------------------------------------------------------

  /** A counter of 32 bits after n events. */
  predicate Counts(c: u32, n: nat) {
    c == n % 0x1_0000_0000
  }

  /** The firmware receiver and the dictionary reassembler hold the same partial messages. */
  ghost predicate Rel(c: CState, a: State) {
    && Inv(c.slots) && a.slots == Abs(c.slots)
    && Counts(c.expired, a.expired) && Counts(c.duplicates, a.duplicates)
  }

  lemma InvSized(slots: seq<CSlot>)
    requires Inv(slots)
    ensures AllSized(slots)
  {
  }

  /** The slot the firmware picks is the entry the dictionary picks, and its key is nobody else's. */
  lemma PickedSlot(st: CState, f: Frame)
    requires Valid(f) && Inv(st.slots)
    ensures var found := FindKey(st.slots, f, SLOTS);
            && (found < SLOTS <==> KeyOf(f) in Abs(st.slots))
            && (found < SLOTS ==> Abs(st.slots)[KeyOf(f)] == AbsSlot(st.slots[found]))
            && (found < SLOTS ==> KeyOf(st.slots[found].meta) == KeyOf(f))
            && (forall j :: 0 <= j < SLOTS && j != found && st.slots[j].active ==> KeyOf(st.slots[j].meta) != KeyOf(f))
    ensures FindFree(st.slots, 0) == SLOTS <==> |Abs(st.slots)| >= SLOTS
  {
    hide Abs, AbsSlot, KeyOf;
    var found := FindKey(st.slots, f, SLOTS);
    forall j | 0 <= j < SLOTS ensures SameKey(st.slots[j].meta, f) <==> KeyOf(st.slots[j].meta) == KeyOf(f) {
      Comparisons(st.slots[j].meta, f);
    }
    AbsLookup(st.slots, KeyOf(f));
    AbsSize(st.slots);
    if found < SLOTS {
      assert Holds(st.slots, found, KeyOf(f));
    }
  }

  /** The picked slot is owned by the key of f, or free. */
  ghost predicate Picked(slots: seq<CSlot>, i: nat, k: Key) {
    && i < |slots| && (slots[i].active ==> KeyOf(slots[i].meta) == k)
    && forall j :: 0 <= j < |slots| && j != i && slots[j].active ==> KeyOf(slots[j].meta) != k
  }

  lemma WriteKeepsInv(slots: seq<CSlot>, i: nat, t: CSlot, k: Key)
    requires Inv(slots) && Picked(slots, i, k) && SlotSound(t) && (t.active ==> KeyOf(t.meta) == k)
    ensures Inv(slots[i := t]) && AllSized(slots)
    ensures Abs(slots[i := t]) == if t.active then Abs(slots)[k := AbsSlot(t)] else Abs(slots) - {k}
  {
    hide KeyOf, AbsSlot, Abs, Sound;
    InvSized(slots);
    if t.active {
      AbsOfWrite(slots, i, t);
    } else {
      AbsOfFree(slots, i, t, k);
    }
  }

  lemma Quarantine(s: CSlot)
    requires SlotSound(s) && s.active
    ensures SlotSound(s.(quarantined := true))
    ensures AbsSlot(s.(quarantined := true)) == AbsSlot(s).(quarantined := true)
  {
  }

  lemma SoundSized(s: CSlot)
    requires SlotSound(s)
    ensures WellSized(s)
  {
  }

  lemma Release(s: CSlot)
    requires SlotSound(s)
    ensures SlotSound(s.(active := false))
  {
  }

  lemma BumpTracks(c: u32, n: nat)
    requires Counts(c, n)
    ensures Counts(Bump(c, 1), n + 1)
  {
  }

  lemma FillSimulates(c: CState, a: State, i: nat, s: CSlot, f: Frame, cap: nat)
    requires Valid(f) && Rel(c, a) && Picked(c.slots, i, KeyOf(f)) && cap >= MAX_MESSAGE
    requires SlotSound(s) && s.active && KeyOf(s.meta) == KeyOf(f)
    ensures var (c', rc) := FillAt(c, i, s, f, cap);
            var (a', ra) := Fill(a, AbsSlot(s), f);
            Rel(c', a') && Agree(rc, ra) && c'.now == c.now
  {
    hide Abs, AbsSlot, KeyOf, MetaOf, Sound, Put, Store, Outcome, Finish, Valid, SlotSound, Bump, Tests, Inv, Picked;
    var k := KeyOf(f);
    SoundSized(s);
    PutIsStore(s, f);
    BumpTracks(c.duplicates, a.duplicates);
    if Put(s, f) == None {
      var t := s.(quarantined := true);
      Quarantine(s);
      WriteKeepsInv(c.slots, i, t, k);
    } else {
      var t := Put(s, f).value;
      StoreKeepsMeta(s, f);
      OutcomeIsFinish(t, f, cap);
      Release(t);
      var t' := if Outcome(t, f, cap) == Incomplete then t else t.(active := false);
      WriteKeepsInv(c.slots, i, t', k);
    }
  }

  /** One fragment: same answer, same partial messages afterwards. */
  lemma FrameSimulates(c: CState, a: State, f: Frame, cap: nat)
    requires Valid(f) && Rel(c, a) && c.now <= U64_MAX - TIMEOUT && cap >= MAX_MESSAGE
    requires Invariant(a.slots)
    ensures var (c', rc) := ReceiveFrame(c, f, cap);
            var (a', ra) := FeedFrame(a, CAPACITY, f, c.now);
            Rel(c', a') && Agree(rc, ra) && c'.now == c.now
  {
    hide Abs, AbsSlot, KeyOf, MetaOf, Sound, FillAt, Fill, Started, Fresh, Valid, SlotSound;
    PickedSlot(c, f);
    var k := KeyOf(f);
    var found := FindKey(c.slots, f, SLOTS);
    var i := if found < SLOTS then found else FindFree(c.slots, 0);
    if found == SLOTS && i == SLOTS {
    } else {
      var s := if found < SLOTS then c.slots[i] else Started(f, c.now);
      StartedIsFresh(f, c.now);
      StartedKey(f, c.now);
      assert SlotSound(s) && s.active && KeyOf(s.meta) == k;
      SoundSized(s);
      assert AbsSlot(s) == SlotFor(a.slots, f, c.now);
      FillSimulates(c, a, i, s, f, cap);
    }
  }

  lemma StartedKey(f: Frame, now: u64)
    requires Valid(f) && now <= U64_MAX - TIMEOUT
    ensures Started(f, now).active && KeyOf(Started(f, now).meta) == KeyOf(f)
  {
  }

  /** al_receive with room for any message answers like the dictionary reassembler without sessions. */
  lemma ReceiveSimulates(c: CState, a: State, wire: seq<byte>, now: u64, cap: nat)
    requires Rel(c, a) && a.lastNow in {None, Some(c.now as nat)} && Invariant(a.slots)
    requires c.now <= now <= U64_MAX - TIMEOUT && cap >= MAX_MESSAGE
    ensures AllSized(c.slots)
    ensures var (c', rc) := Receive(c, wire, now, cap);
            var (a', ra) := FeedWire(a, CAPACITY, map[], wire, now);
            Rel(c', a') && Agree(rc, ra) && c'.now == now && a'.lastNow == Some(now as nat)
  {
    hide Rel, Ticked, Expired, ReceiveFrame, FeedFrame, Decode, Encode, Valid, Bump, Invariant;
    RelSized(c, a);
    TickSimulates(c, a, now);
    ExpiredKeeps(a, now);
    TickSetsClock(c, a, now);
    var t := Ticked(c, now);
    if Decode(wire).Some? {
      var f := Decode(wire).value;
      CodecIsCanonical(f, wire);
      FrameSimulates(t, Expired(a, now), f, cap);
      FeedFrameKeeps(Expired(a, now), CAPACITY, f, now);
    } else {
      RelIgnoresRejections(t, Expired(a, now));
    }
  }

  lemma TickSetsClock(c: CState, a: State, now: u64)
    requires AllSized(c.slots)
    ensures Ticked(c, now).now == now && Expired(a, now).lastNow == Some(now as nat)
  {
    hide TimeoutAll, TimeoutCount, Live, Bump;
  }

  lemma RelIgnoresRejections(c: CState, a: State)
    requires Rel(c, a)
    ensures forall n: u32 :: Rel(c.(rejected := n), a)
  {
    hide Abs, Inv;
  }

  lemma TickSlots(slots: seq<CSlot>, now: u64)
    requires Inv(slots)
    ensures AllSized(slots) && Inv(TimeoutAll(slots, now))
    ensures Abs(TimeoutAll(slots, now)) == Live(Abs(slots), now)
    ensures TimeoutCount(slots, now) == |Abs(slots).Keys - Live(Abs(slots), now).Keys|
  {
    hide Inv, Abs, Live, TimeoutAll, TimeoutCount;
    InvSized(slots);
    InvUnique(slots);
    AbsOfTimeout(slots, now);
    TimeoutCounts(slots, now);
    TimeoutKeepsInv(slots, now);
  }

  lemma TickSimulates(c: CState, a: State, now: u64)
    requires Rel(c, a)
    ensures AllSized(c.slots) && Rel(Ticked(c, now), Expired(a, now))
  {
    hide Inv, AllSized, Abs, Live, Bump, Counts, TimeoutAll, TimeoutCount;
    TickSlots(c.slots, now);
    BumpAdds(c.expired, a.expired, TimeoutCount(c.slots, now));
  }

  lemma TimeoutKeepsInv(slots: seq<CSlot>, now: u64)
    requires Inv(slots)
    ensures Inv(TimeoutAll(slots, now))
  {
    hide Sound, KeyOf, AbsSlot;
    forall i | 0 <= i < SLOTS ensures SlotSound(Timeout(slots[i], now)) {
      Release(slots[i]);
    }
  }

  lemma BumpAdds(c: u32, m: nat, n: nat)
    requires Counts(c, m)
    ensures Counts(Bump(c, n), m + n)
  {
  }

  lemma InvUnique(slots: seq<CSlot>)
    requires Inv(slots)
    ensures Unique(slots)
  {
  }

  // ---- whole runs --------------------------------------------------------------------------------

  datatype Event = Event(wire: seq<byte>, now: u64)

  ghost predicate Nondecreasing(events: seq<Event>, from: u64) {
    events != [] ==> from <= events[0].now <= U64_MAX - TIMEOUT && Nondecreasing(events[1..], events[0].now)
  }

  function RunC(c: CState, events: seq<Event>, cap: nat): seq<Received>
    requires AllSized(c.slots)
    decreases |events|
  {
    if events == [] then []
    else
      var (c', r) := Receive(c, events[0].wire, events[0].now, cap);
      ReceiveSized(c, events[0].wire, events[0].now, cap);
      [r] + RunC(c', events[1..], cap)
  }

  lemma ReceiveSized(c: CState, wire: seq<byte>, now: u64, cap: nat)
    requires AllSized(c.slots)
    ensures AllSized(Receive(c, wire, now, cap).0.slots)
  {
    hide Decode, Valid, ReceiveFrame;
    if Decode(wire).Some? {
      CodecIsCanonical(Decode(wire).value, wire);
      FrameSized(Ticked(c, now), Decode(wire).value, cap);
    }
  }

  lemma FrameSized(c: CState, f: Frame, cap: nat)
    requires AllSized(c.slots) && Valid(f)
    ensures AllSized(ReceiveFrame(c, f, cap).0.slots)
  {
    hide Put, Outcome, Valid;
    ValidTotal(f);
  }

  lemma ValidTotal(f: Frame)
    requires Valid(f)
    ensures f.total <= MAX_MESSAGE
  {
  }

  function RunA(a: State, events: seq<Event>): (r: seq<Received>)
    requires Invariant(a.slots)
    decreases |events|
  {
    if events == [] then []
    else
      var (a', r) := FeedWire(a, CAPACITY, map[], events[0].wire, events[0].now);
      FeedWireKeeps(a, CAPACITY, map[], events[0].wire, events[0].now);
      [r] + RunA(a', events[1..])
  }

  ghost predicate AllAgree(c: seq<Received>, a: seq<Received>) {
    |c| == |a| && forall i :: 0 <= i < |c| ==> Agree(c[i], a[i])
  }

  /** Over arbitrary wires and a clock that does not go back, both receivers answer alike forever. */
  lemma {:induction false} RunsAgree(c: CState, a: State, events: seq<Event>, cap: nat)
    requires Rel(c, a) && a.lastNow in {None, Some(c.now as nat)} && Invariant(a.slots)
    requires Nondecreasing(events, c.now) && cap >= MAX_MESSAGE
    ensures AllSized(c.slots) && AllAgree(RunC(c, events, cap), RunA(a, events))
    decreases |events|
  {
    hide Rel, Receive, FeedWire, Invariant;
    if events != [] {
      var e := events[0];
      ReceiveSimulates(c, a, e.wire, e.now, cap);
      ReceiveSized(c, e.wire, e.now, cap);
      FeedWireKeeps(a, CAPACITY, map[], e.wire, e.now);
      RunsAgree(Receive(c, e.wire, e.now, cap).0, FeedWire(a, CAPACITY, map[], e.wire, e.now).0, events[1..], cap);
    } else {
      RelSized(c, a);
    }
  }

  lemma RelSized(c: CState, a: State)
    requires Rel(c, a)
    ensures AllSized(c.slots)
  {
  }

  lemma {:induction false} NoneActive(slots: seq<CSlot>)
    requires AllSized(slots) && forall i :: 0 <= i < |slots| ==> !slots[i].active
    ensures Abs(slots) == map[]
  {
    if slots != [] {
      NoneActive(slots[..|slots| - 1]);
    }
  }

  lemma InitialStatesRelated()
    ensures Rel(Cleared(0), NOTHING_HELD)
  {
    NoneActive(Cleared(0).slots);
  }

  lemma CountNone(c: u32)
    ensures c == Bump(c, TimeoutCount([], 0)) && TimeoutCount([], 0) == 0
    ensures forall now: u64 :: TimeoutCount([], now) == 0
  {
  }

  lemma CountOne(slots: seq<CSlot>, i: nat, now: u64, c: u32)
    requires i < |slots|
    ensures var due := slots[i].active && now >= slots[i].deadline;
            var n := TimeoutCount(slots[..i], now);
            && Timeout(slots[i], now) == (if due then slots[i].(active := false) else slots[i])
            && TimeoutCount(slots[..i + 1], now) == (if due then n + 1 else n)
            && Bump(c, TimeoutCount(slots[..i + 1], now)) == (if due then Bump(Bump(c, n), 1) else Bump(c, n))
  {
    assert slots[..i + 1][..i] == slots[..i];
  }

  lemma TimeoutAllSized(slots: seq<CSlot>, now: u64)
    requires AllSized(slots)
    ensures AllSized(TimeoutAll(slots, now))
  {
  }

  /** Return value, length, metadata and output buffer that report r. */
  ghost predicate Reported(r: Received, status: int, length: nat, meta: Frame, was: seq<byte>, now: seq<byte>) {
    match r
    case Rejected => status == -1 && now == was
    case Incomplete => status == 0 && now == was
    case Complete(message, last) =>
      status == 1 && length == |message| && length <= |was| && meta == last && now == Patch(was, 0, message)
  }

  // ---- the C receiver ------------------------------------------------------------------------------

  class Receiver {
    const slots: array<CSlot>
    var now: u64
    var expired: u32
    var rejected: u32
    var duplicates: u32

    ghost predicate Valid()
      reads this, slots
    {
      slots.Length == SLOTS && AllSized(slots[..])
    }

    ghost function View(): CState
      reads this, slots
    {
      CState(slots[..], now, expired, rejected, duplicates)
    }

    constructor ()
      ensures Valid() && View() == Cleared(0) && fresh(slots)
    {
      var s := new CSlot[SLOTS](_ => EMPTY_SLOT);
      slots := s;
      now, expired, rejected, duplicates := 0, 0, 0, 0;
      new;
      assert slots[..] == Cleared(0).slots;
    }

    /** al_receiver_init, with the clock that made it necessary. */
    method Clear(now: u64)
      requires Valid()
      modifies this, slots
      ensures Valid() && View() == Cleared(now)
    {
      for i := 0 to SLOTS
        invariant forall j :: 0 <= j < i ==> slots[j] == EMPTY_SLOT
      {
        slots[i] := EMPTY_SLOT;
      }
      this.now, expired, rejected, duplicates := now, 0, 0, 0;
      assert slots[..] == Cleared(now).slots;
    }

    method Tick(now: u64)
      requires Valid()
      modifies this, slots
      ensures Valid() && View() == Ticked(old(View()), now)
    {
      hide Timeout, TimeoutCount, Bump;
      ghost var was, before := slots[..], expired;
      CountNone(before);
      for i := 0 to SLOTS
        invariant forall j :: 0 <= j < i ==> slots[j] == Timeout(was[j], now)
        invariant forall j :: i <= j < SLOTS ==> slots[j] == was[j]
        invariant expired == Bump(before, TimeoutCount(was[..i], now))
        invariant this.now == old(this.now) && rejected == old(rejected) && duplicates == old(duplicates)
      {
        CountOne(was, i, now, before);
        if slots[i].active && now >= slots[i].deadline {
          slots[i] := slots[i].(active := false);
          expired := Bump(expired, 1);
        }
      }
      this.now := now;
      assert was[..SLOTS] == was;
      assert slots[..] == TimeoutAll(was, now);
      TimeoutAllSized(was, now);
    }

    /** The slot of the fragment's message and the first free slot; SLOTS stands for none. */
    method Search(f: Frame) returns (found: nat, free: nat)
      requires Valid()
      ensures found == FindKey(slots[..], f, SLOTS) && free == FindFree(slots[..], 0)
    {
      found, free := SLOTS, SLOTS;
      for i := 0 to SLOTS
        invariant found == FindKey(slots[..], f, i)
        invariant free <= SLOTS
        invariant if free < i then free == FindFree(slots[..], 0)
                  else free == SLOTS && FindFree(slots[..], 0) == FindFree(slots[..], i)
      {
        if slots[i].active && SameKey(slots[i].meta, f) {
          found := i;
        } else if !slots[i].active && free == SLOTS {
          free := i;
        }
      }
    }

    /** al_receive: 1 with the message in out, 0 while fragments are missing, -1 when rejected. */
    method AlReceive(wire: array<byte>, n: nat, now: u64, out: array<byte>)
      returns (status: int, length: nat, meta: Frame)
      requires Valid() && n <= wire.Length && out != wire
      modifies this, slots, out
      ensures Valid()
      ensures var (st, r) := Receive(old(View()), old(wire[..n]), now, out.Length);
              View() == st && Reported(r, status, length, meta, old(out[..]), out[..])
    {
      hide Decode, TimeoutAll, LoraFrame.Valid, ReceiveFrame, Patch, Bump;
      length, meta := 0, NO_FRAME;
      if now < this.now {
        Clear(now);
        return -1, 0, NO_FRAME;
      }
      Tick(now);
      var decoded := AlDecode(wire, n);
      if decoded == None {
        rejected := Bump(rejected, 1);
        return -1, 0, NO_FRAME;
      }
      CodecIsCanonical(decoded.value, wire[..n]);
      status, length, meta := Accept(decoded.value, out);
    }

    /** What al_receive does with a decoded fragment. */
    method Accept(f: Frame, out: array<byte>) returns (status: int, length: nat, meta: Frame)
      requires Valid() && LoraFrame.Valid(f)
      modifies this, slots, out
      ensures Valid()
      ensures var (st, r) := ReceiveFrame(old(View()), f, out.Length);
              View() == st && Reported(r, status, length, meta, old(out[..]), out[..])
    {
      hide LoraFrame.Valid, Patch, Bump, FillAt, Started;
      var found, free := Search(f);
      var i := found;
      ghost var before := slots[..];
      if found == SLOTS {
        if free == SLOTS || U64_MAX - now < TIMEOUT {
          rejected := Bump(rejected, 1);
          return -1, 0, NO_FRAME;
        }
        i := free;
        slots[i] := Started(f, now);
        StartedIsFresh(f, now);
        SoundSized(slots[i]);
        assert slots[..] == before[i := slots[i]];
      }
      assert slots[i] == slots[..][i];
      FillIgnoresOldSlot(CState(before, now, expired, rejected, duplicates), i, slots[i], f, out.Length);
      status, length, meta := Merge(i, f, out);
    }

    /** The fragment against slot i: quarantine, repetition, storage, completion. */
    method Merge(i: nat, f: Frame, out: array<byte>) returns (status: int, length: nat, meta: Frame)
      requires Valid() && LoraFrame.Valid(f) && i < SLOTS
      modifies this, slots, out
      ensures Valid()
      ensures var (st, r) := FillAt(old(View()), i, old(slots[i]), f, out.Length);
              View() == st && Reported(r, status, length, meta, old(out[..]), out[..])
    {
      hide LoraFrame.Valid, Put, Outcome, Bump, Tests, At, Reported;
      ghost var before := slots[..];
      var s := slots[i];
      var t := Stored(s, f);
      ValidIndex(f);
      if t == None {
        slots[i] := s.(quarantined := true);
        assert slots[..] == before[i := slots[i]];
        rejected := Bump(rejected, 1);
        NothingReported(out[..]);
        return -1, 0, NO_FRAME;
      }
      if Tests(s.seen, At(f.index)) {
        duplicates := Bump(duplicates, 1);
      }
      status, length, meta := Finish(i, t.value, f, out);
    }

    /** The slot with the fragment in place; None when the two contradict each other. */
    method Stored(s: CSlot, f: Frame) returns (t: Option<CSlot>)
      requires LoraFrame.Valid(f) && WellSized(s)
      ensures t == Put(s, f)
    {
      hide LoraFrame.Valid, Patch, With, Tests, At;
      FragmentFits(f);
      ValidTotal(f);
      ValidIndex(f);
      if s.quarantined || !SameMeta(s.meta, f) {
        return None;
      }
      var offset := Start(f);
      var bit := At(f.index);
      if !Tests(s.seen, bit) {
        return Some(s.(data := Patch(s.data, offset, f.payload), seen := With(s.seen, bit)));
      }
      t := if s.data[offset..offset + |f.payload|] != f.payload then None else Some(s);
    }

    /** The slot written back; a complete message is released and goes out when its checksum agrees. */
    method Finish(i: nat, t: CSlot, f: Frame, out: array<byte>) returns (status: int, length: nat, meta: Frame)
      requires Valid() && LoraFrame.Valid(f) && i < SLOTS && WellSized(t)
      modifies this, slots, out
      ensures Valid()
      ensures var r := Outcome(t, f, out.Length);
              && View() == old(View()).(slots := old(slots[..])[i := if r == Incomplete then t
                                                                     else t.(active := false)],
                                        rejected := if r == Rejected then Bump(old(rejected), 1) else old(rejected))
              && Reported(r, status, length, meta, old(out[..]), out[..])
    {
      hide LoraFrame.Valid, Patch, Bump, All, Crc32.Crc;
      ghost var before := slots[..];
      ValidTotal(f);
      ValidIndex(f);
      slots[i] := t;
      assert slots[..] == before[i := t];
      if t.seen != All(f.count) {
        return 0, 0, NO_FRAME;
      }
      slots[i] := t.(active := false);
      assert slots[..] == before[i := slots[i]];
      if out.Length < f.total || Crc32.Crc(t.data[..f.total]) != f.messageCrc {
        rejected := Bump(rejected, 1);
        return -1, 0, NO_FRAME;
      }
      Copy(out, 0, t.data[..f.total]);
      status, length, meta := 1, f.total, f.(payload := []);
    }
  }

  lemma NothingReported(out: seq<byte>)
    ensures Reported(Rejected, -1, 0, NO_FRAME, out, out)
  {
  }

  lemma FillIgnoresOldSlot(st: CState, i: nat, s: CSlot, f: Frame, cap: nat)
    requires Valid(f) && i < |st.slots| && WellSized(s)
    ensures FillAt(st.(slots := st.slots[i := s]), i, s, f, cap) == FillAt(st, i, s, f, cap)
  {
    hide Put, Outcome, Bump, Tests;
    var t := FillAt(st, i, s, f, cap).0.slots[i];
    assert st.slots[i := s][i := t] == st.slots[i := t];
  }

  lemma ValidIndex(f: Frame)
    requires Valid(f)
    ensures f.index < f.count && f.count <= 64
  {
  }
}
