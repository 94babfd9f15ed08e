/** What reassembly guarantees over whole runs: soundness, quarantine, and completeness. */
module ReassemblyTheorems {
  import opened Bytes
  import opened Bitmask
  import opened Wrappers
  import opened LoraFrame
  import opened Reassembler
  import opened LoraReceiver
  import Crc32

  // ---- soundness: completed bytes come from accepted fragments of one message ----------------------

  /** Fragment g of the message described by meta is in place in the buffer. */
  ghost predicate InPlace(g: Frame, meta: Frame, i: nat, buffer: seq<byte>) {
    && Valid(g) && MetaOf(g) == meta && g.index == i
    && Start(g) + |g.payload| <= |buffer| && buffer[Start(g)..Start(g) + |g.payload|] == g.payload
  }

  ghost predicate Covered(i: nat, meta: Frame, heard: set<Frame>, buffer: seq<byte>) {
    exists g :: g in heard && InPlace(g, meta, i, buffer)
  }

  ghost predicate Backed(s: Slot, heard: set<Frame>) {
    forall i :: i in s.seen ==> Covered(i, s.meta, heard, s.payload)
  }

  ghost predicate AllBacked(slots: map<Key, Slot>, heard: set<Frame>) {
    forall k :: k in slots ==> Backed(slots[k], heard)
  }

  /** All of a completed message, fragment by fragment, was heard with the reported metadata. */
  ghost predicate Assembled(r: Received, heard: set<Frame>) {
    r.Complete? ==>
      && |r.message| == r.meta.total && Crc32.Crc(r.message) == r.meta.messageCrc
      && 0 < r.meta.chunk && r.meta.count == CeilDiv(r.meta.total, r.meta.chunk)
      && forall i :: i in Below(r.meta.count) ==> Covered(i, r.meta, heard, r.message)
  }

  lemma StoreKeepsBacked(s: Slot, f: Frame, heard: set<Frame>)
    requires Valid(f) && Sound(KeyOf(f), s) && Backed(s, heard) && Store(s, f).Some?
    ensures Backed(Store(s, f).value, heard + {f})
  {
    hide Valid, Sound, Patch;
    var t := Store(s, f).value;
    SlotRoom(f, s);
    forall i | i in t.seen ensures Covered(i, t.meta, heard + {f}, t.payload) {
      if i in s.seen {
        var g :| g in heard && InPlace(g, s.meta, i, s.payload);
        if f.index !in s.seen {
          FragmentsApart(f, g);
          PatchApart(s.payload, Start(f), f.payload, Start(g), Start(g) + |g.payload|);
        }
        assert g in heard + {f};
      } else {
        PatchApart(s.payload, Start(f), f.payload, 0, 0);
        assert InPlace(f, t.meta, i, t.payload);
      }
    }
  }

  lemma BackedGrows(s: Slot, heard: set<Frame>, more: set<Frame>)
    requires Backed(s, heard) && heard <= more
    ensures Backed(s, more)
  {
    hide InPlace;
    forall i | i in s.seen ensures Covered(i, s.meta, more, s.payload) {
      var g :| g in heard && InPlace(g, s.meta, i, s.payload);
      assert g in more;
    }
  }

  lemma FinishAssembled(t: Slot, f: Frame, heard: set<Frame>)
    requires Valid(f) && Sound(KeyOf(f), t) && t.meta == MetaOf(f) && Backed(t, heard)
    ensures Assembled(Finish(t, f), heard)
  {
    hide Covered, Crc32.Crc, CeilDiv, Valid;
    if |t.seen| == f.count {
      SubsetOfSameSize(t.seen, Below(f.count));
    }
  }

  /** The fragment counts as heard when the receiver did not reject it. */
  function Accepted(f: Frame, r: Received): set<Frame> {
    if r.Rejected? then {} else {f}
  }

  lemma FillKeepsBacked(st: State, s: Slot, f: Frame, heard: set<Frame>)
    requires Valid(f) && Sound(KeyOf(f), s) && AllBacked(st.slots, heard) && Backed(s, heard)
    ensures var (st', r) := Fill(st, s, f);
            AllBacked(st'.slots, heard + Accepted(f, r)) && Assembled(r, heard + Accepted(f, r))
  {
    hide Backed, Sound, Valid, Assembled, Crc32.Crc;
    AllBackedGrows(st.slots, heard, heard + {f});
    QuarantineKeepsBacked(s, heard);
    RejectedIsAssembled(heard);
    assert heard + {} == heard;
    if Store(s, f).Some? {
      StoreKeepsBacked(s, f, heard);
      FinishAssembled(Store(s, f).value, f, heard + {f});
    }
  }

  lemma RejectedIsAssembled(heard: set<Frame>)
    ensures Assembled(Rejected, heard)
  {
  }

  lemma QuarantineKeepsBacked(s: Slot, heard: set<Frame>)
    requires Backed(s, heard)
    ensures Backed(s.(quarantined := true), heard)
  {
    hide InPlace;
  }

  lemma AllBackedGrows(slots: map<Key, Slot>, heard: set<Frame>, more: set<Frame>)
    requires AllBacked(slots, heard) && heard <= more
    ensures AllBacked(slots, more)
  {
    hide Backed;
    forall k | k in slots ensures Backed(slots[k], more) {
      BackedGrows(slots[k], heard, more);
    }
  }

  /** The fragment of a wire that was answered with r, if it was accepted. */
  function Heard(wire: seq<byte>, r: Received): set<Frame> {
    match Decode(wire) case Some(f) => Accepted(f, r) case None => {}
  }

  lemma ExpiredKeepsBacked(st: State, now: nat, heard: set<Frame>)
    requires AllBacked(st.slots, heard)
    ensures AllBacked(Expired(st, now).slots, heard)
  {
    hide Backed;
  }

  lemma FrameKeepsBacked(st: State, f: Frame, now: nat, heard: set<Frame>)
    requires Valid(f) && Invariant(st.slots) && AllBacked(st.slots, heard)
    ensures var (st', r) := FeedFrame(st, CAPACITY, f, now);
            AllBacked(st'.slots, heard + Accepted(f, r)) && Assembled(r, heard + Accepted(f, r))
  {
    hide Backed, Sound, Valid, Fill, Assembled;
    RejectedIsAssembled(heard);
    assert heard + {} == heard;
    FreshBacked(f, now, heard);
    FillKeepsBacked(st, SlotFor(st.slots, f, now), f, heard);
  }

  lemma FeedKeepsBacked(st: State, wire: seq<byte>, now: nat, heard: set<Frame>)
    requires Invariant(st.slots) && AllBacked(st.slots, heard)
    ensures var (st', r) := FeedWire(st, CAPACITY, map[], wire, now);
            AllBacked(st'.slots, heard + Heard(wire, r)) && Assembled(r, heard + Heard(wire, r))
  {
    hide Valid, FeedFrame, Decode, Encode, Assembled, Expired, Invariant, AllBacked;
    RejectedIsAssembled(heard);
    NothingBacked(heard);
    assert heard + {} == heard;
    ExpiredKeeps(st, now);
    ExpiredKeepsBacked(st, now, heard);
    if Decode(wire).Some? {
      CodecIsCanonical(Decode(wire).value, wire);
      FrameKeepsBacked(Expired(st, now), Decode(wire).value, now, heard);
    }
  }

  /**
   * The session table turns away exactly the fragments of a listed source in another session, which change
   * no partial message; for all others it makes no difference.
   */
  lemma SessionTable(st: State, sessions: map<byte, Id16>, wire: seq<byte>, now: nat, f: Frame)
    requires Invariant(st.slots) && Decode(wire) == Some(f) && (st.lastNow.Some? ==> st.lastNow.value <= now)
    ensures var (t, r) := FeedWire(st, CAPACITY, sessions, wire, now);
            if f.source in sessions && sessions[f.source] != f.session
            then r == Rejected && t.slots == Live(st.slots, now)
            else (t, r) == FeedWire(st, CAPACITY, map[], wire, now)
  {
    hide Decode, Encode, FeedFrame, Live, Valid, Invariant;
    CodecIsCanonical(f, wire);
    ExpiredKeeps(st, now);
  }

  lemma NothingBacked(heard: set<Frame>)
    ensures AllBacked(map[], heard)
  {
  }

  lemma FreshBacked(f: Frame, now: nat, heard: set<Frame>)
    requires Valid(f)
    ensures Backed(Fresh(f, now), heard)
  {
  }

  /** The fragments accepted over events that were answered with results. */
  function HeardAll(events: seq<Event>, results: seq<Received>): set<Frame>
    requires |results| == |events|
  {
    if events == [] then {} else Heard(events[0].wire, results[0]) + HeardAll(events[1..], results[1..])
  }

  /**
   * Soundness over every run: the bytes of a completed message all come from fragments accepted so
   * far that carry exactly the reported metadata.
   */
  lemma {:induction false} CompletedBytesWereHeard(st: State, heard: set<Frame>, events: seq<Event>, k: nat)
    requires Invariant(st.slots) && AllBacked(st.slots, heard) && k < |events|
    ensures |RunA(st, events)| == |events|
    ensures var rs := RunA(st, events); Assembled(rs[k], heard + HeardAll(events[..k + 1], rs[..k + 1]))
    decreases |events|
  {
    hide Invariant, AllBacked, FeedWire, Assembled, Heard;
    var e := events[0];
    var rs := RunA(st, events);
    AnswerForEach(st, events);
    FeedWireKeeps(st, CAPACITY, map[], e.wire, e.now);
    FeedKeepsBacked(st, e.wire, e.now, heard);
    var (next, r) := FeedWire(st, CAPACITY, map[], e.wire, e.now);
    HeardSplit(events, rs, k);
    if k == 0 {
      assert heard + (Heard(e.wire, r) + {}) == heard + Heard(e.wire, r);
    } else {
      AnswerForEach(next, events[1..]);
      assert rs[1..] == RunA(next, events[1..]);
      CompletedBytesWereHeard(next, heard + Heard(e.wire, r), events[1..], k - 1);
      var rest := HeardAll(events[1..][..k], rs[1..][..k]);
      assert heard + (Heard(e.wire, r) + rest) == heard + Heard(e.wire, r) + rest;
    }
  }

  lemma {:induction false} AnswerForEach(st: State, events: seq<Event>)
    requires Invariant(st.slots)
    ensures |RunA(st, events)| == |events|
    decreases |events|
  {
    hide Invariant, FeedWire;
    if events != [] {
      var e := events[0];
      FeedWireKeeps(st, CAPACITY, map[], e.wire, e.now);
      AnswerForEach(FeedWire(st, CAPACITY, map[], e.wire, e.now).0, events[1..]);
    }
  }

  lemma HeardSplit(events: seq<Event>, rs: seq<Received>, k: nat)
    requires k < |events| == |rs|
    ensures HeardAll(events[..k + 1], rs[..k + 1])
            == Heard(events[0].wire, rs[0]) + HeardAll(events[1..][..k], rs[1..][..k])
  {
    hide Heard;
    assert events[..k + 1][1..] == events[1..][..k] && rs[..k + 1][1..] == rs[1..][..k];
  }

  // ---- quarantine ---------------------------------------------------------------------------------

  predicate Concerns(wire: seq<byte>, k: Key) {
    Decode(wire).Some? && KeyOf(Decode(wire).value) == k
  }

  /** The clock does not go back and stays below the deadline. */
  predicate Within(st: State, events: seq<Event>, deadline: nat) {
    && (st.lastNow.Some? && events != [] ==> st.lastNow.value <= events[0].now)
    && (forall i, j :: 0 <= i < j < |events| ==> events[i].now <= events[j].now)
    && forall i :: 0 <= i < |events| ==> events[i].now < deadline
  }

  lemma FillKeepsQuarantine(st: State, s: Slot, f: Frame, k: Key)
    requires Valid(f) && Sound(KeyOf(f), s)
    requires k in st.slots && st.slots[k].quarantined && (KeyOf(f) == k ==> s == st.slots[k])
    ensures var (st', r) := Fill(st, s, f);
            k in st'.slots && st'.slots[k] == st.slots[k] && (KeyOf(f) == k ==> r == Rejected)
  {
    hide Valid, Sound, Patch, KeyOf, Finish;
  }

  lemma FeedKeepsQuarantine(st: State, wire: seq<byte>, now: nat, k: Key)
    requires Invariant(st.slots) && k in st.slots && st.slots[k].quarantined && now < st.slots[k].deadline
    requires st.lastNow.Some? ==> st.lastNow.value <= now
    ensures var (st', r) := FeedWire(st, CAPACITY, map[], wire, now);
            && k in st'.slots && st'.slots[k] == st.slots[k] && st'.lastNow == Some(now)
            && (Concerns(wire, k) ==> r == Rejected)
  {
    hide Decode, Encode, Valid, Sound, Fill, KeyOf;
    ExpiredKeeps(st, now);
    var t := Expired(st, now);
    if Decode(wire).Some? {
      var f := Decode(wire).value;
      CodecIsCanonical(f, wire);
      var s := SlotFor(t.slots, f, now);
      FillKeepsQuarantine(t, s, f, k);
      FeedFrameKeeps(t, CAPACITY, f, now);
    }
  }

  /** Before its deadline a quarantined slot stays as it is and answers every fragment with a rejection. */
  lemma {:induction false} QuarantineHolds(st: State, events: seq<Event>, k: Key, i: nat)
    requires Invariant(st.slots) && k in st.slots && st.slots[k].quarantined && i < |events|
    requires Within(st, events, st.slots[k].deadline)
    ensures i < |RunA(st, events)| && (Concerns(events[i].wire, k) ==> RunA(st, events)[i] == Rejected)
    decreases |events|
  {
    hide FeedWire, Invariant, Concerns;
    var e := events[0];
    FeedKeepsQuarantine(st, e.wire, e.now, k);
    FeedWireKeeps(st, CAPACITY, map[], e.wire, e.now);
    if i > 0 {
      QuarantineHolds(FeedWire(st, CAPACITY, map[], e.wire, e.now).0, events[1..], k, i - 1);
    }
  }

  // ---- the same for the firmware ------------------------------------------------------------------

  /** Every message the firmware completes from a cleared receiver is assembled from what it accepted. */
  lemma FirmwareBytesWereHeard(events: seq<Event>, cap: nat, k: nat)
    requires Nondecreasing(events, 0) && cap >= MAX_MESSAGE && k < |events|
    ensures AllSized(Cleared(0).slots) && |RunC(Cleared(0), events, cap)| == |events|
    ensures var rs := RunC(Cleared(0), events, cap);
            match rs[k]
            case Complete(message, meta) =>
              Assembled(Complete(message, MetaOf(meta)), HeardAll(events[..k + 1], rs[..k + 1]))
            case _ => true
  {
    hide Rel, RunA, RunC, Cleared, Assembled, MetaOf, HeardAll, Nondecreasing;
    InitialStatesRelated();
    RelSized(Cleared(0), NOTHING_HELD);
    StartFacts();
    RunsAgree(Cleared(0), NOTHING_HELD, events, cap);
    CompletedBytesWereHeard(NOTHING_HELD, {}, events, k);
    var c, a := RunC(Cleared(0), events, cap), RunA(NOTHING_HELD, events);
    AgreeHeard(events[..k + 1], c[..k + 1], a[..k + 1]);
    assert {} + HeardAll(events[..k + 1], a[..k + 1]) == HeardAll(events[..k + 1], a[..k + 1]);
  }

  /** Receivers that answer alike accept the same fragments. */
  lemma {:induction false} AgreeHeard(events: seq<Event>, c: seq<Received>, a: seq<Received>)
    requires |events| == |c| && AllAgree(c, a)
    ensures HeardAll(events, c) == HeardAll(events, a)
    decreases |events|
  {
    hide Decode;
    if events != [] {
      assert Agree(c[0], a[0]);
      AgreeHeard(events[1..], c[1..], a[1..]);
    }
  }

  lemma StartFacts()
    ensures Cleared(0).now == 0 && Invariant(NOTHING_HELD.slots) && AllBacked(NOTHING_HELD.slots, {})
            && NOTHING_HELD.lastNow == None
  {
  }

  /** A quarantined slot of the firmware answers every fragment of its key with -1 until its deadline. */
  lemma FirmwareQuarantineHolds(c: CState, a: State, events: seq<Event>, cap: nat, slot: nat, i: nat)
    requires Rel(c, a) && a.lastNow in {None, Some(c.now as nat)} && Invariant(a.slots)
    requires Nondecreasing(events, c.now) && cap >= MAX_MESSAGE && i < |events|
    requires slot < |c.slots| && c.slots[slot].active && c.slots[slot].quarantined
    requires Within(a, events, c.slots[slot].deadline)
    ensures AllSized(c.slots) && i < |RunC(c, events, cap)|
    ensures Concerns(events[i].wire, KeyOf(c.slots[slot].meta)) ==> RunC(c, events, cap)[i] == Rejected
  {
    hide RunA, RunC, Nondecreasing, Concerns, Sound, Within;
    RelSized(c, a);
    RelSlot(c, a, slot);
    RunsAgree(c, a, events, cap);
    QuarantineHolds(a, events, KeyOf(c.slots[slot].meta), i);
  }

  lemma RelSlot(c: CState, a: State, slot: nat)
    requires Rel(c, a) && slot < |c.slots| && c.slots[slot].active
    ensures var k := KeyOf(c.slots[slot].meta);
            k in a.slots && a.slots[k].quarantined == c.slots[slot].quarantined
            && a.slots[k].deadline == c.slots[slot].deadline
  {
    hide Sound, KeyOf, Abs;
    InvSized(c.slots);
    InvUnique(c.slots);
    AbsMembers(c.slots);
  }
}
