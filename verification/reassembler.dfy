/** The dictionary and set reassembler of the Python endpoints; clocks are in milliseconds. */
module Reassembler {
  import opened Bytes
  import opened Bitmask
  import opened Wrappers
  import opened LoraFrame
  import Crc32

  const TIMEOUT := 3000
  const CAPACITY := 4

  /** What identifies the message a fragment belongs to. */
  datatype Key = Key(source: byte, destination: byte, session: Id16, logical: Id16, messageCrc: u32)

  function KeyOf(f: Frame): Key {
    Key(f.source, f.destination, f.session, f.logical, f.messageCrc)
  }

  /** The metadata all fragments of one message share. */
  function MetaOf(f: Frame): Frame {
    f.(index := 0, payload := [])
  }

  datatype Slot = Slot(meta: Frame, deadline: nat, payload: seq<byte>, seen: set<nat>, quarantined: bool)

  datatype State = State(slots: map<Key, Slot>, lastNow: Option<nat>, expired: nat, duplicates: nat, rejected: nat)

  datatype Received = Rejected | Incomplete | Complete(message: seq<byte>, meta: Frame)

  function Start(f: Frame): nat {
    f.index * f.chunk
  }

  function Live(slots: map<Key, Slot>, now: nat): map<Key, Slot> {
    map k | k in slots && now < slots[k].deadline :: slots[k]
  }

  function Zeros(n: nat): (s: seq<byte>)
    ensures |s| == n
  {
    seq(n, _ => 0)
  }

  /** A slot whose buffer fits its metadata and the fragments counted as seen. */
  predicate Sound(k: Key, s: Slot) {
    && KeyOf(s.meta) == k && MetaOf(s.meta) == s.meta
    && 0 < s.meta.chunk && s.meta.count == CeilDiv(s.meta.total, s.meta.chunk)
    && s.meta.count <= MAX_FRAGMENTS
    && |s.payload| == s.meta.total && s.seen <= Below(s.meta.count)
  }

  predicate Invariant(slots: map<Key, Slot>) {
    forall k :: k in slots ==> Sound(k, slots[k])
  }

  function Fresh(f: Frame, now: nat): (s: Slot)
    requires Valid(f)
    ensures Sound(KeyOf(f), s)
  {
    Slot(MetaOf(f), now + TIMEOUT, Zeros(f.total), {}, false)
  }

  lemma FragmentFits(f: Frame)
    requires Valid(f)
    ensures Start(f) + |f.payload| <= f.total
  {
    StartsInside(f.total, f.chunk, f.index);
  }

  /** Different fragments of one message cover different bytes. */
  lemma FragmentsApart(f: Frame, g: Frame)
    requires Valid(f) && Valid(g) && f.chunk == g.chunk && f.index != g.index
    ensures Start(g) + |g.payload| <= Start(f) || Start(f) + |f.payload| <= Start(g)
  {
    Multiples(g.index + 1, f.index, f.chunk);
    Multiples(f.index + 1, g.index, f.chunk);
    Multiples(g.index, f.index, f.chunk);
    Multiples(f.index, g.index, f.chunk);
  }

  /** Either the fragment contradicts the slot, or it repeats a stored one, or it is stored. */
  function Store(s: Slot, f: Frame): (r: Option<Slot>)
    requires Valid(f) && Sound(KeyOf(f), s)
    ensures r.Some? ==> Sound(KeyOf(f), r.value)
  {
    if s.quarantined || MetaOf(f) != s.meta then None
    else
      FragmentFits(f);
      if f.index in s.seen then
        if s.payload[Start(f)..Start(f) + |f.payload|] != f.payload then None else Some(s)
      else
        Some(s.(payload := Patch(s.payload, Start(f), f.payload), seen := s.seen + {f.index as nat}))
  }

  /** The fragment's own slot: the live one, or a new one. */
  function SlotFor(slots: map<Key, Slot>, f: Frame, now: nat): (s: Slot)
    requires Valid(f) && Invariant(slots)
    ensures Sound(KeyOf(f), s)
  {
    if KeyOf(f) in slots then slots[KeyOf(f)] else Fresh(f, now)
  }

  /** What a slot yields after storing f: the bytes once all fragments are there and the CRC agrees. */
  function Finish(t: Slot, f: Frame): Received {
    if |t.seen| != f.count then Incomplete
    else if Crc32.Crc(t.payload) != f.messageCrc then Rejected
    else Complete(t.payload, MetaOf(f))
  }

  /** The fragment against its slot s, which the state takes up in its new form or gives up. */
  function Fill(st: State, s: Slot, f: Frame): (State, Received)
    requires Valid(f) && Sound(KeyOf(f), s)
  {
    var k := KeyOf(f);
    match Store(s, f)
    case None => (st.(slots := st.slots[k := s.(quarantined := true)]), Rejected)
    case Some(t) =>
      (st.(slots := if |t.seen| != f.count then st.slots[k := t] else st.slots - {k},
           duplicates := if f.index in s.seen then st.duplicates + 1 else st.duplicates), Finish(t, f))
  }

  /** Processing of one decoded fragment against the unexpired slots. */
  function FeedFrame(st: State, capacity: nat, f: Frame, now: nat): (State, Received)
    requires Valid(f) && Invariant(st.slots)
  {
    if KeyOf(f) !in st.slots && |st.slots| >= capacity then (st.(rejected := st.rejected + 1), Rejected)
    else Fill(st, SlotFor(st.slots, f, now), f)
  }

  lemma FeedFrameKeeps(st: State, capacity: nat, f: Frame, now: nat)
    requires Valid(f) && Invariant(st.slots)
    ensures Invariant(FeedFrame(st, capacity, f, now).0.slots)
    ensures FeedFrame(st, capacity, f, now).0.lastNow == st.lastNow
  {
    hide Sound, Store, Finish;
    var s := SlotFor(st.slots, f, now);
    QuarantineKeepsSound(KeyOf(f), s);
  }

  lemma QuarantineKeepsSound(k: Key, s: Slot)
    requires Sound(k, s)
    ensures Sound(k, s.(quarantined := true))
  {
  }

  /** Slots past their deadline are dropped and counted. */
  function Expired(st: State, now: nat): State {
    var live := Live(st.slots, now);
    st.(slots := live, lastNow := Some(now), expired := st.expired + |st.slots.Keys - live.Keys|)
  }

  lemma ExpiredKeeps(st: State, now: nat)
    requires Invariant(st.slots)
    ensures Invariant(Expired(st, now).slots)
  {
  }

  /** A decoded fragment passes the session table before it reaches a slot. */
  function FeedDecoded(st: State, capacity: nat, sessions: map<byte, Id16>, f: Frame, now: nat): (State, Received)
    requires Valid(f) && Invariant(st.slots)
  {
    if f.source in sessions && sessions[f.source] != f.session then (st.(rejected := st.rejected + 1), Rejected)
    else FeedFrame(st, capacity, f, now)
  }

  /** Reassembler.feed: expiry, decoding, the session table, then the fragment. */
  function FeedWire(st: State, capacity: nat, sessions: map<byte, Id16>, wire: seq<byte>, now: nat): (State, Received)
    requires Invariant(st.slots)
  {
    if st.lastNow.Some? && now < st.lastNow.value then (st.(slots := map[]), Rejected)
    else
      ExpiredKeeps(st, now);
      match Decode(wire)
      case None => (Expired(st, now), Rejected)
      case Some(f) =>
        CodecIsCanonical(f, wire);
        FeedDecoded(Expired(st, now), capacity, sessions, f, now)
  }

  lemma FeedWireKeeps(st: State, capacity: nat, sessions: map<byte, Id16>, wire: seq<byte>, now: nat)
    requires Invariant(st.slots)
    ensures Invariant(FeedWire(st, capacity, sessions, wire, now).0.slots)
  {
    hide Decode, Encode, FeedFrame, Expired, Valid, Invariant;
    NoSlots();
    ExpiredKeeps(st, now);
    if Decode(wire).Some? {
      CodecIsCanonical(Decode(wire).value, wire);
      FeedFrameKeeps(Expired(st, now), capacity, Decode(wire).value, now);
    }
  }

  lemma NoSlots()
    ensures Invariant(map[])
  {
  }

  const NOTHING_HELD := State(map[], None, 0, 0, 0)

  /** Expiry under way: slots still to be looked at are kept whatever their deadline. */
  ghost function Unvisited(slots: map<Key, Slot>, todo: set<Key>, now: nat): map<Key, Slot> {
    map k | k in slots && (k in todo || now < slots[k].deadline) :: slots[k]
  }

  lemma UnvisitedEnds(slots: map<Key, Slot>, now: nat)
    ensures Unvisited(slots, slots.Keys, now) == slots
    ensures Unvisited(slots, {}, now) == Live(slots, now)
  {
  }

  lemma VisitOne(slots: map<Key, Slot>, todo: set<Key>, k: Key, now: nat)
    requires k in todo && todo <= slots.Keys
    ensures k in Unvisited(slots, todo, now) && Unvisited(slots, todo, now)[k] == slots[k]
    ensures var u, v := Unvisited(slots, todo, now), Unvisited(slots, todo - {k}, now);
            if now >= slots[k].deadline
            then v == u - {k} && |slots.Keys - v.Keys| == |slots.Keys - u.Keys| + 1
            else v == u
  {
    var u, v := Unvisited(slots, todo, now), Unvisited(slots, todo - {k}, now);
    if now >= slots[k].deadline {
      assert v == u - {k};
      assert slots.Keys - v.Keys == slots.Keys - u.Keys + {k};
    } else {
      assert v == u;
    }
  }

  class Receiver {
    const capacity: nat
    const sessions: map<byte, Id16>
    var slots: map<Key, Slot>
    var lastNow: Option<nat>
    var expired: nat
    var duplicates: nat
    var rejected: nat

    ghost function View(): State
      reads this
    {
      State(slots, lastNow, expired, duplicates, rejected)
    }

    constructor (capacity: nat, sessions: map<byte, Id16>)
      requires 1 <= capacity <= 16
      ensures View() == NOTHING_HELD && this.capacity == capacity && this.sessions == sessions
    {
      this.capacity, this.sessions := capacity, sessions;
      slots, lastNow, expired, duplicates, rejected := map[], None, 0, 0, 0;
    }

    /** False when the clock went back, which abandons every partial message. */
    method Expire(now: nat) returns (ok: bool)
      modifies this
      ensures ok <==> !(old(lastNow).Some? && now < old(lastNow).value)
      ensures View() == if ok then Expired(old(View()), now) else old(View()).(slots := map[])
    {
      hide Unvisited, Live;
      if lastNow.Some? && now < lastNow.value {
        slots := map[];
        return false;
      }
      UnvisitedEnds(slots, now);
      ghost var start := slots;
      var kept, dropped, todo := slots, 0, slots.Keys;
      while todo != {}
        invariant todo <= start.Keys
        invariant kept == Unvisited(start, todo, now)
        invariant dropped == |start.Keys - kept.Keys|
        decreases todo
        modifies {}
      {
        var k :| k in todo;
        VisitOne(start, todo, k, now);
        todo := todo - {k};
        if now >= kept[k].deadline {
          kept, dropped := kept - {k}, dropped + 1;
        }
      }
      slots, lastNow, expired := kept, Some(now), expired + dropped;
      ok := true;
    }

    /** Reassembler.feed up to the application check of the completed bytes. */
    method Feed(wire: seq<byte>, now: nat) returns (r: Received)
      requires Invariant(slots)
      modifies this
      ensures Invariant(slots)
      ensures (View(), r) == FeedWire(old(View()), capacity, sessions, wire, now)
    {
      hide Decode, Sound, Valid, FeedFrame, Expired;
      FeedWireKeeps(View(), capacity, sessions, wire, now);
      ExpiredKeeps(View(), now);
      var ok := Expire(now);
      if !ok {
        return Rejected;
      }
      var decoded := Decode(wire);
      if decoded == None {
        return Rejected;
      }
      CodecIsCanonical(decoded.value, wire);
      var f := decoded.value;
      if f.source in sessions && sessions[f.source] != f.session {
        rejected := rejected + 1;
        return Rejected;
      }
      r := Place(f, now);
    }

    method Place(f: Frame, now: nat) returns (r: Received)
      requires Valid(f) && Invariant(slots)
      modifies this
      ensures (View(), r) == FeedFrame(old(View()), capacity, f, now)
    {
      hide Sound, Patch, Crc32.Crc;
      var k := KeyOf(f);
      if k !in slots {
        if |slots| >= capacity {
          rejected := rejected + 1;
          return Rejected;
        }
        slots := slots[k := Fresh(f, now)];
      }
      var s := slots[k];
      assert s == SlotFor(old(slots), f, now);
      if s.quarantined || MetaOf(f) != s.meta {
        slots := slots[k := s.(quarantined := true)];
        return Rejected;
      }
      SlotRoom(f, s);
      var start := Start(f);
      if f.index in s.seen {
        if s.payload[start..start + |f.payload|] != f.payload {
          slots := slots[k := s.(quarantined := true)];
          return Rejected;
        }
        duplicates := duplicates + 1;
      } else {
        s := s.(payload := Patch(s.payload, start, f.payload), seen := s.seen + {f.index as nat});
        slots := slots[k := s];
      }
      assert slots == old(slots)[k := s];
      if |s.seen| != f.count {
        return Incomplete;
      }
      slots := slots - {k};
      assert slots == old(slots) - {k};
      r := if Crc32.Crc(s.payload) != f.messageCrc then Rejected else Complete(s.payload, MetaOf(f));
    }
  }

  lemma SlotRoom(f: Frame, s: Slot)
    requires Valid(f) && Sound(KeyOf(f), s) && MetaOf(f) == s.meta
    ensures Start(f) + |f.payload| <= |s.payload|
  {
    FragmentFits(f);
  }
}
