/** Completeness of reassembly: honestly fragmented messages come out, whatever the order of arrival. */
module ReassemblyComplete {
  import opened Bytes
  import opened Bitmask
  import opened Wrappers
  import opened LoraFrame
  import opened Reassembler
  import opened LoraReceiver
  import Crc32

  /** A message on its way: its bytes, its addressing, and the MTU it is cut for. */
  datatype Source = Source(raw: seq<byte>, header: Frame, mtu: nat)

  predicate Sendable(s: Source) {
    Fragment(s.raw, s.header, s.mtu, 0).Some? && Valid(Fragment(s.raw, s.header, s.mtu, 0).value)
  }

  function Description(s: Source): (m: Frame)
    requires Sendable(s)
  {
    MetaOf(Fragment(s.raw, s.header, s.mtu, 0).value)
  }

  function Piece(s: Source, index: nat): (f: Frame)
    requires Sendable(s) && index < Description(s).count
    ensures Valid(f) && Fragment(s.raw, s.header, s.mtu, index) == Some(f)
    ensures MetaOf(f) == Description(s) && f.index == index && f.total == |s.raw| && f.messageCrc == Crc32.Crc(s.raw)
    ensures Start(f) + |f.payload| <= |s.raw| && f.payload == s.raw[Start(f)..Start(f) + |f.payload|]
  {
    StartsInside(|s.raw|, s.mtu - HEADER, index);
    Fragment(s.raw, s.header, s.mtu, index).value
  }

  type Sources = map<Key, Source>

  datatype Arrival = Arrival(key: Key, index: nat, now: u64)

  predicate Honest(sources: Sources, a: Arrival) {
    && a.key in sources && Sendable(sources[a.key]) && KeyOf(Description(sources[a.key])) == a.key
    && a.index < Description(sources[a.key]).count
  }

  function Wire(sources: Sources, a: Arrival): Event
    requires Honest(sources, a)
  {
    Event(Encode(Piece(sources[a.key], a.index)), a.now)
  }

  predicate AllHonest(sources: Sources, arrivals: seq<Arrival>) {
    forall i :: 0 <= i < |arrivals| ==> Honest(sources, arrivals[i])
  }

  function Wires(sources: Sources, arrivals: seq<Arrival>): (r: seq<Event>)
    requires AllHonest(sources, arrivals)
    ensures |r| == |arrivals|
  {
    hide Honest;
    if arrivals == [] then [] else [Wire(sources, arrivals[0])] + Wires(sources, arrivals[1..])
  }

  // ---- the reference: which indices of which message are in hand -----------------------------------

  datatype Gathering = Gathering(deadline: nat, seen: set<nat>)

  function Waiting(c: map<Key, Gathering>, now: nat): map<Key, Gathering> {
    map k | k in c && now < c[k].deadline :: c[k]
  }

  function Gather(c: map<Key, Gathering>, a: Arrival, count: nat): (r: (map<Key, Gathering>, bool)) {
    Add(Waiting(c, a.now), a, count)
  }

  function Add(c: map<Key, Gathering>, a: Arrival, count: nat): (r: (map<Key, Gathering>, bool)) {
    var g := if a.key in c then c[a.key] else Gathering(a.now + TIMEOUT, {});
    var seen := g.seen + {a.index};
    if |seen| == count then (c - {a.key}, true) else (c[a.key := Gathering(g.deadline, seen)], false)
  }

  function Answer(sources: Sources, a: Arrival, full: bool): Received
    requires Honest(sources, a)
  {
    if full then Complete(sources[a.key].raw, Description(sources[a.key])) else Incomplete
  }

  function Answers(sources: Sources, c: map<Key, Gathering>, arrivals: seq<Arrival>): (r: seq<Received>)
    requires AllHonest(sources, arrivals)
    ensures |r| == |arrivals|
    decreases |arrivals|
  {
    hide Gather, Sendable, Description;
    if arrivals == [] then []
    else
      var (c', full) := Gather(c, arrivals[0], Description(sources[arrivals[0].key]).count);
      [Answer(sources, arrivals[0], full)] + Answers(sources, c', arrivals[1..])
  }

  // ---- slots of honest messages --------------------------------------------------------------------

  /** The collected part of the buffer is that part of the message. */
  ghost predicate InHand(src: Source, s: Slot)
    requires Sendable(src)
  {
    && s.meta == Description(src) && !s.quarantined && |s.payload| == |src.raw|
    && s.seen <= Below(s.meta.count)
    && forall i :: i in s.seen ==> Agrees(src, s.payload, i)
  }

  ghost predicate Agrees(src: Source, buffer: seq<byte>, i: nat)
    requires Sendable(src)
  {
    && i < Description(src).count && |buffer| == |src.raw|
    && var g := Piece(src, i); buffer[Start(g)..Start(g) + |g.payload|] == g.payload
  }

  ghost predicate Tracks(sources: Sources, slots: map<Key, Slot>, c: map<Key, Gathering>) {
    && slots.Keys == c.Keys
    && forall k :: k in slots ==>
         k in sources && Sendable(sources[k]) && InHand(sources[k], slots[k])
         && c[k] == Gathering(slots[k].deadline, slots[k].seen)
  }

  lemma OtherPieceUntouched(src: Source, buffer: seq<byte>, f: Frame, i: nat)
    requires Sendable(src) && f.index < Description(src).count && f == Piece(src, f.index) && i != f.index
    requires Agrees(src, buffer, i)
    ensures Agrees(src, Patch(buffer, Start(f), f.payload), i)
  {
    hide Valid, Patch;
    var g := Piece(src, i);
    FragmentsApart(f, g);
    PatchApart(buffer, Start(f), f.payload, Start(g), Start(g) + |g.payload|);
  }

  lemma PatchedAgrees(src: Source, buffer: seq<byte>, seen: set<nat>, index: nat)
    requires Sendable(src) && index < Description(src).count && index !in seen && |buffer| == |src.raw|
    requires forall i :: i in seen ==> Agrees(src, buffer, i)
    ensures var f := Piece(src, index);
            forall i :: i in seen + {index} ==> Agrees(src, Patch(buffer, Start(f), f.payload), i)
  {
    hide Valid, Patch, Sendable, Description, Start;
    var f := Piece(src, index);
    PatchApart(buffer, Start(f), f.payload, 0, 0);
    forall i | i in seen ensures Agrees(src, Patch(buffer, Start(f), f.payload), i) {
      OtherPieceUntouched(src, buffer, f, i);
    }
  }

  /** Storing a piece of the right message always succeeds and adds its index. */
  lemma StorePiece(src: Source, s: Slot, index: nat)
    requires Sendable(src) && InHand(src, s) && index < Description(src).count
    requires Sound(KeyOf(Description(src)), s)
    ensures var r := Store(s, Piece(src, index));
            && r.Some? && InHand(src, r.value) && r.value.seen == s.seen + {index}
            && r.value.deadline == s.deadline
  {
    hide Valid, Patch, Sendable, Description, Start, Sound, Agrees;
    var f := Piece(src, index);
    FragmentFits(f);
    if index !in s.seen {
      PatchedAgrees(src, s.payload, s.seen, index);
    } else {
      AgreesHere(src, s.payload, index);
    }
  }

  lemma AgreesHere(src: Source, buffer: seq<byte>, index: nat)
    requires Sendable(src) && Agrees(src, buffer, index)
    ensures var f := Piece(src, index);
            Start(f) + |f.payload| <= |buffer| && buffer[Start(f)..Start(f) + |f.payload|] == f.payload
  {
  }

  ghost predicate Spans(src: Source, i: nat, p: nat)
    requires Sendable(src)
  {
    i < Description(src).count && Start(Piece(src, i)) <= p < Start(Piece(src, i)) + |Piece(src, i).payload|
  }

  lemma SliceSpans(total: nat, chunk: nat, p: nat)
    requires p < total && chunk > 0
    ensures p / chunk < CeilDiv(total, chunk)
    ensures p / chunk * chunk <= p < p / chunk * chunk + Slice(total, chunk, p / chunk)
  {
    Quotient(p, chunk);
    StartsInside(total, chunk, p / chunk);
  }

  lemma PieceShape(src: Source, i: nat)
    requires Sendable(src)
    ensures 0 < Description(src).chunk && Description(src).count == CeilDiv(|src.raw|, Description(src).chunk)
    ensures i < Description(src).count ==>
              var g := Piece(src, i);
              Start(g) == i * Description(src).chunk && |g.payload| == Slice(|src.raw|, Description(src).chunk, i)
  {
    hide Crc32.Crc, Zone, CeilDiv, Slice;
  }

  lemma ByteInPiece(src: Source, p: nat)
    requires Sendable(src) && p < |src.raw|
    ensures exists i :: Spans(src, i, p)
  {
    hide Sendable, Description, Piece, Start, CeilDiv, Slice;
    PieceShape(src, 0);
    var chunk := Description(src).chunk;
    SliceSpans(|src.raw|, chunk, p);
    PieceShape(src, p / chunk);
    assert Spans(src, p / chunk, p);
  }

  /** All pieces in hand is the whole message in hand. */
  lemma AllInHand(src: Source, s: Slot)
    requires Sendable(src) && InHand(src, s) && |s.seen| == s.meta.count
    ensures s.payload == src.raw
  {
    hide Piece, Description, Sendable;
    SubsetOfSameSize(s.seen, Below(s.meta.count));
    forall p | 0 <= p < |src.raw| ensures s.payload[p] == src.raw[p] {
      ByteInPiece(src, p);
      var i :| Spans(src, i, p);
      SameByte(src, s.payload, i, p);
    }
  }

  lemma SameByte(src: Source, buffer: seq<byte>, i: nat, p: nat)
    requires Sendable(src) && Agrees(src, buffer, i)
    requires Spans(src, i, p)
    ensures p < |src.raw| && buffer[p] == src.raw[p]
  {
    hide Valid, Start;
    var g := Piece(src, i);
    var at, n := Start(g), |g.payload|;
    assert buffer[at..at + n][p - at] == src.raw[at..at + n][p - at];
  }

  lemma FreshInHand(src: Source, index: nat, now: nat)
    requires Sendable(src) && index < Description(src).count
    ensures InHand(src, Fresh(Piece(src, index), now))
  {
  }

  /** One arrival at its slot. */
  lemma FillGathers(sources: Sources, st: State, c: map<Key, Gathering>, s: Slot, a: Arrival)
    requires Honest(sources, a) && Tracks(sources, st.slots, c)
    requires Sound(a.key, s) && InHand(sources[a.key], s)
    ensures var src := sources[a.key];
            var f, seen := Piece(src, a.index), s.seen + {a.index};
            var full := |seen| == f.count;
            var (st', r) := Fill(st, s, f);
            r == Answer(sources, a, full) &&
            Tracks(sources, st'.slots, if full then c - {a.key} else c[a.key := Gathering(s.deadline, seen)])
  {
    hide Sound, Store, InHand, Crc32.Crc, Piece, Description, Sendable, Valid;
    var src := sources[a.key];
    var f := Piece(src, a.index);
    PieceMeta(src, a.index);
    StorePiece(src, s, a.index);
    var t := Store(s, f).value;
    InHandMeta(src, t);
    if |t.seen| == f.count {
      AllInHand(src, t);
    }
  }

  lemma PieceMeta(src: Source, index: nat)
    requires Sendable(src) && index < Description(src).count
    ensures var f := Piece(src, index);
            && f.count == Description(src).count && KeyOf(f) == KeyOf(Description(src))
            && f.messageCrc == Crc32.Crc(src.raw) && MetaOf(f) == Description(src)
  {
    var f := Piece(src, index);
    assert MetaOf(f).count == f.count && KeyOf(MetaOf(f)) == KeyOf(f);
  }

  lemma InHandMeta(src: Source, s: Slot)
    requires Sendable(src) && InHand(src, s)
    ensures s.meta == Description(src)
  {
  }

  lemma ExpiryTracks(sources: Sources, st: State, c: map<Key, Gathering>, now: nat)
    requires Tracks(sources, st.slots, c)
    ensures Tracks(sources, Expired(st, now).slots, Waiting(c, now))
  {
    hide InHand, Sendable;
  }

  lemma RoomForOneMore(sources: Sources, slots: map<Key, Slot>, k: Key)
    requires |sources| <= CAPACITY && slots.Keys <= sources.Keys && k in sources && k !in slots
    ensures |slots| < CAPACITY
  {
    assert |slots.Keys + {k}| == |slots| + 1;
    SubsetSize(slots.Keys + {k}, sources.Keys);
  }

  /** The slot chosen for an arrival holds what the reference has gathered for that message. */
  lemma SlotGathers(sources: Sources, slots: map<Key, Slot>, c: map<Key, Gathering>, a: Arrival)
    requires Honest(sources, a) && Tracks(sources, slots, c) && Invariant(slots)
    ensures var src := sources[a.key];
            var s := SlotFor(slots, Piece(src, a.index), a.now);
            && KeyOf(Piece(src, a.index)) == a.key
            && InHand(src, s) && Sound(a.key, s)
            && Gathering(s.deadline, s.seen) == if a.key in c then c[a.key] else Gathering(a.now + TIMEOUT, {})
  {
    hide InHand, Sound, Piece, Description, Fresh, Sendable, Valid;
    var src := sources[a.key];
    PieceMeta(src, a.index);
    if a.key !in slots {
      FreshInHand(src, a.index, a.now);
      FreshFields(Piece(src, a.index), a.now);
    }
  }

  lemma FrameGathers(sources: Sources, st: State, c: map<Key, Gathering>, a: Arrival)
    requires |sources| <= CAPACITY && Honest(sources, a) && Tracks(sources, st.slots, c) && Invariant(st.slots)
    ensures var src := sources[a.key];
            var (st', r) := FeedFrame(st, CAPACITY, Piece(src, a.index), a.now);
            var (c', full) := Add(c, a, Description(src).count);
            r == Answer(sources, a, full) && Tracks(sources, st'.slots, c')
  {
    hide Fill, InHand, Sound, Piece, Description, SlotFor, Sendable, Valid, Answer, Invariant, Tracks;
    var src := sources[a.key];
    var f := Piece(src, a.index);
    SlotGathers(sources, st.slots, c, a);
    PieceMeta(src, a.index);
    TracksKeys(sources, st.slots, c);
    if a.key !in st.slots {
      RoomForOneMore(sources, st.slots, a.key);
    }
    FillGathers(sources, st, c, SlotFor(st.slots, f, a.now), a);
  }

  lemma TracksKeys(sources: Sources, slots: map<Key, Slot>, c: map<Key, Gathering>)
    requires Tracks(sources, slots, c)
    ensures slots.Keys <= sources.Keys && slots.Keys == c.Keys
  {
  }

  lemma FreshFields(f: Frame, now: nat)
    requires Valid(f)
    ensures Fresh(f, now).deadline == now + TIMEOUT && Fresh(f, now).seen == {}
  {
  }

  /** One arrival at the reassembler. */
  lemma FeedGathers(sources: Sources, st: State, c: map<Key, Gathering>, a: Arrival)
    requires |sources| <= CAPACITY && Honest(sources, a) && Tracks(sources, st.slots, c) && Invariant(st.slots)
    requires st.lastNow.Some? ==> st.lastNow.value <= a.now
    ensures var src := sources[a.key];
            var (st', r) := FeedWire(st, CAPACITY, map[], Wire(sources, a).wire, a.now);
            var (c', full) := Gather(c, a, Description(src).count);
            && r == Answer(sources, a, full) && Tracks(sources, st'.slots, c')
            && st'.lastNow == Some(a.now as nat)
  {
    hide Decode, Encode, FeedFrame, Expired, Waiting, Add, Piece, Description, Invariant, Valid, Tracks;
    var f := Piece(sources[a.key], a.index);
    CodecIsCanonical(f, Encode(f));
    ExpiredKeeps(st, a.now);
    ExpiryTracks(sources, st, c, a.now);
    var t := Expired(st, a.now);
    FrameGathers(sources, t, Waiting(c, a.now), a);
    FeedFrameKeeps(t, CAPACITY, f, a.now);
    ExpiredClock(st, a.now);
  }

  lemma ExpiredClock(st: State, now: nat)
    ensures Expired(st, now).lastNow == Some(now)
  {
  }

  ghost predicate Ordered(last: Option<nat>, arrivals: seq<Arrival>) {
    && (last.Some? && arrivals != [] ==> last.value <= arrivals[0].now)
    && forall i, j :: 0 <= i < j < |arrivals| ==> arrivals[i].now <= arrivals[j].now
  }

  /**
   * Completeness over every run: fragments of at most four messages, interleaved, repeated and
   * reordered at will, are answered exactly as the index-set reference answers them.
   */
  lemma {:induction false} HonestRunsGather(sources: Sources, st: State, c: map<Key, Gathering>, arrivals: seq<Arrival>)
    requires |sources| <= CAPACITY && AllHonest(sources, arrivals) && Tracks(sources, st.slots, c)
    requires Invariant(st.slots) && Ordered(st.lastNow, arrivals)
    ensures RunA(st, Wires(sources, arrivals)) == Answers(sources, c, arrivals)
    decreases |arrivals|
  {
    hide FeedWire, Gather, Tracks, Invariant, Wire, Description;
    if arrivals != [] {
      var a := arrivals[0];
      var e := Wire(sources, a);
      WireTime(sources, a);
      FeedGathers(sources, st, c, a);
      FeedWireKeeps(st, CAPACITY, map[], e.wire, e.now);
      var next := FeedWire(st, CAPACITY, map[], e.wire, e.now).0;
      HonestRunsGather(sources, next, Gather(c, a, Description(sources[a.key]).count).0, arrivals[1..]);
      assert Wires(sources, arrivals)[1..] == Wires(sources, arrivals[1..]);
    }
  }

  lemma WireTime(sources: Sources, a: Arrival)
    requires Honest(sources, a)
    ensures Wire(sources, a).now == a.now
  {
  }

  // ---- before the deadline --------------------------------------------------------------------------

  /** Fragment indices of message k among the arrivals. */
  function Indices(arrivals: seq<Arrival>, k: Key): set<nat> {
    if arrivals == [] then {}
    else
      var n := |arrivals| - 1;
      Indices(arrivals[..n], k) + (if arrivals[n].key == k then {arrivals[n].index} else {})
  }

  predicate Arrived(sources: Sources, past: seq<Arrival>, k: Key)
    requires k in sources && Sendable(sources[k])
  {
    Indices(past, k) == Below(Description(sources[k]).count)
  }

  /** Until message k is complete the reference holds all that arrived of it, and still does at time last. */
  ghost predicate Collects(sources: Sources, c: map<Key, Gathering>, past: seq<Arrival>, k: Key, last: nat) {
    k in sources && Sendable(sources[k]) && !Arrived(sources, past, k) ==>
      && (k in c <==> Indices(past, k) != {})
      && (k in c ==> c[k].seen == Indices(past, k) && last < c[k].deadline)
  }

  lemma {:induction false} IndicesBelow(sources: Sources, past: seq<Arrival>, k: Key)
    requires AllHonest(sources, past) && k in sources && Sendable(sources[k])
    ensures Indices(past, k) <= Below(Description(sources[k]).count)
  {
    hide Sendable, Description;
    if past != [] {
      IndicesBelow(sources, past[..|past| - 1], k);
    }
  }

  lemma IndicesGrow(past: seq<Arrival>, a: Arrival, k: Key)
    ensures Indices(past + [a], k) == Indices(past, k) + (if a.key == k then {a.index} else {})
  {
    assert (past + [a])[..|past|] == past;
  }

  lemma WaitingCollects(sources: Sources, c: map<Key, Gathering>, past: seq<Arrival>, now: nat, k: Key, last: nat)
    requires Collects(sources, c, past, k, last) && now <= last
    ensures Collects(sources, Waiting(c, now), past, k, last)
  {
    hide Sendable, Arrived, Indices;
  }

  lemma ArrivedGrows(sources: Sources, past: seq<Arrival>, a: Arrival, k: Key)
    requires k in sources && Sendable(sources[k]) && AllHonest(sources, past) && Honest(sources, a)
    requires Arrived(sources, past, k)
    ensures Arrived(sources, past + [a], k)
  {
    hide Sendable, Description, Indices;
    IndicesGrow(past, a, k);
  }

  lemma FullIsArrived(sources: Sources, past: seq<Arrival>, a: Arrival)
    requires AllHonest(sources, past) && Honest(sources, a)
    ensures |Indices(past, a.key) + {a.index}| == Description(sources[a.key]).count <==>
            Arrived(sources, past + [a], a.key)
  {
    hide Sendable, Description, Indices;
    var seen, all := Indices(past, a.key) + {a.index}, Below(Description(sources[a.key]).count);
    IndicesBelow(sources, past, a.key);
    IndicesGrow(past, a, a.key);
    if |seen| == |all| {
      SubsetOfSameSize(seen, all);
    }
  }

  /** An arrival belongs to another message, or comes less than a timeout before last. */
  predicate InTime(a: Arrival, k: Key, last: nat) {
    a.now <= last && (a.key == k ==> last < a.now + TIMEOUT)
  }

  lemma AddCollects(sources: Sources, c: map<Key, Gathering>, past: seq<Arrival>, a: Arrival, k: Key, last: nat)
    requires AllHonest(sources, past) && Honest(sources, a) && Collects(sources, c, past, k, last) && InTime(a, k, last)
    ensures var (c', full) := Add(c, a, Description(sources[a.key]).count);
            && Collects(sources, c', past + [a], k, last)
            && (a.key == k && !Arrived(sources, past, k) ==> (full <==> Arrived(sources, past + [a], k)))
  {
    hide Sendable, Description, Indices, Arrived, KeyOf;
    FullIsArrived(sources, past, a);
    IndicesGrow(past, a, k);
    if k in sources && Sendable(sources[k]) && Arrived(sources, past, k) {
      ArrivedGrows(sources, past, a, k);
    }
  }

  lemma CollectStep(sources: Sources, c: map<Key, Gathering>, past: seq<Arrival>, a: Arrival, k: Key, last: nat)
    requires AllHonest(sources, past) && Honest(sources, a) && Collects(sources, c, past, k, last) && InTime(a, k, last)
    ensures var (c', full) := Gather(c, a, Description(sources[a.key]).count);
            && Collects(sources, c', past + [a], k, last)
            && (a.key == k && !Arrived(sources, past, k) ==> (full <==> Arrived(sources, past + [a], k)))
  {
    hide Sendable, Description, Collects, Arrived, Add, Waiting;
    WaitingCollects(sources, c, past, a.now, k, last);
    AddCollects(sources, Waiting(c, a.now), past, a, k, last);
  }

  /** Arrival i comes before the deadline of its message, which its first fragment set. */
  predicate BeforeDeadline(arrivals: seq<Arrival>, i: nat)
    requires i < |arrivals|
  {
    forall j :: 0 <= j <= i && arrivals[j].key == arrivals[i].key ==> arrivals[i].now < arrivals[j].now + TIMEOUT
  }

  lemma {:induction false} AnswerAt(sources: Sources, c: map<Key, Gathering>, past: seq<Arrival>,
                                    arrivals: seq<Arrival>, i: nat)
    requires AllHonest(sources, past) && AllHonest(sources, arrivals) && i < |arrivals|
    requires Collects(sources, c, past, arrivals[i].key, arrivals[i].now)
    requires forall j :: 0 <= j <= i ==> InTime(arrivals[j], arrivals[i].key, arrivals[i].now)
    ensures var a, before := arrivals[i], past + arrivals[..i];
            !Arrived(sources, before, a.key) ==>
              Answers(sources, c, arrivals)[i] == Answer(sources, a, Arrived(sources, before + [a], a.key))
    decreases |arrivals|
  {
    hide Sendable, Description, Gather, Arrived, Collects, Answer, KeyOf, InTime;
    var a := arrivals[0];
    CollectStep(sources, c, past, a, arrivals[i].key, arrivals[i].now);
    if i == 0 {
      assert past + arrivals[..0] == past;
    } else {
      AnswerAt(sources, Gather(c, a, Description(sources[a.key]).count).0, past + [a], arrivals[1..], i - 1);
      assert past + [a] + arrivals[1..][..i - 1] == past + arrivals[..i];
    }
  }

  lemma NothingYet(sources: Sources, k: Key, last: nat)
    ensures Tracks(sources, map[], map[]) && Collects(sources, map[], [], k, last) && Invariant(map[])
  {
  }

  lemma AllInTime(arrivals: seq<Arrival>, i: nat)
    requires Ordered(None, arrivals) && i < |arrivals| && BeforeDeadline(arrivals, i)
    ensures forall j :: 0 <= j <= i ==> InTime(arrivals[j], arrivals[i].key, arrivals[i].now)
  {
  }

  /**
   * Any run of fragments of at most four messages, in any order, with any repetitions and at any
   * distance in time: a fragment that comes before the deadline of its own message is answered by
   * "incomplete" until it makes the index set of that message complete for the first time, and then
   * by the original bytes.
   */
  lemma FirstCompletion(sources: Sources, arrivals: seq<Arrival>, i: nat)
    requires |sources| <= CAPACITY && AllHonest(sources, arrivals) && Ordered(None, arrivals)
    requires i < |arrivals| && BeforeDeadline(arrivals, i)
    ensures var a := arrivals[i];
            !Arrived(sources, arrivals[..i], a.key) ==>
              && i < |RunA(NOTHING_HELD, Wires(sources, arrivals))|
              && RunA(NOTHING_HELD, Wires(sources, arrivals))[i]
                 == Answer(sources, a, Arrived(sources, arrivals[..i] + [a], a.key))
  {
    hide Honest, Arrived, Tracks, Collects, Invariant, Answer, Answers, RunA, InTime, BeforeDeadline,
         Ordered, Wires;
    NothingYet(sources, arrivals[i].key, arrivals[i].now);
    HonestRunsGather(sources, NOTHING_HELD, map[], arrivals);
    AllInTime(arrivals, i);
    AnswerAt(sources, map[], [], arrivals, i);
    assert [] + arrivals[..i] == arrivals[..i];
  }

  /** The firmware's four slots do the same: 0 until complete, then 1 with the original bytes. */
  lemma FirmwareFirstCompletion(sources: Sources, arrivals: seq<Arrival>, i: nat, cap: nat)
    requires |sources| <= CAPACITY && AllHonest(sources, arrivals) && Ordered(None, arrivals)
    requires i < |arrivals| && BeforeDeadline(arrivals, i) && cap >= MAX_MESSAGE
    requires arrivals[|arrivals| - 1].now <= U64_MAX - TIMEOUT
    ensures AllSized(Cleared(0).slots)
    ensures var a := arrivals[i];
            !Arrived(sources, arrivals[..i], a.key) ==>
              && i < |RunC(Cleared(0), Wires(sources, arrivals), cap)|
              && Agree(RunC(Cleared(0), Wires(sources, arrivals), cap)[i],
                       Answer(sources, a, Arrived(sources, arrivals[..i] + [a], a.key)))
  {
    hide Honest, Arrived, Rel, Answer, RunA, RunC, Cleared, Agree, Invariant, BeforeDeadline;
    InitialStatesRelated();
    RelSized(Cleared(0), NOTHING_HELD);
    NoSlots();
    ClearedClock();
    WiresOrdered(sources, arrivals, 0);
    RunsAgree(Cleared(0), NOTHING_HELD, Wires(sources, arrivals), cap);
    FirstCompletion(sources, arrivals, i);
  }

  lemma ClearedClock()
    ensures Cleared(0).now == 0
  {
  }

  lemma {:induction false} WiresOrdered(sources: Sources, arrivals: seq<Arrival>, from: u64)
    requires AllHonest(sources, arrivals) && Ordered(Some(from as nat), arrivals)
    requires arrivals != [] ==> arrivals[|arrivals| - 1].now <= U64_MAX - TIMEOUT
    ensures Nondecreasing(Wires(sources, arrivals), from)
    decreases |arrivals|
  {
    hide Wire, Honest;
    if arrivals != [] {
      WireTime(sources, arrivals[0]);
      WiresOrdered(sources, arrivals[1..], arrivals[0].now);
      assert Wires(sources, arrivals)[1..] == Wires(sources, arrivals[1..]);
    }
  }
}
