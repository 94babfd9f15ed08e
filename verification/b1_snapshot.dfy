/** The deep-sleep snapshot of the B1 policy: one field walk in both directions, restored all or nothing. */
module B1Snapshot {
  import opened Wrappers
  import opened Bytes
  import opened SnapshotWalk
  import Checkpoint = B1Checkpoint
  import Crc32

  const MAX_BYTES := 6000
  const MAGIC32: u32 := 0x5341_3142
  const VERSION: u16 := 1
  const DAY := 86_400_000
  const STATES := 3
  const POINTS := 64

  const FLAG := Num(1, 1)
  const OCTET := Num(1, 255)
  const U16 := Num(2, 0xffff)
  const U32 := Num(4, 0xffff_ffff)
  const U64 := Num(8, 0xffff_ffff_ffff_ffff)
  const F32 := Real(4)
  const F64 := Real(8)

  function Repeated(block: seq<Kind>, n: nat): seq<Kind> {
    if n == 0 then [] else Repeated(block, n - 1) + block
  }

  // ---- the fields, in walk order -------------------------------------------------------------------------

  /** Sequence, generation, owner, previous boot, saved and planned time, boot lease. */
  function IdentityShape(): seq<Kind> {
    [U32, U32] + Repeated([OCTET], 3) + Repeated([OCTET], 80) + [U64, U64, U64, U64]
  }

  /** One trust channel; the int ranges are its checks that concern one field only. */
  function TrustShape(): seq<Kind> {
    [Num(1, 1), Int(1, POINTS), Int(0, POINTS), Int(0, POINTS - 1)] + Repeated([F32, U64], POINTS)
    + [Int(0, INT_MAX), FLAG, F32, U64, FLAG, F32, Int(0, INT_MAX - 1), Int(0, INT_MAX - 1), Int(-1, 1),
       Int(0, 100), Num(4, 2), Num(4, 31)]
  }

  function DetectorShape(): seq<Kind> {
    Repeated([U16, U16] + Repeated([F64, F32], POINTS) + [F32, FLAG, F64, FLAG], 4) + [F64, FLAG, FLAG]
  }

  function SchedulerShape(): seq<Kind> {
    [Num(4, STATES - 1), F32] + Repeated([Int(0, INT_MAX), Int(0, INT_MAX)], STATES)
    + [Num(8, 0xffff_fffe), F64, FLAG] + Repeated([F32, FLAG], 4) + [F32, FLAG]
  }

  function ReportShape(): seq<Kind> {
    [FLAG, FLAG, FLAG, Num(4, 2), Num(4, 31), Num(4, 31), F64, F32, F32, F32, FLAG, FLAG, U32, U64]
  }

  function PolicyShape(): seq<Kind> {
    TrustShape() + TrustShape() + DetectorShape() + SchedulerShape() + ReportShape()
  }

  function Shape(): seq<Kind> {
    IdentityShape() + PolicyShape()
  }

  lemma {:induction false} RepeatedSize(block: seq<Kind>, n: nat)
    ensures Size(Repeated(block, n)) == n * Size(block) && |Repeated(block, n)| == n * |block|
  {
    hide Size;
    if n == 0 {
      EmptySize();
    } else {
      RepeatedSize(block, n - 1);
      SizeJoins(Repeated(block, n - 1), block);
      assert n * Size(block) == (n - 1) * Size(block) + Size(block);
      assert n * |block| == (n - 1) * |block| + |block|;
    }
  }

  lemma EmptySize()
    ensures Size([]) == 0
  {
  }

  lemma FieldSize(a: seq<Kind>, k: Kind)
    ensures Size(a + [k]) == Size(a) + Width(k)
  {
    assert (a + [k])[..|a|] == a;
  }

  /** Sizes of up to four fields in a row. */
  lemma FewFields(a: Kind, b: Kind, c: Kind, d: Kind)
    ensures Size([a]) == Width(a) && Size([a, b]) == Width(a) + Width(b)
    ensures Size([a, b, c]) == Width(a) + Width(b) + Width(c)
    ensures Size([a, b, c, d]) == Width(a) + Width(b) + Width(c) + Width(d)
  {
    hide Size, Width;
    EmptySize();
    FieldSize([], a);
    FieldSize([a], b);
    FieldSize([a, b], c);
    FieldSize([a, b, c], d);
    assert [] + [a] == [a] && [a] + [b] == [a, b] && [a, b] + [c] == [a, b, c] && [a, b, c] + [d] == [a, b, c, d];
  }

  lemma TrustSize()
    ensures |TrustShape()| == TRUST_SIZE && Size(TrustShape()) == 827
  {
    hide Size, Repeated;
    var head: seq<Kind> := [Num(1, 1), Int(1, POINTS), Int(0, POINTS), Int(0, POINTS - 1)];
    var points := Repeated([F32, U64], POINTS);
    var t1: seq<Kind> := [Int(0, INT_MAX), FLAG, F32, U64];
    var t2: seq<Kind> := [FLAG, F32, Int(0, INT_MAX - 1), Int(0, INT_MAX - 1)];
    var t3: seq<Kind> := [Int(-1, 1), Int(0, 100), Num(4, 2), Num(4, 31)];
    FewFields(head[0], head[1], head[2], head[3]);
    FewFields(F32, U64, F32, F32);
    FewFields(t1[0], t1[1], t1[2], t1[3]);
    FewFields(t2[0], t2[1], t2[2], t2[3]);
    FewFields(t3[0], t3[1], t3[2], t3[3]);
    RepeatedSize([F32, U64], POINTS);
    SizeJoins(head, points);
    SizeJoins(t1, t2);
    SizeJoins(t1 + t2, t3);
    SizeJoins(head + points, t1 + t2 + t3);
    assert TrustShape() == head + points + (t1 + t2 + t3);
  }

  lemma DetectorSize()
    ensures |DetectorShape()| == 4 * CHANNEL_SIZE + 3 && Size(DetectorShape()) == 3154
  {
    hide Size, Repeated;
    var points := Repeated([F64, F32], POINTS);
    var channel := [U16, U16] + points + [F32, FLAG, F64, FLAG];
    FewFields(U16, U16, F32, F32);
    FewFields(F64, F32, F32, F32);
    FewFields(F32, FLAG, F64, FLAG);
    FewFields(F64, FLAG, FLAG, FLAG);
    RepeatedSize([F64, F32], POINTS);
    SizeJoins([U16, U16], points);
    SizeJoins([U16, U16] + points, [F32, FLAG, F64, FLAG]);
    RepeatedSize(channel, 4);
    SizeJoins(Repeated(channel, 4), [F64, FLAG, FLAG]);
  }

  lemma SchedulerSize()
    ensures |SchedulerShape()| == 21 && Size(SchedulerShape()) == 74
  {
    hide Size, Repeated;
    var head: seq<Kind> := [Num(4, STATES - 1), F32];
    var rung: seq<Kind> := [Int(0, INT_MAX), Int(0, INT_MAX)];
    var middle: seq<Kind> := [Num(8, 0xffff_fffe), F64, FLAG];
    FewFields(head[0], head[1], F32, F32);
    FewFields(rung[0], rung[1], F32, F32);
    FewFields(middle[0], middle[1], middle[2], F32);
    FewFields(F32, FLAG, F32, F32);
    RepeatedSize(rung, STATES);
    RepeatedSize([F32, FLAG], 4);
    SizeJoins(head, Repeated(rung, STATES));
    SizeJoins(head + Repeated(rung, STATES), middle);
    SizeJoins(head + Repeated(rung, STATES) + middle, Repeated([F32, FLAG], 4));
    SizeJoins(head + Repeated(rung, STATES) + middle + Repeated([F32, FLAG], 4), [F32, FLAG]);
  }

  lemma ReportSize()
    ensures |ReportShape()| == 14 && Size(ReportShape()) == 49
  {
    hide Size;
    var r := ReportShape();
    FewFields(FLAG, FLAG, FLAG, Num(4, 2));
    FewFields(Num(4, 31), Num(4, 31), F64, F32);
    FewFields(F32, F32, FLAG, FLAG);
    FewFields(U32, U64, F32, F32);
    var a: seq<Kind>, b: seq<Kind>, c: seq<Kind>, d: seq<Kind> :=
      [FLAG, FLAG, FLAG, Num(4, 2)], [Num(4, 31), Num(4, 31), F64, F32], [F32, F32, FLAG, FLAG], [U32, U64];
    SizeJoins(a, b);
    SizeJoins(a + b, c);
    SizeJoins(a + b + c, d);
    assert r == a + b + c + d;
  }

  lemma IdentitySize()
    ensures |IdentityShape()| == LAST_COUNTER + 1 && Size(IdentityShape()) == 123
  {
    hide Size, Repeated;
    var owner, previous := Repeated([OCTET], 3), Repeated([OCTET], 80);
    FewFields(U32, U32, U32, U32);
    FewFields(OCTET, U32, U32, U32);
    FewFields(U64, U64, U64, U64);
    RepeatedSize([OCTET], 3);
    RepeatedSize([OCTET], 80);
    SizeJoins([U32, U32], owner);
    SizeJoins([U32, U32] + owner, previous);
    SizeJoins([U32, U32] + owner + previous, [U64, U64, U64, U64]);
  }

  /** The walk has 951 fields and the snapshot 5070 bytes, which fit the RTC buffer. */
  lemma SnapshotSize()
    ensures |IdentityShape()| == LAST_COUNTER + 1 && |PolicyShape()| == REPORT + 14 && 16 + Size(Shape()) == 5070
  {
    hide Size, Repeated, TrustShape, DetectorShape, SchedulerShape, IdentityShape, ReportShape;
    IdentitySize();
    TrustSize();
    DetectorSize();
    SchedulerSize();
    ReportSize();
    SizeJoins(TrustShape(), TrustShape());
    SizeJoins(TrustShape() + TrustShape(), DetectorShape());
    SizeJoins(TrustShape() + TrustShape() + DetectorShape(), SchedulerShape());
    SizeJoins(TrustShape() + TrustShape() + DetectorShape() + SchedulerShape(), ReportShape());
    SizeJoins(IdentityShape(), PolicyShape());
  }

  /** Identity and policy as the values of their walked fields. */
  datatype Image = Image(identity: seq<nat>, policy: seq<nat>)

  predicate Shaped(m: Image) {
    |m.identity| == |IdentityShape()| && |m.policy| == |PolicyShape()|
  }

  function At(s: seq<nat>, i: nat): nat {
    if i < |s| then s[i] else 0
  }

  // positions in the identity
  const SEQUENCE := 0
  const GENERATION := 1
  const OWNER := 2
  const PREVIOUS := 5
  const SAVED := 85
  const PLANNED := 86
  const NEXT_COUNTER := 87
  const LAST_COUNTER := 88

  // positions in the policy
  const TRUST_SIZE := 144
  const DETECTOR := 288
  const CHANNEL_SIZE := 134
  const EVENT_START := 824
  const SCHEDULER := 827
  const REPORT := 848
  const THRESHOLD := 855
  const MARGIN := 856

  // ---- the checks across fields ----------------------------------------------------------------------------

  /** What the compiled profile fixes; hash is None when its fingerprint cannot be taken. */
  datatype Profile = Profile(hash: Option<u32>, initial: seq<nat>, capacity: seq<nat>, history: seq<nat>,
                             minInterval: real, maxInterval: real, ladderLength: seq<nat>, ladderConfirm: seq<nat>)

  function Pow2(e: int): real
    decreases if e < 0 then -e else e
  {
    if e == 0 then 1.0 else if e > 0 then 2.0 * Pow2(e - 1) else Pow2(e + 1) / 2.0
  }

  /** The number a finite binary32 word stands for. */
  function F32Value(v: nat): real {
    var exponent, mantissa := v / 0x80_0000 % 256, v % 0x80_0000;
    var size := if exponent == 0 then mantissa as real * Pow2(-149)
        else (0x80_0000 + mantissa) as real * Pow2(exponent - 150);
    if v >= 0x8000_0000 then -size else size
  }

  /** The number a finite binary64 word stands for. */
  function F64Value(v: nat): real {
    var exponent, mantissa := v / 0x10_0000_0000_0000 % 2048, v % 0x10_0000_0000_0000;
    var size := if exponent == 0 then mantissa as real * Pow2(-1074)
                else (0x10_0000_0000_0000 + mantissa) as real * Pow2(exponent - 1075);
    if v >= 0x8000_0000_0000_0000 then -size else size
  }

  predicate IdentityOk(id: seq<nat>) {
    && ((At(id, NEXT_COUNTER) == 0 && At(id, LAST_COUNTER) == 0)
        || (At(id, NEXT_COUNTER) != 0 && At(id, LAST_COUNTER) != U64_MAX
            && At(id, NEXT_COUNTER) <= At(id, LAST_COUNTER) + 1))
    && At(id, GENERATION) >= 1
    && At(id, OWNER) == 65 && At(id, OWNER + 1) in {49, 50} && At(id, OWNER + 2) == 0
    && (exists i: nat :: i < 80 && EndsBefore(id, i))
    && 1000 <= At(id, PLANNED) <= DAY
  }

  predicate EndsBefore(id: seq<nat>, i: nat) {
    At(id, PREVIOUS + i) == 0
  }

  /** Time of the j-th oldest point of a trust window. */
  function PointTime(p: seq<nat>, base: nat, j: nat, capacity: nat): nat
    requires capacity > 0
  {
    At(p, base + 5 + 2 * ((At(p, base + 3) + j) % capacity))
  }

  predicate TrustOk(p: seq<nat>, base: nat, capacity: nat, saved: nat) {
    && At(p, base) == 1 && At(p, base + 1) == capacity && 1 <= capacity <= POINTS
    && At(p, base + 2) <= capacity && At(p, base + 3) < capacity
    && (At(p, base + 133) == 1 ==> At(p, base + 135) <= saved)
    && forall j: nat :: j < At(p, base + 2) ==> PointTime(p, base, j, capacity) <= saved
  }

  predicate ChannelOk(p: seq<nat>, base: nat, end: real) {
    && 1 <= At(p, base + 1) <= POINTS && At(p, base) <= At(p, base + 1)
    && (At(p, base + 133) == 1 ==> 0.0 <= F64Value(At(p, base + 132)) <= end)
    && forall j: nat :: j < At(p, base) ==> HistoryOk(p, base, j, end)
  }

  predicate HistoryOk(p: seq<nat>, base: nat, j: nat, end: real) {
    && 0.0 <= F64Value(At(p, base + 2 + 2 * j)) <= end
    && (j > 0 ==> F64Value(At(p, base + 2 * j)) <= F64Value(At(p, base + 2 + 2 * j)))
  }

  predicate LadderOk(p: seq<nat>, f: Profile, i: nat) {
    At(p, SCHEDULER + 2 + 2 * i) < At(f.ladderLength, i) && At(p, SCHEDULER + 3 + 2 * i) < At(f.ladderConfirm, i)
  }

  predicate ReportOk(p: seq<nat>, id: seq<nat>, end: real) {
    && At(p, REPORT + 12) <= At(id, SEQUENCE) && At(p, REPORT + 13) <= At(id, SAVED) && F32Value(At(p, MARGIN)) >= 0.0
    && F64Value(At(p, EVENT_START)) <= end && 0.0 <= F64Value(At(p, REPORT + 6)) <= end
    && (At(p, SCHEDULER + 10) == 1 ==> 0.0 <= F64Value(At(p, SCHEDULER + 9)) <= end)
  }

  /** The checks of the walk and of valid_time that relate several fields. */
  predicate Consistent(f: Profile, m: Image) {
    var saved := At(m.identity, SAVED);
    var end := saved as real / 1000.0;
    && IdentityOk(m.identity)
    && TrustOk(m.policy, 0, At(f.capacity, 0), saved) && TrustOk(m.policy, TRUST_SIZE, At(f.capacity, 1), saved)
    && (forall i: nat :: i < 4 ==> ChannelOk(m.policy, DETECTOR + i * CHANNEL_SIZE, end))
    && f.minInterval <= F32Value(At(m.policy, SCHEDULER + 1)) <= f.maxInterval
    && (forall i: nat :: i < STATES ==> LadderOk(m.policy, f, i))
    && ReportOk(m.policy, m.identity, end)
  }

  /** History capacities never change; only a restore compares them. */
  predicate SameHistory(f: Profile, p: seq<nat>) {
    forall i: nat :: i < 4 ==> At(p, DETECTOR + i * CHANNEL_SIZE + 1) == At(f.history, i)
  }

  // ---- encode and restore --------------------------------------------------------------------------------

  function Front(hash: u32, length: u16): (s: seq<byte>)
    ensures |s| == 12
  {
    Le(MAGIC32, 4) + Le(VERSION, 2) + Le(length, 2) + Le(hash, 4)
  }

  function Body(m: Image): (s: seq<byte>)
    requires Shaped(m)
    ensures |s| == Size(Shape())
  {
    Written(Shape(), m.identity + m.policy)
  }

  predicate Encodable(f: Profile, m: Image) {
    && Shaped(m) && f.hash.Some? && 16 + Size(Shape()) <= MAX_BYTES
    && AllAccepted(Shape(), m.identity + m.policy) && Consistent(f, m)
  }

  function Frozen(f: Profile, m: Image): seq<byte>
    requires Encodable(f, m)
  {
    var front := Front(f.hash.value, 16 + Size(Shape()));
    front + Le(Crc32.Crc(front + [0, 0, 0, 0] + Body(m)), 4) + Body(m)
  }

  /** b1_snapshot_encode into a buffer of cap bytes. */
  function Encode(f: Profile, m: Image, cap: nat): Option<seq<byte>> {
    if 16 <= cap <= MAX_BYTES && Encodable(f, m) && 16 + Size(Shape()) <= cap then Some(Frozen(f, m)) else None
  }

  function Split(values: seq<nat>): (m: Image)
    requires |values| == |Shape()|
    ensures Shaped(m) && m.identity + m.policy == values
  {
    Image(values[..|IdentityShape()|], values[|IdentityShape()|..])
  }

  /** The part of b1_snapshot_restore up to the time: header, checksum, walk and checks. */
  function Parsed(f: Profile, s: seq<byte>): Option<Image> {
    if |s| < 16 || |s| > MAX_BYTES || f.hash == None then None
    else if Get(s, 0, 4) != MAGIC32 || Get(s, 4, 2) != VERSION || Get(s, 6, 2) != |s| || Get(s, 8, 4) != f.hash.value
            || Get(s, 12, 4) != Crc32.Crc(Checkpoint.Blanked(s)) then None
    else if |s| != 16 + Size(Shape()) then None
    else
      var values := Read(Shape(), s[16..]);
      var m := Split(values);
      if AllAccepted(Shape(), values) && Consistent(f, m) && SameHistory(f, m.policy) then Some(m) else None
  }

  datatype Continuity = CONTINUOUS | TIME_UNKNOWN

  datatype Restored = Restored(continuity: Continuity, image: Image, current: nat)

  /** Without trusted time only the identity and the thresholds survive. */
  function Reset(f: Profile, m: Image): Image {
    if |f.initial| <= MARGIN then m.(policy := f.initial)
    else m.(policy := f.initial[THRESHOLD := At(m.policy, THRESHOLD)][MARGIN := At(m.policy, MARGIN)])
  }

  /** b1_snapshot_restore; None stands for the rejection. */
  function Restore(f: Profile, s: seq<byte>, minimum: nat, trusted: bool, elapsed: u64): Option<Restored> {
    match Parsed(f, s)
    case None => None
    case Some(m) =>
      var saved := At(m.identity, SAVED);
      if At(m.identity, GENERATION) < minimum || saved + elapsed > U64_MAX || (trusted && elapsed > DAY) then None
      else if trusted then Some(Restored(CONTINUOUS, m, saved + elapsed))
      else Some(Restored(TIME_UNKNOWN, Reset(f, m), 0))
  }

  // ---- the walk is its own inverse -------------------------------------------------------------------------

  lemma FrontParts(hash: u32, length: u16)
    ensures var s := Front(hash, length);
            Get(s, 0, 4) == MAGIC32 && Get(s, 4, 2) == VERSION && Get(s, 6, 2) == length && Get(s, 8, 4) == hash
  {
    hide Le, Value;
    var s := Front(hash, length);
    Widths();
    assert s[0..4] == Le(MAGIC32, 4) && s[4..6] == Le(VERSION, 2) && s[6..8] == Le(length, 2)
           && s[8..12] == Le(hash, 4);
    ValueOfLe(MAGIC32, 4);
    ValueOfLe(VERSION, 2);
    ValueOfLe(length, 2);
    ValueOfLe(hash, 4);
  }

  lemma HeaderInside(s: seq<byte>, front: seq<byte>)
    requires |s| >= 16 && |front| == 12 && s[..12] == front
    ensures Get(s, 0, 4) == Get(front, 0, 4) && Get(s, 4, 2) == Get(front, 4, 2)
    ensures Get(s, 6, 2) == Get(front, 6, 2) && Get(s, 8, 4) == Get(front, 8, 4)
  {
    hide Value;
    assert s[0..4] == front[0..4] && s[4..6] == front[4..6] && s[6..8] == front[6..8] && s[8..12] == front[8..12];
  }

  lemma BytesParts(front: seq<byte>, crc: seq<byte>, body: seq<byte>)
    requires |front| == 12 && |crc| == 4
    ensures var s := front + crc + body;
            s[..12] == front && s[12..16] == crc && s[16..] == body
            && Checkpoint.Blanked(s) == front + [0, 0, 0, 0] + body
  {
  }

  lemma ParsedBytes(f: Profile, m: Image)
    requires Encodable(f, m) && SameHistory(f, m.policy)
    ensures Parsed(f, Frozen(f, m)) == Some(m)
  {
    hide Le, Value, Crc32.Crc, Consistent, SameHistory, Shape, Read, Written, Size, AllAccepted, Checkpoint.Blanked,
         IdentityShape, PolicyShape, Front;
    var length: u16 := 16 + Size(Shape());
    var front, body := Front(f.hash.value, length), Body(m);
    var crc := Crc32.Crc(front + [0, 0, 0, 0] + body);
    var s := Frozen(f, m);
    Widths();
    BytesParts(front, Le(crc, 4), body);
    FrontParts(f.hash.value, length);
    HeaderInside(s, front);
    ValueOfLe(crc, 4);
    ReadOfWritten(Shape(), m.identity + m.policy, []);
    assert body + [] == body;
    SplitJoined(m);
  }

  lemma SplitJoined(m: Image)
    requires Shaped(m)
    ensures |m.identity + m.policy| == |Shape()| && Split(m.identity + m.policy) == m
  {
    hide IdentityShape, PolicyShape;
    var v := m.identity + m.policy;
    assert v[..|m.identity|] == m.identity && v[|m.identity|..] == m.policy;
  }

  lemma BytesOfParsed(f: Profile, s: seq<byte>)
    requires Parsed(f, s).Some?
    ensures Encodable(f, Parsed(f, s).value) && Frozen(f, Parsed(f, s).value) == s
  {
    hide Le, Value, Crc32.Crc, Consistent, SameHistory, Shape, Read, Written, Size, AllAccepted, Checkpoint.Blanked,
         IdentityShape, PolicyShape, Front;
    var m := Parsed(f, s).value;
    WrittenOfRead(Shape(), s[16..]);
    assert s[16..][..Size(Shape())] == s[16..];
    FrontOfHeader(s, f.hash.value);
    LeOfGet(s, 12, 4);
    assert s == s[..12] + s[12..16] + s[16..];
    BytesParts(s[..12], s[12..16], s[16..]);
  }

  lemma FrontOfHeader(s: seq<byte>, hash: u32)
    requires 16 <= |s| <= 0xffff && Get(s, 0, 4) == MAGIC32 && Get(s, 4, 2) == VERSION && Get(s, 6, 2) == |s|
             && Get(s, 8, 4) == hash
    ensures s[..12] == Front(hash, |s|)
  {
    hide Le, Value;
    LeOfGet(s, 0, 4);
    LeOfGet(s, 4, 2);
    LeOfGet(s, 6, 2);
    LeOfGet(s, 8, 4);
    assert s[..12] == s[0..4] + s[4..6] + s[6..8] + s[8..12];
  }

  /** A snapshot is accepted as an image exactly when it is the encoding of that image. */
  lemma SnapshotIsCanonical(f: Profile, m: Image, s: seq<byte>)
    ensures Parsed(f, s) == Some(m) <==> Encode(f, m, MAX_BYTES) == Some(s) && SameHistory(f, m.policy)
  {
    hide Parsed, Encodable, Frozen, SameHistory, Shape, Size;
    if Parsed(f, s) == Some(m) {
      BytesOfParsed(f, s);
      ParsedSized(f, s);
    }
    if Encode(f, m, MAX_BYTES) == Some(s) && SameHistory(f, m.policy) {
      ParsedBytes(f, m);
    }
  }

  lemma ParsedSized(f: Profile, s: seq<byte>)
    requires Parsed(f, s).Some?
    ensures |s| == 16 + Size(Shape()) <= MAX_BYTES && SameHistory(f, Parsed(f, s).value.policy)
  {
    hide Shape, Size, Consistent, SameHistory, Read, AllAccepted, Checkpoint.Blanked;
  }

  /**
   * A successful encode of a policy of this profile restores, with trusted time, to the same policy
   * and identity at the saved time plus the time elapsed.
   */
  lemma EncodedRestores(f: Profile, m: Image, cap: nat, minimum: nat, elapsed: u64)
    requires Encode(f, m, cap).Some? && SameHistory(f, m.policy)
    requires minimum <= At(m.identity, GENERATION) && elapsed <= DAY && At(m.identity, SAVED) + elapsed <= U64_MAX
    ensures Restore(f, Encode(f, m, cap).value, minimum, true, elapsed)
            == Some(Restored(CONTINUOUS, m, At(m.identity, SAVED) + elapsed))
  {
    hide Parsed, Encodable, Frozen, SameHistory, Shape, Size;
    ParsedBytes(f, m);
  }

  /** Anything accepted is consumed to its last byte, is not older than the minimum epoch, and keeps its identity. */
  lemma AcceptedIsExact(f: Profile, s: seq<byte>, minimum: nat, trusted: bool, elapsed: u64)
    requires Restore(f, s, minimum, trusted, elapsed).Some?
    ensures var r := Restore(f, s, minimum, trusted, elapsed).value;
            && |s| == 16 + Size(Shape()) && At(r.image.identity, GENERATION) >= minimum
            && (exists m: Image ::
                 Encode(f, m, MAX_BYTES) == Some(s) && m.identity == r.image.identity && (trusted ==> m == r.image))
  {
    hide Parsed, Encode, SameHistory, Shape, Size;
    var m := Parsed(f, s).value;
    SnapshotIsCanonical(f, m, s);
    ParsedSized(f, s);
  }

  /**
   * When the encoding of an image restores: the epoch is not older than the minimum, the time fits, and a
   * trusted pause is at most a day. With trusted time everything goes on at saved plus elapsed time.
   * Without it nothing of the policy survives but threshold and margin, the eighth and ninth field of the
   * report: every other field is as after a
   * first start, and the clock is zero.
   */
  lemma RestoresExactly(f: Profile, m: Image, s: seq<byte>, minimum: nat, trusted: bool, elapsed: u64)
    requires Encode(f, m, MAX_BYTES) == Some(s) && SameHistory(f, m.policy)
    requires |f.initial| == |m.policy| > MARGIN
    ensures var r := Restore(f, s, minimum, trusted, elapsed);
            && (r.Some? <==>
                 && minimum <= At(m.identity, GENERATION) && At(m.identity, SAVED) + elapsed <= U64_MAX
                 && (trusted ==> elapsed <= 86_400_000))
            && (r.Some? ==>
                 && r.value.image.identity == m.identity && |r.value.image.policy| == |m.policy|
                 && (trusted ==> r.value == Restored(CONTINUOUS, m, At(m.identity, SAVED) + elapsed))
                 && (!trusted ==>
                      && r.value.continuity == TIME_UNKNOWN && r.value.current == 0
                      && forall i :: 0 <= i < |m.policy| ==>
                           r.value.image.policy[i]
                           == if i in {REPORT + 7, REPORT + 8} then m.policy[i] else f.initial[i]))
  {
    hide Parsed, Encode, SameHistory, Shape, Size;
    SnapshotIsCanonical(f, m, s);
  }

  /** Under untrusted time two snapshots that agree on identity, threshold and margin cannot be told apart. */
  lemma UntrustedForgets(f: Profile, a: seq<byte>, b: seq<byte>, m: Image, n: Image, minimum: nat, elapsed: u64)
    requires Encode(f, m, MAX_BYTES) == Some(a) && SameHistory(f, m.policy)
    requires Encode(f, n, MAX_BYTES) == Some(b) && SameHistory(f, n.policy)
    requires m.identity == n.identity && |f.initial| == |m.policy| == |n.policy| > MARGIN
    requires m.policy[THRESHOLD] == n.policy[THRESHOLD] && m.policy[MARGIN] == n.policy[MARGIN]
    ensures Restore(f, a, minimum, false, elapsed) == Restore(f, b, minimum, false, elapsed)
  {
    hide Restore, Encode, SameHistory;
    RestoresExactly(f, m, a, minimum, false, elapsed);
    RestoresExactly(f, n, b, minimum, false, elapsed);
    var x, y := Restore(f, a, minimum, false, elapsed), Restore(f, b, minimum, false, elapsed);
    if x.Some? {
      assert x.value.image.policy == y.value.image.policy;
    }
  }

  lemma RestoredConsistent(f: Profile, s: seq<byte>, minimum: nat, elapsed: u64)
    requires Restore(f, s, minimum, true, elapsed).Some?
    ensures var r := Restore(f, s, minimum, true, elapsed).value;
            Consistent(f, r.image) && r.current == At(r.image.identity, SAVED) + elapsed
  {
    hide Shape, Size, AllAccepted, Read, Checkpoint.Blanked, SameHistory, Crc32.Crc, Value, Consistent;
  }

  /** With trusted time no point of a restored trust window lies in the future, and its ring is in order. */
  lemma TrustIsPast(f: Profile, s: seq<byte>, minimum: nat, elapsed: u64, second: bool, j: nat)
    requires Restore(f, s, minimum, true, elapsed).Some?
    ensures var r := Restore(f, s, minimum, true, elapsed).value;
            var (p, base) := (r.image.policy, if second then TRUST_SIZE else 0);
            var (capacity, count, head) := (At(p, base + 1), At(p, base + 2), At(p, base + 3));
            && 1 <= capacity <= 64 && count <= capacity && head < capacity
            && (j < count ==> At(p, base + 5 + 2 * ((head + j) % capacity)) <= r.current)
            && (At(p, base + 133) == 1 ==> At(p, base + 135) <= r.current)
  {
    hide Restore, F64Value, F32Value, ChannelOk, ReportOk, IdentityOk, LadderOk;
    RestoredConsistent(f, s, minimum, elapsed);
    var r := Restore(f, s, minimum, true, elapsed).value;
    var p, base := r.image.policy, if second then TRUST_SIZE else 0;
    assert j < At(p, base + 2) ==> PointTime(p, base, j, At(p, base + 1)) <= At(r.image.identity, SAVED);
  }

  /** Nor does an entry of a detector history; the entries are in the order of their times. */
  lemma HistoryIsPast(f: Profile, s: seq<byte>, minimum: nat, elapsed: u64, i: nat, j: nat)
    requires Restore(f, s, minimum, true, elapsed).Some? && i < 4
    ensures var r := Restore(f, s, minimum, true, elapsed).value;
            var (p, base) := (r.image.policy, DETECTOR + i * CHANNEL_SIZE);
            j < At(p, base) ==>
              && 0.0 <= F64Value(At(p, base + 2 + 2 * j)) <= r.current as real / 1000.0
              && (j > 0 ==> F64Value(At(p, base + 2 * j)) <= F64Value(At(p, base + 2 + 2 * j)))
  {
    hide Restore, F64Value, F32Value, TrustOk, ReportOk, IdentityOk, LadderOk;
    RestoredConsistent(f, s, minimum, elapsed);
    var r := Restore(f, s, minimum, true, elapsed).value;
    var end := At(r.image.identity, SAVED) as real / 1000.0;
    assert ChannelOk(r.image.policy, DETECTOR + i * CHANNEL_SIZE, end);
    assert j < At(r.image.policy, DETECTOR + i * CHANNEL_SIZE) ==>
             HistoryOk(r.image.policy, DETECTOR + i * CHANNEL_SIZE, j, end);
  }

  /** Nor do the last notification, upload and confirmation; lease and sleep of the identity are possible ones. */
  lemma ReportIsPast(f: Profile, s: seq<byte>, minimum: nat, elapsed: u64)
    requires Restore(f, s, minimum, true, elapsed).Some?
    ensures var r := Restore(f, s, minimum, true, elapsed).value;
            var (p, id, end) := (r.image.policy, r.image.identity, r.current as real / 1000.0);
            && 0.0 <= F64Value(At(p, REPORT + 6)) <= end
            && (At(p, SCHEDULER + 10) == 1 ==> 0.0 <= F64Value(At(p, SCHEDULER + 9)) <= end)
            && At(p, REPORT + 12) <= At(id, SEQUENCE) && At(p, REPORT + 13) <= r.current
            && At(id, NEXT_COUNTER) <= At(id, LAST_COUNTER) + 1 && At(id, GENERATION) >= 1
            && 1000 <= At(id, PLANNED) <= 86_400_000
            && f.minInterval <= F32Value(At(p, SCHEDULER + 1)) <= f.maxInterval
  {
    hide Restore, F64Value, F32Value, TrustOk, ChannelOk, LadderOk;
    RestoredConsistent(f, s, minimum, elapsed);
  }

  /** No restored float is infinite or no number, and every restored number and int is within its range. */
  lemma FieldsFit(f: Profile, s: seq<byte>, minimum: nat, elapsed: u64, i: nat)
    requires Restore(f, s, minimum, true, elapsed).Some? && i < |Shape()|
    ensures var m := Restore(f, s, minimum, true, elapsed).value.image;
            && |m.identity + m.policy| == |Shape()|
            && var v := (m.identity + m.policy)[i];
               match Shape()[i]
               case Num(_, max) => v <= max
               case Int(low, high) => low <= (if v < 0x8000_0000 then v else v - 0x1_0000_0000) <= high
               case Real(width) =>
                 && (width == 4 ==> v % 0x8000_0000 < 0x7f80_0000)
                 && (width == 8 ==> v % 0x8000_0000_0000_0000 < 0x7ff0_0000_0000_0000)
  {
    hide Shape, Size, Read, Checkpoint.Blanked, SameHistory, Crc32.Crc, Value, Consistent, Finite, IdentityShape,
         PolicyShape;
    var m := Restore(f, s, minimum, true, elapsed).value.image;
    var v := (m.identity + m.policy)[i];
    assert Accepts(Shape()[i], v);
    Widths();
    FiniteMeans(v);
  }

  /** Every restored ladder position and rung count is one the profile has. */
  lemma LaddersFit(f: Profile, s: seq<byte>, minimum: nat, elapsed: u64, i: nat)
    requires Restore(f, s, minimum, true, elapsed).Some? && i < 3
    ensures var p := Restore(f, s, minimum, true, elapsed).value.image.policy;
            && At(p, SCHEDULER + 2 + 2 * i) < At(f.ladderLength, i)
            && At(p, SCHEDULER + 3 + 2 * i) < At(f.ladderConfirm, i)
  {
    hide Restore, F64Value, F32Value, TrustOk, ChannelOk, IdentityOk, ReportOk;
    RestoredConsistent(f, s, minimum, elapsed);
    assert LadderOk(Restore(f, s, minimum, true, elapsed).value.image.policy, f, i);
  }

  /** Nothing but the encoding of an image of this profile restores. */
  lemma OnlyEncodingsRestore(f: Profile, s: seq<byte>, minimum: nat, trusted: bool, elapsed: u64)
    requires Restore(f, s, minimum, trusted, elapsed).Some?
    ensures exists m: Image :: Encode(f, m, MAX_BYTES) == Some(s) && SameHistory(f, m.policy)
  {
    hide Parsed, Encode, SameHistory, Shape, Size;
    SnapshotIsCanonical(f, Parsed(f, s).value, s);
  }

  // ---- the C functions -------------------------------------------------------------------------------------

  class SleepState {
    const profile: Profile
    var image: Image

    constructor (profile: Profile, image: Image)
      ensures this.profile == profile && this.image == image
    {
      this.profile, this.image := profile, image;
    }

    /** b1_snapshot_encode: the length of the snapshot, 0 when there is none. */
    method EncodeTo(out: array<byte>) returns (length: nat)
      requires Shaped(image)
      modifies out
      ensures image == old(image)
      ensures match Encode(profile, image, out.Length)
              case None => length == 0
              case Some(s) => length == |s| <= out.Length && out[..length] == s
    {
      hide Le, Crc32.Crc, Consistent, Shape, Written, Read, Size, AllAccepted, Checkpoint.Blanked, Patch, Body,
           IdentityShape, PolicyShape;
      if out.Length < 16 || out.Length > MAX_BYTES || profile.hash == None {
        return 0;
      }
      ghost var was := out[..];
      var c := new Cursor(out, false, out.Length);
      var values := image.identity + image.policy;
      SplitJoined(image);
      var r := c.Word(MAGIC32, 4);
      r := c.Word(VERSION, 2);
      r := c.Word(0, 2);
      r := c.Word(profile.hash.value, 4);
      r := c.Word(0, 4);
      PatchJoins(was, 0, Le(MAGIC32, 4), Le(VERSION, 2));
      PatchJoins(was, 0, Le(MAGIC32, 4) + Le(VERSION, 2), Le(0, 2));
      PatchJoins(was, 0, Le(MAGIC32, 4) + Le(VERSION, 2) + Le(0, 2), Le(profile.hash.value, 4));
      ghost var empty := Le(MAGIC32, 4) + Le(VERSION, 2) + Le(0, 2) + Le(profile.hash.value, 4);
      PatchJoins(was, 0, empty, Le(0, 4));
      var walked := c.Walk(Shape(), values);
      if !c.ok || !Consistent(profile, image) {
        return 0;
      }
      length := c.at;
      ghost var body := Body(image);
      assert body == Written(Shape(), values) by { BodyWritten(image); }
      PatchJoins(was, 0, empty + Le(0, 4), body);
      Finish(out, was, empty, body, length);
    }

    /** The length, then the checksum over the whole snapshot. */
    method Finish(out: array<byte>, ghost was: seq<byte>, ghost empty: seq<byte>, ghost body: seq<byte>, length: nat)
      requires profile.hash.Some? && length == 16 + |body| && length <= out.Length == |was| && length <= MAX_BYTES
      requires empty == Le(MAGIC32, 4) + Le(VERSION, 2) + Le(0, 2) + Le(profile.hash.value, 4)
      requires out[..] == Patch(was, 0, empty + Le(0, 4) + body)
      modifies out
      ensures var front := Front(profile.hash.value, length);
              out[..length] == front + Le(Crc32.Crc(front + [0, 0, 0, 0] + body), 4) + body
    {
      hide Le, Crc32.Crc, Checkpoint.Blanked, Patch;
      ghost var start, hash := Le(MAGIC32, 4) + Le(VERSION, 2), Le(profile.hash.value, 4);
      ghost var zero := Le(0, 4);
      ghost var front := Front(profile.hash.value, length);
      assert empty + zero + body == start + Le(0, 2) + (hash + zero + body);
      PutLe(out, 6, length, 2);
      PatchReplaces(was, start, Le(0, 2), hash + zero + body, Le(length, 2));
      assert start + Le(length, 2) + (hash + zero + body) == front + zero + body;
      PatchFront(was, front + zero + body);
      assert out[..length] == front + zero + body;
      var crc := Checkpoint.CheckpointCrc(out, length);
      BytesParts(front, zero, body);
      PutLe(out, 12, crc, 4);
      PatchReplaces(was, front, zero, body, Le(crc, 4));
      PatchFront(was, front + Le(crc, 4) + body);
    }

    /** b1_snapshot_restore: on a rejection nothing changes. */
    method RestoreFrom(input: array<byte>, n: nat, minimum: nat, trusted: bool, elapsed: u64)
      returns (result: Option<Continuity>, current: nat)
      requires n <= input.Length
      modifies this, input
      ensures input[..] == old(input[..])
      ensures match Restore(profile, old(input[..n]), minimum, trusted, elapsed)
              case None => result == None && image == old(image)
              case Some(r) => result == Some(r.continuity) && image == r.image && current == r.current
    {
      hide Value, Crc32.Crc, Consistent, SameHistory, Shape, Read, Written, Size, AllAccepted, Checkpoint.Blanked,
           IdentityShape, PolicyShape;
      current := 0;
      if n < 16 || n > MAX_BYTES || profile.hash == None {
        return None, 0;
      }
      ghost var s := input[..n];
      var c := new Cursor(input, true, n);
      var magic := c.Word(0, 4);
      var version := c.Word(0, 2);
      var length := c.Word(0, 2);
      var hash := c.Word(0, 4);
      var stored := c.Word(0, 4);
      HeaderWords(input[..], n);
      var crc := Checkpoint.CheckpointCrc(input, n);
      if magic != MAGIC32 || version != VERSION || length != n || hash != profile.hash.value || stored != crc {
        return None, 0;
      }
      var values := c.Walk(Shape(), seq(|Shape()|, _ => 0));
      if 16 + Size(Shape()) == n {
        ReadBeyond(Shape(), input[..], n);
      }
      if !c.ok || c.at != n {
        return None, 0;
      }
      var m := Split(values);
      if !Consistent(profile, m) || !SameHistory(profile, m.policy) {
        return None, 0;
      }
      var saved := At(m.identity, SAVED);
      if At(m.identity, GENERATION) < minimum || saved + elapsed > U64_MAX || (trusted && elapsed > DAY) {
        return None, 0;
      }
      if trusted {
        image, current, result := m, saved + elapsed, Some(CONTINUOUS);
      } else {
        image, current, result := Reset(profile, m), 0, Some(TIME_UNKNOWN);
      }
    }
  }

  lemma BodyWritten(m: Image)
    requires Shaped(m)
    ensures |m.identity + m.policy| == |Shape()| && Body(m) == Written(Shape(), m.identity + m.policy)
  {
  }

  lemma HeaderWords(w: seq<byte>, n: nat)
    requires 16 <= n <= |w|
    ensures var s := w[..n];
            && Value(w[0..4]) == Get(s, 0, 4) && Value(w[4..6]) == Get(s, 4, 2) && Value(w[6..8]) == Get(s, 6, 2)
            && Value(w[8..12]) == Get(s, 8, 4) && Value(w[12..16]) == Get(s, 12, 4)
  {
    hide Value;
    var s := w[..n];
    assert s[0..4] == w[0..4] && s[4..6] == w[4..6] && s[6..8] == w[6..8] && s[8..12] == w[8..12]
           && s[12..16] == w[12..16];
  }

  lemma ReadBeyond(shape: seq<Kind>, w: seq<byte>, n: nat)
    requires 16 + Size(shape) == n <= |w|
    ensures Read(shape, w[16..]) == Read(shape, w[..n][16..])
  {
    ReadPart(shape, w[16..], w[..n][16..]);
  }

  /** Reading looks at no byte beyond the fields. */
  lemma {:induction false} ReadPart(shape: seq<Kind>, s: seq<byte>, t: seq<byte>)
    requires Size(shape) <= |s| && Size(shape) <= |t| && s[..Size(shape)] == t[..Size(shape)]
    ensures Read(shape, s) == Read(shape, t)
    decreases |shape|
  {
    hide Value, Width;
    if shape != [] {
      var front := shape[..|shape| - 1];
      assert s[..Size(front)] == s[..Size(shape)][..Size(front)];
      assert t[..Size(front)] == t[..Size(shape)][..Size(front)];
      ReadPart(front, s, t);
      assert s[Size(front)..Size(shape)] == s[..Size(shape)][Size(front)..];
      assert t[Size(front)..Size(shape)] == t[..Size(shape)][Size(front)..];
    }
  }
}
