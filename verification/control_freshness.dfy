/** Reliable samples reach a control decision in the order of their sequence numbers. */
module ControlFreshness {
  import opened Wrappers
  import opened Bytes
  import opened HexText
  import opened OfflineQueues
  import B1Record

  /** Sensor nodes have names without a dash; boots may contain dashes. */
  type Source = s: Name | 45 !in s

  type Number = x: u32 | 0 < x witness 1

  /** A reliable sample or alert as identity_and_digest accepts it. */
  datatype Sample = Sample(source: Source, boot: Name, sequence: Number, alert: bool,
                           digest: seq<byte>, payload: seq<byte>, high: bool)

  function BootPrefix(source: Name, boot: Name): Name {
    source + [45] + boot + [45]
  }

  /** "source-boot-sequence-S", the sequence in eight hexadecimal digits; alerts end in A. */
  function Identity(m: Sample): Name {
    BootPrefix(m.source, m.boot) + Hex(m.sequence, 8) + [45, if m.alert then 65 else 83]
  }

  predicate SameBoot(a: Sample, b: Sample) {
    a.source == b.source && a.boot == b.boot
  }

  /** A gateway: its outbox and the samples decided on so far. */
  datatype Gateway = Gateway(outbox: Outbox, decided: seq<Sample>)

  function UploadOf(m: Sample): Upload {
    Upload(Identity(m), m.payload, m.high)
  }

  /**
   * One message of the sensor queue. usable stands for every other condition of a decision:
   * health, age, ownership and features.
   */
  function Processed(g: Gateway, l: Limits, m: Sample, usable: bool, o: SaveOutcome): Gateway {
    var newest := SensorIsFresh(g.outbox.receipts.Keys, Identity(m));
    var (q, v) := Attempted(g.outbox, l, UploadOf(m), m.digest, o);
    Gateway(q, if v == Admitted && !m.alert && newest && usable then g.decided + [m] else g.decided)
  }

  datatype Event = Process(sample: Sample, usable: bool, save: SaveOutcome) | Delete(queueId: nat) | Restart

  function Step(g: Gateway, l: Limits, e: Event): Gateway {
    match e
    case Process(m, usable, o) => Processed(g, l, m, usable, o)
    case Delete(k) => g.(outbox := g.outbox.(rows := Removed(g.outbox.rows, k)))
    case Restart => g
  }

  function Run(g: Gateway, l: Limits, events: seq<Event>): Gateway
    decreases |events|
  {
    if events == [] then g else Run(Step(g, l, events[0]), l, events[1..])
  }

  // ---- identities ------------------------------------------------------------------------------------

  lemma {:induction false} LastDashAt(a: Name, b: Name)
    requires 45 !in b
    ensures LastDash(a + [45] + b) == |a|
    decreases |b|
  {
    var s := a + [45] + b;
    if b == [] {
      assert s[|s| - 1] == 45;
    } else {
      var c := b[..|b| - 1];
      assert s[..|s| - 1] == a + [45] + c;
      assert s[|s| - 1] == b[|b| - 1];
      LastDashAt(a, c);
    }
  }

  lemma {:induction false} NoDashInHex(v: nat, n: nat)
    ensures 45 !in Hex(v, n)
  {
    if n > 0 {
      NoDashInHex(v / 16, n - 1);
    }
  }

  /** Cutting two parts off an identity leaves its source and boot, dashes in the boot included. */
  lemma PrefixOfIdentity(m: Sample)
    ensures Prefix(Identity(m)) == BootPrefix(m.source, m.boot)
  {
    hide Hex;
    var suffix: Name := [if m.alert then 65 else 83];
    var base, digits := m.source + [45] + m.boot, Hex(m.sequence, 8);
    NoDashInHex(m.sequence, 8);
    assert Identity(m) == (base + [45] + digits) + [45] + suffix;
    LastDashAt(base + [45] + digits, suffix);
    assert Head(Identity(m)) == base + [45] + digits;
    LastDashAt(base, digits);
  }

  lemma {:induction false} HexBounds(n: nat)
    ensures Hex(0, n) == seq(n, _ => 48) && Hex(Pow16(n) - 1, n) == seq(n, _ => 102)
  {
    if n > 0 {
      HexBounds(n - 1);
      assert (Pow16(n) - 1) / 16 == Pow16(n - 1) - 1 && (Pow16(n) - 1) % 16 == 15;
      assert seq(n, _ => 48) == seq(n - 1, _ => 48) + [48];
      assert seq(n, _ => 102) == seq(n - 1, _ => 102) + [102];
    }
  }

  lemma HexNotBelow(v: nat, w: nat, n: nat, x: Name, y: Name)
    requires v <= w < Pow16(n) && (v == w ==> !Less(y, x))
    ensures !Less(Hex(w, n) + y, Hex(v, n) + x)
  {
    if v == w {
      LessPrefix(Hex(v, n), y, x);
    } else {
      HexOrder(v, w, n);
      LessSuffix(Hex(v, n), Hex(w, n), x, y);
      if Less(Hex(w, n) + y, Hex(v, n) + x) {
        LessTransitive(Hex(v, n) + x, Hex(w, n) + y, Hex(v, n) + x);
        LessIrreflexive(Hex(v, n) + x);
      }
    }
  }

  function Suffix(m: Sample): Name {
    [45, if m.alert then 65 else 83]
  }

  lemma SuffixOrder()
    ensures Less([45, 65], [45, 83]) && !Less([45, 83], [45, 65]) && !Less([45, 83], [45, 83])
            && !Less([45, 65], [45, 65])
  {
    LessPrefix([45], [65], [83]);
    LessPrefix([45], [83], [65]);
    LessIrreflexive([45, 83]);
    LessIrreflexive([45, 65]);
  }

  lemma BoundsAreDigits()
    ensures Pow16(8) == 0x1_0000_0000
    ensures LOWEST == Hex(0, 8) + [45, 83] && HIGHEST == Hex(Pow16(8) - 1, 8) + [45, 83]
  {
    hide Hex;
    EightDigits();
    HexBounds(8);
  }

  /** Every receipt of a boot lies in the range its freshness is decided over. */
  lemma IdentityInRange(m: Sample)
    ensures InRange(BootPrefix(m.source, m.boot), Identity(m))
  {
    hide Less, Hex;
    var p, tail := BootPrefix(m.source, m.boot), Hex(m.sequence, 8) + Suffix(m);
    BoundsAreDigits();
    SuffixOrder();
    assert Identity(m) == p + tail;
    HexNotBelow(0, m.sequence, 8, [45, 83], Suffix(m));
    HexNotBelow(m.sequence, Pow16(8) - 1, 8, Suffix(m), [45, 83]);
    LessPrefix(p, tail, LOWEST);
    LessPrefix(p, HIGHEST, tail);
  }

  /** The receipt of a stands for something before sample m; an alert belongs to the sample of its number. */
  predicate Older(a: Sample, m: Sample) {
    if a.alert then a.sequence <= m.sequence else a.sequence < m.sequence
  }

  /** Within a boot the order of identities is the order of sequence numbers, alerts before their sample. */
  lemma IdentityOrder(a: Sample, m: Sample)
    requires SameBoot(a, m) && !m.alert
    ensures Less(Identity(a), Identity(m)) <==> Older(a, m)
  {
    hide Less, Hex;
    var p := BootPrefix(m.source, m.boot);
    var x, y := Hex(a.sequence, 8), Hex(m.sequence, 8);
    EightDigits();
    SuffixOrder();
    assert Identity(a) == p + (x + Suffix(a)) && Identity(m) == p + (y + Suffix(m));
    LessPrefix(p, x + Suffix(a), y + Suffix(m));
    if a.sequence < m.sequence {
      HexOrder(a.sequence, m.sequence, 8);
      LessSuffix(x, y, Suffix(a), Suffix(m));
    } else if a.sequence > m.sequence {
      HexNotBelow(m.sequence, a.sequence, 8, Suffix(m), Suffix(a));
    } else {
      LessPrefix(x, Suffix(a), Suffix(m));
    }
  }

  // ---- runs ------------------------------------------------------------------------------------------

  ghost predicate Increasing(log: seq<Sample>) {
    forall i, j :: 0 <= i < j < |log| && SameBoot(log[i], log[j]) ==> log[i].sequence < log[j].sequence
  }

  ghost predicate Inv(g: Gateway) {
    && Increasing(g.decided)
    && forall i :: 0 <= i < |g.decided| ==> !g.decided[i].alert && Identity(g.decided[i]) in g.outbox.receipts
  }

  /** A sample that counts as newest comes after everything receipted of its boot. */
  lemma FreshIsNewer(receipts: set<Name>, a: Sample, m: Sample)
    requires Identity(a) in receipts && SameBoot(a, m) && !m.alert
    requires SensorIsFresh(receipts, Identity(m))
    ensures Older(a, m)
  {
    hide Less, InRange, Prefix;
    PrefixOfIdentity(m);
    IdentityInRange(a);
    IdentityOrder(a, m);
  }

  lemma ProcessKeeps(g: Gateway, l: Limits, m: Sample, usable: bool, o: SaveOutcome)
    requires Inv(g)
    ensures Inv(Processed(g, l, m, usable, o))
  {
    hide SensorIsFresh, Identity, Queued, HasRoom;
    if !m.alert && SensorIsFresh(g.outbox.receipts.Keys, Identity(m)) {
      forall i | 0 <= i < |g.decided| && SameBoot(g.decided[i], m) ensures g.decided[i].sequence < m.sequence {
        FreshIsNewer(g.outbox.receipts.Keys, g.decided[i], m);
      }
    }
  }

  lemma {:induction false} RunKeeps(g: Gateway, l: Limits, events: seq<Event>)
    requires Inv(g)
    ensures Inv(Run(g, l, events))
    decreases |events|
  {
    hide Processed, Increasing, Identity;
    if events != [] {
      match events[0] {
        case Process(m, usable, o) => ProcessKeeps(g, l, m, usable, o);
        case _ =>
      }
      RunKeeps(Step(g, l, events[0]), l, events[1..]);
    }
  }

  /**
   * Over every run with repeated and reordered samples, failed commits, deliveries to the cloud and
   * restarts, the sequence numbers decided on strictly increase for each source and boot.
   */
  lemma DecisionsIncrease(l: Limits, events: seq<Event>)
    ensures Increasing(Run(Gateway(Outbox([], 1, map[]), []), l, events).decided)
  {
    RunKeeps(Gateway(Outbox([], 1, map[]), []), l, events);
  }

  // ---- exactly when a sample counts as newest --------------------------------------------------------------

  /** The receipts of samples and alerts. */
  function Ledger(past: set<Sample>): set<Name> {
    set a | a in past :: Identity(a)
  }

  /** A receipt of another boot inside the range of m's boot and not below m. */
  predicate Shadows(a: Sample, m: Sample) {
    !SameBoot(a, m) && InRange(BootPrefix(m.source, m.boot), Identity(a)) && !Less(Identity(a), Identity(m))
  }

  /**
   * For every ledger: a sample counts as newest if and only if it comes after everything receipted of
   * its own boot and no receipt of another boot shadows it.
   */
  lemma FreshExactly(past: set<Sample>, m: Sample)
    requires !m.alert
    ensures SensorIsFresh(Ledger(past), Identity(m)) <==>
            && (forall a :: a in past && SameBoot(a, m) ==> Older(a, m))
            && (forall a :: a in past ==> !Shadows(a, m))
  {
    hide Less, InRange, Prefix, Identity;
    PrefixOfIdentity(m);
    forall a | a in past && SameBoot(a, m)
      ensures InRange(BootPrefix(m.source, m.boot), Identity(a)) && (Less(Identity(a), Identity(m)) <==> Older(a, m))
    {
      IdentityInRange(a);
      IdentityOrder(a, m);
    }
  }

  const FIRST: Name := [45, 48, 48, 48, 48, 48, 48, 48, 49, 45, 65]
  const LAST: Name := [45, 102, 102, 102, 102, 102, 102, 102, 102, 45, 83]

  /**
   * A test on boot names alone: other continues own with a dash and a text that reaches into the
   * range, or own is other continued by a dash and the eight digits of a number.
   */
  predicate Overlaps(own: Name, other: Name) {
    || (own + [45] <= other
        && var t := other[|own| + 1..]; !Less(t + LAST, LOWEST) && !Less(HIGHEST, t + FIRST))
    || (other + [45] <= own
        && var t := own[|other| + 1..]; |t| == 8 && (forall i :: 0 <= i < 8 ==> IsDigit(t[i])) && FromHex(t) != 0)
  }

  /** The first dash ends the source. */
  lemma SameSource(m: Sample, a: Sample)
    requires BootPrefix(m.source, m.boot) <= Identity(a)
    ensures m.source == a.source
    ensures m.boot + [45] <= a.boot + [45] + Hex(a.sequence, 8) + Suffix(a)
  {
    hide Hex;
    var p, id := BootPrefix(m.source, m.boot), Identity(a);
    var i, j := |m.source|, |a.source|;
    assert p[i] == 45 && id[j] == 45;
    assert forall k :: 0 <= k < j ==> id[k] == a.source[k] != 45;
    assert forall k :: 0 <= k < i ==> p[k] == m.source[k] != 45;
    assert p[..i] == m.source && id[..i] == a.source;
    assert p[i + 1..] == m.boot + [45] && id[i + 1..] == a.boot + [45] + Hex(a.sequence, 8) + Suffix(a);
  }

  /** Another boot with a receipt behind the prefix continues this boot's name, or is continued by it. */
  lemma BootsNest(own: Name, other: Name, digits: Name, end: byte)
    requires |digits| == 8 && 45 !in digits && end != 45 && own != other
    requires own + [45] <= other + [45] + digits + [45, end]
    ensures own + [45] <= other || own == other + [45] + digits
  {
    var id := other + [45] + digits + [45, end];
    var n := |own|;
    assert own == id[..n] && id[n] == 45;
    assert forall k :: |other| < k < |other| + 9 ==> id[k] == digits[k - |other| - 1] != 45;
    assert id[|other| + 10] == end && id[..|other|] == other && id[..|other| + 9] == other + [45] + digits;
    if n < |other| {
      assert own + [45] == id[..n + 1] == other[..n + 1];
    }
  }

  /** Which receipts of other boots lie in the range of m's boot. */
  lemma OthersInRange(a: Sample, m: Sample)
    requires !SameBoot(a, m) && InRange(BootPrefix(m.source, m.boot), Identity(a))
    ensures a.source == m.source && Overlaps(m.boot, a.boot)
  {
    hide Less, Hex, InRange, FromHex;
    var p := BootPrefix(m.source, m.boot);
    RangeStartsWith(p, Identity(a));
    SameSource(m, a);
    NoDashInHex(a.sequence, 8);
    BootsNest(m.boot, a.boot, Hex(a.sequence, 8), Suffix(a)[1]);
    if m.boot + [45] <= a.boot {
      var t := a.boot[|m.boot| + 1..];
      assert Identity(a) == p + (t + ([45] + Hex(a.sequence, 8) + Suffix(a)));
      TailInRange(p, t + ([45] + Hex(a.sequence, 8) + Suffix(a)));
      TailBounds(t, a);
    } else {
      var t := m.boot[|a.boot| + 1..];
      assert t == Hex(a.sequence, 8);
      DigitsOfNumber(a.sequence);
    }
  }

  lemma RangeStartsWith(p: Name, id: Name)
    requires InRange(p, id)
    ensures p <= id
  {
    BetweenStartsWith(p, LOWEST, HIGHEST, id);
  }

  lemma TailInRange(p: Name, tail: Name)
    ensures InRange(p, p + tail) <==> !Less(tail, LOWEST) && !Less(HIGHEST, tail)
  {
    LessPrefix(p, tail, LOWEST);
    LessPrefix(p, HIGHEST, tail);
  }

  lemma DigitsOfNumber(n: Number)
    ensures var t := Hex(n, 8); (forall i :: 0 <= i < 8 ==> IsDigit(t[i])) && FromHex(t) == n
  {
    hide Hex;
    EightDigits();
    HexDigits(n, 8);
    HexInjective(FromHex(Hex(n, 8)), n, 8);
  }

  /** All tails of receipts of a boot lie between those of its first alert and its last sample. */
  lemma TailBounds(t: Name, a: Sample)
    ensures var tail := t + ([45] + Hex(a.sequence, 8) + Suffix(a));
            && (!Less(tail, LOWEST) ==> !Less(t + LAST, LOWEST))
            && (!Less(HIGHEST, tail) ==> !Less(HIGHEST, t + FIRST))
  {
    hide Less, Hex;
    var digits, end := Hex(a.sequence, 8), Suffix(a);
    var tail := t + ([45] + digits + end);
    BoundsAreDigits();
    SuffixOrder();
    FirstDigits();
    HexNotBelow(1, a.sequence, 8, [45, 65], end);
    HexNotBelow(a.sequence, Pow16(8) - 1, 8, end, [45, 83]);
    assert tail == t + [45] + (digits + end);
    assert t + LAST == t + [45] + (Hex(Pow16(8) - 1, 8) + [45, 83]);
    assert t + FIRST == t + [45] + (Hex(1, 8) + [45, 65]);
    LessPrefix(t + [45], Hex(Pow16(8) - 1, 8) + [45, 83], digits + end);
    LessPrefix(t + [45], digits + end, Hex(1, 8) + [45, 65]);
    AtMost(tail, t + LAST, LOWEST);
    AtMost2(HIGHEST, t + FIRST, tail);
  }

  lemma FirstDigits()
    ensures Hex(1, 8) == [48, 48, 48, 48, 48, 48, 48, 49]
  {
    HexBounds(7);
    assert Hex(1, 8) == Hex(0, 7) + [Digit(1)];
    assert seq(7, _ => 48) == [48, 48, 48, 48, 48, 48, 48];
  }

  lemma AtMost(x: Name, y: Name, z: Name)
    requires !Less(y, x)
    ensures Less(y, z) ==> Less(x, z)
  {
    LessTotal(x, y);
    if Less(y, z) && Less(x, y) {
      LessTransitive(x, y, z);
    }
  }

  lemma AtMost2(z: Name, x: Name, y: Name)
    requires !Less(y, x)
    ensures Less(z, x) ==> Less(z, y)
  {
    LessTotal(x, y);
    if Less(z, x) && Less(x, y) {
      LessTransitive(z, x, y);
    }
  }

  ghost predicate HasReceiptInRange(m: Sample, other: Name) {
    exists a: Sample :: a.boot == other && !SameBoot(a, m) && InRange(BootPrefix(m.source, m.boot), Identity(a))
  }

  /** The test on names is exact: another boot can have a receipt in the range if and only if it overlaps. */
  lemma OverlapIsExact(m: Sample, other: Name)
    requires other != m.boot
    ensures HasReceiptInRange(m, other) <==> Overlaps(m.boot, other)
  {
    hide Less, Hex, InRange, Identity, FromHex;
    if HasReceiptInRange(m, other) {
      var a: Sample :| a.boot == other && !SameBoot(a, m) && InRange(BootPrefix(m.source, m.boot), Identity(a));
      OthersInRange(a, m);
    }
    if m.boot + [45] <= other && Overlaps(m.boot, other) && !(other + [45] <= m.boot) {
      ContinuedInRange(m, other);
    } else if Overlaps(m.boot, other) {
      ContinuingInRange(m, other);
    }
  }

  lemma ContinuingInRange(m: Sample, other: Name)
    requires other + [45] <= m.boot
    requires var t := m.boot[|other| + 1..]; |t| == 8 && (forall i :: 0 <= i < 8 ==> IsDigit(t[i])) && FromHex(t) != 0
    ensures HasReceiptInRange(m, other)
  {
    hide Hex, FromHex;
    var t := m.boot[|other| + 1..];
    EightDigits();
    var a := Sample(m.source, other, FromHex(t), false, [], [], false);
    assert Identity(a) == BootPrefix(m.source, m.boot) + [83];
    TailInRange(BootPrefix(m.source, m.boot), [83]);
  }

  lemma ContinuedInRange(m: Sample, other: Name)
    requires m.boot + [45] <= other
    requires var t := other[|m.boot| + 1..]; !Less(t + LAST, LOWEST) && !Less(HIGHEST, t + FIRST)
    ensures HasReceiptInRange(m, other)
  {
    hide Less, Hex, InRange;
    var t := other[|m.boot| + 1..];
    var p := BootPrefix(m.source, m.boot);
    BoundsAreDigits();
    FirstDigits();
    var first := Sample(m.source, other, 1, true, [], [], false);
    var last := Sample(m.source, other, U32_MAX, false, [], [], false);
    assert other == m.boot + [45] + t && Hex(U32_MAX, 8) == Hex(Pow16(8) - 1, 8);
    assert Hex(U32_MAX, 8) + [45, 83] == HIGHEST && [45] + HIGHEST == LAST;
    assert Identity(first) == p + (t + FIRST) && Identity(last) == p + (t + LAST);
    TailInRange(p, t + FIRST);
    TailInRange(p, t + LAST);
    NotBothOutside(t);
    assert InRange(p, Identity(first)) || InRange(p, Identity(last));
  }

  /** The receipts of one boot cannot lie on both sides of the range. */
  lemma NotBothOutside(t: Name)
    ensures !(Less(t + FIRST, LOWEST) && Less(HIGHEST, t + LAST))
  {
    hide Less;
    var q := t + [45];
    assert t + FIRST == q + FIRST[1..] && t + LAST == q + LAST[1..];
    BoundsOrder();
    if Less(t + FIRST, LOWEST) && Less(HIGHEST, t + LAST) {
      LessTransitive(t + FIRST, LOWEST, HIGHEST);
      LessTransitive(LOWEST, HIGHEST, t + LAST);
      NotBelow(t + FIRST, LOWEST);
      NotBelow(LOWEST, t + LAST);
      NotBelow(t + FIRST, HIGHEST);
      NotBelow(HIGHEST, t + LAST);
      BetweenStartsWith(q, FIRST[1..], LAST[1..], LOWEST);
      BetweenStartsWith(q, FIRST[1..], LAST[1..], HIGHEST);
      NoCommonStart(q);
    }
  }

  lemma NoCommonStart(q: Name)
    requires q != []
    ensures !(q <= LOWEST && q <= HIGHEST)
  {
    assert q <= LOWEST ==> q[0] == LOWEST[0];
    assert q <= HIGHEST ==> q[0] == HIGHEST[0];
  }

  lemma BoundsOrder()
    ensures Less(LOWEST, HIGHEST)
  {
  }

  lemma NotBelow(x: Name, y: Name)
    requires Less(x, y)
    ensures !Less(y, x)
  {
    if Less(y, x) {
      LessTransitive(x, y, x);
      LessIrreflexive(x);
    }
  }

  /** With no overlapping boot name in the ledger, counting as newest is being newest. */
  lemma FreshMeansNewest(past: set<Sample>, m: Sample)
    requires !m.alert && forall a :: a in past && a.source == m.source && a.boot != m.boot ==> !Overlaps(m.boot, a.boot)
    ensures SensorIsFresh(Ledger(past), Identity(m)) <==> forall a :: a in past && SameBoot(a, m) ==> Older(a, m)
  {
    hide Less, InRange, Identity, Overlaps, SensorIsFresh, Ledger;
    FreshExactly(past, m);
    forall a | a in past ensures !Shadows(a, m) {
      if Shadows(a, m) {
        OthersInRange(a, m);
      }
    }
  }

  /**
   * A boot whose name continues another boot's name with a dash and eight digits makes samples of
   * the shorter-named boot count as old, below that number, although they may be its newest.
   */
  lemma DashedBootBlocks(m: Sample, other: Sample, h: u32)
    requires !m.alert && other.source == m.source && other.boot == m.boot + [45] + Hex(h, 8)
    requires m.sequence < h < U32_MAX
    ensures Shadows(other, m)
  {
    hide Less, Hex, InRange;
    var p := BootPrefix(m.source, m.boot);
    var tail: Name := [45] + Hex(other.sequence, 8) + Suffix(other);
    BoundsAreDigits();
    assert Identity(m) == p + (Hex(m.sequence, 8) + Suffix(m));
    assert Identity(other) == p + (Hex(h, 8) + tail);
    HexNotBelow(0, h, 8, [45, 83], tail);
    HexNotBelow(h, Pow16(8) - 1, 8, tail, [45, 83]);
    HexNotBelow(m.sequence, h, 8, Suffix(m), tail);
    TailInRange(p, Hex(h, 8) + tail);
    LessPrefix(p, Hex(h, 8) + tail, Hex(m.sequence, 8) + Suffix(m));
  }

  /** B1 and the gateway give the messages of a record the same identities. */
  lemma DeviceIdentity(r: B1Record.Record, m: Sample)
    requires B1Record.Valid(r) && m.source == [66, 49] && m.boot == r.bootId && m.sequence == r.sequence
    ensures Identity(m) == B1Record.MessageId(r, if m.alert then 65 else 83)
  {
    hide Hex;
    assert [66, 49] + [45] == [66, 49, 45];
  }

  // ---- exactly when a sample is decided on -------------------------------------------------------------------

  /** The outbox has a free place of the right kind, and the ledger has one. */
  predicate Takes(q: Outbox, l: Limits, m: Sample) {
    && |q.receipts| < l.maxReceipts
    && |q.rows| + (if m.high then 0 else l.reservedMessages) < l.maxMessages
    && Size(q.rows) + |m.payload| + (if m.high then 0 else l.reservedBytes) <= l.maxBytes
    && forall i :: 0 <= i < |q.rows| ==> q.rows[i].upload.messageId != Identity(m)
  }

  /**
   * For every ledger: a message is decided on if and only if it is a usable sample, its first receipt could
   * be made durable with its upload, everything receipted of its boot is older and no other boot shadows it.
   */
  lemma DecidedExactly(g: Gateway, l: Limits, past: set<Sample>, m: Sample, usable: bool, o: SaveOutcome)
    requires g.outbox.receipts.Keys == Ledger(past)
    ensures var d := Processed(g, l, m, usable, o).decided;
            && d in {g.decided, g.decided + [m]}
            && (d == g.decided + [m] <==>
                 && usable && !m.alert && o == Committed && m !in past && Identity(m) !in g.outbox.receipts
                 && Takes(g.outbox, l, m)
                 && (forall a :: a in past && SameBoot(a, m) ==> Older(a, m))
                 && (forall a :: a in past ==> !Shadows(a, m)))
  {
    hide SensorIsFresh, Identity, Size, Shadows, Older;
    if m in past {
      assert Identity(m) in Ledger(past);
    }
    if !m.alert {
      FreshExactly(past, m);
    }
  }

  /** Every decision was taken on a usable sample whose receipt was committed with it. */
  lemma {:induction false} OnlyUsableDecided(g: Gateway, l: Limits, events: seq<Event>, i: nat)
    requires |g.decided| <= i < |Run(g, l, events).decided|
    ensures Process(Run(g, l, events).decided[i], true, Committed) in events
    decreases |events|
  {
    hide SensorAdmitted, SensorIsFresh;
    if events != [] {
      var t := Step(g, l, events[0]);
      DecidedGrows(t, l, events[1..]);
      if |t.decided| <= i {
        OnlyUsableDecided(t, l, events[1..], i);
      } else {
        assert t.decided[i] == Run(g, l, events).decided[i];
      }
    }
  }

  lemma {:induction false} DecidedGrows(g: Gateway, l: Limits, events: seq<Event>)
    ensures g.decided <= Run(g, l, events).decided
    decreases |events|
  {
    hide Attempted, SensorIsFresh;
    if events != [] {
      DecidedGrows(Step(g, l, events[0]), l, events[1..]);
    }
  }

  /** The one consumer of the sensor queue. */
  class SensorConsumer {
    const queue: OfflineQueue
    ghost var decided: seq<Sample>

    ghost function View(): Gateway
      reads this, queue
    {
      Gateway(queue.View(), decided)
    }

    constructor (queue: OfflineQueue, ghost decided: seq<Sample>)
      ensures this.queue == queue && this.decided == decided
    {
      this.queue, this.decided := queue, decided;
    }

    /** _process_sensor_message: freshness is read before the admission whose receipt it precedes. */
    method Process(m: Sample, usable: bool, o: SaveOutcome) returns (acknowledged: bool, decides: bool)
      modifies this, queue
      ensures View() == Processed(old(View()), queue.limits, m, usable, o)
      ensures acknowledged ==> Identity(m) in queue.receipts && queue.receipts[Identity(m)] == m.digest
      ensures decides <==> decided == old(decided) + [m]
    {
      hide SensorIsFresh, Identity, Queued, HasRoom;
      var newest := queue.IsFresh(Identity(m));
      var v := queue.AdmitDurably(UploadOf(m), m.digest, o);
      acknowledged := v != Refused;
      decides := v == Admitted && !m.alert && newest && usable;
      if decides {
        decided := decided + [m];
      }
    }
  }
}
