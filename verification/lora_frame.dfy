/** AL v1 frames: the 70-byte header codec of the C and Python LoRa endpoints. */
module LoraFrame {
  import opened Bytes
  import opened Wrappers
  import opened Crc32

  const HEADER := 70
  const MAX_FRAME := 256
  const MAX_MESSAGE := 4096
  const MAX_FRAGMENTS := 64

  type Id16 = s: seq<byte> | |s| == 16 witness seq(16, _ => 0)

  /** One fragment; the payload sequence is the C pointer with its payload_length. */
  datatype Frame = Frame(
    kind: byte, source: byte, destination: byte, zone: byte, session: Id16, logical: Id16,
    sequence: u32, generation: u32, index: u16, count: u16, total: u16, chunk: u16,
    messageCrc: u32, payload: seq<byte>)

  /** Zone of a permitted link and message type, -1 otherwise. */
  function Zone(s: byte, d: byte, t: byte): int {
    var a, b, c := s == 1 || s == 2, s == 3 || s == 4, s == 5 || s == 6;
    var da, db, dc := d == 1 || d == 2, d == 3 || d == 4, d == 5 || d == 6;
    var ok :=
      || (b && da && (t == 0 || t == 4 || t == 6 || t == 8))
      || (a && db && (t == 10 || t == 9 || t == 7 || t == 8 || t == 5))
      || (c && da && (t == 2 || t == 9 || t == 6 || t == 8))
      || (a && dc && (t == 1 || t == 7 || t == 8))
      || (a && da && s != d && (t == 3 || t == 8));
    if !ok then -1
    else
      var node := if b || c then s else if db || dc then d else 0;
      if node != 0 then (if node == 3 || node == 5 then 1 else 2) else 0
  }

  function CeilDiv(a: nat, b: nat): nat
    requires b > 0
  {
    (a + b - 1) / b
  }

  /** Length of fragment number index of a message of total bytes cut every chunk bytes. */
  function Slice(total: int, chunk: int, index: int): int {
    if total - index * chunk < chunk then total - index * chunk else chunk
  }

  lemma Multiples(x: int, y: int, b: nat)
    ensures x <= y ==> x * b <= y * b
    ensures (x + 1) * b == x * b + b
  {
    if x <= y {
      assert y * b - x * b == (y - x) * b;
    }
  }

  lemma Quotient(a: nat, b: nat)
    requires b > 0
    ensures a / b * b <= a < a / b * b + b
  {
  }

  /** Fragment indices below the count are exactly those that start inside the message. */
  lemma StartsInside(total: nat, chunk: nat, index: nat)
    requires chunk > 0
    ensures index < CeilDiv(total, chunk) <==> index * chunk < total
  {
    var q := CeilDiv(total, chunk);
    Quotient(total + chunk - 1, chunk);
    Multiples(index + 1, q, chunk);
    Multiples(q, index, chunk);
    Multiples(index, q, chunk);
  }

  predicate Valid(f: Frame) {
    && f.kind <= 10 && f.source <= 6 && f.destination <= 6
    && Zone(f.source, f.destination, f.kind) == f.zone
    && 0 < f.total <= MAX_MESSAGE
    && 0 < f.chunk <= MAX_FRAME - HEADER
    && 0 < f.count <= MAX_FRAGMENTS
    && f.index < f.count
    && f.count == CeilDiv(f.total, f.chunk)
    && |f.payload| == Slice(f.total, f.chunk, f.index)
  }

  // ---- wire image ----------------------------------------------------------------------------

  function Identity(f: Frame): (h: seq<byte>)
    ensures |h| == 40
  {
    [65, 76, 1, f.kind, f.source, f.destination, f.zone, 0] + f.session + f.logical
  }

  function Numbers(f: Frame, length: u16): (h: seq<byte>)
    ensures |h| == 22
  {
    Le(f.sequence, 4) + Le(f.generation, 4) + Le(f.index, 2) + Le(f.count, 2) + Le(f.total, 2)
    + Le(length, 2) + Le(f.chunk, 2) + Le(f.messageCrc, 4)
  }

  /** Header up to the frame checksum. */
  function Head(f: Frame): (h: seq<byte>)
    requires |f.payload| <= MAX_FRAME
    ensures |h| == 66
  {
    Identity(f) + Numbers(f, |f.payload|) + Le(Crc(f.payload), 4)
  }

  function Encode(f: Frame): (w: seq<byte>)
    requires |f.payload| <= MAX_FRAME
    ensures |w| == HEADER + |f.payload|
  {
    Head(f) + Le(Crc(Head(f) + [0, 0, 0, 0] + f.payload), 4) + f.payload
  }

  function Word16(w: seq<byte>, at: nat): (v: u16)
    requires at + 2 <= |w|
  {
    Widths();
    Value(w[at..at + 2])
  }

  function Word32(w: seq<byte>, at: nat): (v: u32)
    requires at + 4 <= |w|
  {
    Widths();
    Value(w[at..at + 4])
  }

  function Blanked(w: seq<byte>): seq<byte>
    requires |w| >= HEADER
  {
    w[..66] + [0, 0, 0, 0] + w[HEADER..]
  }

  function Fields(w: seq<byte>): Frame
    requires |w| >= HEADER
  {
    Frame(w[3], w[4], w[5], w[6], w[8..24], w[24..40], Word32(w, 40), Word32(w, 44), Word16(w, 48),
          Word16(w, 50), Word16(w, 52), Word16(w, 56), Word32(w, 58), w[HEADER..])
  }

  function Decode(w: seq<byte>): Option<Frame> {
    if |w| <= HEADER || |w| > MAX_FRAME || w[0] != 65 || w[1] != 76 || w[2] != 1 || w[7] != 0 then None
    else
      var f := Fields(w);
      if Word16(w, 54) != |f.payload| || !Valid(f) then None
      else if Crc(f.payload) != Word32(w, 62) then None
      else if Crc(Blanked(w)) != Word32(w, 66) then None
      else Some(f)
  }

  lemma IdentityParts(f: Frame)
    ensures var h := Identity(f);
            && h[0] == 65 && h[1] == 76 && h[2] == 1 && h[3] == f.kind && h[4] == f.source
            && h[5] == f.destination && h[6] == f.zone && h[7] == 0
            && h[8..24] == f.session && h[24..40] == f.logical
  {
  }

  lemma NumbersInPlace(f: Frame, length: u16)
    ensures var n := Numbers(f, length);
            && n[0..4] == Le(f.sequence, 4) && n[4..8] == Le(f.generation, 4)
            && n[8..10] == Le(f.index, 2) && n[10..12] == Le(f.count, 2)
            && n[12..14] == Le(f.total, 2) && n[14..16] == Le(length, 2)
            && n[16..18] == Le(f.chunk, 2) && n[18..22] == Le(f.messageCrc, 4)
  {
    hide Le, Pow256;
  }

  lemma WordOfLe(w: seq<byte>, at: nat, v: nat)
    requires at + 4 <= |w| && v < Pow256(4) && w[at..at + 4] == Le(v, 4)
    ensures Word32(w, at) == v
  {
    hide Le, Value;
    ValueOfLe(v, 4);
  }

  lemma HalfOfLe(w: seq<byte>, at: nat, v: nat)
    requires at + 2 <= |w| && v < Pow256(2) && w[at..at + 2] == Le(v, 2)
    ensures Word16(w, at) == v
  {
    hide Le, Value;
    ValueOfLe(v, 2);
  }

  lemma NumbersParts(f: Frame, length: u16)
    ensures var n := Numbers(f, length);
            && Word32(n, 0) == f.sequence && Word32(n, 4) == f.generation && Word16(n, 8) == f.index
            && Word16(n, 10) == f.count && Word16(n, 12) == f.total && Word16(n, 14) == length
            && Word16(n, 16) == f.chunk && Word32(n, 18) == f.messageCrc
  {
    hide Le, Value, Pow256, Numbers, Word16, Word32;
    var n := Numbers(f, length);
    Widths();
    NumbersInPlace(f, length);
    WordOfLe(n, 0, f.sequence); WordOfLe(n, 4, f.generation);
    HalfOfLe(n, 8, f.index); HalfOfLe(n, 10, f.count);
    HalfOfLe(n, 12, f.total); HalfOfLe(n, 14, length);
    HalfOfLe(n, 16, f.chunk); WordOfLe(n, 18, f.messageCrc);
  }

  lemma SliceOfSlice(w: seq<byte>, a: nat, b: nat, i: nat, j: nat)
    requires a <= b <= |w| && i <= j <= b - a
    ensures w[a..b][i..j] == w[a + i..a + j]
  {
    var x, y := w[a..b][i..j], w[a + i..a + j];
    forall k | 0 <= k < j - i ensures x[k] == y[k] {
      assert x[k] == w[a..b][i + k] == w[a + i + k];
    }
  }

  lemma NumbersInside(w: seq<byte>, n: seq<byte>)
    requires |n| == 22 && |w| >= 62 && w[40..62] == n
    ensures Word32(w, 40) == Word32(n, 0) && Word32(w, 44) == Word32(n, 4)
    ensures Word16(w, 48) == Word16(n, 8) && Word16(w, 50) == Word16(n, 10)
    ensures Word16(w, 52) == Word16(n, 12) && Word16(w, 54) == Word16(n, 14)
    ensures Word16(w, 56) == Word16(n, 16) && Word32(w, 58) == Word32(n, 18)
  {
    hide Value;
    assert w[40..44] == n[0..4] by { SliceOfSlice(w, 40, 62, 0, 4); }
    assert w[44..48] == n[4..8] by { SliceOfSlice(w, 40, 62, 4, 8); }
    assert w[48..50] == n[8..10] by { SliceOfSlice(w, 40, 62, 8, 10); }
    assert w[50..52] == n[10..12] by { SliceOfSlice(w, 40, 62, 10, 12); }
    assert w[52..54] == n[12..14] by { SliceOfSlice(w, 40, 62, 12, 14); }
    assert w[54..56] == n[14..16] by { SliceOfSlice(w, 40, 62, 14, 16); }
    assert w[56..58] == n[16..18] by { SliceOfSlice(w, 40, 62, 16, 18); }
    assert w[58..62] == n[18..22] by { SliceOfSlice(w, 40, 62, 18, 22); }
  }

  lemma EncodedFields(f: Frame)
    requires |f.payload| <= MAX_FRAME
    ensures Fields(Encode(f)) == f && Word16(Encode(f), 54) == |f.payload|
    ensures var w := Encode(f); w[0] == 65 && w[1] == 76 && w[2] == 1 && w[7] == 0
  {
    hide Crc, Le, Value, Word16, Word32;
    var w, h, n := Encode(f), Identity(f), Numbers(f, |f.payload|);
    assert w[..40] == h && w[40..62] == n && w[HEADER..] == f.payload;
    forall i | 0 <= i < 8 ensures w[i] == h[i] {}
    assert w[8..24] == h[8..24] && w[24..40] == h[24..40];
    IdentityParts(f);
    NumbersParts(f, |f.payload|);
    NumbersInside(w, n);
  }

  lemma EncodedChecksums(f: Frame)
    requires |f.payload| <= MAX_FRAME
    ensures Word32(Encode(f), 62) == Crc(f.payload)
    ensures Word32(Encode(f), 66) == Crc(Blanked(Encode(f)))
  {
    hide Crc, Le, Value;
    var w := Encode(f);
    Widths();
    assert w[62..66] == Le(Crc(f.payload), 4);
    assert Blanked(w) == Head(f) + [0, 0, 0, 0] + f.payload;
    assert w[66..HEADER] == Le(Crc(Blanked(w)), 4);
    ValueOfLe(Crc(f.payload), 4);
    ValueOfLe(Crc(Blanked(w)), 4);
  }

  lemma WordBytes(w: seq<byte>, at: nat)
    ensures at + 2 <= |w| ==> Le(Word16(w, at), 2) == w[at..at + 2]
    ensures at + 4 <= |w| ==> Le(Word32(w, at), 4) == w[at..at + 4]
  {
    hide Le, Value;
    if at + 2 <= |w| { LeOfValue(w[at..at + 2]); }
    if at + 4 <= |w| { LeOfValue(w[at..at + 4]); }
  }

  lemma NumbersOfFields(w: seq<byte>)
    requires |w| >= HEADER
    ensures Numbers(Fields(w), Word16(w, 54)) == w[40..62]
  {
    hide Le, Value, Word16, Word32;
    WordBytes(w, 40); WordBytes(w, 44); WordBytes(w, 48); WordBytes(w, 50);
    WordBytes(w, 52); WordBytes(w, 54); WordBytes(w, 56); WordBytes(w, 58);
    var n := w[40..62];
    assert n == w[40..44] + w[44..48] + w[48..50] + w[50..52] + w[52..54] + w[54..56] + w[56..58] + w[58..62];
  }

  lemma HeadOfFields(w: seq<byte>)
    requires Decode(w).Some?
    ensures Head(Decode(w).value) == w[..66]
  {
    hide Crc, Le, Value, Word16, Word32, Valid, Numbers;
    NumbersOfFields(w);
    WordBytes(w, 62);
    assert w[..66] == w[..8] + w[8..24] + w[24..40] + w[40..62] + w[62..66];
  }

  lemma DecodedImage(f: Frame, w: seq<byte>)
    requires Decode(w) == Some(f)
    ensures Valid(f) && w == Encode(f)
  {
    hide Crc, Le, Value, Word16, Word32, Head, CeilDiv, Slice, Zone;
    HeadOfFields(w);
    WordBytes(w, 66);
    assert Blanked(w) == Head(f) + [0, 0, 0, 0] + f.payload;
    assert w == w[..66] + w[66..HEADER] + w[HEADER..];
  }

  /** decode(encode(f)) == f on every valid frame, encode(decode(w)) == w on every accepted wire. */
  lemma CodecIsCanonical(f: Frame, w: seq<byte>)
    ensures Decode(w) == Some(f) <==> Valid(f) && w == Encode(f)
  {
    hide Crc, Le, Value, Word16, Word32, CeilDiv, Zone, Head;
    if Decode(w) == Some(f) {
      DecodedImage(f, w);
    }
    if Valid(f) && w == Encode(f) {
      StartsInside(f.total, f.chunk, f.index);
      EncodedFields(f);
      EncodedChecksums(f);
    }
  }

  // ---- corruption ----------------------------------------------------------------------------

  /** w and v differ at most inside [at, at + n). */
  predicate SameOutside(w: seq<byte>, v: seq<byte>, at: nat, n: nat) {
    |w| == |v| && at + n <= |w| && w[..at] == v[..at] && w[at + n..] == v[at + n..]
  }

  /** A burst before the checksum reaches the blanked copy at the same place. */
  lemma BlankedBefore(w: seq<byte>, at: nat, n: nat)
    requires |w| >= HEADER && at + n <= 66
    ensures Blanked(w) == w[..at] + w[at..at + n] + Blanked(w)[at + n..]
    ensures Blanked(w)[at + n..] ==
            w[at + n..][..66 - at - n] + [0, 0, 0, 0] + w[at + n..][HEADER - at - n..]
    ensures w[66..HEADER] == w[at + n..][66 - at - n..HEADER - at - n]
  {
  }

  lemma BlankedAfter(w: seq<byte>, at: nat, n: nat)
    requires |w| >= HEADER && HEADER <= at && at + n <= |w|
    ensures Blanked(w) == Blanked(w)[..at] + w[at..at + n] + w[at + n..]
    ensures Blanked(w)[..at] == w[..at][..66] + [0, 0, 0, 0] + w[..at][HEADER..]
    ensures w[66..HEADER] == w[..at][66..HEADER]
  {
  }

  lemma BlankedInside(w: seq<byte>, at: nat, n: nat)
    requires |w| >= HEADER && 66 <= at && at + n <= HEADER
    ensures Blanked(w) == w[..at][..66] + [0, 0, 0, 0] + w[at + n..][HEADER - at - n..]
  {
  }

  lemma ThreeParts(w: seq<byte>, at: nat, n: nat)
    requires at + n <= |w|
    ensures w == w[..at] + w[at..at + n] + w[at + n..]
  {
  }

  lemma BurstOutside(w: seq<byte>, v: seq<byte>, at: nat, n: nat)
    requires |w| >= HEADER && SameOutside(w, v, at, n) && n <= 4 && w != v
    requires at + n <= 66 || HEADER <= at
    ensures Crc(Blanked(w)) != Crc(Blanked(v)) && w[66..HEADER] == v[66..HEADER]
  {
    hide Crc, Blanked;
    ThreeParts(w, at, n);
    ThreeParts(v, at, n);
    if at + n <= 66 {
      BlankedBefore(w, at, n);
      BlankedBefore(v, at, n);
      BurstChangesCrc(w[..at], w[at..at + n], v[at..at + n], Blanked(w)[at + n..]);
    } else {
      BlankedAfter(w, at, n);
      BlankedAfter(v, at, n);
      BurstChangesCrc(Blanked(w)[..at], w[at..at + n], v[at..at + n], w[at + n..]);
    }
  }

  lemma ChecksumDiffers(w: seq<byte>, v: seq<byte>, at: nat, n: nat)
    requires |w| >= HEADER && SameOutside(w, v, at, n) && w != v
    requires 66 <= at && at + n <= HEADER
    ensures Blanked(w) == Blanked(v) && Word32(w, 66) != Word32(v, 66)
  {
    hide Value, Blanked;
    BlankedInside(w, at, n);
    BlankedInside(v, at, n);
    var a, b := w[66..HEADER], v[66..HEADER];
    assert w == w[..at][..66] + a + w[at + n..][HEADER - at - n..];
    assert v == v[..at][..66] + b + v[at + n..][HEADER - at - n..];
    LeOfValue(a);
    LeOfValue(b);
  }

  /**
   * Damage confined to four consecutive bytes of an accepted frame is always rejected, when the
   * four lie wholly inside or wholly outside the frame checksum.
   */
  lemma BurstRejected(w: seq<byte>, v: seq<byte>, at: nat, n: nat)
    requires Decode(w).Some? && SameOutside(w, v, at, n) && n <= 4 && w != v
    requires at + n <= 66 || HEADER <= at || (66 <= at && at + n <= HEADER)
    ensures Decode(v) == None
  {
    hide Crc, Value, Valid, Blanked, Fields;
    if at + n <= 66 || HEADER <= at {
      BurstOutside(w, v, at, n);
    } else {
      ChecksumDiffers(w, v, at, n);
    }
  }

  /** Changing any single byte of an accepted frame, checksum fields included, makes it rejected. */
  lemma SingleByteRejected(w: seq<byte>, i: nat, b: byte)
    requires Decode(w).Some? && i < |w| && b != w[i]
    ensures Decode(w[i := b]) == None
  {
    hide Crc, Value, Valid;
    assert w[i := b][i] != w[i];
    BurstRejected(w, w[i := b], i, 1);
  }

  // ---- the C entry points --------------------------------------------------------------------

  method U16(p: array<byte>, at: nat) returns (v: u16)
    requires at + 2 <= p.Length
    ensures v == Word16(p[..], at)
  {
    v := p[at] as int + 256 * p[at + 1] as int;
    assert p[..][at..at + 2] == [p[at]] + [p[at + 1]];
    ValueOfTwo(p[at], p[at + 1]);
  }

  method U32(p: array<byte>, at: nat) returns (v: u32)
    requires at + 4 <= p.Length
    ensures v == Word32(p[..], at)
  {
    var low := U16(p, at);
    var high := U16(p, at + 2);
    v := low as int + 0x1_0000 * high as int;
    var s := p[..];
    assert s[at..at + 4][..2] == s[at..at + 2] && s[at..at + 4][2..] == s[at + 2..at + 4];
    assert s[at..at + 4] == [p[at], p[at + 1]] + s[at + 2..at + 4];
    ValueOfFour(s[at..at + 4]);
  }

  lemma ValueOfTwo(a: byte, b: byte)
    ensures Value([a] + [b]) == a + 256 * b
  {
    assert ([a] + [b])[1..] == [b];
    assert Value([b]) == b + 256 * Value([b][1..]);
  }

  lemma ValueOfFour(s: seq<byte>)
    requires |s| == 4
    ensures Value(s) == Value(s[..2]) + 0x1_0000 * Value(s[2..])
  {
    assert s[1..][1..] == s[2..] && s[..2][1..] == s[1..2];
    assert Value(s[..2]) == s[0] + 256 * Value(s[1..2]);
    assert Value(s[1..2]) == s[1] + 256 * Value(s[1..2][1..]);
    assert s[1..2][1..] == [];
  }

  /** The parts of al_decode that read fields through u16 and u32. */
  method ReadFields(p: array<byte>, n: nat) returns (f: Frame)
    requires HEADER <= n <= p.Length
    ensures f == Fields(p[..n])
  {
    hide Value;
    var sequence := U32(p, 40);
    var generation := U32(p, 44);
    var index := U16(p, 48);
    var count := U16(p, 50);
    var total := U16(p, 52);
    var chunk := U16(p, 56);
    var messageCrc := U32(p, 58);
    WordsOfPrefix(p[..], n);
    assert p[..n] == p[..][..n];
    assert p[..n][8..24] == p[8..24] && p[..n][24..40] == p[24..40] && p[..n][HEADER..] == p[HEADER..n];
    f := Frame(p[3], p[4], p[5], p[6], p[8..24], p[24..40], sequence, generation, index, count,
               total, chunk, messageCrc, p[HEADER..n]);
  }

  /** The frame checksum of al_decode: over a copy whose checksum field is cleared. */
  method BlankedCrc(p: array<byte>, n: nat) returns (crc: u32)
    requires HEADER <= n <= p.Length
    ensures crc == Crc(Blanked(p[..n]))
  {
    hide Crc, Patch;
    var w := p[..n];
    var copy := new byte[n];
    PatchWhole(copy[..], w);
    Copy(copy, 0, w);
    Copy(copy, 66, [0, 0, 0, 0]);
    PatchBlanks(w);
    assert copy[0..n] == copy[..];
    crc := AlCrc32(copy, 0, n);
  }

  lemma PatchWhole(s: seq<byte>, x: seq<byte>)
    requires |s| == |x|
    ensures Patch(s, 0, x) == x
  {
  }

  lemma PatchBlanks(w: seq<byte>)
    requires |w| >= HEADER
    ensures Patch(w, 66, [0, 0, 0, 0]) == Blanked(w)
  {
  }

  lemma WordsOfPrefix(s: seq<byte>, n: nat)
    requires HEADER <= n <= |s|
    ensures forall at: nat {:trigger Word16(s, at)} | at + 2 <= HEADER :: Word16(s, at) == Word16(s[..n], at)
    ensures forall at: nat {:trigger Word32(s, at)} | at + 4 <= HEADER :: Word32(s, at) == Word32(s[..n], at)
  {
    hide Value;
    forall at: nat | at + 2 <= HEADER ensures Word16(s, at) == Word16(s[..n], at) {
      assert s[..n][at..at + 2] == s[at..at + 2];
    }
    forall at: nat | at + 4 <= HEADER ensures Word32(s, at) == Word32(s[..n], at) {
      assert s[..n][at..at + 4] == s[at..at + 4];
    }
  }

  /** al_decode over the first n bytes of p. */
  method AlDecode(p: array<byte>, n: nat) returns (r: Option<Frame>)
    requires n <= p.Length
    ensures r == Decode(p[..n])
  {
    hide Crc, Value, Valid, Blanked, Fields, Word16, Word32;
    if n <= HEADER || n > MAX_FRAME || p[0] != 65 || p[1] != 76 || p[2] != 1 || p[7] != 0 {
      return None;
    }
    var f := ReadFields(p, n);
    var length := U16(p, 54);
    WordsOfPrefix(p[..], n);
    assert p[..][..n] == p[..n];
    if n != HEADER + length || !Valid(f) {
      FieldsPayload(p[..n]);
      return None;
    }
    FieldsPayload(p[..n]);
    var payloadCrc := AlCrc32(p, HEADER, n - HEADER);
    assert p[HEADER..HEADER + (n - HEADER)] == p[..n][HEADER..];
    var storedPayload := U32(p, 62);
    var stored := U32(p, 66);
    if payloadCrc != storedPayload {
      return None;
    }
    var frameCrc := BlankedCrc(p, n);
    r := if frameCrc == stored then Some(f) else None;
  }

  lemma FieldsPayload(w: seq<byte>)
    requires |w| >= HEADER
    ensures Fields(w).payload == w[HEADER..]
  {
  }

  /** al_encode: fills p and reports the length, or leaves p alone. */
  method AlEncode(f: Frame, p: array<byte>) returns (length: Option<nat>)
    modifies p
    ensures length == if Valid(f) && p.Length >= HEADER + |f.payload| then Some(HEADER + |f.payload|) else None
    ensures length == None ==> p[..] == old(p[..])
    ensures length.Some? ==> Decode(p[..length.value]) == Some(f) && p[length.value..] == old(p[length.value..])
  {
    hide Crc, Le, Valid, Patch, Decode, Identity, Numbers, CeilDiv, Slice;
    if !Valid(f) || p.Length < HEADER + |f.payload| {
      return None;
    }
    ghost var was := p[..];
    ValidLength(f);
    var n := HEADER + |f.payload|;
    ghost var blank: seq<byte> := [0, 0, 0, 0];
    ghost var h := Identity(f) + Numbers(f, |f.payload|);
    PutUnchecked(f, p);
    PatchFront(was, h + blank + blank + f.payload);
    assert p[HEADER..n] == p[..n][HEADER..] == f.payload;
    var payloadCrc := AlCrc32(p, HEADER, |f.payload|);
    PutLe(p, 62, payloadCrc, 4);
    assert h + blank + blank + f.payload == h + blank + (blank + f.payload);
    PatchReplaces(was, h, blank, blank + f.payload, Le(payloadCrc, 4));
    assert Head(f) == h + Le(payloadCrc, 4);
    PatchFront(was, Head(f) + (blank + f.payload));
    assert p[0..n] == p[..n] == Head(f) + blank + f.payload;
    var frameCrc := AlCrc32(p, 0, n);
    PutLe(p, 66, frameCrc, 4);
    assert Head(f) + (blank + f.payload) == Head(f) + blank + f.payload;
    PatchReplaces(was, Head(f), blank, f.payload, Le(frameCrc, 4));
    PatchFront(was, Encode(f));
    CodecIsCanonical(f, Encode(f));
    length := Some(n);
  }

  /** The frame with both checksum fields still zero. */
  method PutUnchecked(f: Frame, p: array<byte>)
    requires HEADER + |f.payload| <= p.Length && |f.payload| <= MAX_FRAME
    modifies p
    ensures p[..] == Patch(old(p[..]), 0,
                           Identity(f) + Numbers(f, |f.payload|) + [0, 0, 0, 0] + [0, 0, 0, 0] + f.payload)
  {
    hide Patch, Identity, Numbers;
    ghost var was := p[..];
    var blank: seq<byte> := [0, 0, 0, 0];
    Copy(p, 0, Identity(f));
    PutNumbers(f, p);
    Copy(p, 62, blank);
    Copy(p, 66, blank);
    Copy(p, HEADER, f.payload);
    ghost var h := Identity(f) + Numbers(f, |f.payload|);
    PatchJoins(was, 0, Identity(f), Numbers(f, |f.payload|));
    PatchJoins(was, 0, h, blank);
    PatchJoins(was, 0, h + blank, blank);
    PatchJoins(was, 0, h + blank + blank, f.payload);
  }

  lemma ValidLength(f: Frame)
    requires Valid(f)
    ensures 0 < |f.payload| <= MAX_FRAME - HEADER
  {
    StartsInside(f.total, f.chunk, f.index);
  }

  method PutNumbers(f: Frame, p: array<byte>)
    requires p.Length >= 62 && |f.payload| <= MAX_FRAME
    modifies p
    ensures p[..] == Patch(old(p[..]), 40, Numbers(f, |f.payload|))
  {
    hide Le, Patch;
    ghost var was := p[..];
    var n := Le(f.sequence, 4);
    PutLe(p, 40, f.sequence, 4);
    PutLe(p, 44, f.generation, 4);
    PatchJoins(was, 40, n, Le(f.generation, 4));
    n := n + Le(f.generation, 4);
    PutLe(p, 48, f.index, 2);
    PatchJoins(was, 40, n, Le(f.index, 2));
    n := n + Le(f.index, 2);
    PutLe(p, 50, f.count, 2);
    PatchJoins(was, 40, n, Le(f.count, 2));
    n := n + Le(f.count, 2);
    PutLe(p, 52, f.total, 2);
    PatchJoins(was, 40, n, Le(f.total, 2));
    n := n + Le(f.total, 2);
    PutLe(p, 54, |f.payload|, 2);
    PatchJoins(was, 40, n, Le(|f.payload|, 2));
    n := n + Le(|f.payload|, 2);
    PutLe(p, 56, f.chunk, 2);
    PatchJoins(was, 40, n, Le(f.chunk, 2));
    n := n + Le(f.chunk, 2);
    PutLe(p, 58, f.messageCrc, 4);
    PatchJoins(was, 40, n, Le(f.messageCrc, 4));
  }

  // ---- fragmentation -------------------------------------------------------------------------

  /** Fragment idx of raw for the given link MTU, carrying meta's addressing and identity. */
  function Fragment(raw: seq<byte>, meta: Frame, mtu: nat, idx: nat): Option<Frame> {
    if raw == [] || |raw| > MAX_MESSAGE || mtu <= HEADER || mtu > MAX_FRAME then None
    else
      var chunk := mtu - HEADER;
      var count := CeilDiv(|raw|, chunk);
      if count > MAX_FRAGMENTS || idx >= count then None
      else
        StartsInside(|raw|, chunk, idx);
        var at := idx * chunk;
        Some(meta.(total := |raw|, chunk := chunk, count := count, index := idx, messageCrc := Crc(raw),
                   payload := raw[at..at + Slice(|raw|, chunk, idx)]))
  }

  /** al_fragment: the requested fragment is encoded into p, or nothing happens. */
  method AlFragment(raw: seq<byte>, meta: Frame, mtu: nat, idx: nat, p: array<byte>) returns (length: Option<nat>)
    modifies p
    ensures var f := Fragment(raw, meta, mtu, idx);
            if f.Some? && Valid(f.value) && p.Length >= HEADER + |f.value.payload|
            then length.Some? && length.value <= p.Length && Decode(p[..length.value]) == f
            else length == None && p[..] == old(p[..])
  {
    hide Crc, Decode, Valid, CeilDiv, Slice;
    var f := Fragment(raw, meta, mtu, idx);
    if f == None {
      return None;
    }
    length := AlEncode(f.value, p);
  }
}
