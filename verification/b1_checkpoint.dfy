/** The version-2 byte form of one outbox record. */
module B1Checkpoint {
  import opened Wrappers
  import opened Bytes
  import opened B1Record
  import opened Crc32

  const HEADER := 44
  const MAX_SIZE := HEADER + BOOT_ID_SIZE - 1 + SAMPLE_ID_SIZE - 1 + WIRE_SIZE - 1
  const MAGIC: seq<byte> := [66, 49, 81, 50]

  function Body(r: Record): seq<byte> {
    r.bootId + r.sampleId + r.wire
  }

  function Front(n: u32): (s: seq<byte>)
    ensures |s| == 12
  {
    MAGIC + Le(2, 2) + Le(HEADER, 2) + Le(n, 4)
  }

  predicate Fits(r: Record) {
    |r.bootId| < BOOT_ID_SIZE && |r.sampleId| < SAMPLE_ID_SIZE && |r.wire| < WIRE_SIZE && r.high <= 1 && r.hasAlert <= 1
  }

  function Numbers(r: Record): (s: seq<byte>)
    requires Fits(r)
    ensures |s| == 28
  {
    Le(r.order, 8) + Le(r.acquired, 8) + Le(r.sequence, 4)
    + [r.high + 2 * r.hasAlert, |r.bootId|, |r.sampleId|, 0] + Le(|r.wire|, 2) + [0, 0]
  }

  /** The bytes a checksum covers: the checksum field counts as zero. */
  function Blanked(p: seq<byte>): (r: seq<byte>)
    requires |p| >= 16
    ensures |r| == |p|
  {
    p[..12] + [0, 0, 0, 0] + p[16..]
  }

  function Image(r: Record): (p: seq<byte>)
    requires Fits(r)
    ensures |p| == HEADER + |Body(r)| <= MAX_SIZE
  {
    var front, rest := Front(HEADER + |Body(r)|), Numbers(r) + Body(r);
    front + Le(Crc(front + [0, 0, 0, 0] + rest), 4) + rest
  }

  /** Only valid records of high importance are written. */
  function Encode(r: Record): Option<seq<byte>> {
    if Valid(r) && r.high == 1 then Some(Image(r)) else None
  }

  /** What the header must say for the lengths b, s and w of the three texts. */
  predicate HeaderFits(p: seq<byte>, b: nat, s: nat, w: nat)
    requires |p| >= HEADER
  {
    && p[..4] == MAGIC && Get(p, 4, 2) == 2 && Get(p, 6, 2) == HEADER && Get(p, 8, 4) == |p|
    && p[36] <= 3 && p[36] % 2 == 1 && p[39] == 0 && Get(p, 42, 2) == 0
    && 0 < b < BOOT_ID_SIZE && 0 < s < SAMPLE_ID_SIZE && 0 < w < WIRE_SIZE
    && |p| == HEADER + b + s + w
  }

  function Fields(p: seq<byte>, b: nat, s: nat, w: nat): Record
    requires |p| == HEADER + b + s + w && 0 !in p[HEADER..]
  {
    Widths();
    assert forall c :: c in p[HEADER..HEADER + b] ==> c in p[HEADER..];
    assert forall c :: c in p[HEADER + b..HEADER + b + s] ==> c in p[HEADER..];
    assert forall c :: c in p[HEADER + b + s..] ==> c in p[HEADER..];
    Record(1, 0, Get(p, 16, 8), Get(p, 24, 8), Get(p, 32, 4), p[36] % 2, p[36] / 2 % 2,
           p[HEADER..HEADER + b], p[HEADER + b..HEADER + b + s], p[HEADER + b + s..])
  }

  /** A blob in the version-2 form; other blobs are not part of this model. */
  function Decode(p: seq<byte>): Option<Record> {
    if |p| < HEADER || |p| > MAX_SIZE then None
    else
      var b, s, w := p[37] as nat, p[38] as nat, Get(p, 40, 2);
      if !HeaderFits(p, b, s, w) || Get(p, 12, 4) != Crc(Blanked(p)) || 0 in p[HEADER..] then None
      else
        var r := Sealed(Fields(p, b, s, w));
        if Valid(r) && r.high == 1 then Some(r) else None
  }

  // ---- both directions -----------------------------------------------------------------------------

  lemma FrontParts(n: u32)
    ensures var f := Front(n);
            f[..4] == MAGIC && f[4..6] == Le(2, 2) && f[6..8] == Le(HEADER, 2) && f[8..12] == Le(n, 4)
  {
    hide Le;
  }

  lemma NumbersParts(r: Record)
    requires Fits(r)
    ensures var n := Numbers(r);
            && n[0..8] == Le(r.order, 8) && n[8..16] == Le(r.acquired, 8) && n[16..20] == Le(r.sequence, 4)
            && n[20] == r.high + 2 * r.hasAlert && n[21] == |r.bootId| && n[22] == |r.sampleId| && n[23] == 0
            && n[24..26] == Le(|r.wire|, 2) && n[26..28] == [0, 0]
  {
    hide Le;
  }

  /** Where the parts of the image are. */
  lemma ImageParts(r: Record)
    requires Fits(r)
    ensures var p := Image(r);
            && p[..12] == Front(|p|) && p[16..44] == Numbers(r) && p[HEADER..] == Body(r)
            && p[12..16] == Le(Crc(Blanked(p)), 4)
  {
    hide Le, Crc, Front, Numbers, Body;
    var p := Image(r);
    var front, rest := Front(HEADER + |Body(r)|), Numbers(r) + Body(r);
    assert p[16..] == rest;
    assert Blanked(p) == front + [0, 0, 0, 0] + rest;
  }

  lemma ImageFields(r: Record)
    requires Fits(r)
    ensures var p := Image(r);
            && Get(p, 4, 2) == 2 && Get(p, 6, 2) == HEADER && Get(p, 8, 4) == |p| && p[..4] == MAGIC
            && Get(p, 12, 4) == Crc(Blanked(p))
            && Get(p, 16, 8) == r.order && Get(p, 24, 8) == r.acquired && Get(p, 32, 4) == r.sequence
            && p[36] == r.high + 2 * r.hasAlert && p[37] == |r.bootId| && p[38] == |r.sampleId| && p[39] == 0
            && Get(p, 40, 2) == |r.wire| && Get(p, 42, 2) == 0
  {
    hide Le, Crc, Front, Numbers, Body, Value;
    var p := Image(r);
    ImageParts(r);
    FrontParts(|p|);
    NumbersParts(r);
    Widths();
    var f, n := Front(|p|), Numbers(r);
    assert p[4..6] == f[4..6] && p[6..8] == f[6..8] && p[8..12] == f[8..12] && p[..4] == f[..4];
    assert p[16..24] == n[0..8] && p[24..32] == n[8..16] && p[32..36] == n[16..20];
    assert p[40..42] == n[24..26] && p[42..44] == n[26..28];
    assert p[36] == n[20] && p[37] == n[21] && p[38] == n[22] && p[39] == n[23];
    ValueOfLe(2, 2); ValueOfLe(HEADER, 2); ValueOfLe(|p|, 4); ValueOfLe(Crc(Blanked(p)), 4);
    ValueOfLe(r.order, 8); ValueOfLe(r.acquired, 8); ValueOfLe(r.sequence, 4); ValueOfLe(|r.wire|, 2);
    ZeroValue();
  }

  lemma ZeroValue()
    ensures Value([0, 0]) == 0
  {
    assert [0, 0][1..] == [0] && [0][1..] == [];
    assert Value([0]) == 0 + 256 * Value([]);
  }

  lemma BodyText(r: Record)
    ensures 0 !in Body(r)
  {
  }

  lemma BodyParts(r: Record)
    ensures var t, b, s := Body(r), |r.bootId|, |r.sampleId|;
            t[..b] == r.bootId && t[b..b + s] == r.sampleId && t[b + s..] == r.wire
  {
  }

  lemma DecodeOfImage(r: Record)
    requires Valid(r) && r.high == 1
    ensures Decode(Image(r)) == Some(r)
  {
    hide Le, Crc, Value, NativeImage, SampleId, Image, Body, Blanked;
    var p := Image(r);
    assert Fits(r);
    ImageFields(r);
    ImageParts(r);
    BodyText(r);
    BodyParts(r);
    var b, s, w := |r.bootId|, |r.sampleId|, |r.wire|;
    assert |Body(r)| == b + s + w by { BodySize(r); }
    assert p[HEADER..HEADER + b] == p[HEADER..][..b];
    assert p[HEADER + b..HEADER + b + s] == p[HEADER..][b..b + s];
    assert p[HEADER + b + s..] == p[HEADER..][b + s..];
    SealOfUnsealed(r);
    assert Fields(p, b, s, w) == r.(version := 1, crc := 0);
  }

  lemma BodySize(r: Record)
    ensures |Body(r)| == |r.bootId| + |r.sampleId| + |r.wire|
  {
  }

  lemma SealOfUnsealed(r: Record)
    requires Valid(r)
    ensures Sealed(r.(version := 1, crc := 0)) == r
  {
    assert NativeImage(r.(version := 1, crc := 0)) == NativeImage(r);
  }

  lemma FrontOfHeader(p: seq<byte>, b: nat, s: nat, w: nat)
    requires |p| >= HEADER && HeaderFits(p, b, s, w)
    ensures p[..12] == Front(|p|)
  {
    hide Le, Value;
    LeOfGet(p, 4, 2); LeOfGet(p, 6, 2); LeOfGet(p, 8, 4);
    assert p[..12] == p[..4] + p[4..6] + p[6..8] + p[8..12];
  }

  lemma NumbersOfHeader(p: seq<byte>, w: nat)
    requires HEADER <= |p| && w == Get(p, 40, 2)
    requires var b, s := p[37], p[38]; HeaderFits(p, b, s, w) && 0 !in p[HEADER..]
    ensures var r := Fields(p, p[37], p[38], w);
            Fits(r) && p[16..44] == Numbers(r) && p[HEADER..] == Body(r)
  {
    hide Le, Value;
    var b, s := p[37], p[38];
    var r := Fields(p, b, s, w);
    LeOfGet(p, 16, 8); LeOfGet(p, 24, 8); LeOfGet(p, 32, 4); LeOfGet(p, 40, 2); LeOfGet(p, 42, 2);
    LeZero();
    assert p[16..44] == p[16..24] + p[24..32] + p[32..36] + [p[36], p[37], p[38], p[39]] + p[40..42] + p[42..44];
    assert p[HEADER..] == p[HEADER..HEADER + b] + p[HEADER + b..HEADER + b + s] + p[HEADER + b + s..];
  }

  lemma LeZero()
    ensures Le(0, 2) == [0, 0]
  {
    assert Le(0, 1) == [0] + Le(0, 0);
  }

  lemma ImageOfDecode(p: seq<byte>, r: Record)
    requires Decode(p) == Some(r)
    ensures Valid(r) && r.high == 1 && Fits(r) && p == Image(r)
  {
    hide Le, Crc, Value, NativeImage, SampleId, Body, Numbers, Front, Blanked;
    var w := Get(p, 40, 2);
    FrontOfHeader(p, p[37], p[38], w);
    NumbersOfHeader(p, w);
    var u := Fields(p, p[37], p[38], w);
    SameImage(u, r);
    LeOfGet(p, 12, 4);
    assert p == p[..12] + p[12..16] + p[16..44] + p[HEADER..];
    assert Blanked(p) == Front(|p|) + [0, 0, 0, 0] + (Numbers(r) + Body(r)) by { BlankedParts(p); }
  }

  lemma BlankedParts(p: seq<byte>)
    requires |p| >= HEADER
    ensures Blanked(p) == p[..12] + [0, 0, 0, 0] + (p[16..44] + p[HEADER..])
  {
    assert p[16..] == p[16..44] + p[HEADER..];
  }

  lemma SameImage(u: Record, r: Record)
    requires r == Sealed(u) && Fits(u)
    ensures Fits(r) && Numbers(r) == Numbers(u) && Body(r) == Body(u)
  {
  }

  /** Encoding and decoding are inverse on exactly the records and the blobs the firmware accepts. */
  lemma CheckpointIsCanonical(r: Record, p: seq<byte>)
    ensures Decode(p) == Some(r) <==> Encode(r) == Some(p)
  {
    hide Decode, Image, Valid;
    if Decode(p) == Some(r) {
      ImageOfDecode(p, r);
    }
    if Encode(r) == Some(p) {
      DecodeOfImage(r);
    }
  }

  lemma BlankedSplit(p: seq<byte>, i: nat)
    requires 16 <= |p| && i < |p| && !(12 <= i < 16)
    ensures Blanked(p) == Blanked(p)[..i] + [p[i]] + Blanked(p)[i + 1..]
  {
  }

  lemma BlankedChanged(p: seq<byte>, i: nat, b: byte)
    requires 16 <= |p| && i < |p| && b != p[i]
    ensures 12 <= i < 16 ==> Blanked(p[i := b]) == Blanked(p) && p[i := b][12..16] != p[12..16]
    ensures !(12 <= i < 16) ==> Blanked(p[i := b]) == Blanked(p)[..i] + [b] + Blanked(p)[i + 1..]
    ensures !(12 <= i < 16) ==> p[i := b][12..16] == p[12..16]
  {
    BlankedAt(p);
    BlankedAt(p[i := b]);
    if 12 <= i < 16 {
      assert p[i := b][12..16][i - 12] == b && p[12..16][i - 12] == p[i];
    }
  }

  /** Changing one byte behind the magic of an accepted blob makes it rejected. */
  lemma DamageRejected(p: seq<byte>, i: nat, b: byte)
    requires Decode(p).Some? && 4 <= i < |p| && b != p[i]
    ensures Decode(p[i := b]) == None
  {
    hide Crc, Value, Blanked, HeaderFits, Fields, Valid;
    var q := p[i := b];
    BlankedChanged(p, i, b);
    if 12 <= i < 16 {
      LeOfGet(p, 12, 4);
      LeOfGet(q, 12, 4);
    } else {
      BlankedSplit(p, i);
      BurstChangesCrc(Blanked(p)[..i], [p[i]], [b], Blanked(p)[i + 1..]);
    }
  }

  // ---- the C entry points --------------------------------------------------------------------------

  method GetLe(p: array<byte>, at: nat, n: nat) returns (v: nat)
    requires at + n <= p.Length
    ensures v == Get(p[..], at, n)
  {
    v := 0;
    var i := n;
    while i > 0
      invariant 0 <= i <= n && v == Value(p[at + i..at + n])
    {
      i := i - 1;
      assert p[at + i..at + n][1..] == p[at + i + 1..at + n];
      v := p[at + i] as int + 256 * v;
    }
    assert p[at..at + n] == p[..][at..at + n];
  }

  /** crc(): the four checksum bytes are read as zero. */
  method CheckpointCrc(p: array<byte>, n: nat) returns (crc: u32)
    requires 16 <= n <= p.Length
    ensures crc == Crc(Blanked(p[..n]))
  {
    hide BitStep, MaskedStep, Xor, Octet, Inverted, Blanked;
    var c := ONES;
    ghost var image := Blanked(p[..n]);
    BlankedAt(p[..n]);
    for i := 0 to n
      invariant c == Fold(ONES, image[..i])
    {
      var start := Xor(c, Octet(if 12 <= i < 16 then 0 else p[i]));
      c := start;
      for b := 0 to 8
        invariant c == Steps(start, b)
      {
        MaskedStepIsBitStep(c);
        StepsLast(start, b);
        c := MaskedStep(c);
      }
      FoldLast(ONES, image[..i + 1]);
      assert image[..i + 1][..i] == image[..i];
    }
    assert image[..n] == image;
    crc := Inverted(c);
  }

  lemma BlankedAt(p: seq<byte>)
    requires |p| >= 16
    ensures |Blanked(p)| == |p|
    ensures forall i :: 0 <= i < |p| ==> Blanked(p)[i] == if 12 <= i < 16 then 0 else p[i]
  {
  }

  /** b1_checkpoint_encode: the length written, 0 when nothing is. */
  method B1CheckpointEncode(r: Record, p: array<byte>) returns (n: nat)
    modifies p
    ensures n == match Encode(r) case Some(image) => (if p.Length < |image| then 0 else |image|) case None => 0
    ensures n == 0 ==> p[..] == old(p[..])
    ensures n > 0 ==> Decode(p[..n]) == Some(r) && p[n..] == old(p[n..])
  {
    hide Valid, Le, Crc, Patch, Decode, NativeImage, Blanked;
    if !Valid(r) || r.high != 1 {
      return 0;
    }
    ghost var was := p[..];
    ValidFits(r);
    n := HEADER + |r.bootId| + |r.sampleId| + |r.wire|;
    BodySize(r);
    if p.Length < n {
      return 0;
    }
    ghost var front, numbers, body := Front(n), Numbers(r), Body(r);
    var blank: seq<byte> := [0, 0, 0, 0];
    PutFront(p, n);
    Copy(p, 12, blank);
    PatchJoins(was, 0, front, blank);
    PutNumbers(p, r);
    PatchJoins(was, 0, front + blank, numbers);
    Copy(p, HEADER, r.bootId + r.sampleId + r.wire);
    PatchJoins(was, 0, front + blank + numbers, body);
    PatchFront(was, front + blank + numbers + body);
    assert p[..n] == front + blank + (numbers + body);
    var crc := CheckpointCrc(p, n);
    assert Blanked(p[..n]) == p[..n] by { AlreadyBlank(front, numbers + body); }
    PutLe(p, 12, crc, 4);
    assert front + blank + numbers + body == front + blank + (numbers + body);
    PatchReplaces(was, front, blank, numbers + body, Le(crc, 4));
    PatchFront(was, Image(r));
    DecodeOfImage(r);
  }

  lemma AlreadyBlank(front: seq<byte>, rest: seq<byte>)
    requires |front| == 12
    ensures Blanked(front + [0, 0, 0, 0] + rest) == front + [0, 0, 0, 0] + rest
  {
  }

  lemma ValidFits(r: Record)
    requires Valid(r)
    ensures Fits(r)
  {
  }

  method PutFront(p: array<byte>, n: u32)
    requires p.Length >= 12
    modifies p
    ensures p[..] == Patch(old(p[..]), 0, Front(n))
  {
    hide Le, Patch;
    ghost var was := p[..];
    Copy(p, 0, MAGIC);
    PutLe(p, 4, 2, 2);
    PatchJoins(was, 0, MAGIC, Le(2, 2));
    PutLe(p, 6, HEADER, 2);
    PatchJoins(was, 0, MAGIC + Le(2, 2), Le(HEADER, 2));
    PutLe(p, 8, n, 4);
    PatchJoins(was, 0, MAGIC + Le(2, 2) + Le(HEADER, 2), Le(n, 4));
  }

  method PutNumbers(p: array<byte>, r: Record)
    requires p.Length >= HEADER && Fits(r)
    modifies p
    ensures p[..] == Patch(old(p[..]), 16, Numbers(r))
  {
    hide Le, Patch;
    ghost var was := p[..];
    var n := Le(r.order, 8);
    PutLe(p, 16, r.order, 8);
    PutLe(p, 24, r.acquired, 8);
    PatchJoins(was, 16, n, Le(r.acquired, 8));
    n := n + Le(r.acquired, 8);
    PutLe(p, 32, r.sequence, 4);
    PatchJoins(was, 16, n, Le(r.sequence, 4));
    n := n + Le(r.sequence, 4);
    var lengths: seq<byte> := [r.high + 2 * r.hasAlert, |r.bootId|, |r.sampleId|, 0];
    Copy(p, 36, lengths);
    PatchJoins(was, 16, n, lengths);
    n := n + lengths;
    PutLe(p, 40, |r.wire|, 2);
    PatchJoins(was, 16, n, Le(|r.wire|, 2));
    n := n + Le(|r.wire|, 2);
    Copy(p, 42, [0, 0]);
    PatchJoins(was, 16, n, [0, 0]);
  }

  /** b1_checkpoint_decode over the first n bytes of p. */
  method B1CheckpointDecode(p: array<byte>, n: nat) returns (r: Option<Record>)
    requires n <= p.Length
    ensures r == Decode(p[..n])
  {
    hide Crc, Value, Blanked, Valid, NativeImage;
    if n < HEADER || n > MAX_SIZE {
      return None;
    }
    var q := p[..n];
    var b, s := p[37], p[38];
    var w := GetLe(p, 40, 2);
    assert q[40..42] == p[..][40..42];
    if !HeaderFits(q, b, s, w) {
      return None;
    }
    var stored := GetLe(p, 12, 4);
    assert q[12..16] == p[..][12..16];
    var crc := CheckpointCrc(p, n);
    if stored != crc || 0 in q[HEADER..] {
      return None;
    }
    var sealed := Sealed(Fields(q, b, s, w));
    r := if Valid(sealed) && sealed.high == 1 then Some(sealed) else None;
  }
}
