/** The formats on the wire and in flash, byte by byte. */
module WireLayout {
  import opened Bytes
  import opened Wrappers
  import opened LoraFrame
  import Crc32
  import B1Record
  import B1Checkpoint

  function Two(w: seq<byte>, at: nat): nat
    requires at + 2 <= |w|
  {
    w[at] as int + 0x100 * (w[at + 1] as int)
  }

  function Four(w: seq<byte>, at: nat): nat
    requires at + 4 <= |w|
  {
    w[at] as int + 0x100 * (w[at + 1] as int) + 0x1_0000 * (w[at + 2] as int) + 0x100_0000 * (w[at + 3] as int)
  }

  /** The least significant byte comes first. */
  lemma {:induction false} LeastFirst(s: seq<byte>)
    ensures |s| == 2 ==> Value(s) == Two(s, 0)
    ensures |s| >= 4 ==> Value(s) == Four(s, 0) + 0x1_0000_0000 * Value(s[4..])
  {
    if |s| == 2 {
      assert Value(s[1..]) == s[1] as int + 256 * Value(s[2..]) && s[1..][1..] == s[2..] == [];
    } else if |s| >= 4 {
      assert s[1..][1..] == s[2..] && s[2..][1..] == s[3..] && s[3..][1..] == s[4..];
      assert Value(s[3..]) == s[3] as int + 256 * Value(s[4..]);
      assert Value(s[2..]) == s[2] as int + 256 * Value(s[3..]);
      assert Value(s[1..]) == s[1] as int + 256 * Value(s[2..]);
    }
  }

  lemma Words(w: seq<byte>, at: nat)
    ensures at + 2 <= |w| ==> Value(w[at..at + 2]) == Two(w, at)
    ensures at + 4 <= |w| ==> Value(w[at..at + 4]) == Four(w, at)
    ensures at + 8 <= |w| ==> Value(w[at..at + 8]) == Four(w, at) + 0x1_0000_0000 * Four(w, at + 4)
  {
    if at + 2 <= |w| { LeastFirst(w[at..at + 2]); }
    if at + 4 <= |w| { FourFirst(w[at..at + 4]); }
    if at + 8 <= |w| {
      LeastFirst(w[at..at + 8]);
      FourFirst(w[at + 4..at + 8]);
      assert w[at..at + 8][4..] == w[at + 4..at + 8];
    }
  }

  lemma FourFirst(s: seq<byte>)
    requires |s| == 4
    ensures Value(s) == Four(s, 0)
  {
    LeastFirst(s);
    assert s[4..] == [];
  }

  /**
   * The frame header: "AL", version 1, kind, source, destination, zone, zero, the two identities, sequence,
   * generation, index, count, total, payload length, chunk, message checksum, payload checksum, and the
   * checksum of the frame with that field zero.
   */
  lemma FrameLayout(f: Frame)
    requires |f.payload| <= MAX_FRAME
    ensures var w := Encode(f);
            && |w| == 70 + |f.payload|
            && w[..8] == [65, 76, 1, f.kind, f.source, f.destination, f.zone, 0]
            && w[8..24] == f.session && w[24..40] == f.logical
            && Four(w, 40) == f.sequence && Four(w, 44) == f.generation
            && Two(w, 48) == f.index && Two(w, 50) == f.count && Two(w, 52) == f.total
            && Two(w, 54) == |f.payload| && Two(w, 56) == f.chunk && Four(w, 58) == f.messageCrc
            && Four(w, 62) == Crc32.Crc(f.payload)
            && Four(w, 66) == Crc32.Crc(w[..66] + [0, 0, 0, 0] + w[70..])
            && w[70..] == f.payload
  {
    hide Encode, Crc32.Crc, Value, Two, Four;
    var w := Encode(f);
    EncodedFields(f);
    EncodedChecksums(f);
    FrontBytes(f);
    Words(w, 40); Words(w, 44); Words(w, 48); Words(w, 50); Words(w, 52); Words(w, 54); Words(w, 56);
    Words(w, 58); Words(w, 62); Words(w, 66);
  }

  lemma FrontBytes(f: Frame)
    requires |f.payload| <= MAX_FRAME
    ensures Encode(f)[..8] == [65, 76, 1, f.kind, f.source, f.destination, f.zone, 0]
  {
    hide Numbers, Crc32.Crc, Le;
    var w, h := Encode(f), Identity(f);
    assert w[..8] == h[..8];
    assert h[..8] == [65, 76, 1, f.kind, f.source, f.destination, f.zone, 0];
  }

  /**
   * The checkpoint of a record: "B1Q2", version 2, header length, total length, checksum, order, time,
   * sequence, flags, the lengths of the three texts with two zero fields, then the texts.
   */
  lemma CheckpointLayout(r: B1Record.Record)
    requires B1Checkpoint.Encode(r).Some?
    ensures var p, n := B1Checkpoint.Encode(r).value, 44 + |r.bootId| + |r.sampleId| + |r.wire|;
            && |p| == n && p[..4] == [66, 49, 81, 50]
            && Two(p, 4) == 2 && Two(p, 6) == 44 && Four(p, 8) == n
            && Four(p, 12) == Crc32.Crc(p[..12] + [0, 0, 0, 0] + p[16..])
            && Four(p, 16) + 0x1_0000_0000 * Four(p, 20) == r.order
            && Four(p, 24) + 0x1_0000_0000 * Four(p, 28) == r.acquired
            && Four(p, 32) == r.sequence && p[36] == r.high + 2 * r.hasAlert
            && p[37] == |r.bootId| && p[38] == |r.sampleId| && p[39] == 0
            && Two(p, 40) == |r.wire| && Two(p, 42) == 0
            && p[44..] == r.bootId + r.sampleId + r.wire
  {
    hide B1Checkpoint.Encode, B1Checkpoint.Decode, Crc32.Crc, Value, Two, Four, B1Record.Valid;
    var p := B1Checkpoint.Encode(r).value;
    B1Checkpoint.CheckpointIsCanonical(r, p);
    Accepted(r, p);
    Words(p, 4); Words(p, 6); Words(p, 8); Words(p, 12); Words(p, 16); Words(p, 24); Words(p, 32);
    Words(p, 40); Words(p, 42);
  }

  lemma Accepted(r: B1Record.Record, p: seq<byte>)
    requires B1Checkpoint.Decode(p) == Some(r)
    ensures |p| >= 44
    ensures p[..4] == [66, 49, 81, 50] && Get(p, 4, 2) == 2 && Get(p, 6, 2) == 44 && Get(p, 8, 4) == |p|
    ensures Get(p, 12, 4) == Crc32.Crc(p[..12] + [0, 0, 0, 0] + p[16..])
    ensures Get(p, 16, 8) == r.order && Get(p, 24, 8) == r.acquired && Get(p, 32, 4) == r.sequence
    ensures p[36] == r.high + 2 * r.hasAlert && p[37] == |r.bootId| && p[38] == |r.sampleId| && p[39] == 0
    ensures Get(p, 40, 2) == |r.wire| && Get(p, 42, 2) == 0 && p[44..] == r.bootId + r.sampleId + r.wire
    ensures |p| == 44 + |r.bootId| + |r.sampleId| + |r.wire|
  {
    hide Crc32.Crc, Value, B1Record.Valid, B1Record.NativeImage;
    var b, s, w := p[37] as nat, p[38] as nat, Get(p, 40, 2);
    assert p[44..] == p[44..44 + b] + p[44 + b..44 + b + s] + p[44 + b + s..];
  }
}
