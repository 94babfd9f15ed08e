/** One outbox record of the B1 firmware: its checks, its seal and its identity. */
module B1Record {
  import opened Bytes
  import opened HexText
  import Crc32

  const BOOT_ID_SIZE := 80
  const SAMPLE_ID_SIZE := 100
  const WIRE_SIZE := 4096

  /** The characters of a C string before its terminator. */
  type Text = s: seq<byte> | 0 !in s

  datatype Record = Record(version: u32, crc: u32, order: u64, acquired: u64, sequence: u32,
                           high: byte, hasAlert: byte, bootId: Text, sampleId: Text, wire: Text)

  /** A char array holding s, zero up to its end. */
  function Padded(s: seq<byte>, n: nat): seq<byte> {
    if |s| < n then s + seq(n - |s|, _ => 0) else s
  }

  /** Native layout from the order field on, with the six bytes that round the size up. */
  function NativeImage(r: Record): seq<byte> {
    Le(r.order, 8) + Le(r.acquired, 8) + Le(r.sequence, 4) + [r.high, r.hasAlert]
    + Padded(r.bootId, BOOT_ID_SIZE) + Padded(r.sampleId, SAMPLE_ID_SIZE) + Padded(r.wire, WIRE_SIZE)
    + [0, 0, 0, 0, 0, 0]
  }

  function Sealed(r: Record): Record {
    r.(version := 1, crc := Crc32.Crc(NativeImage(r)))
  }

  predicate Bounded(s: Text, n: nat) {
    0 < |s| < n
  }

  predicate BootCharacter(c: byte) {
    97 <= c <= 122 || 65 <= c <= 90 || 48 <= c <= 57 || c == 45
  }

  /** The identity of a sample: "B1-", its boot, "-" and its sequence in eight digits. */
  function SampleId(bootId: Text, sequence: u32): Text {
    var r := [66, 49, 45] + bootId + [45] + Hex(sequence, 8);
    assert forall c :: c in r ==> c in [66, 49, 45] || c in bootId || c == 45 || c in Hex(sequence, 8);
    r
  }

  predicate Valid(r: Record) {
    && r.version == 1 && r.crc == Crc32.Crc(NativeImage(r))
    && r.order != 0 && r.order != U64_MAX && r.sequence != 0 && r.high <= 1 && r.hasAlert <= 1
    && Bounded(r.bootId, BOOT_ID_SIZE) && Bounded(r.sampleId, SAMPLE_ID_SIZE) && Bounded(r.wire, WIRE_SIZE)
    && (forall i :: 0 <= i < |r.bootId| ==> BootCharacter(r.bootId[i]))
    && r.sampleId == SampleId(r.bootId, r.sequence)
    && r.wire[|r.wire| - 1] == 10
  }

  lemma SealIsIdempotent(r: Record)
    ensures Sealed(Sealed(r)) == Sealed(r)
    ensures Valid(r) ==> Sealed(r) == r
  {
    assert NativeImage(Sealed(r)) == NativeImage(r);
  }

  /** The two message identities of a record: the sample's and the alert's. */
  function MessageId(r: Record, suffix: byte): Text
    requires suffix != 0
  {
    var m := r.sampleId + [45, suffix];
    assert forall c :: c in m ==> c in r.sampleId || c == 45 || c == suffix;
    m
  }

  /** One identity names one boot and one sequence: boots are cut off nine characters from the end. */
  lemma SampleIdInjective(a: Text, b: Text, m: u32, n: u32)
    requires SampleId(a, m) == SampleId(b, n)
    ensures a == b && m == n
  {
    hide Hex;
    var s, t := SampleId(a, m), SampleId(b, n);
    assert |a| == |b|;
    assert a == s[3..3 + |a|] && b == t[3..3 + |b|];
    assert Hex(m, 8) == s[4 + |a|..] && Hex(n, 8) == t[4 + |b|..];
    EightDigits();
    HexInjective(m, n, 8);
  }
}
