/** Bytes, fixed-width words and their little-endian encoding, shared by every wire format. */
module Bytes {
  type byte = x: int | 0 <= x < 256
  type u16 = x: int | 0 <= x < 0x1_0000
  type u32 = x: int | 0 <= x < 0x1_0000_0000
  type u64 = x: int | 0 <= x < 0x1_0000_0000_0000_0000

  const U32_MAX: u32 := 0xffff_ffff
  const U64_MAX: u64 := 0xffff_ffff_ffff_ffff

  function Pow256(n: nat): (r: nat)
    ensures r > 0
  {
    if n == 0 then 1 else 256 * Pow256(n - 1)
  }

  /** A C counter of 32 bits, n events later. */
  function Bump(c: u32, n: nat): u32 {
    (c + n) % 0x1_0000_0000
  }

  /** The n low bytes of v, least significant first. */
  function Le(v: nat, n: nat): (s: seq<byte>)
    ensures |s| == n
  {
    if n == 0 then [] else [v % 256] + Le(v / 256, n - 1)
  }

  /** The number a little-endian byte string stands for. */
  function Value(s: seq<byte>): (v: nat)
    ensures v < Pow256(|s|)
  {
    if s == [] then 0 else s[0] + 256 * Value(s[1..])
  }

  lemma Widths()
    ensures Pow256(1) == 0x100 && Pow256(2) == 0x1_0000 && Pow256(4) == 0x1_0000_0000
    ensures Pow256(8) == 0x1_0000_0000_0000_0000
  {
    assert Pow256(3) == 256 * Pow256(2);
    assert Pow256(4) == 256 * Pow256(3);
    assert Pow256(5) == 256 * Pow256(4);
    assert Pow256(6) == 256 * Pow256(5);
    assert Pow256(7) == 256 * Pow256(6);
    assert Pow256(8) == 256 * Pow256(7);
  }

  lemma {:induction false} ValueOfLe(v: nat, n: nat)
    requires v < Pow256(n)
    ensures Value(Le(v, n)) == v
  {
    if n > 0 {
      var s := Le(v, n);
      assert s[1..] == Le(v / 256, n - 1);
      ValueOfLe(v / 256, n - 1);
    }
  }

  lemma {:induction false} LeOfValue(s: seq<byte>)
    ensures Le(Value(s), |s|) == s
  {
    if s != [] {
      LeOfValue(s[1..]);
      assert Value(s) % 256 == s[0] && Value(s) / 256 == Value(s[1..]);
    }
  }

  /** The n-byte number at a position of p. */
  function Get(p: seq<byte>, at: nat, n: nat): (v: nat)
    requires at + n <= |p|
    ensures v < Pow256(n)
  {
    Value(p[at..at + n])
  }

  lemma LeOfGet(p: seq<byte>, at: nat, n: nat)
    requires at + n <= |p|
    ensures Le(Get(p, at, n), n) == p[at..at + n]
  {
    LeOfValue(p[at..at + n]);
  }

  /** s with x written over it from position at. */
  function Patch(s: seq<byte>, at: nat, x: seq<byte>): (r: seq<byte>)
    requires at + |x| <= |s|
    ensures |r| == |s|
  {
    s[..at] + x + s[at + |x|..]
  }

  /** A write is there to be read, and leaves everything beside it alone. */
  lemma PatchApart(s: seq<byte>, at: nat, x: seq<byte>, i: nat, j: nat)
    requires at + |x| <= |s| && i <= j <= |s| && (j <= at || at + |x| <= i)
    ensures Patch(s, at, x)[i..j] == s[i..j]
    ensures Patch(s, at, x)[at..at + |x|] == x
  {
  }

  /** Two adjoining writes are one write. */
  lemma PatchJoins(s: seq<byte>, at: nat, x: seq<byte>, y: seq<byte>)
    requires at + |x| + |y| <= |s|
    ensures Patch(Patch(s, at, x), at + |x|, y) == Patch(s, at, x + y)
  {
  }

  lemma PatchFront(s: seq<byte>, x: seq<byte>)
    requires |x| <= |s|
    ensures Patch(s, 0, x)[..|x|] == x && Patch(s, 0, x)[|x|..] == s[|x|..]
  {
  }

  /** A write inside an earlier one replaces the part it covers. */
  lemma PatchReplaces(s: seq<byte>, x: seq<byte>, y: seq<byte>, z: seq<byte>, v: seq<byte>)
    requires |x + y + z| <= |s| && |v| == |y|
    ensures Patch(Patch(s, 0, x + y + z), |x|, v) == Patch(s, 0, x + v + z)
  {
    var p := Patch(s, 0, x + y + z);
    assert p[..|x|] == x && p[|x + y|..] == z + s[|x + y + z|..];
  }

  /** Writes the n low bytes of v at p[at..], as the C loops over shifts do. */
  method PutLe(p: array<byte>, at: nat, v: nat, n: nat)
    requires at + n <= p.Length
    modifies p
    ensures p[..] == Patch(old(p[..]), at, Le(v, n))
  {
    var i, rest := 0, v;
    while i < n
      invariant i <= n
      invariant p[..at] == old(p[..at]) && p[at + n..] == old(p[at + n..])
      invariant Le(v, n) == p[at..at + i] + Le(rest, n - i)
    {
      p[at + i] := rest % 256;
      assert p[at..at + i + 1] == p[at..at + i] + [rest % 256];
      i, rest := i + 1, rest / 256;
    }
    assert p[..] == p[..at] + p[at..at + n] + p[at + n..];
  }

  /** Overwrites p[at..] with s. */
  method Copy(p: array<byte>, at: nat, s: seq<byte>)
    requires at + |s| <= p.Length
    modifies p
    ensures p[..] == Patch(old(p[..]), at, s)
  {
    for i := 0 to |s|
      invariant p[..at] == old(p[..at]) && p[at + |s|..] == old(p[at + |s|..])
      invariant p[at..at + i] == s[..i]
    {
      p[at + i] := s[i];
    }
    assert p[..] == p[..at] + p[at..at + |s|] + p[at + |s|..];
  }
}
