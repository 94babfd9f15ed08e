/** Fixed-width lower-case hexadecimal text and the lexicographic order of strings. */
module HexText {
  import opened Bytes

  /** Digit characters in ASCII. */
  function Digit(d: nat): byte
    requires d < 16
  {
    if d < 10 then 48 + d else 87 + d
  }

  function Pow16(n: nat): (r: nat)
    ensures r > 0
  {
    if n == 0 then 1 else 16 * Pow16(n - 1)
  }

  /** The n low digits of v, most significant first: printf's %0nx for v below 16 to the n. */
  function Hex(v: nat, n: nat): (s: seq<byte>)
    ensures |s| == n
    ensures 0 !in s
  {
    if n == 0 then [] else Hex(v / 16, n - 1) + [Digit(v % 16)]
  }

  predicate Less(a: seq<byte>, b: seq<byte>) {
    b != [] && (a == [] || a[0] < b[0] || (a[0] == b[0] && Less(a[1..], b[1..])))
  }

  lemma {:induction false} LessPrefix(p: seq<byte>, a: seq<byte>, b: seq<byte>)
    ensures Less(p + a, p + b) <==> Less(a, b)
  {
    if p == [] {
      assert p + a == a && p + b == b;
    } else {
      assert (p + a)[1..] == p[1..] + a && (p + b)[1..] == p[1..] + b;
      LessPrefix(p[1..], a, b);
    }
  }

  /** A difference in the first parts, of equal length, decides. */
  lemma {:induction false} LessSuffix(a: seq<byte>, b: seq<byte>, x: seq<byte>, y: seq<byte>)
    requires |a| == |b| && Less(a, b)
    ensures Less(a + x, b + y)
  {
    assert (a + x)[0] == a[0] && (b + y)[0] == b[0];
    assert (a + x)[1..] == a[1..] + x && (b + y)[1..] == b[1..] + y;
    if a[0] == b[0] {
      LessSuffix(a[1..], b[1..], x, y);
    }
  }

  lemma {:induction false} LessIrreflexive(a: seq<byte>)
    ensures !Less(a, a)
  {
    if a != [] {
      LessIrreflexive(a[1..]);
    }
  }

  lemma {:induction false} LessTransitive(a: seq<byte>, b: seq<byte>, c: seq<byte>)
    requires Less(a, b) && Less(b, c)
    ensures Less(a, c)
  {
    if a != [] && a[0] == b[0] == c[0] {
      LessTransitive(a[1..], b[1..], c[1..]);
    }
  }

  lemma {:induction false} LessTotal(a: seq<byte>, b: seq<byte>)
    ensures a == b || Less(a, b) || Less(b, a)
  {
    if a != [] && b != [] && a[0] == b[0] {
      LessTotal(a[1..], b[1..]);
      assert a == [a[0]] + a[1..] && b == [b[0]] + b[1..];
    }
  }

  /** Numeric order of numbers is lexicographic order of their digits. */
  lemma {:induction false} HexOrder(v: nat, w: nat, n: nat)
    requires v < w < Pow16(n)
    ensures Less(Hex(v, n), Hex(w, n))
  {
    if n > 0 {
      var a, b := Hex(v / 16, n - 1), Hex(w / 16, n - 1);
      if v / 16 < w / 16 {
        HexOrder(v / 16, w / 16, n - 1);
        LessSuffix(a, b, [Digit(v % 16)], [Digit(w % 16)]);
      } else {
        LessPrefix(a, [Digit(v % 16)], [Digit(w % 16)]);
      }
    }
  }

  lemma HexInjective(v: nat, w: nat, n: nat)
    requires v < Pow16(n) && w < Pow16(n) && Hex(v, n) == Hex(w, n)
    ensures v == w
  {
    LessIrreflexive(Hex(v, n));
    if v < w {
      HexOrder(v, w, n);
    } else if w < v {
      HexOrder(w, v, n);
    }
  }

  lemma EightDigits()
    ensures Pow16(8) == 0x1_0000_0000
  {
    assert Pow16(4) == 0x1_0000 by { assert Pow16(2) == 256; assert Pow16(3) == 4096; }
    assert Pow16(5) == 16 * Pow16(4);
    assert Pow16(6) == 16 * Pow16(5);
    assert Pow16(7) == 16 * Pow16(6);
  }

  predicate IsDigit(c: byte) {
    48 <= c <= 57 || 97 <= c <= 102
  }

  function DigitValue(c: byte): (d: nat)
    requires IsDigit(c)
    ensures d < 16 && Digit(d) == c
  {
    if c <= 57 then c - 48 else c - 87
  }

  /** The number that n digits stand for. */
  function FromHex(s: seq<byte>): (v: nat)
    requires forall i :: 0 <= i < |s| ==> IsDigit(s[i])
    ensures v < Pow16(|s|) && Hex(v, |s|) == s
  {
    if s == [] then 0
    else
      var n := |s| - 1;
      var v := 16 * FromHex(s[..n]) + DigitValue(s[n]);
      assert v / 16 == FromHex(s[..n]) && v % 16 == DigitValue(s[n]);
      v
  }

  lemma {:induction false} HexDigits(v: nat, n: nat)
    ensures forall i :: 0 <= i < n ==> IsDigit(Hex(v, n)[i])
  {
    if n > 0 {
      HexDigits(v / 16, n - 1);
    }
  }

  /** What lies between two continuations of p is a continuation of p. */
  lemma {:induction false} BetweenStartsWith(p: seq<byte>, u: seq<byte>, v: seq<byte>, x: seq<byte>)
    requires !Less(x, p + u) && !Less(p + v, x)
    ensures p <= x
  {
    if p != [] {
      assert (p + u)[0] == p[0] == (p + v)[0] && (p + u)[1..] == p[1..] + u && (p + v)[1..] == p[1..] + v;
      BetweenStartsWith(p[1..], u, v, x[1..]);
      assert x == [x[0]] + x[1..] && p == [p[0]] + p[1..];
    }
  }
}
