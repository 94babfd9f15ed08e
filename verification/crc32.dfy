/** The CRC-32 of section 8 of RFC 1952, as every C and Python endpoint computes it. */
module Crc32 {
  import opened Bytes

  const POLYNOMIAL: bv32 := 0xedb8_8320
  const ONES: bv32 := 0xffff_ffff

  function BitStep(c: bv32): bv32 {
    if c & 1 == 1 then (c >> 1) ^ POLYNOMIAL else c >> 1
  }

  function Steps(c: bv32, n: nat): bv32
    decreases n
  {
    if n == 0 then c else Steps(BitStep(c), n - 1)
  }

  function Nibble(n: int): bv4
    requires 0 <= n < 16
  {
    n as bv4
  }

  function Pair(high: bv4, low: bv4): bv8 {
    (high as bv8 << 4) | (low as bv8)
  }

  /** A byte as a bit vector, from its two nibbles: wide conversions are costly to reason about. */
  function Octet8(b: byte): bv8 {
    Pair(Nibble(b / 16), Nibble(b % 16))
  }

  function Octet(b: byte): bv32 {
    Octet8(b) as bv32
  }

  function Xor(a: bv32, b: bv32): bv32 {
    a ^ b
  }

  function Absorb(c: bv32, b: byte): bv32 {
    Steps(Xor(c, Octet(b)), 8)
  }

  function Fold(c: bv32, s: seq<byte>): bv32
    decreases s
  {
    if s == [] then c else Fold(Absorb(c, s[0]), s[1..])
  }

  function Inverted(c: bv32): u32 {
    (!c) as int
  }

  function Crc(s: seq<byte>): u32 {
    Inverted(Fold(ONES, s))
  }

  /** The branch-free step of the C sources. */
  function MaskedStep(c: bv32): bv32 {
    (c >> 1) ^ (POLYNOMIAL & (0 - (c & 1)))
  }

  lemma LowBit(c: bv32)
    ensures c & 1 == 0 || c & 1 == 1
  {
  }

  /** Subtracting the low bit from zero gives the empty or the full mask. */
  lemma Masks(x: bv32)
    ensures x ^ (POLYNOMIAL & (0 - 0)) == x
    ensures POLYNOMIAL & (0 - 1) == POLYNOMIAL
  {
  }

  lemma MaskedStepIsBitStep(c: bv32)
    ensures MaskedStep(c) == BitStep(c)
  {
    LowBit(c);
    Masks(c >> 1);
  }

  lemma {:induction false} FoldLast(c: bv32, s: seq<byte>)
    requires s != []
    ensures Fold(c, s) == Absorb(Fold(c, s[..|s| - 1]), s[|s| - 1])
    decreases s
  {
    hide Absorb;
    if |s| > 1 {
      FoldLast(Absorb(c, s[0]), s[1..]);
      assert s[..|s| - 1][1..] == s[1..][..|s| - 2];
    }
  }

  lemma {:induction false} StepsLast(c: bv32, n: nat)
    ensures Steps(c, n + 1) == BitStep(Steps(c, n))
    decreases n
  {
    if n > 0 {
      StepsLast(BitStep(c), n - 1);
    }
  }

  /** Both nested loops of al_crc32, over n bytes from p[at]. */
  method AlCrc32(p: array<byte>, at: nat, n: nat) returns (crc: u32)
    requires at + n <= p.Length
    ensures crc == Crc(p[at..at + n])
  {
    hide BitStep, MaskedStep, Xor, Octet, Inverted;
    var c := ONES;
    for i := 0 to n
      invariant c == Fold(ONES, p[at..at + i])
    {
      var start := Xor(c, Octet(p[at + i]));
      c := start;
      for b := 0 to 8
        invariant c == Steps(start, b)
      {
        MaskedStepIsBitStep(c);
        StepsLast(start, b);
        c := MaskedStep(c);
      }
      FoldLast(ONES, p[at..at + i + 1]);
      assert p[at..at + i + 1][..i] == p[at..at + i];
    }
    crc := Inverted(c);
  }

  // ---- the step is a linear bijection -------------------------------------------------------

  function UnStep(d: bv32): bv32 {
    if d & 0x8000_0000 != 0 then ((d ^ POLYNOMIAL) << 1) | 1 else d << 1
  }

  lemma UnStepUndoes(c: bv32)
    ensures UnStep(BitStep(c)) == c
  {
  }

  lemma {:induction false} StepsInjective(a: bv32, b: bv32, n: nat)
    requires Steps(a, n) == Steps(b, n)
    ensures a == b
    decreases n
  {
    if n > 0 {
      StepsInjective(BitStep(a), BitStep(b), n - 1);
      UnStepUndoes(a);
      UnStepUndoes(b);
    }
  }

  lemma XorOfSum(x: bv32, y: bv32, p: bv32)
    ensures (x ^ p) ^ (y ^ p) == x ^ y
    ensures (x ^ y) ^ p == (x ^ p) ^ y == x ^ (y ^ p)
  {
  }

  lemma ShiftLaws(a: bv32, b: bv32)
    ensures (a ^ b) & 1 == (a & 1) ^ (b & 1)
    ensures (a ^ b) >> 1 == (a >> 1) ^ (b >> 1)
    ensures a & 1 == 0 || a & 1 == 1
  {
  }

  lemma StepOfXor(a: bv32, b: bv32)
    ensures BitStep(a ^ b) == BitStep(a) ^ BitStep(b)
  {
    ShiftLaws(a, b);
    ShiftLaws(b, a);
    XorOfSum(a >> 1, b >> 1, POLYNOMIAL);
  }

  lemma BitStepLinear(a: bv32, b: bv32)
    ensures BitStep(Xor(a, b)) == Xor(BitStep(a), BitStep(b))
  {
    hide BitStep;
    StepOfXor(a, b);
  }

  lemma {:induction false} StepsLinear(a: bv32, b: bv32, n: nat)
    ensures Steps(Xor(a, b), n) == Xor(Steps(a, n), Steps(b, n))
    decreases n
  {
    hide BitStep, Xor;
    if n > 0 {
      BitStepLinear(a, b);
      StepsLinear(BitStep(a), BitStep(b), n - 1);
    }
  }

  lemma {:induction false} StepsCompose(c: bv32, m: nat, n: nat)
    ensures Steps(c, m + n) == Steps(Steps(c, m), n)
    decreases m
  {
    if m > 0 {
      StepsCompose(BitStep(c), m - 1, n);
    }
  }

  lemma EightSteps(c: bv32)
    ensures Steps(c, 8) ==
            BitStep(BitStep(BitStep(BitStep(BitStep(BitStep(BitStep(BitStep(c))))))))
  {
    StepsLast(c, 7); StepsLast(c, 6); StepsLast(c, 5); StepsLast(c, 4);
    StepsLast(c, 3); StepsLast(c, 2); StepsLast(c, 1); StepsLast(c, 0);
  }

  // ---- up to four bytes enter the register as one word --------------------------------------

  function Up(x: bv32): bv32 {
    x << 8
  }

  function Down(x: bv32): bv32 {
    x >> 8
  }

  function LowByte(x: bv32): bv32 {
    x & 0xff
  }

  function Join(low: bv32, high: bv32): bv32 {
    Xor(low, Up(high))
  }

  lemma EmptyLowByte(x: bv32)
    requires LowByte(x) == 0
    ensures BitStep(BitStep(BitStep(BitStep(BitStep(BitStep(BitStep(BitStep(x)))))))) == Down(x)
  {
  }

  lemma LowByteShifts(x: bv32)
    requires LowByte(x) == 0
    ensures Steps(x, 8) == Down(x)
  {
    hide BitStep, LowByte, Down;
    EightSteps(x);
    EmptyLowByte(x);
  }

  function Word(s: seq<byte>): bv32 {
    if s == [] then 0 else Join(Octet(s[0]), Word(s[1..]))
  }

  lemma NibbleValue(n: int)
    requires 0 <= n < 16
    ensures Nibble(n) as int == n
  {
  }

  lemma NibbleInjective(m: int, n: int)
    requires 0 <= m < 16 && 0 <= n < 16 && Nibble(m) == Nibble(n)
    ensures m == n
  {
    hide Nibble;
    NibbleValue(m);
    NibbleValue(n);
  }

  lemma PairInjective(a: bv4, b: bv4, c: bv4, d: bv4)
    requires Pair(a, b) as bv32 == Pair(c, d) as bv32
    ensures a == c && b == d
  {
  }

  lemma OctetInjective(a: byte, b: byte)
    requires Octet(a) == Octet(b)
    ensures a == b
  {
    hide Pair, Nibble;
    PairInjective(Nibble(a / 16), Nibble(a % 16), Nibble(b / 16), Nibble(b % 16));
    NibbleInjective(a / 16, b / 16);
    NibbleInjective(a % 16, b % 16);
  }

  lemma JoinLow(low: bv8, high: bv32)
    ensures LowByte(Join(low as bv32, high)) == low as bv32
  {
  }

  lemma JoinHigh(low: bv8, high: bv32)
    requires high <= 0xff_ffff
    ensures Down(Join(low as bv32, high)) == high
  {
  }

  lemma UpDown(x: bv32)
    requires x <= 0xff_ffff
    ensures LowByte(Up(x)) == 0 && Down(Up(x)) == x
  {
  }

  lemma JoinBound(low: bv8, high: bv32)
    ensures high <= 0xffff ==> Join(low as bv32, high) <= 0xff_ffff
    ensures high <= 0xff ==> Join(low as bv32, high) <= 0xffff
    ensures high == 0 ==> Join(low as bv32, high) <= 0xff
  {
  }

  lemma {:induction false} WordBound(s: seq<byte>)
    requires |s| <= 3
    ensures Word(s) <= 0xff_ffff
    ensures |s| <= 2 ==> Word(s) <= 0xffff
    ensures |s| <= 1 ==> Word(s) <= 0xff
    ensures |s| == 0 ==> Word(s) == 0
  {
    hide Join;
    if s != [] {
      WordBound(s[1..]);
      JoinBound(Octet8(s[0]), Word(s[1..]));
    }
  }

  lemma JoinInjective(a: bv8, x: bv32, b: bv8, y: bv32)
    requires x <= 0xff_ffff && y <= 0xff_ffff && Join(a as bv32, x) == Join(b as bv32, y)
    ensures a == b && x == y
  {
    hide Join, LowByte, Down;
    JoinLow(a, x);
    JoinLow(b, y);
    JoinHigh(a, x);
    JoinHigh(b, y);
  }

  lemma {:induction false} WordInjective(v: seq<byte>, w: seq<byte>)
    requires |v| == |w| <= 4 && Word(v) == Word(w)
    ensures v == w
  {
    hide Join, Octet8;
    if v != [] {
      WordBound(v[1..]);
      WordBound(w[1..]);
      JoinInjective(Octet8(v[0]), Word(v[1..]), Octet8(w[0]), Word(w[1..]));
      OctetInjective(v[0], w[0]);
      WordInjective(v[1..], w[1..]);
      assert v == [v[0]] + v[1..] && w == [w[0]] + w[1..];
    }
  }

  lemma XorAssociative(c: bv32, low: bv32, high: bv32)
    ensures Xor(c, Xor(low, high)) == Xor(Xor(c, low), high)
  {
  }

  lemma XorLaws(x: bv32, y: bv32, p: bv32)
    ensures Xor(x, 0) == x
    ensures Xor(x, p) == Xor(y, p) ==> x == y
    ensures Xor(p, x) == Xor(p, y) ==> x == y
  {
  }

  lemma {:induction false} FoldIsWordStep(c: bv32, s: seq<byte>)
    requires |s| <= 4
    ensures Fold(c, s) == Steps(Xor(c, Word(s)), 8 * |s|)
    decreases s
  {
    hide BitStep, Xor, Up, Down, LowByte;
    if s == [] {
      XorLaws(c, c, c);
    } else {
      var low, rest := Octet(s[0]), Word(s[1..]);
      WordBound(s[1..]);
      UpDown(rest);
      XorAssociative(c, low, Up(rest));
      StepsLinear(Xor(c, low), Up(rest), 8);
      LowByteShifts(Up(rest));
      assert Steps(Xor(c, Word(s)), 8) == Xor(Absorb(c, s[0]), rest);
      StepsCompose(Xor(c, Word(s)), 8, 8 * |s[1..]|);
      FoldIsWordStep(Absorb(c, s[0]), s[1..]);
    }
  }

  lemma {:induction false} FoldConcat(c: bv32, s: seq<byte>, t: seq<byte>)
    ensures Fold(c, s + t) == Fold(Fold(c, s), t)
    decreases s
  {
    hide Absorb;
    if s == [] {
      assert s + t == t;
    } else {
      assert (s + t)[1..] == s[1..] + t;
      FoldConcat(Absorb(c, s[0]), s[1..], t);
    }
  }

  lemma {:induction false} FoldInjective(a: bv32, b: bv32, s: seq<byte>)
    requires Fold(a, s) == Fold(b, s)
    ensures a == b
    decreases s
  {
    hide BitStep, Xor;
    if s != [] {
      FoldInjective(Absorb(a, s[0]), Absorb(b, s[0]), s[1..]);
      StepsInjective(Xor(a, Octet(s[0])), Xor(b, Octet(s[0])), 8);
      XorLaws(a, b, Octet(s[0]));
    }
  }

  lemma AsIntInjective(a: bv32, b: bv32)
    requires a as int == b as int
    ensures a == b
  {
    assert (a as int) as bv32 == a;
  }

  lemma NotInjective(a: bv32, b: bv32)
    requires !a == !b
    ensures a == b
  {
  }

  lemma InvertedInjective(a: bv32, b: bv32)
    requires Inverted(a) == Inverted(b)
    ensures a == b
  {
    AsIntInjective(!a, !b);
    NotInjective(a, b);
  }

  /** Replacing at most four consecutive bytes by different ones always changes the checksum. */
  lemma BurstChangesCrc(before: seq<byte>, v: seq<byte>, w: seq<byte>, after: seq<byte>)
    requires |v| == |w| <= 4 && v != w
    ensures Crc(before + v + after) != Crc(before + w + after)
  {
    hide Absorb, BitStep, Xor, Join, Inverted;
    var c := Fold(ONES, before);
    FoldConcat(ONES, before + v, after);
    FoldConcat(ONES, before + w, after);
    FoldConcat(ONES, before, v);
    FoldConcat(ONES, before, w);
    if Crc(before + v + after) == Crc(before + w + after) {
      InvertedInjective(Fold(ONES, before + v + after), Fold(ONES, before + w + after));
      FoldInjective(Fold(c, v), Fold(c, w), after);
      FoldIsWordStep(c, v);
      FoldIsWordStep(c, w);
      StepsInjective(Xor(c, Word(v)), Xor(c, Word(w)), 8 * |v|);
      XorLaws(Word(v), Word(w), c);
      WordInjective(v, w);
    }
  }

  // ---- the check value -------------------------------------------------------------------------------------

  /** The register before and after each digit of the string "123456789". */
  const REGISTERS: seq<bv32> :=
    [0xffff_ffff, 0x7c23_1048, 0xb0ac_bb32, 0x77b7_9c2d, 0x641c_1f5c,
     0x340a_c5e3, 0xf68d_2c9e, 0xaffc_9660, 0x651f_2550, 0x340b_c6d9]

  lemma DigitOctet(k: nat)
    requires k < 9
    ensures Octet(49 + k) == [0x31, 0x32, 0x33, 0x34, 0x35, 0x36, 0x37, 0x38, 0x39][k]
  {
  }

  lemma DigitStep(k: nat)
    requires k < 9
    ensures Absorb(REGISTERS[k], 49 + k) == REGISTERS[k + 1]
  {
    hide Octet;
    DigitOctet(k);
    EightSteps(Xor(REGISTERS[k], Octet(49 + k)));
  }

  function Digits(k: nat): seq<byte>
    requires k <= 9
  {
    seq(k, i requires 0 <= i < 9 => 49 + i)
  }

  lemma {:induction false} DigitsFold(k: nat)
    requires k <= 9
    ensures Fold(ONES, Digits(k)) == REGISTERS[k]
  {
    hide Absorb;
    if k > 0 {
      DigitsFold(k - 1);
      FoldLast(ONES, Digits(k));
      assert Digits(k)[..k - 1] == Digits(k - 1);
      DigitStep(k - 1);
    }
  }

  /** The catalogued check value of this CRC: the string "123456789" gives cbf43926. */
  lemma CheckValue()
    ensures Crc([49, 50, 51, 52, 53, 54, 55, 56, 57]) == 0xcbf4_3926
  {
    hide Fold;
    DigitsFold(9);
    assert Digits(9) == [49, 50, 51, 52, 53, 54, 55, 56, 57];
    assert !REGISTERS[9] == 0xcbf4_3926;
  }
}
