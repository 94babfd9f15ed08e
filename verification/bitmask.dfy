/** A 64-bit mask as the set of its one bits. */
module Bitmask {
  function At(i: nat): bv6
    requires i < 64
  {
    i as bv6
  }

  /** Shifts by a full-width amount are cheaper to reason about. */
  function Wide(k: bv6): bv64 {
    k as bv64
  }

  function One(k: bv6): bv64 {
    (1 as bv64) << Wide(k)
  }

  function With(m: bv64, k: bv6): bv64 {
    m | One(k)
  }

  predicate Tests(m: bv64, k: bv6) {
    m & One(k) != 0
  }

  function Half(x: bv64): bv64 {
    x >> 1
  }

  predicate Odd(x: bv64) {
    x & 1 == 1
  }

  function Slide(m: bv64, w: bv64): bv64
    requires w < 64
  {
    m >> w
  }

  function Down(m: bv64, k: bv6): bv64 {
    Slide(m, Wide(k))
  }

  predicate Bit(m: bv64, k: bv6) {
    Odd(Down(m, k))
  }

  predicate Has(m: bv64, i: nat) {
    i < 64 && Bit(m, At(i))
  }

  /** Indices whose bit is set. */
  function Bits(m: bv64): (s: set<nat>)
    ensures forall i: nat :: i in s <==> Has(m, i)
  {
    set i: nat | i < 64 && Has(m, i)
  }

  function Below(n: nat): (s: set<nat>)
    ensures forall i: nat :: i in s <==> i < n
    ensures |s| == n
  {
    if n == 0 then {} else
      var t := Below(n - 1);
      assert n - 1 !in t;
      t + {n - 1}
  }

  function First(c: bv6): bv64 {
    One(c) - 1
  }

  /** Mask of the first count bits, with the special case the shift cannot express. */
  function All(count: nat): bv64
    requires count <= 64
  {
    if count == 64 then 0xffff_ffff_ffff_ffff else First(At(count))
  }

  lemma AtValue(i: nat)
    requires i < 64
    ensures At(i) as int == i
  {
  }

  lemma IndexOrder(x: bv6, y: bv6)
    ensures x < y <==> x as int < y as int
    ensures x == y <==> x as int == y as int
  {
  }

  lemma NextIndex(x: bv6)
    requires x < 63
    ensures (x + 1) as int == x as int + 1
  {
  }

  lemma AtOrder(i: nat, j: nat)
    requires i < 64 && j < 64
    ensures At(i) == At(j) <==> i == j
    ensures At(i) < At(j) <==> i < j
  {
    hide At;
    AtValue(i);
    AtValue(j);
    IndexOrder(At(i), At(j));
  }

  lemma BitOfUnion(m: bv64, i: bv6, j: bv6)
    ensures Bit(With(m, i), j) <==> i == j || Bit(m, j)
  {
    if i == j {
      OwnBit(m, i);
    } else {
      OtherBit(m, i, j);
    }
  }

  lemma OwnBit(m: bv64, i: bv6)
    ensures ((m | ((1 as bv64) << Wide(i))) >> Wide(i)) & 1 == 1
  {
  }

  lemma OtherBit(m: bv64, i: bv6, j: bv6)
    requires i != j
    ensures ((m | ((1 as bv64) << Wide(i))) >> Wide(j)) & 1 == (m >> Wide(j)) & 1
  {
  }

  lemma BitTest(m: bv64, i: bv6)
    ensures Tests(m, i) <==> Bit(m, i)
  {
  }

  lemma BitOfAll(c: bv6, j: bv6)
    ensures Bit(First(c), j) <==> j < c
    ensures Bit(0xffff_ffff_ffff_ffff, j)
    ensures !Bit(0, j)
  {
  }

  lemma Halves(x: bv64, y: bv64)
    requires Half(x) == Half(y) && (Odd(x) <==> Odd(y))
    ensures x == y
  {
  }

  /** Setting and testing a bit are insertion and membership. */
  lemma SetBit(m: bv64, i: nat)
    requires i < 64
    ensures Bits(With(m, At(i))) == Bits(m) + {i}
    ensures Tests(m, At(i)) <==> i in Bits(m)
  {
    hide Bit, One, At, With, Tests;
    BitTest(m, At(i));
    forall j: nat ensures Has(With(m, At(i)), j) <==> Has(m, j) || i == j {
      if j < 64 {
        AtOrder(i, j);
        BitOfUnion(m, At(i), At(j));
      }
    }
  }

  lemma NoBits()
    ensures Bits(0) == {}
  {
    hide Bit, At;
    forall j: nat | j < 64 ensures !Has(0, j) {
      BitOfAll(0, At(j));
    }
  }

  lemma AllBits(count: nat)
    requires count <= 64
    ensures Bits(All(count)) == Below(count)
  {
    hide Bit, First, At;
    forall j: nat | j < 64 ensures Has(All(count), j) <==> j < count {
      if count < 64 {
        AtOrder(j, count);
        BitOfAll(At(count), At(j));
      } else {
        BitOfAll(0, At(j));
      }
    }
  }

  function Shifted(m: bv64, k: nat): bv64
    requires k <= 64
  {
    if k == 64 then 0 else Down(m, At(k))
  }

  lemma ShiftedStep(m: bv64, k: nat)
    requires k < 64
    ensures Half(Shifted(m, k)) == Shifted(m, k + 1)
    ensures Odd(Shifted(m, k)) <==> Has(m, k)
  {
    hide At, Half, Odd, Down;
    AtValue(k);
    if k < 63 {
      AtNext(k);
      ShiftTwice(m, At(k));
    } else {
      AtLast();
      ShiftOut(m);
    }
  }

  lemma AtLast()
    ensures At(63) == 63
  {
  }

  lemma AtNext(k: nat)
    requires k < 63
    ensures At(k) < 63 && At(k + 1) == At(k) + 1
  {
    hide At;
    AtValue(k);
    AtValue(k + 1);
    AtLast();
    AtOrder(k, 63);
    NextIndex(At(k));
    IndexOrder(At(k + 1), At(k) + 1);
  }

  lemma ShiftTwice(m: bv64, a: bv6)
    requires a < 63
    ensures Half(Down(m, a)) == Down(m, a + 1)
  {
    hide Wide, Half, Slide;
    WideNext(a);
    SlideTwice(m, Wide(a));
  }

  lemma WideNext(a: bv6)
    requires a < 63
    ensures Wide(a) < 63 && Wide(a + 1) == Wide(a) + 1
  {
  }

  lemma SlideTwice(m: bv64, a: bv64)
    requires a < 63
    ensures Half(Slide(m, a)) == Slide(m, a + 1)
  {
    hide Half, Slide;
    var b := a >> 1;
    EvenOrOdd(a);
    if a == 2 * b {
      AfterEven(m, b);
    } else {
      AfterOdd(m, b);
    }
  }

  lemma EvenOrOdd(a: bv64)
    requires a < 63
    ensures (a == 2 * (a >> 1) && a >> 1 < 32) || (a == 2 * (a >> 1) + 1 && a >> 1 < 31)
  {
  }

  lemma AfterEven(m: bv64, b: bv64)
    requires b < 32
    ensures Half(Slide(m, 2 * b)) == Slide(m, 2 * b + 1)
  {
  }

  lemma AfterOdd(m: bv64, b: bv64)
    requires b < 31
    ensures Half(Slide(m, 2 * b + 1)) == Slide(m, 2 * b + 2)
  {
  }

  lemma ShiftOut(m: bv64)
    ensures Half(Down(m, 63)) == 0
  {
  }

  lemma {:induction false} SameFrom(m: bv64, n: bv64, k: nat)
    requires k <= 64 && forall i :: k <= i < 64 ==> (Has(m, i) <==> Has(n, i))
    ensures Shifted(m, k) == Shifted(n, k)
    decreases 64 - k
  {
    hide Shifted, Has, Half, Odd;
    if k == 64 {
      ShiftedEnd(m);
      ShiftedEnd(n);
    } else {
      SameFrom(m, n, k + 1);
      ShiftedStep(m, k);
      ShiftedStep(n, k);
      Halves(Shifted(m, k), Shifted(n, k));
    }
  }

  lemma ShiftedEnd(m: bv64)
    ensures Shifted(m, 64) == 0
  {
  }

  lemma ShiftedStart(m: bv64)
    ensures Shifted(m, 0) == m
  {
  }

  /** A mask is determined by its bits, so comparing with All is comparing with the full index set. */
  lemma FullMask(m: bv64, count: nat)
    requires count <= 64 && Bits(m) <= Below(count)
    ensures m == All(count) <==> |Bits(m)| == count
  {
    hide All, Has, Shifted;
    AllBits(count);
    if |Bits(m)| == count {
      SubsetOfSameSize(Bits(m), Below(count));
      SameFrom(m, All(count), 0);
      ShiftedStart(m);
      ShiftedStart(All(count));
    }
  }

  lemma {:induction false} SubsetOfSameSize(a: set<nat>, b: set<nat>)
    requires a <= b && |a| == |b|
    ensures a == b
  {
    if x :| x in b && x !in a {
      SubsetSize(a, b - {x});
    }
  }

  lemma {:induction false} SubsetSize<T>(a: set<T>, b: set<T>)
    requires a <= b
    ensures |a| <= |b|
  {
    if a != {} {
      var x :| x in a;
      SubsetSize(a - {x}, b - {x});
    }
  }
}
