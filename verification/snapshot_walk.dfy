/** One walk over a list of fields that writes them or reads them, as the snapshot cursor does. */
module SnapshotWalk {
  import opened Bytes

  /** A field on the wire: an unsigned number up to a maximum, a C int in a range, or a finite float. */
  datatype Kind = Num(width: nat, max: nat) | Int(low: int, high: int) | Real(width: nat)

  const INT_MAX := 0x7fff_ffff

  function Width(k: Kind): nat {
    match k case Num(width, _) => width case Int(_, _) => 4 case Real(width) => width
  }

  /** The int a 32-bit word stands for. */
  function Signed(v: nat): int {
    if v <= INT_MAX then v else v - 0x1_0000_0000
  }

  /** IEEE 754: an exponent of ones is an infinity or no number. */
  predicate Finite(width: nat, v: nat) {
    if width == 4 then v / 0x80_0000 % 256 != 255 else v / 0x10_0000_0000_0000 % 2048 != 2047
  }

  /** Without its sign a finite number lies below the encoding of infinity. */
  lemma FiniteMeans(v: nat)
    ensures v < 0x1_0000_0000 ==> (Finite(4, v) <==> v % 0x8000_0000 < 0x7f80_0000)
    ensures v < 0x1_0000_0000_0000_0000 ==> (Finite(8, v) <==> v % 0x8000_0000_0000_0000 < 0x7ff0_0000_0000_0000)
  {
  }

  /** Whether a field of the kind may hold the word v, in either direction. */
  predicate Accepts(k: Kind, v: nat) {
    && v < Pow256(Width(k))
    && match k
       case Num(_, max) => v <= max
       case Int(low, high) => low <= Signed(v) <= high
       case Real(width) => Finite(width, v)
  }

  predicate AllAccepted(shape: seq<Kind>, values: seq<nat>) {
    |values| == |shape| && forall i :: 0 <= i < |shape| ==> Accepts(shape[i], values[i])
  }

  /** Total width; the walk functions follow the last field, as a cursor meets it. */
  function Size(shape: seq<Kind>): nat {
    if shape == [] then 0 else Size(shape[..|shape| - 1]) + Width(shape[|shape| - 1])
  }

  /** The fields one after the other, least significant byte first. */
  function Written(shape: seq<Kind>, values: seq<nat>): (s: seq<byte>)
    requires |values| == |shape|
    ensures |s| == Size(shape)
  {
    if shape == [] then []
    else
      var n := |shape| - 1;
      Written(shape[..n], values[..n]) + Le(values[n], Width(shape[n]))
  }

  function Read(shape: seq<Kind>, s: seq<byte>): (values: seq<nat>)
    requires |s| >= Size(shape)
    ensures |values| == |shape|
  {
    if shape == [] then []
    else
      var n := |shape| - 1;
      Read(shape[..n], s) + [Value(s[Size(shape[..n])..Size(shape)])]
  }

  /** What was written is read back, whatever follows it. */
  lemma {:induction false} ReadOfWritten(shape: seq<Kind>, values: seq<nat>, rest: seq<byte>)
    requires AllAccepted(shape, values)
    ensures Read(shape, Written(shape, values) + rest) == values
    decreases |shape|
  {
    hide Accepts, Le, Value, Width;
    if shape != [] {
      var n := |shape| - 1;
      var last := Le(values[n], Width(shape[n]));
      var front := Written(shape[..n], values[..n]);
      FitsWidth(shape[n], values[n]);
      ValueOfLe(values[n], Width(shape[n]));
      ReadOfWritten(shape[..n], values[..n], last + rest);
      assert front + last + rest == front + (last + rest);
      assert (front + (last + rest))[|front|..|front| + |last|] == last;
    }
  }

  lemma FitsWidth(k: Kind, v: nat)
    requires Accepts(k, v)
    ensures v < Pow256(Width(k))
  {
  }

  /** What was read is written back as the same bytes. */
  lemma {:induction false} WrittenOfRead(shape: seq<Kind>, s: seq<byte>)
    requires |s| >= Size(shape)
    ensures Written(shape, Read(shape, s)) == s[..Size(shape)]
    decreases |shape|
  {
    hide Le, Value, Width;
    if shape != [] {
      var n := |shape| - 1;
      WrittenOfRead(shape[..n], s);
      LeOfValue(s[Size(shape[..n])..Size(shape)]);
      assert Read(shape, s)[..n] == Read(shape[..n], s);
    }
  }

  lemma {:induction false} SizeJoins(a: seq<Kind>, b: seq<Kind>)
    ensures Size(a + b) == Size(a) + Size(b)
    decreases |b|
  {
    hide Width;
    if b == [] {
      assert a + b == a;
    } else {
      var n := |b| - 1;
      assert (a + b)[..|a + b| - 1] == a + b[..n];
      SizeJoins(a, b[..n]);
    }
  }

  lemma {:induction false} PrefixFits(shape: seq<Kind>, n: nat)
    requires n <= |shape|
    ensures Size(shape[..n]) <= Size(shape)
    decreases |shape|
  {
    hide Width;
    if n < |shape| {
      PrefixFits(shape[..|shape| - 1], n);
      assert shape[..|shape| - 1][..n] == shape[..n];
    } else {
      assert shape[..n] == shape;
    }
  }

  /** The fields read so far are a prefix of the fields read in all. */
  lemma {:induction false} ReadPrefix(shape: seq<Kind>, s: seq<byte>, n: nat)
    requires n <= |shape| && Size(shape) <= |s|
    ensures Size(shape[..n]) <= |s| && Read(shape, s)[..n] == Read(shape[..n], s)
    decreases |shape|
  {
    hide Width, Value;
    if n < |shape| {
      var m := |shape| - 1;
      ReadPrefix(shape[..m], s, n);
      assert shape[..m][..n] == shape[..n];
      assert Read(shape, s)[..n] == Read(shape[..m], s)[..n];
    } else {
      assert shape[..n] == shape;
    }
  }

  /** The cursor: a buffer with a position, reading or writing, and a flag that never comes back. */
  class Cursor {
    const buffer: array<byte>
    const reading: bool
    const limit: nat
    var at: nat
    var ok: bool

    constructor (buffer: array<byte>, reading: bool, limit: nat)
      requires limit <= buffer.Length
      ensures this.buffer == buffer && this.reading == reading && this.limit == limit && at == 0 && ok
    {
      this.buffer, this.reading, this.limit, at, ok := buffer, reading, limit, 0, true;
    }

    /** word(): n bytes from the buffer, or v into it. */
    method Word(v: nat, n: nat) returns (r: nat)
      requires at <= limit <= buffer.Length
      modifies this`at, this`ok, buffer
      ensures at <= limit && (ok <==> old(ok) && old(at) + n <= limit)
      ensures ok ==> at == old(at) + n
      ensures !ok ==> r == 0 && at == old(at)
      ensures ok && reading ==> r == Value(old(buffer[..])[old(at)..at]) && buffer[..] == old(buffer[..])
      ensures ok && !reading ==> r == v && buffer[..] == Patch(old(buffer[..]), old(at), Le(v, n))
      ensures !ok ==> buffer[..] == old(buffer[..])
    {
      hide Patch, Le;
      if !ok || n > limit - at {
        ok := false;
        return 0;
      }
      if reading {
        r := 0;
        var i := n;
        while i > 0
          invariant 0 <= i <= n && r == Value(buffer[at + i..at + n])
        {
          i := i - 1;
          assert buffer[at + i..at + n][1..] == buffer[at + i + 1..at + n];
          r := buffer[at + i] as int + 256 * r;
        }
        assert buffer[at..at + n] == buffer[..][at..at + n];
      } else {
        PutLe(buffer, at, v, n);
        r := v;
      }
      at := at + n;
    }

    /** A walk over fields: the same calls in both directions, each followed by its check. */
    method Walk(shape: seq<Kind>, values: seq<nat>) returns (result: seq<nat>)
      requires |values| == |shape| && at <= limit <= buffer.Length
      modifies this`at, this`ok, buffer
      ensures |result| == |shape| && at <= limit
      ensures var fits := old(at) + Size(shape) <= limit;
              var walked := if reading then (if fits then Read(shape, old(buffer[..])[old(at)..]) else []) else values;
              && (ok <==> old(ok) && fits && AllAccepted(shape, walked))
              && (ok ==> result == walked && at == old(at) + Size(shape))
      ensures ok && !reading ==> buffer[..] == Patch(old(buffer[..]), old(at), Written(shape, values))
      ensures reading ==> buffer[..] == old(buffer[..])
    {
      hide Accepts, Patch, Le, Value, Size, Read, Written, Width;
      result := [];
      ghost var was, start, started := buffer[..], at, ok;
      WalkStarts(shape, values, was, start);
      var i := 0;
      while i < |shape|
        invariant i <= |shape| == |values| && |result| == i && at <= limit
        invariant reading ==> buffer[..] == was
        invariant ok ==> started && at == start + Size(shape[..i]) && AllAccepted(shape[..i], result)
        invariant ok && reading ==> result == Read(shape[..i], was[start..])
        invariant ok && !reading ==>
                  result == values[..i] && buffer[..] == Patch(was, start, Written(shape[..i], values[..i]))
        invariant !ok ==> !started || start + Size(shape) > limit
                          || !AllAccepted(shape, if reading then Read(shape, was[start..]) else values)
      {
        NextField(shape, i);
        ghost var before := buffer[..];
        var r := Word(values[i], Width(shape[i]));
        if ok {
          if reading {
            ReadNext(shape, was, start, i);
            if start + Size(shape) <= |was| {
              ReadPrefix(shape, was[start..], i + 1);
            }
          } else {
            WriteNext(was, start, shape, values, i);
          }
        }
        if !Accepts(shape[i], r) {
          ok := false;
        }
        result := result + [r];
        assert shape[..i + 1] == shape[..i] + [shape[i]];
        i := i + 1;
      }
      assert shape[..|shape|] == shape && values[..|shape|] == values;
    }
  }

  lemma WalkStarts(shape: seq<Kind>, values: seq<nat>, was: seq<byte>, start: nat)
    requires start <= |was| && |values| == |shape|
    ensures Size(shape[..0]) == 0 && Read(shape[..0], was[start..]) == []
    ensures Patch(was, start, Written(shape[..0], values[..0])) == was
  {
  }

  lemma PartOfTail(s: seq<byte>, start: nat, m: nat, n: nat)
    requires start + m + n <= |s|
    ensures s[start..][m..m + n] == s[start + m..start + m + n]
  {
  }

  /** One field more: its place, its reading, its writing. */
  lemma NextField(shape: seq<Kind>, i: nat)
    requires i < |shape|
    ensures Size(shape[..i + 1]) == Size(shape[..i]) + Width(shape[i]) && Size(shape[..i + 1]) <= Size(shape)
  {
    hide Width;
    assert shape[..i + 1][..i] == shape[..i];
    PrefixFits(shape, i + 1);
  }

  lemma ReadNext(shape: seq<Kind>, was: seq<byte>, start: nat, i: nat)
    requires i < |shape| && start + Size(shape[..i + 1]) <= |was|
    ensures Size(shape[..i + 1]) == Size(shape[..i]) + Width(shape[i])
    ensures var at := start + Size(shape[..i]);
            Read(shape[..i + 1], was[start..]) ==
                Read(shape[..i], was[start..]) + [Value(was[at..at + Width(shape[i])])]
  {
    hide Width, Value;
    assert shape[..i + 1][..i] == shape[..i];
    PartOfTail(was, start, Size(shape[..i]), Width(shape[i]));
  }

  lemma WriteNext(was: seq<byte>, start: nat, shape: seq<Kind>, values: seq<nat>, i: nat)
    requires i < |shape| == |values| && start + Size(shape[..i + 1]) <= |was|
    ensures Size(shape[..i + 1]) == Size(shape[..i]) + Width(shape[i])
    ensures Patch(Patch(was, start, Written(shape[..i], values[..i])), start + Size(shape[..i]),
            Le(values[i], Width(shape[i])))
            == Patch(was, start, Written(shape[..i + 1], values[..i + 1]))
  {
    hide Le, Width, Patch;
    assert shape[..i + 1][..i] == shape[..i] && values[..i + 1][..i] == values[..i];
    PatchJoins(was, start, Written(shape[..i], values[..i]), Le(values[i], Width(shape[i])));
  }
}
