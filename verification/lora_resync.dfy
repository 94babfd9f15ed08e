/** The UART parser finds a frame behind damage. */
module LoraResync {
  import opened Bytes
  import opened Wrappers
  import opened LoraFrame
  import opened LoraStream

  /**
   * No frame can start here: there is no "AL", or the length that follows is impossible, or the whole image
   * is there and its checksums or fields are wrong.
   */
  predicate Harmless(b: seq<byte>) {
    && |b| >= 2
    && (b[0] == 65 && b[1] == 76 ==>
          && |b| >= HEADER
          && var n := HEADER + Word16(b, 54);
             n == HEADER || n > MAX_FRAME || (n <= |b| && Decode(b[..n]) == None))
  }

  lemma HarmlessIsSkipped(b: seq<byte>)
    ensures Harmless(b) <==> Judge(b).Skip?
  {
    hide Decode, Value;
  }

  /** Nothing that could be a frame starts before the end of junk. */
  ghost predicate Clear(junk: seq<byte>, wire: seq<byte>) {
    forall p :: 0 <= p < |junk| ==> Harmless((junk + wire)[p..])
  }

  lemma {:induction false} ScanFinds(junk: seq<byte>, wire: seq<byte>)
    requires Clear(junk, wire) && Decode(wire).Some?
    ensures Frames(Scan(junk + wire).pieces) == [wire] && Scan(junk + wire).rest == []
    decreases |junk|
  {
    hide Judge, Decode, Harmless;
    var b := junk + wire;
    if junk == [] {
      assert b == wire && wire[..|wire|] == wire;
      JudgeOfFrame(wire, |wire|);
      assert Scan([]) == Scanned([], []) by { NothingScanned(); }
      assert Scan(wire) == After([Framed(wire)], Scan([]));
      assert ([Framed(wire)] + [])[1..] == [];
    } else {
      assert b[0..] == b;
      HarmlessIsSkipped(b);
      assert b[1..] == junk[1..] + wire;
      forall p | 0 <= p < |junk[1..]| ensures Harmless((junk[1..] + wire)[p..]) {
        assert (junk[1..] + wire)[p..] == b[p + 1..];
      }
      ScanFinds(junk[1..], wire);
      var s, j := Scan(b[1..]), Junk(b[0], Judge(b).counted);
      assert ([j] + s.pieces)[1..] == s.pieces;
    }
  }

  lemma NothingScanned()
    ensures Scan([]) == Scanned([], [])
  {
  }

  /** As long as no frame came out, the head of the buffer waits. */
  lemma {:induction false} NoFrameMeansStay(buffer: seq<byte>, input: seq<byte>)
    requires Resting(buffer) && Judge(buffer) == Stay && Frames(FeedAll(buffer, input).pieces) == []
    ensures Judge(FeedAll(buffer, input).rest) == Stay
    decreases |input|
  {
    hide Judge, Parse, Resting;
    if input != [] {
      var one := Feed(buffer, input[0]);
      RestingHasRoom(buffer);
      FeedRests(buffer, input[0]);
      ParseStops(buffer + [input[0]]);
      FramesConcat(one.pieces, FeedAll(one.rest, input[1..]).pieces);
      NoFrameMeansStay(one.rest, input[1..]);
    }
  }

  /**
   * Behind any bytes in which no frame can start, damaged frames included, a valid frame comes out with its
   * last byte, and nothing else does.
   */
  lemma FrameBehindDamage(junk: seq<byte>, wire: seq<byte>)
    requires Clear(junk, wire) && Decode(wire).Some?
    ensures Frames(FeedAll([], junk + wire).pieces) == [wire]
  {
    hide Judge, Clear, FeedAll;
    var input := junk + wire;
    var s := FeedAll([], input);
    NothingWaits();
    ScanFinds(junk, wire);
    FeedAllRefinesScan([], input);
    assert [] + input == input;
    FramesConcat(s.pieces, Scan(s.rest).pieces);
    ScanLength(s.rest);
    if Frames(s.pieces) == [] {
      NoFrameMeansStay([], input);
    }
  }

  lemma NothingWaits()
    ensures Judge([]) == Stay && Resting([])
  {
  }

  /** A damaged image: header and length are there, but it does not decode; "AL" occurs in it only at its start. */
  ghost predicate Damaged(d: seq<byte>) {
    && HEADER < |d| <= MAX_FRAME && d[0] == 65 && HEADER + Word16(d, 54) == |d| && Decode(d) == None
    && forall p :: 0 < p < |d| ==> d[p] != 65 || (p + 1 < |d| && d[p + 1] != 76)
  }

  /** A frame right behind a damaged one is not lost. */
  lemma FrameBehindDamagedFrame(d: seq<byte>, wire: seq<byte>)
    requires Damaged(d) && Decode(wire).Some?
    ensures Frames(FeedAll([], d + wire).pieces) == [wire]
  {
    hide Decode, Value;
    DecodedShape(wire);
    forall p | 0 <= p < |d| ensures Harmless((d + wire)[p..]) {
      var b := (d + wire)[p..];
      assert b[0] == d[p];
      if p == 0 {
        assert b[54..56] == d[54..56] && b[..|d|] == d;
      } else if p + 1 < |d| {
        assert b[1] == d[p + 1];
      }
    }
    FrameBehindDamage(d, wire);
  }
}
