/** The resynchronising UART parser: one byte per call, at most one frame out per call. */
module LoraStream {
  import opened Bytes
  import opened Wrappers
  import opened LoraFrame

  /** What became of consumed input: a discarded byte (counted as rejected or not) or a frame. */
  datatype Piece = Junk(b: byte, counted: bool) | Framed(wire: seq<byte>)

  datatype Scanned = Scanned(pieces: seq<Piece>, rest: seq<byte>)

  function After(p: seq<Piece>, s: Scanned): Scanned {
    Scanned(p + s.pieces, s.rest)
  }

  lemma AfterLaws(p: seq<Piece>, q: seq<Piece>, s: Scanned)
    ensures After(p, After(q, s)) == After(p + q, s)
    ensures After([], s) == s
  {
    assert p + (q + s.pieces) == p + q + s.pieces;
  }

  /** What the head of a buffer calls for. */
  datatype Verdict = Stay | Skip(counted: bool) | Take(n: nat)

  function Judge(b: seq<byte>): (v: Verdict)
    ensures v.Skip? ==> |b| >= 2
    ensures v.Take? ==> HEADER < v.n <= |b| && v.n <= MAX_FRAME
  {
    if |b| < 2 then Stay
    else if b[0] != 65 || b[1] != 76 then Skip(false)
    else if |b| < HEADER then Stay
    else
      var n := HEADER + Word16(b, 54);
      if n <= HEADER || n > MAX_FRAME then Skip(true)
      else if |b| < n then Stay
      else if Decode(b[..n]) == None then Skip(true)
      else Take(n)
  }

  /** One pass of the parser loop: discard until the head must wait or is a frame. */
  function Parse(b: seq<byte>): (s: Scanned)
    ensures |s.rest| <= |b|
    decreases |b|
  {
    match Judge(b)
    case Stay => Scanned([], b)
    case Skip(counted) =>
      After([Junk(b[0], counted)], Parse(b[1..]))
    case Take(n) => Scanned([Framed(b[..n])], b[n..])
  }

  /** The greedy batch scanner over a whole input. */
  function Scan(b: seq<byte>): Scanned
    decreases |b|
  {
    match Judge(b)
    case Stay => Scanned([], b)
    case Skip(counted) =>
      After([Junk(b[0], counted)], Scan(b[1..]))
    case Take(n) =>
      After([Framed(b[..n])], Scan(b[n..]))
  }

  /** The buffer after one more byte; a full buffer first loses its oldest byte. */
  function Feed(buffer: seq<byte>, b: byte): Scanned {
    if |buffer| == MAX_FRAME then
      After([Junk(buffer[0], true)], Parse(buffer[1..] + [b]))
    else
      Parse(buffer + [b])
  }

  function FeedAll(buffer: seq<byte>, input: seq<byte>): Scanned
    decreases |input|
  {
    if input == [] then Scanned([], buffer)
    else
      var s := Feed(buffer, input[0]);
      After(s.pieces, FeedAll(s.rest, input[1..]))
  }

  function Flatten(pieces: seq<Piece>): seq<byte> {
    if pieces == [] then []
    else (match pieces[0] case Junk(b, _) => [b] case Framed(w) => w) + Flatten(pieces[1..])
  }

  function Frames(pieces: seq<Piece>): seq<seq<byte>> {
    if pieces == [] then []
    else (match pieces[0] case Junk(_, _) => [] case Framed(w) => [w]) + Frames(pieces[1..])
  }

  function Rejections(pieces: seq<Piece>): nat {
    if pieces == [] then 0
    else (if pieces[0].Junk? && pieces[0].counted then 1 else 0) + Rejections(pieces[1..])
  }

  // ---- the byte-wise parser refines the batch scanner -------------------------------------------

  lemma JudgeIsStable(b: seq<byte>, x: seq<byte>)
    requires Judge(b) != Stay
    ensures Judge(b + x) == Judge(b)
  {
    hide Decode, Value;
    if |b| >= HEADER {
      assert (b + x)[54..56] == b[54..56];
      var n := HEADER + Word16(b, 54);
      if n <= |b| {
        assert (b + x)[..n] == b[..n];
      }
    }
  }

  /** Scanning more input only continues from what the scanner had not yet decided. */
  lemma {:induction false} ScanExtends(b: seq<byte>, x: seq<byte>)
    ensures Scan(b + x) == After(Scan(b).pieces, Scan(Scan(b).rest + x))
    decreases |b|
  {
    hide Judge;
    match Judge(b)
    case Stay =>
      AfterLaws([], [], Scan(b + x));
    case Skip(counted) =>
      JudgeIsStable(b, x);
      assert (b + x)[1..] == b[1..] + x;
      ScanExtends(b[1..], x);
      AfterLaws([Junk(b[0], counted)], Scan(b[1..]).pieces, Scan(Scan(b).rest + x));
    case Take(n) =>
      JudgeIsStable(b, x);
      assert (b + x)[n..] == b[n..] + x && (b + x)[..n] == b[..n];
      ScanExtends(b[n..], x);
      AfterLaws([Framed(b[..n])], Scan(b[n..]).pieces, Scan(Scan(b).rest + x));
  }

  lemma {:induction false} ParseStartsScan(b: seq<byte>)
    ensures Scan(b) == After(Parse(b).pieces, Scan(Parse(b).rest))
    decreases |b|
  {
    hide Judge;
    match Judge(b)
    case Stay =>
      AfterLaws([], [], Scan(b));
    case Skip(counted) =>
      ParseStartsScan(b[1..]);
      AfterLaws([Junk(b[0], counted)], Parse(b[1..]).pieces, Scan(Parse(b).rest));
    case Take(n) =>
  }

  /**
   * Where a pass may stop: without a frame the head waits and less than a maximal frame is kept;
   * after a frame at least 71 bytes are gone.
   */
  lemma {:induction false} ParseStops(b: seq<byte>)
    ensures var s := Parse(b);
            if Frames(s.pieces) == [] then Judge(s.rest) == Stay
            else |Frames(s.pieces)| == 1 && |s.rest| + HEADER < |b|
    decreases |b|
  {
    hide Judge;
    if Judge(b).Skip? {
      var s, j := Parse(b[1..]), Junk(b[0], Judge(b).counted);
      ParseStops(b[1..]);
      assert ([j] + s.pieces)[1..] == s.pieces;
    }
  }

  /** A pass accounts for every byte it was given, in order. */
  lemma {:induction false} ParseConserves(b: seq<byte>)
    ensures Flatten(Parse(b).pieces) + Parse(b).rest == b
    decreases |b|
  {
    hide Judge;
    match Judge(b)
    case Stay =>
    case Skip(counted) =>
      var s, j := Parse(b[1..]), Junk(b[0], counted);
      ParseConserves(b[1..]);
      assert ([j] + s.pieces)[1..] == s.pieces;
      assert b == [b[0]] + b[1..];
      assert [b[0]] + Flatten(s.pieces) + s.rest == [b[0]] + (Flatten(s.pieces) + s.rest);
    case Take(n) =>
      assert [Framed(b[..n])][1..] == [];
      assert b == b[..n] + b[n..];
  }

  /** A buffer between calls: whatever it holds, a further byte cannot overflow it. */
  ghost predicate Resting(buffer: seq<byte>) {
    Judge(buffer) == Stay || |buffer| < MAX_FRAME - HEADER
  }

  /** The overflow branch is unreachable between calls. */
  lemma RestingHasRoom(buffer: seq<byte>)
    requires Resting(buffer)
    ensures |buffer| < MAX_FRAME
  {
  }

  lemma FeedRests(buffer: seq<byte>, b: byte)
    requires Resting(buffer)
    ensures Resting(Feed(buffer, b).rest)
  {
    hide Judge, Parse;
    RestingHasRoom(buffer);
    ParseStops(buffer + [b]);
  }

  lemma {:induction false} FlattenConcat(p: seq<Piece>, q: seq<Piece>)
    ensures Flatten(p + q) == Flatten(p) + Flatten(q)
  {
    if p == [] {
      assert p + q == q;
    } else {
      assert (p + q)[1..] == p[1..] + q;
      FlattenConcat(p[1..], q);
    }
  }

  lemma {:induction false} FramesConcat(p: seq<Piece>, q: seq<Piece>)
    ensures Frames(p + q) == Frames(p) + Frames(q)
  {
    if p == [] {
      assert p + q == q;
    } else {
      assert (p + q)[1..] == p[1..] + q;
      FramesConcat(p[1..], q);
    }
  }

  /** Feeding bytes one at a time accounts for every byte, in order, and never overflows the buffer. */
  lemma {:induction false} FeedAllConserves(buffer: seq<byte>, input: seq<byte>)
    requires Resting(buffer)
    ensures var s := FeedAll(buffer, input); Resting(s.rest) && Flatten(s.pieces) + s.rest == buffer + input
    decreases |input|
  {
    hide Judge, Parse, Resting;
    if input == [] {
      assert buffer + input == buffer;
    } else {
      hide Flatten;
      var one := Feed(buffer, input[0]);
      var rest := FeedAll(one.rest, input[1..]);
      RestingHasRoom(buffer);
      FeedRests(buffer, input[0]);
      FeedAllConserves(one.rest, input[1..]);
      ParseConserves(buffer + [input[0]]);
      FlattenConcat(one.pieces, rest.pieces);
      Regroup(Flatten(one.pieces), Flatten(rest.pieces), rest.rest, one.rest, buffer, input);
    }
  }

  lemma Regroup(f: seq<byte>, g: seq<byte>, tail: seq<byte>, middle: seq<byte>, buffer: seq<byte>, input: seq<byte>)
    requires input != [] && g + tail == middle + input[1..] && f + middle == buffer + [input[0]]
    ensures f + g + tail == buffer + input
  {
    assert f + g + tail == f + (g + tail) == f + middle + input[1..];
    assert input == [input[0]] + input[1..];
  }

  /** The byte-wise parser emits what the batch scan emits, up to what its buffer still holds. */
  lemma {:induction false} FeedAllRefinesScan(buffer: seq<byte>, input: seq<byte>)
    requires Resting(buffer)
    ensures var s := FeedAll(buffer, input); Scan(buffer + input) == After(s.pieces, Scan(s.rest))
    decreases |input|
  {
    hide Judge, Scan, Parse, Resting;
    if input == [] {
      assert buffer + input == buffer;
      AfterLaws([], [], Scan(buffer));
    } else {
      var one := Feed(buffer, input[0]);
      var rest := FeedAll(one.rest, input[1..]);
      assert buffer + input == buffer + [input[0]] + input[1..];
      RestingHasRoom(buffer);
      FeedRests(buffer, input[0]);
      FeedAllRefinesScan(one.rest, input[1..]);
      ScanOfParsed(buffer + [input[0]], input[1..]);
      AfterLaws(one.pieces, rest.pieces, Scan(rest.rest));
    }
  }

  /** Parsing before more input arrives does not change the scan of the whole. */
  lemma ScanOfParsed(b: seq<byte>, x: seq<byte>)
    ensures Scan(b + x) == After(Parse(b).pieces, Scan(Parse(b).rest + x))
  {
    hide Judge, Scan, Parse;
    var s := Parse(b);
    ParseStartsScan(b);
    ScanExtends(b, x);
    ScanExtends(s.rest, x);
    AfterLaws(s.pieces, Scan(s.rest).pieces, Scan(Scan(b).rest + x));
  }

  /** At most two complete frames can be waiting in the buffer between calls. */
  lemma FewFramesPending(buffer: seq<byte>)
    requires Resting(buffer)
    ensures |Frames(Scan(buffer).pieces)| <= 2
  {
    ScanLength(buffer);
  }

  lemma {:induction false} ScanLength(b: seq<byte>)
    ensures (HEADER + 1) * |Frames(Scan(b).pieces)| <= |b|
    ensures Judge(b) == Stay ==> Frames(Scan(b).pieces) == []
    decreases |b|
  {
    hide Judge;
    match Judge(b)
    case Stay =>
    case Skip(counted) =>
      var s, j := Scan(b[1..]), Junk(b[0], counted);
      ScanLength(b[1..]);
      assert ([j] + s.pieces)[1..] == s.pieces;
    case Take(n) =>
      var s, f := Scan(b[n..]), Framed(b[..n]);
      ScanLength(b[n..]);
      assert ([f] + s.pieces)[1..] == s.pieces;
  }

  ghost predicate AllDecode(pieces: seq<Piece>) {
    forall p | p in pieces && p.Framed? :: Decode(p.wire).Some?
  }

  lemma {:induction false} ParsedFramesDecode(b: seq<byte>)
    ensures AllDecode(Parse(b).pieces)
    decreases |b|
  {
    if Judge(b).Skip? {
      ParsedFramesDecode(b[1..]);
    }
  }

  /** Every emitted frame is one al_decode accepts. */
  lemma {:induction false} EmittedFramesDecode(buffer: seq<byte>, input: seq<byte>)
    ensures AllDecode(FeedAll(buffer, input).pieces)
    decreases |input|
  {
    hide Parse;
    if input != [] {
      ParsedFramesDecode(buffer + [input[0]]);
      if |buffer| == MAX_FRAME {
        ParsedFramesDecode(buffer[1..] + [input[0]]);
      }
      EmittedFramesDecode(Feed(buffer, input[0]).rest, input[1..]);
    }
  }

  // ---- an undisturbed stream -------------------------------------------------------------------

  lemma DecodedShape(w: seq<byte>)
    requires Decode(w).Some?
    ensures HEADER < |w| <= MAX_FRAME && w[0] == 65 && w[1] == 76 && HEADER + Word16(w, 54) == |w|
  {
    hide Value, Valid, Blanked;
    FieldsPayload(w);
  }

  /** A proper prefix of a frame waits; the whole frame is taken. */
  lemma JudgeOfFrame(w: seq<byte>, k: nat)
    requires Decode(w).Some? && k <= |w|
    ensures Judge(w[..k]) == if k < |w| then Stay else Take(|w|)
  {
    hide Decode, Value;
    DecodedShape(w);
    if k == |w| {
      assert w[..k] == w;
    } else if k >= HEADER {
      assert w[..k][54..56] == w[54..56];
    }
  }

  lemma {:induction false} FrameComesOut(w: seq<byte>, k: nat)
    requires Decode(w).Some? && k < |w|
    ensures FeedAll(w[..k], w[k..]) == Scanned([Framed(w)], [])
    decreases |w| - k
  {
    hide Judge, Decode;
    JudgeOfFrame(w, k);
    JudgeOfFrame(w, k + 1);
    assert w[..k] + [w[k]] == w[..k + 1];
    assert w[k..][0] == w[k] && w[k..][1..] == w[k + 1..];
    FrameFits(w);
    if k + 1 == |w| {
      assert w[..k + 1] == w && w[k + 1..] == [];
      assert Feed(w[..k], w[k]) == Scanned([Framed(w)], []);
    } else {
      FrameComesOut(w, k + 1);
      AfterLaws([], [], FeedAll(w[..k + 1], w[k + 1..]));
    }
  }

  lemma FrameFits(w: seq<byte>)
    requires Decode(w).Some?
    ensures HEADER < |w| <= MAX_FRAME
  {
  }

  lemma {:induction false} FeedAllConcat(buffer: seq<byte>, x: seq<byte>, y: seq<byte>)
    ensures FeedAll(buffer, x + y) == After(FeedAll(buffer, x).pieces, FeedAll(FeedAll(buffer, x).rest, y))
    decreases |x|
  {
    hide Feed;
    if x == [] {
      assert x + y == y;
      AfterLaws([], [], FeedAll(buffer, y));
    } else {
      var one := Feed(buffer, x[0]);
      assert (x + y)[1..] == x[1..] + y;
      FeedAllConcat(one.rest, x[1..], y);
      AfterLaws(one.pieces, FeedAll(one.rest, x[1..]).pieces, FeedAll(FeedAll(buffer, x).rest, y));
    }
  }

  function Concat(frames: seq<seq<byte>>): seq<byte> {
    if frames == [] then [] else frames[0] + Concat(frames[1..])
  }

  function AsPieces(frames: seq<seq<byte>>): seq<Piece> {
    if frames == [] then [] else [Framed(frames[0])] + AsPieces(frames[1..])
  }

  /** Valid frames sent back to back come out exactly, in order, with nothing left behind. */
  lemma {:induction false} FramesComeOut(frames: seq<seq<byte>>)
    requires forall w | w in frames :: Decode(w).Some?
    ensures FeedAll([], Concat(frames)) == Scanned(AsPieces(frames), [])
  {
    hide Decode, Feed;
    if frames != [] {
      var w := frames[0];
      FrameFits(w);
      FrameComesOut(w, 0);
      assert w[..0] == [] && w[0..] == w;
      FeedAllConcat([], w, Concat(frames[1..]));
      FramesComeOut(frames[1..]);
    }
  }

  // ---- the C parser ----------------------------------------------------------------------------

  lemma JunkCounts(p: seq<Piece>, j: Piece, c: u32)
    requires j.Junk?
    ensures Frames(p + [j]) == Frames(p)
    ensures Bump(Bump(c, Rejections(p)), if j.counted then 1 else 0) == Bump(c, Rejections(p + [j]))
  {
    hide Rejections;
    FramesConcat(p, [j]);
    assert Frames([j]) == [] + Frames([j][1..]);
    RejectionsLast(p, j);
  }

  lemma {:induction false} RejectionsLast(p: seq<Piece>, j: Piece)
    ensures Rejections(p + [j]) == Rejections(p) + (if j.Junk? && j.counted then 1 else 0)
  {
    if p == [] {
      assert p + [j] == [j] && [j][1..] == [];
    } else {
      assert (p + [j])[1..] == p[1..] + [j];
      RejectionsLast(p[1..], j);
    }
  }

  class Stream {
    const data: array<byte>
    var used: nat
    var rejected: u32

    constructor ()
      ensures Valid() && Buffer() == [] && rejected == 0 && fresh(data)
    {
      data := new byte[MAX_FRAME];
      used, rejected := 0, 0;
    }

    ghost predicate Valid()
      reads this
    {
      data.Length == MAX_FRAME && used <= MAX_FRAME
    }

    ghost function Buffer(): seq<byte>
      reads this, data
      requires Valid()
    {
      data[..used]
    }

    /** memmove of the buffer down by n bytes. */
    method Drop(n: nat)
      requires Valid() && n <= used
      modifies this`used, data
      ensures Valid() && Buffer() == old(Buffer())[n..]
    {
      for i := 0 to used - n
        invariant used == old(used)
        invariant forall j :: 0 <= j < i ==> data[j] == old(data[j + n])
        invariant forall j :: i + n <= j < used ==> data[j] == old(data[j])
      {
        data[i] := data[i + n];
      }
      used := used - n;
    }

    /** al_stream_expire: partial bytes are abandoned after an idle gap or a clock that went back. */
    method Expire(last: u64, now: u64, idle: u32) returns (dropped: bool)
      requires Valid()
      modifies this
      ensures Valid()
      ensures dropped <==> old(Buffer()) != [] && (now < last || now - last >= idle)
      ensures Buffer() == if dropped then [] else old(Buffer())
      ensures rejected == if dropped then Bump(old(rejected), 1) else old(rejected)
    {
      if used == 0 || (now >= last && now - last < idle) {
        return false;
      }
      used := 0;
      rejected := Bump(rejected, 1);
      dropped := true;
    }

    /** What a pass over the buffer reports, keeps and writes. */
    ghost predicate Reported(s: Scanned, status: int, length: nat, was: seq<byte>, now: seq<byte>)
      reads this, data
      requires Valid()
    {
      if Frames(s.pieces) == [] then
        status == 0 && Buffer() == s.rest && now == was
      else
        var w := Frames(s.pieces)[0];
        if |was| < |w| then
          status == -1 && Buffer() == w + s.rest && now == was
        else
          status == 1 && length == |w| && Buffer() == s.rest && now == Patch(was, 0, w)
    }

    /** al_stream_byte: 1 with a frame in out, 0 when more input is needed, -1 when out is too small. */
    method Byte(b: byte, out: array<byte>) returns (status: int, length: nat)
      requires Valid() && out != data
      modifies this, data, out
      ensures Valid()
      ensures Reported(Feed(old(Buffer()), b), status, length, old(out[..]), out[..])
      ensures rejected == Bump(old(rejected), Rejections(Feed(old(Buffer()), b).pieces))
    {
      hide Judge, Decode, Patch, Bump, Parse;
      var full := used == MAX_FRAME;
      if full {
        Drop(1);
        rejected := Bump(rejected, 1);
      }
      data[used] := b;
      used := used + 1;
      ghost var s := Parse(Buffer());
      assert Buffer() == (if full then old(Buffer())[1..] else old(Buffer())) + [b];
      status, length := Pump(out);
      if full {
        JunkFirst(Junk(old(Buffer())[0], true), s.pieces, old(rejected));
      }
    }

    /** The loop of al_stream_byte. */
    method Pump(out: array<byte>) returns (status: int, length: nat)
      requires Valid() && out != data
      modifies this, data, out
      ensures Valid()
      ensures Reported(Parse(old(Buffer())), status, length, old(out[..]), out[..])
      ensures rejected == Bump(old(rejected), Rejections(Parse(old(Buffer())).pieces))
    {
      hide Judge, Decode, Patch, Bump, Frames, Rejections;
      length := 0;
      ghost var seen: seq<Piece> := [];
      ghost var whole := Parse(Buffer());
      NothingSeen(whole, rejected);
      while used >= 2
        invariant Valid()
        invariant whole == After(seen, Parse(Buffer())) && Frames(seen) == []
        invariant rejected == Bump(old(rejected), Rejections(seen))
        invariant out[..] == old(out[..])
        decreases used
      {
        var action := Consider();
        match action {
          case Stay =>
            WaitingPass(seen, Buffer());
            return 0, 0;
          case Skip(counted) =>
            ghost var b, j := Buffer(), Junk(Buffer()[0], counted);
            JunkCounts(seen, j, old(rejected));
            AfterLaws(seen, [j], Parse(b[1..]));
            seen := seen + [j];
            Drop(1);
            if counted {
              rejected := Bump(rejected, 1);
            } else {
              BumpNone(rejected);
            }
          case Take(n) =>
            ghost var b := Buffer();
            TakenLast(seen, b[..n]);
            assert whole == Scanned(seen + [Framed(b[..n])], b[n..]);
            assert b == b[..n] + b[n..];
            if out.Length < n {
              return -1, 0;
            }
            Copy(out, 0, data[..n]);
            assert data[..n] == b[..n];
            Drop(n);
            return 1, n;
        }
      }
      JudgeOfShort(Buffer());
      WaitingPass(seen, Buffer());
      status := 0;
    }

    /** The tests at the head of the loop. */
    method Consider() returns (v: Verdict)
      requires Valid() && used >= 2
      ensures v == Judge(Buffer())
    {
      hide Decode, Value;
      if data[0] != 65 || data[1] != 76 {
        return Skip(false);
      }
      if used < HEADER {
        return Stay;
      }
      var length := U16(data, 54);
      WordsOfPrefix(data[..], used);
      assert data[..][..used] == data[..used];
      var n := HEADER + length;
      if n <= HEADER || n > MAX_FRAME {
        return Skip(true);
      }
      if used < n {
        return Stay;
      }
      var f := AlDecode(data, n);
      assert data[..used][..n] == data[..n];
      v := if f == None then Skip(true) else Take(n);
    }
  }

  lemma BumpNone(c: u32)
    ensures Bump(c, 0) == c
  {
  }

  lemma JudgeOfShort(b: seq<byte>)
    requires |b| < 2
    ensures Judge(b) == Stay
  {
  }

  lemma NothingSeen(whole: Scanned, c: u32)
    ensures whole == After([], whole) && Frames([]) == [] && c == Bump(c, Rejections([]))
  {
    BumpNone(c);
  }

  lemma WaitingPass(seen: seq<Piece>, b: seq<byte>)
    requires Judge(b) == Stay
    ensures After(seen, Parse(b)) == Scanned(seen, b)
  {
  }

  lemma JunkFirst(j: Piece, p: seq<Piece>, c: u32)
    requires j.Junk? && j.counted
    ensures Frames([j] + p) == Frames(p)
    ensures Bump(Bump(c, 1), Rejections(p)) == Bump(c, Rejections([j] + p))
  {
    assert ([j] + p)[1..] == p;
  }

  lemma TakenLast(seen: seq<Piece>, w: seq<byte>)
    ensures Frames(seen + [Framed(w)]) == Frames(seen) + [w]
    ensures Rejections(seen + [Framed(w)]) == Rejections(seen)
  {
    FramesConcat(seen, [Framed(w)]);
    assert [Framed(w)][1..] == [];
    RejectionsLast(seen, Framed(w));
  }
}
