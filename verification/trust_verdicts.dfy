/** What the five detectors say about whole streams, without their internal state. */
module TrustVerdicts {
  import opened Wrappers
  import opened TrustReference
  import opened LeastSquares

  // ---- score and state -------------------------------------------------------------------------------------

  /** Which faults, alone or together, degrade a channel and which take it out. */
  lemma StateMeans(f: Flags)
    ensures Scored(f).state == FAULT <==> f.range || f.missing || (f.stuck && (f.spike || f.drift))
    ensures Scored(f).state == HEALTHY <==> f == NO_FLAGS
    ensures Scored(f).flags == f
  {
  }

  /** The score of each fault on its own; further faults only lower it, down to zero. */
  lemma ScoreMeans(f: Flags, g: Flags)
    ensures Scored(Flags(true, false, false, false, false)).score == 45
    ensures Scored(Flags(false, true, false, false, false)).score == 65
    ensures Scored(Flags(false, false, true, false, false)).score == 75
    ensures Scored(Flags(false, false, false, true, false)).score == 75
    ensures Scored(Flags(false, false, false, false, true)).score == 45
    ensures Scored(NO_FLAGS).score == 100
    ensures (f.range ==> g.range) && (f.stuck ==> g.stuck) && (f.spike ==> g.spike) && (f.drift ==> g.drift)
            && (f.missing ==> g.missing) && f != g ==>
              Scored(g).score < Scored(f).score || Scored(g).score == Scored(f).score == 0
  {
  }

  // ---- range and missing -----------------------------------------------------------------------------------

  function Ending(samples: seq<Sample>): Sample
    requires samples != []
  {
    samples[|samples| - 1]
  }

  /** RANGE: the newest value is usable and outside the limits. */
  lemma RangeMeans(c: Config, samples: seq<Sample>)
    requires samples != []
    ensures FlagsAt(c, samples).range <==>
            && Usable(Ending(samples))
            && (Ending(samples).value.value < c.minValue || Ending(samples).value.value > c.maxValue)
  {
    hide Trend, Stuck, Pushed, Scored;
    ScoredFlags();
  }

  lemma ScoredFlags()
    ensures forall f :: Scored(f).flags == f
  {
  }

  ghost predicate LostSince(samples: seq<Sample>, n: nat) {
    n <= |samples| && forall k :: |samples| - n <= k < |samples| ==> !Usable(samples[k])
  }

  /** The count of invalid samples is the length of the newest gap. */
  lemma {:induction false} InvalidMeans(c: Config, samples: seq<Sample>)
    ensures var n := After(c, samples).invalid;
            LostSince(samples, n) && (n < |samples| ==> Usable(samples[|samples| - n - 1]))
    decreases |samples|
  {
    hide Trend, Stuck, Pushed, Scored;
    if samples != [] {
      var front := samples[..|samples| - 1];
      InvalidMeans(c, front);
      InvalidStep(c, After(c, front), Ending(samples));
      var m := After(c, front).invalid;
      assert forall k :: 0 <= k < |front| ==> front[k] == samples[k];
    }
  }

  lemma InvalidStep(c: Config, ch: Channel, s: Sample)
    ensures Updated(c, ch, s).0.invalid == if Usable(s) then 0 else ch.invalid + 1
  {
    hide Trend, Stuck, Pushed, Scored;
  }

  /** MISSING: exactly when the newest missingLimit samples were all unusable. */
  lemma MissingMeans(c: Config, samples: seq<Sample>)
    requires samples != [] && c.missingLimit >= 1
    ensures FlagsAt(c, samples).missing <==> LostSince(samples, c.missingLimit)
  {
    hide Trend, Stuck, Pushed, Scored;
    ScoredFlags();
    InvalidMeans(c, samples);
    var n := After(c, samples).invalid;
    if LostSince(samples, c.missingLimit) && n < |samples| {
      assert Usable(samples[|samples| - n - 1]);
    }
  }

  // ---- the window ------------------------------------------------------------------------------------------

  /** The usable readings of a stream. */
  function Readings(samples: seq<Sample>): seq<Point> {
    if samples == [] then []
    else
      var s := samples[|samples| - 1];
      Readings(samples[..|samples| - 1]) + (if Usable(s) then [Point(s.time, s.value.value)] else [])
  }

  function Newest(s: seq<Point>, n: nat): seq<Point> {
    if |s| <= n then s else s[|s| - n..]
  }

  /** The window holds the newest usable readings, as many as its capacity, in their order. */
  lemma {:induction false} WindowMeans(c: Config, samples: seq<Sample>)
    requires ValidConfig(c)
    ensures After(c, samples).window == Newest(Readings(samples), Capacity(c))
    ensures After(c, samples).last == if Readings(samples) == [] then None
                                      else Some(Readings(samples)[|Readings(samples)| - 1].value)
    decreases |samples|
  {
    hide Trend, Stuck, Scored, Pushed;
    if samples != [] {
      var front, s := samples[..|samples| - 1], Ending(samples);
      WindowMeans(c, front);
      WindowStep(c, After(c, front), s);
      if Usable(s) {
        PushedNewest(Readings(front), Point(s.time, s.value.value), Capacity(c));
      }
    }
  }

  lemma WindowStep(c: Config, ch: Channel, s: Sample)
    ensures var n := Updated(c, ch, s).0;
            if Usable(s)
            then n.window == Pushed(ch.window, Point(s.time, s.value.value), Capacity(c)) && n.last == s.value
            else n.window == ch.window && n.last == ch.last
  {
    hide Trend, Stuck, Pushed, Scored;
  }

  lemma PushedNewest(s: seq<Point>, p: Point, n: nat)
    requires n >= 1
    ensures Pushed(Newest(s, n), p, n) == Newest(s + [p], n)
  {
    if |s| >= n {
      assert (s + [p])[|s| + 1 - n..] == s[|s| + 1 - n..] + [p];
    }
  }

  // ---- drift -----------------------------------------------------------------------------------------------

  /** Usable samples at increasing times whose values lie on a line. */
  ghost predicate Linear(samples: seq<Sample>, a: real, b: real) {
    && (forall k :: 0 <= k < |samples| ==>
          Usable(samples[k]) && Lies(Point(samples[k].time, samples[k].value.value), a, b))
    && (forall k :: 0 < k < |samples| ==> samples[k - 1].time < samples[k].time)
  }

  lemma {:induction false} LinearReadings(samples: seq<Sample>, a: real, b: real)
    requires Linear(samples, a, b)
    ensures |Readings(samples)| == |samples|
    ensures forall k :: 0 <= k < |samples| ==> Readings(samples)[k] == Point(samples[k].time, samples[k].value.value)
    decreases |samples|
  {
    hide Lies;
    if samples != [] {
      LinearReadings(samples[..|samples| - 1], a, b);
    }
  }

  lemma LinearSlope(c: Config, samples: seq<Sample>, a: real, b: real)
    requires ValidConfig(c) && Linear(samples, a, b) && c.driftWindow <= |samples|
    ensures |After(c, samples).window| >= c.driftWindow
    ensures Slope(Tail(After(c, samples).window, c.driftWindow)) == b
  {
    hide Slope, After, Readings, Lies, Newest, Tail, Capacity;
    WindowMeans(c, samples);
    LinearReadings(samples, a, b);
    NewestTail(Readings(samples), Capacity(c), c.driftWindow);
    WindowSizes(c);
    LineHasItsSlope(Tail(After(c, samples).window, c.driftWindow), a, b);
  }

  lemma WindowSizes(c: Config)
    requires ValidConfig(c)
    ensures 2 <= c.driftWindow <= Capacity(c) && 2 <= c.stuckWindow <= Capacity(c)
  {
  }

  lemma NewestTail(r: seq<Point>, capacity: nat, n: nat)
    ensures |Newest(r, capacity)| == if |r| <= capacity then |r| else capacity
    ensures n <= capacity && n <= |r| ==> Tail(Newest(r, capacity), n) == r[|r| - n..]
  {
  }

  lemma LinearShort(c: Config, samples: seq<Sample>, a: real, b: real)
    requires ValidConfig(c) && Linear(samples, a, b)
    ensures |After(c, samples).window| < c.driftWindow <==> |samples| < c.driftWindow
  {
    hide After, Readings, Lies, Newest, Capacity;
    WindowMeans(c, samples);
    LinearReadings(samples, a, b);
    WindowSizes(c);
    NewestTail(Readings(samples), Capacity(c), 0);
  }

  /** What the drift detector has counted after n samples on a line. */
  ghost predicate Counted(c: Config, ch: Channel, n: nat, b: real) {
    if Abs(b) > c.driftThreshold && n >= c.driftWindow
    then ch.streak == n - c.driftWindow + 1 && ch.direction == (if b > 0.0 then 1 else -1)
    else ch.streak == 0 && ch.direction == 0
  }

  lemma TrendStep(c: Config, ch: Channel, s: Sample)
    requires Usable(s)
    ensures var (n, r) := Updated(c, ch, s);
            var t := Trended(ch, Trend(c, n.window));
            && n.streak == t.streak && n.direction == t.direction
            && (r.flags.drift <==> Trend(c, n.window) in {Some(1), Some(-1)} && n.streak >= c.driftWindow)
  {
    hide Stuck, Pushed, Slope;
    ScoredFlags();
  }

  lemma {:induction false} LineCounts(c: Config, samples: seq<Sample>, a: real, b: real)
    requires ValidConfig(c) && Linear(samples, a, b)
    ensures Counted(c, After(c, samples), |samples|, b)
    decreases |samples|
  {
    hide Slope, Stuck, Scored, Updated, Lies;
    if samples != [] {
      var front := samples[..|samples| - 1];
      LineCounts(c, front, a, b);
      TrendStep(c, After(c, front), Ending(samples));
      LinearShort(c, samples, a, b);
      if c.driftWindow <= |samples| {
        LinearSlope(c, samples, a, b);
      }
    }
  }

  /**
   * DRIFT on a steady trend: a channel whose values change by b per second is reported exactly when b is
   * steeper than the threshold and two drift windows, less one sample, have been seen. A constant channel
   * never is.
   */
  lemma LineDriftsExactly(c: Config, samples: seq<Sample>, a: real, b: real)
    requires ValidConfig(c) && samples != [] && Linear(samples, a, b)
    ensures FlagsAt(c, samples).drift <==> Abs(b) > c.driftThreshold && |samples| >= 2 * c.driftWindow - 1
  {
    hide Slope, Stuck, Scored, Updated, Lies;
    var front := samples[..|samples| - 1];
    LineCounts(c, samples, a, b);
    TrendStep(c, After(c, front), Ending(samples));
    LinearShort(c, samples, a, b);
    if c.driftWindow <= |samples| {
      LinearSlope(c, samples, a, b);
    }
  }

  // ---- stuck -----------------------------------------------------------------------------------------------

  /** STUCK: the newest stuckWindow usable readings lie closer together than the epsilon. */
  lemma StuckIsClose(c: Config, samples: seq<Sample>)
    requires ValidConfig(c) && samples != []
    ensures var r := Readings(samples);
            FlagsAt(c, samples).stuck <==>
              && Usable(Ending(samples)) && |r| >= c.stuckWindow
              && forall p, q :: p in r[|r| - c.stuckWindow..] && q in r[|r| - c.stuckWindow..] ==>
                   p.value - q.value < c.stuckEpsilon
  {
    hide After, Readings, Updated, Newest, Tail, Capacity;
    StuckStep(c, After(c, samples[..|samples| - 1]), Ending(samples));
    WindowMeans(c, samples);
    AfterLast(c, samples);
    var w, r := After(c, samples).window, Readings(samples);
    WindowSizes(c);
    NewestTail(r, Capacity(c), c.stuckWindow);
    if |r| >= c.stuckWindow {
      StuckMeans(c, w);
    }
  }

  lemma StuckStep(c: Config, ch: Channel, s: Sample)
    ensures Updated(c, ch, s).1.flags.stuck <==> Usable(s) && Stuck(c, Updated(c, ch, s).0.window)
  {
    hide Trend, Pushed, Stuck;
    ScoredFlags();
  }

  lemma AfterLast(c: Config, samples: seq<Sample>)
    requires samples != []
    ensures After(c, samples) == Updated(c, After(c, samples[..|samples| - 1]), Ending(samples)).0
  {
  }

  // ---- spikes ----------------------------------------------------------------------------------------------

  lemma SpikeStep(c: Config, ch: Channel, s: Sample)
    ensures var (n, r) := Updated(c, ch, s);
            if !Usable(s) then !r.flags.spike && n.spikeReference == ch.spikeReference && n.last == ch.last
            else
              var v := s.value.value;
              var back := ch.spikeReference.Some? && Abs(v - ch.spikeReference.value) <= c.spikeThreshold;
              var away := !back && ch.last.Some? && Abs(v - ch.last.value) > c.spikeThreshold;
              && (r.flags.spike <==> back || away) && n.spikeReference == (if away then ch.last else None)
              && n.last == s.value
  {
    hide Trend, Stuck, Pushed;
    ScoredFlags();
  }

  /** Neighbouring usable readings are close. */
  ghost predicate Quiet(c: Config, samples: seq<Sample>) {
    var r := Readings(samples);
    forall k :: 0 < k < |r| ==> Abs(r[k].value - r[k - 1].value) <= c.spikeThreshold
  }

  lemma {:induction false} QuietHasNoSpikes(c: Config, samples: seq<Sample>)
    requires ValidConfig(c) && Quiet(c, samples)
    ensures After(c, samples).spikeReference == None
    ensures samples != [] ==> !FlagsAt(c, samples).spike
    decreases |samples|
  {
    hide Updated, Abs;
    if samples != [] {
      var front := samples[..|samples| - 1];
      var r, q := Readings(samples), Readings(front);
      assert forall k :: 0 <= k < |q| ==> r[k] == q[k];
      QuietHasNoSpikes(c, front);
      WindowMeans(c, front);
      SpikeStep(c, After(c, front), Ending(samples));
      if Usable(Ending(samples)) && q != [] {
        assert r[|q|] == Point(Ending(samples).time, Ending(samples).value.value);
        assert Abs(r[|q|].value - r[|q| - 1].value) <= c.spikeThreshold;
      }
    }
  }

  function Read(v: real, time: real): Sample {
    Sample(Some(v), time, true)
  }

  /**
   * After a quiet stream that ended with the value u: a jump to v is a SPIKE; a return close to u is one as
   * well and closes the matter; a value that stays close to v instead is none.
   */
  lemma JumpAndAfter(c: Config, samples: seq<Sample>, v: real, w: real, s: real, t: real)
    requires ValidConfig(c) && Quiet(c, samples) && Readings(samples) != []
    ensures var u := Readings(samples)[|Readings(samples)| - 1].value;
            Abs(v - u) > c.spikeThreshold ==>
              && FlagsAt(c, samples + [Read(v, s)]).spike
              && (Abs(w - u) <= c.spikeThreshold ==>
                   && FlagsAt(c, samples + [Read(v, s)] + [Read(w, t)]).spike
                   && After(c, samples + [Read(v, s)] + [Read(w, t)]).spikeReference == None)
              && (Abs(w - u) > c.spikeThreshold && Abs(w - v) <= c.spikeThreshold ==>
                   && !FlagsAt(c, samples + [Read(v, s)] + [Read(w, t)]).spike
                   && After(c, samples + [Read(v, s)] + [Read(w, t)]).spikeReference == None)
  {
    hide Updated, Abs;
    var one := samples + [Read(v, s)];
    var two := one + [Read(w, t)];
    assert one[..|one| - 1] == samples && two[..|two| - 1] == one;
    QuietHasNoSpikes(c, samples);
    WindowMeans(c, samples);
    SpikeStep(c, After(c, samples), Read(v, s));
    SpikeStep(c, After(c, one), Read(w, t));
  }
}
