/** The list-based sensor health reference: five detectors over real numbers, time in seconds. */
module TrustReference {
  import opened Wrappers

  datatype Config = Config(minValue: real, maxValue: real, stuckEpsilon: real, stuckWindow: nat,
                           spikeThreshold: real, driftWindow: nat, driftThreshold: real, missingLimit: nat)

  const MAX_WINDOW := 64
  const INT_MAX := 0x7fff_ffff

  predicate ValidConfig(c: Config) {
    && c.minValue < c.maxValue && c.stuckEpsilon >= 0.0 && 2 <= c.stuckWindow <= MAX_WINDOW
    && c.spikeThreshold >= 0.0 && 2 <= c.driftWindow <= MAX_WINDOW && c.driftThreshold > 0.0
    && 1 <= c.missingLimit <= INT_MAX
  }

  datatype Point = Point(time: real, value: real)

  datatype Flags = Flags(range: bool, stuck: bool, spike: bool, drift: bool, missing: bool)

  const NO_FLAGS := Flags(false, false, false, false, false)

  datatype Health = HEALTHY | DEGRADED | FAULT

  datatype Result = Result(score: int, state: Health, flags: Flags)

  /** A reading; a value that is no finite number is None. */
  datatype Sample = Sample(value: Option<real>, time: real, valid: bool)

  datatype Channel = Channel(window: seq<Point>, last: Option<real>, spikeReference: Option<real>,
                             invalid: nat, direction: int, streak: nat)

  const NEW_CHANNEL := Channel([], None, None, 0, 0, 0)

  function Abs(x: real): real {
    if x < 0.0 then -x else x
  }

  function Capacity(c: Config): nat {
    if c.stuckWindow > c.driftWindow then c.stuckWindow else c.driftWindow
  }

  /** deque(maxlen): the newest points, oldest first. */
  function Pushed(window: seq<Point>, p: Point, capacity: nat): (w: seq<Point>)
    ensures |w| >= 1
  {
    if |window| < capacity || window == [] then window + [p] else window[1..] + [p]
  }

  function Tail(window: seq<Point>, n: nat): seq<Point>
    requires n <= |window|
  {
    window[|window| - n..]
  }

  function Highest(s: seq<Point>): (m: real)
    requires s != []
  {
    if |s| == 1 then s[0].value
    else
      var n := |s| - 1;
      var m := Highest(s[..n]);
      if s[n].value > m then s[n].value else m
  }

  function Lowest(s: seq<Point>): (m: real)
    requires s != []
  {
    if |s| == 1 then s[0].value
    else
      var n := |s| - 1;
      var m := Lowest(s[..n]);
      if s[n].value < m then s[n].value else m
  }

  /** Both are values of the points and bound all of them. */
  lemma {:induction false} ExtremesBound(s: seq<Point>)
    requires s != []
    ensures forall p :: p in s ==> Lowest(s) <= p.value <= Highest(s)
    ensures (exists p :: p in s && p.value == Lowest(s)) && exists p :: p in s && p.value == Highest(s)
  {
    if |s| == 1 {
      assert s[0] in s;
    } else {
      var n := |s| - 1;
      ExtremesBound(s[..n]);
      assert s[n] in s;
      var p :| p in s[..n] && p.value == Lowest(s[..n]);
      var q :| q in s[..n] && q.value == Highest(s[..n]);
      assert p in s && q in s;
    }
  }

  /** A window counts as stuck exactly when no two of its values are stuckEpsilon apart. */
  lemma StuckMeans(c: Config, window: seq<Point>)
    requires 0 < c.stuckWindow <= |window|
    ensures Stuck(c, window) <==>
            forall p, q :: p in Tail(window, c.stuckWindow) && q in Tail(window, c.stuckWindow) ==>
              p.value - q.value < c.stuckEpsilon
  {
    ExtremesBound(Tail(window, c.stuckWindow));
  }

  // ---- the least-squares slope -------------------------------------------------------------------------

  predicate Forward(s: seq<Point>) {
    forall i :: 0 < i < |s| ==> s[i - 1].time < s[i].time
  }

  function SumTime(s: seq<Point>): real {
    if s == [] then 0.0 else SumTime(s[..|s| - 1]) + s[|s| - 1].time
  }

  function SumValue(s: seq<Point>): real {
    if s == [] then 0.0 else SumValue(s[..|s| - 1]) + s[|s| - 1].value
  }

  function Product(a: real, b: real): real {
    a * b
  }

  /** Sum of the products of the deviations from t and v. */
  function Covariance(s: seq<Point>, t: real, v: real): real {
    if s == [] then 0.0
    else Covariance(s[..|s| - 1], t, v) + Product(s[|s| - 1].time - t, s[|s| - 1].value - v)
  }

  function Variance(s: seq<Point>, t: real): real {
    if s == [] then 0.0 else Variance(s[..|s| - 1], t) + Product(s[|s| - 1].time - t, s[|s| - 1].time - t)
  }

  function Shifted(s: seq<Point>, start: real): (r: seq<Point>)
    ensures |r| == |s| && forall i :: 0 <= i < |s| ==> r[i] == Point(s[i].time - start, s[i].value)
  {
    seq(|s|, i requires 0 <= i < |s| => Point(s[i].time - start, s[i].value))
  }

  function Mean(sum: real, n: nat): real
    requires n > 0
  {
    sum / (n as real)
  }

  lemma {:induction false} VarianceNonNegative(s: seq<Point>, t: real)
    ensures Variance(s, t) >= 0.0
  {
    if s != [] {
      VarianceNonNegative(s[..|s| - 1], t);
      Square(s[|s| - 1].time - t);
    }
  }

  lemma Square(a: real)
    ensures Product(a, a) >= 0.0 && (a != 0.0 ==> Product(a, a) > 0.0)
  {
    if a > 0.0 {
      ProductPositive(a, a);
    } else if a < 0.0 {
      ProductPositive(-a, -a);
    }
  }

  lemma ProductPositive(a: real, b: real)
    requires a > 0.0 && b > 0.0
    ensures Product(a, b) > 0.0 && Product(-a, -b) == Product(a, b)
  {
  }

  /** Two different times leave a positive variance. */
  lemma {:induction false} VariancePositive(s: seq<Point>, t: real)
    requires |s| >= 2 && s[0].time != s[1].time
    ensures Variance(s, t) > 0.0
  {
    hide Product;
    var n := |s| - 1;
    VarianceNonNegative(s[..n], t);
    Square(s[n].time - t);
    if n == 1 {
      var one := s[..1];
      VarianceNonNegative(one[..0], t);
      Square(s[0].time - t);
      assert one[0] == s[0];
      assert Variance(one, t) >= Product(s[0].time - t, s[0].time - t);
      assert Variance(s, t) == Variance(one, t) + Product(s[1].time - t, s[1].time - t);
    } else {
      VariancePositive(s[..n], t);
      assert Variance(s, t) == Variance(s[..n], t) + Product(s[n].time - t, s[n].time - t);
    }
  }

  /** Slope of the points per second, zero when the clock did not move forward. */
  function Slope(s: seq<Point>): real {
    if |s| < 2 || !Forward(s) then 0.0
    else
      var x := Shifted(s, s[0].time);
      var t, v := Mean(SumTime(x), |s|), Mean(SumValue(x), |s|);
      VariancePositive(x, t);
      Covariance(x, t, v) / Variance(x, t)
  }

  // ---- one sample ----------------------------------------------------------------------------------------

  predicate Usable(s: Sample) {
    s.valid && s.value.Some?
  }

  /** Direction of a trend steeper than the threshold: 1, -1, or 0 for none. */
  function Direction(c: Config, slope: real): int {
    if Abs(slope) > c.driftThreshold then (if slope > 0.0 then 1 else -1) else 0
  }

  /** What the drift detector says about the window; None while it is too short. */
  function Trend(c: Config, window: seq<Point>): Option<int> {
    if |window| >= c.driftWindow then Some(Direction(c, Slope(Tail(window, c.driftWindow)))) else None
  }

  function Stuck(c: Config, window: seq<Point>): bool {
    |window| >= c.stuckWindow && c.stuckWindow > 0
    && Highest(Tail(window, c.stuckWindow)) - Lowest(Tail(window, c.stuckWindow)) < c.stuckEpsilon
  }

  function Trended(ch: Channel, trend: Option<int>): Channel {
    match trend
    case None => ch
    case Some(d) =>
      if d == 0 then ch.(direction := 0, streak := 0)
      else ch.(direction := d, streak := if d == ch.direction then ch.streak + 1 else 1)
  }

  function Valued(c: Config, ch: Channel, v: real, time: real): (Channel, Flags) {
    var returned := ch.spikeReference.Some? && Abs(v - ch.spikeReference.value) <= c.spikeThreshold;
    var jumped := !returned && ch.last.Some? && Abs(v - ch.last.value) > c.spikeThreshold;
    var window := Pushed(ch.window, Point(time, v), Capacity(c));
    var trend := Trend(c, window);
    var next := Trended(ch.(window := window, last := Some(v), invalid := 0,
                            spikeReference := if jumped then ch.last else None), trend);
    (next, Flags(!(c.minValue <= v <= c.maxValue), Stuck(c, window), returned || jumped,
                 trend.Some? && trend.value != 0 && next.streak >= c.driftWindow, false))
  }

  function Penalty(f: Flags): nat {
    (if f.range then 55 else 0) + (if f.stuck then 35 else 0) + (if f.spike then 25 else 0)
    + (if f.drift then 25 else 0) + (if f.missing then 55 else 0)
  }

  function Scored(f: Flags): Result {
    var score := if Penalty(f) > 100 then 0 else 100 - Penalty(f);
    Result(score, if score >= 80 then HEALTHY else if score >= 50 then DEGRADED else FAULT, f)
  }

  function Updated(c: Config, ch: Channel, s: Sample): (Channel, Result) {
    if Usable(s) then
      var (next, f) := Valued(c, ch, s.value.value, s.time);
      (next, Scored(f))
    else
      var next := ch.(invalid := ch.invalid + 1, streak := 0, direction := 0);
      (next, Scored(NO_FLAGS.(missing := next.invalid >= c.missingLimit)))
  }

  /** No single fault leaves a channel healthy. */
  lemma AnyFaultShows(f: Flags)
    ensures Scored(f).state == HEALTHY <==> f == NO_FLAGS
    ensures 0 <= Scored(f).score <= 100
    ensures f.range || f.missing ==> Scored(f).state == FAULT
  {
  }

  // ---- streams -------------------------------------------------------------------------------------------

  function After(c: Config, samples: seq<Sample>): Channel {
    if samples == [] then NEW_CHANNEL else Updated(c, After(c, samples[..|samples| - 1]), samples[|samples| - 1]).0
  }

  function FlagsAt(c: Config, samples: seq<Sample>): Flags
    requires samples != []
  {
    Updated(c, After(c, samples[..|samples| - 1]), samples[|samples| - 1]).1.flags
  }

  /** What the drift detector says at the last sample; 0 as well for an invalid one or a short window. */
  function VerdictAt(c: Config, samples: seq<Sample>): int
    requires samples != []
  {
    var s := samples[|samples| - 1];
    if !Usable(s) then 0
    else
      var trend := Trend(c, Pushed(After(c, samples[..|samples| - 1]).window, Point(s.time, s.value.value),
                                   Capacity(c)));
      if trend.Some? then trend.value else 0
  }

  function Says(c: Config, samples: seq<Sample>, k: nat): int
    requires k < |samples|
  {
    VerdictAt(c, samples[..k + 1])
  }

  ghost predicate Agreeing(c: Config, samples: seq<Sample>, n: nat, d: int) {
    n <= |samples| && forall k: nat :: |samples| - n <= k < |samples| ==> Says(c, samples, k) == d
  }

  /** The streak counts verdicts that agree; a window that is too short has no streak. */
  ghost predicate StreakMeans(c: Config, samples: seq<Sample>, ch: Channel) {
    && Agreeing(c, samples, ch.streak, ch.direction) && (ch.streak > 0 ==> ch.direction != 0)
    && (|ch.window| < c.driftWindow ==> ch.streak == 0) && |ch.window| <= Capacity(c)
  }

  lemma AgreeingGrows(c: Config, samples: seq<Sample>, n: nat, d: int)
    requires samples != [] && Agreeing(c, samples[..|samples| - 1], n, d) && VerdictAt(c, samples) == d
    ensures Agreeing(c, samples, n + 1, d)
  {
    hide VerdictAt;
    forall k: nat | |samples| - (n + 1) <= k < |samples| ensures Says(c, samples, k) == d {
      if k < |samples| - 1 {
        assert Says(c, samples[..|samples| - 1], k) == d;
        assert samples[..|samples| - 1][..k + 1] == samples[..k + 1];
      } else {
        assert samples[..k + 1] == samples;
      }
    }
  }

  lemma {:induction false} StreaksMean(c: Config, samples: seq<Sample>)
    requires ValidConfig(c)
    ensures StreakMeans(c, samples, After(c, samples))
  {
    hide Slope, Direction, Stuck, Scored;
    if samples != [] {
      var before := After(c, samples[..|samples| - 1]);
      StreaksMean(c, samples[..|samples| - 1]);
      var d := VerdictAt(c, samples);
      if before.direction == d {
        AgreeingGrows(c, samples, before.streak, d);
      }
      AgreeingGrows(c, samples, 0, d);
    }
  }

  /** DRIFT is raised only after driftWindow valid samples in a row whose trends all point one way. */
  lemma DriftNeedsAgreement(c: Config, samples: seq<Sample>)
    requires ValidConfig(c) && samples != [] && FlagsAt(c, samples).drift
    ensures c.driftWindow <= |samples|
    ensures exists d :: d in {-1, 1} && Agreeing(c, samples, c.driftWindow, d)
    ensures forall k :: |samples| - c.driftWindow <= k < |samples| ==> Usable(samples[k])
  {
    hide Slope, Stuck, Scored, Agreeing, VerdictAt;
    StreaksMean(c, samples);
    DriftStreak(c, samples);
    AgreeingUsable(c, samples, After(c, samples).streak, After(c, samples).direction, c.driftWindow);
  }

  lemma DriftStreak(c: Config, samples: seq<Sample>)
    requires ValidConfig(c) && samples != [] && FlagsAt(c, samples).drift
    ensures After(c, samples).streak >= c.driftWindow && After(c, samples).direction in {-1, 1}
  {
    hide Slope, Stuck;
  }

  lemma AgreeingUsable(c: Config, samples: seq<Sample>, n: nat, d: int, m: nat)
    requires Agreeing(c, samples, n, d) && m <= n && d != 0
    ensures m <= |samples| && Agreeing(c, samples, m, d)
    ensures forall k :: |samples| - m <= k < |samples| ==> Usable(samples[k])
  {
    forall k | |samples| - m <= k < |samples| ensures Usable(samples[k]) {
      assert Says(c, samples, k) == d;
      assert samples[..k + 1][k] == samples[k];
    }
  }

  class ChannelTrust {
    const config: Config
    var window: seq<Point>
    var last: Option<real>
    var spikeReference: Option<real>
    var invalid: nat
    var direction: int
    var streak: nat

    ghost function View(): Channel
      reads this
    {
      Channel(window, last, spikeReference, invalid, direction, streak)
    }

    constructor (config: Config)
      ensures this.config == config && View() == NEW_CHANNEL
    {
      this.config := config;
      window, last, spikeReference, invalid, direction, streak := [], None, None, 0, 0, 0;
    }

    /** A jump away from the last value, or the return from one. */
    method CheckSpike(v: real) returns (spike: bool)
      modifies this`spikeReference
      ensures var was := old(spikeReference);
              var returned := was.Some? && Abs(v - was.value) <= config.spikeThreshold;
              var jumped := !returned && last.Some? && Abs(v - last.value) > config.spikeThreshold;
              spike == (returned || jumped) && spikeReference == if jumped then last else None
    {
      hide Abs;
      spike := spikeReference.Some? && Abs(v - spikeReference.value) <= config.spikeThreshold;
      spikeReference := None;
      if !spike && last.Some? && Abs(v - last.value) > config.spikeThreshold {
        spike, spikeReference := true, last;
      }
    }

    method CheckDrift() returns (drift: bool)
      modifies this`direction, this`streak
      ensures var trend := Trend(config, window);
              && View() == Trended(old(View()), trend)
              && drift == (trend.Some? && trend.value != 0 && streak >= config.driftWindow)
    {
      hide Slope, Tail, Abs;
      drift := false;
      if |window| >= config.driftWindow {
        var slope := Slope(Tail(window, config.driftWindow));
        if Abs(slope) > config.driftThreshold {
          var d := if slope > 0.0 then 1 else -1;
          streak, direction := if d == direction then streak + 1 else 1, d;
          drift := streak >= config.driftWindow;
        } else {
          streak, direction := 0, 0;
        }
      }
    }

    method Update(s: Sample) returns (r: Result)
      requires ValidConfig(config)
      modifies this
      ensures (View(), r) == Updated(config, old(View()), s)
    {
      hide Trend, Stuck, Pushed, Capacity, Abs, Scored, ValidConfig;
      if !s.valid || s.value == None {
        invalid, streak, direction := invalid + 1, 0, 0;
        return Scored(NO_FLAGS.(missing := invalid >= config.missingLimit));
      }
      var v := s.value.value;
      invalid := 0;
      var range := !(config.minValue <= v <= config.maxValue);
      var spike := CheckSpike(v);
      window := Pushed(window, Point(s.time, v), Capacity(config));
      var stuck := Stuck(config, window);
      var drift := CheckDrift();
      last := Some(v);
      r := Scored(Flags(range, stuck, spike, drift, false));
    }
  }
}
