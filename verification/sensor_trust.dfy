/** The firmware's ring-buffer detector, and its refinement of the list-based reference. */
module SensorTrustRing {
  import opened Wrappers
  import opened TrustReference

  /** A stored sample; time in milliseconds. */
  datatype Stored = Stored(value: real, ms: nat)

  function Seconds(ms: nat): real {
    ms as real / 1000.0
  }

  function PointOf(p: Stored): Point {
    Point(Seconds(p.ms), p.value)
  }

  // ---- the ring ----------------------------------------------------------------------------------------

  /** Where the i-th oldest of the stored points is. */
  function Index(head: nat, i: nat, capacity: nat): (k: nat)
    requires head < capacity && i < capacity
    ensures k < capacity && k == if head + i < capacity then head + i else head + i - capacity
  {
    Wrap(head + i, capacity);
    (head + i) % capacity
  }

  lemma Wrap(n: nat, capacity: nat)
    requires capacity > 0 && n < 2 * capacity
    ensures n % capacity == if n < capacity then n else n - capacity
  {
    if n >= capacity {
      ModuloOfNext(n - capacity, capacity);
    }
  }

  lemma ModuloOfNext(m: nat, capacity: nat)
    requires m < capacity
    ensures (m + capacity) % capacity == m
  {
    assert (m + capacity) / capacity == 1 by {
      assert m + capacity == 1 * capacity + m;
    }
  }

  /** The stored points, oldest first. */
  function Listed(ring: seq<Stored>, head: nat, count: nat, capacity: nat): (s: seq<Point>)
    requires head < capacity && count <= capacity <= |ring|
    ensures |s| == count && forall i :: 0 <= i < count ==> s[i] == PointOf(ring[Index(head, i, capacity)])
  {
    seq(count, i requires 0 <= i < count => PointOf(ring[Index(head, i, capacity)]))
  }

  /** A point put behind the newest one, or over the oldest one, is a point pushed to the list. */
  lemma PushIsListPush(ring: seq<Stored>, head: nat, count: nat, capacity: nat, p: Stored)
    requires head < capacity && count <= capacity <= |ring| && capacity >= 1
    ensures count < capacity ==>
              Listed(ring[Index(head, count, capacity) := p], head, count + 1, capacity)
              == Pushed(Listed(ring, head, count, capacity), PointOf(p), capacity)
    ensures count == capacity ==>
              Listed(ring[head := p], (head + 1) % capacity, count, capacity)
              == Pushed(Listed(ring, head, count, capacity), PointOf(p), capacity)
  {
    hide Seconds;
    var was := Listed(ring, head, count, capacity);
    if count < capacity {
      var now := Listed(ring[Index(head, count, capacity) := p], head, count + 1, capacity);
      assert now == was + [PointOf(p)];
    } else {
      Wrap(head + 1, capacity);
      var next := (head + 1) % capacity;
      var now := Listed(ring[head := p], next, count, capacity);
      forall i | 0 <= i < count ensures now[i] == (was[1..] + [PointOf(p)])[i] {
        if i < count - 1 {
          assert Index(next, i, capacity) == Index(head, i + 1, capacity) != head;
        } else {
          assert Index(next, i, capacity) == head;
        }
      }
    }
  }

  // ---- the normalised fit --------------------------------------------------------------------------------

  function Quotient(a: real, k: real): real
    requires k != 0.0
  {
    a / k
  }

  lemma QuotientLaws(a: real, b: real, k: real)
    requires k > 0.0
    ensures Quotient(a, k) + Quotient(b, k) == Quotient(a + b, k)
            && Quotient(a, k) - Quotient(b, k) == Quotient(a - b, k)
    ensures Quotient(0.0, k) == 0.0
  {
  }

  lemma QuotientOfProduct(a: real, b: real, k: real)
    requires k > 0.0
    ensures Product(Quotient(a, k), b) == Quotient(Product(a, b), k)
    ensures Product(b, Quotient(a, k)) == Quotient(Product(b, a), k)
  {
    var q := Quotient(a, k);
    assert q * k == a;
    assert (q * b) * k == a * b;
  }

  lemma QuotientPositive(a: real, k: real)
    requires k > 0.0 && a > 0.0
    ensures Quotient(a, k) > 0.0
  {
  }

  /** The points with their times measured in spans. */
  function Scaled(s: seq<Point>, span: real): (r: seq<Point>)
    requires span > 0.0
    ensures |r| == |s| && forall i :: 0 <= i < |s| ==> r[i] == Point(Quotient(s[i].time, span), s[i].value)
  {
    seq(|s|, i requires 0 <= i < |s| => Point(Quotient(s[i].time, span), s[i].value))
  }

  lemma ScaledFront(s: seq<Point>, span: real)
    requires span > 0.0 && s != []
    ensures Scaled(s, span)[..|s| - 1] == Scaled(s[..|s| - 1], span)
  {
  }

  lemma {:induction false} ScaledSums(s: seq<Point>, span: real)
    requires span > 0.0
    ensures SumTime(Scaled(s, span)) == Quotient(SumTime(s), span) && SumValue(Scaled(s, span)) == SumValue(s)
  {
    hide Quotient;
    QuotientLaws(0.0, 0.0, span);
    if s != [] {
      ScaledFront(s, span);
      ScaledSums(s[..|s| - 1], span);
      QuotientLaws(SumTime(s[..|s| - 1]), s[|s| - 1].time, span);
    }
  }

  lemma {:induction false} ScaledCovariance(s: seq<Point>, span: real, t: real, v: real)
    requires span > 0.0
    ensures Covariance(Scaled(s, span), Quotient(t, span), v) == Quotient(Covariance(s, t, v), span)
  {
    hide Quotient, Product;
    QuotientLaws(0.0, 0.0, span);
    if s != [] {
      var p := s[|s| - 1];
      ScaledFront(s, span);
      ScaledCovariance(s[..|s| - 1], span, t, v);
      QuotientLaws(p.time, t, span);
      QuotientOfProduct(p.time - t, p.value - v, span);
      QuotientLaws(Covariance(s[..|s| - 1], t, v), Product(p.time - t, p.value - v), span);
    }
  }

  lemma {:induction false} ScaledVariance(s: seq<Point>, span: real, t: real)
    requires span > 0.0
    ensures Variance(Scaled(s, span), Quotient(t, span)) == Quotient(Quotient(Variance(s, t), span), span)
  {
    hide Quotient, Product;
    QuotientLaws(0.0, 0.0, span);
    if s != [] {
      var d := s[|s| - 1].time - t;
      var w := Variance(s[..|s| - 1], t);
      ScaledFront(s, span);
      ScaledVariance(s[..|s| - 1], span, t);
      QuotientLaws(s[|s| - 1].time, t, span);
      QuotientOfProduct(d, Quotient(d, span), span);
      QuotientOfProduct(d, d, span);
      QuotientLaws(w, Product(d, d), span);
      QuotientLaws(Quotient(w, span), Quotient(Product(d, d), span), span);
    }
  }

  lemma SlopeOfQuotients(c: real, w: real, k: real)
    requires k > 0.0 && w > 0.0
    ensures Quotient(Quotient(w, k), k) > 0.0
    ensures Quotient(Quotient(Quotient(c, k), Quotient(Quotient(w, k), k)), k) == c / w
  {
    var a, b := Quotient(c, k), Quotient(Quotient(w, k), k);
    QuotientPositive(w, k);
    QuotientPositive(Quotient(w, k), k);
    assert a * k == c;
    assert b * k == Quotient(w, k) && Quotient(w, k) * k == w;
    assert (b * k) * k == w;
    var q := Quotient(a, b);
    assert q * b == a;
    var r := Quotient(q, k);
    assert r * k == q;
    CancelSpans(r, q, a, b, c, w, k);
  }

  lemma CancelSpans(r: real, q: real, a: real, b: real, c: real, w: real, k: real)
    requires w > 0.0 && r * k == q && q * b == a && a * k == c && (b * k) * k == w
    ensures r == c / w
  {
    assert (r * k) * b == a;
    assert ((r * k) * b) * k == c;
    assert r * ((b * k) * k) == ((r * k) * b) * k;
    assert r * w == c;
  }

  lemma MeanOfQuotient(sum: real, n: nat, span: real)
    requires n > 0 && span > 0.0
    ensures Mean(Quotient(sum, span), n) == Quotient(Mean(sum, n), span)
  {
    var m := n as real;
    assert (sum / span) / m == (sum / m) / span by {
      assert (sum / span) * span == sum && (sum / m) * m == sum;
      Commute(sum / span, sum / m, m, span, sum);
    }
  }

  lemma Commute(a: real, b: real, m: real, k: real, s: real)
    requires m > 0.0 && k > 0.0 && a * k == s && b * m == s
    ensures a / m == b / k
  {
    var x := a / m;
    assert x * m == a;
    assert (x * m) * k == b * m;
    assert (x * k) * m == b * m;
    assert x * k == b;
  }

  /** Fitting over the normalised span and undoing the scaling gives the slope per second. */
  lemma NormalisedFit(x: seq<Point>, span: real)
    requires span > 0.0 && |x| >= 2 && x[0].time != x[1].time
    ensures var s := Scaled(x, span);
            var t, v := Mean(SumTime(s), |x|), Mean(SumValue(s), |x|);
            var m := Mean(SumTime(x), |x|);
            && Variance(x, m) > 0.0 && Variance(s, t) > 0.0
            && Quotient(Quotient(Covariance(s, t, v), Variance(s, t)), span)
               == Covariance(x, m, Mean(SumValue(x), |x|)) / Variance(x, m)
  {
    hide Quotient, Covariance, Variance, SumTime, SumValue, Mean;
    var m, v := Mean(SumTime(x), |x|), Mean(SumValue(x), |x|);
    VariancePositive(x, m);
    ScaledSums(x, span);
    MeanOfQuotient(SumTime(x), |x|, span);
    ScaledCovariance(x, span, m, v);
    ScaledVariance(x, span, m);
    SlopeOfQuotients(Covariance(x, m, v), Variance(x, m), span);
  }

  /** Time passed between two stored points, in spans. */
  lemma OffsetInSpans(ms: nat, first: nat, span: nat)
    requires first <= ms && span > 0
    ensures Seconds(span) > 0.0
    ensures (ms - first) as real / (span as real) == Quotient(Seconds(ms) - Seconds(first), Seconds(span))
  {
    var a, k := (ms - first) as real, span as real;
    assert Seconds(ms) - Seconds(first) == a / 1000.0;
    assert (a / k) * k == a;
    var q := (a / 1000.0) / (k / 1000.0);
    assert q * (k / 1000.0) == a / 1000.0;
    assert q * k == a;
  }

  lemma SecondsOrder(a: nat, b: nat)
    ensures Seconds(a) < Seconds(b) <==> a < b
  {
  }

  // ---- the detector ----------------------------------------------------------------------------------------

  /** A sample of the firmware; a value that is no finite number is None. */
  datatype Reading = Reading(value: Option<real>, valid: bool, ms: nat)

  function SampleOf(r: Reading): Sample {
    Sample(r.value, Seconds(r.ms), r.valid)
  }

  const UNREADY := Result(0, FAULT, NO_FLAGS.(missing := true))

  class SensorTrust {
    const config: Config
    const ring: array<Stored>
    var initialised: bool
    var capacity: nat
    var count: nat
    var head: nat
    var consecutiveInvalid: nat
    var hasLastValid: bool
    var lastValidValue: real
    var spikePending: bool
    var spikeReference: real
    var driftStreak: nat
    var driftDirection: int
    var lastResult: Result
    /** Invalid samples without the saturation of consecutiveInvalid. */
    ghost var invalid: nat

    ghost predicate Valid()
      reads this, ring
    {
      && initialised && ValidConfig(config) && ring.Length == MAX_WINDOW
      && capacity == Capacity(config) && 1 <= capacity <= MAX_WINDOW && count <= capacity && head < capacity
      && consecutiveInvalid == if invalid < INT_MAX then invalid else INT_MAX
    }

    /** The stored points, oldest first. */
    ghost function Points(): seq<Point>
      requires Valid()
      reads this, ring
    {
      Listed(ring[..], head, count, capacity)
    }

    ghost function View(): Channel
      requires Valid()
      reads this, ring
    {
      Channel(Points(), if hasLastValid then Some(lastValidValue) else None,
              if spikePending then Some(spikeReference) else None, invalid, driftDirection, driftStreak)
    }

    /** sensor_trust_init: an invalid configuration leaves the context unusable. */
    constructor (config: Config)
      ensures this.config == config && initialised == ValidConfig(config)
      ensures initialised ==> Valid() && View() == NEW_CHANNEL && lastResult == Result(100, HEALTHY, NO_FLAGS)
    {
      this.config := config;
      ring := new Stored[MAX_WINDOW](_ => Stored(0.0, 0));
      initialised := ValidConfig(config);
      capacity, count, head := Capacity(config), 0, 0;
      consecutiveInvalid, hasLastValid, lastValidValue := 0, false, 0.0;
      spikePending, spikeReference, driftStreak, driftDirection := false, 0.0, 0, 0;
      lastResult, invalid := Result(100, HEALTHY, NO_FLAGS), 0;
      new;
    }

    method WindowPush(value: real, ms: nat)
      requires Valid()
      modifies this`count, this`head, ring
      ensures Valid() && View() == old(View()).(window := Pushed(old(View()).window, Point(Seconds(ms), value),
                                                                       Capacity(config)))
    {
      hide ValidConfig, Capacity, Pushed, Listed;
      PushIsListPush(ring[..], head, count, capacity, Stored(value, ms));
      ghost var was := ring[..];
      if count < capacity {
        var index := Index(head, count, capacity);
        ring[index] := Stored(value, ms);
        assert ring[..] == was[index := Stored(value, ms)];
        count := count + 1;
      } else {
        ring[head] := Stored(value, ms);
        assert ring[..] == was[head := Stored(value, ms)];
        head := (head + 1) % capacity;
      }
    }

    /** The i-th oldest of the last n points. */
    function TailPoint(n: nat, i: nat): Stored
      requires i < n <= count <= capacity <= ring.Length && head < capacity
      reads this, ring
    {
      ring[Index(head, count - n + i, capacity)]
    }

    lemma TailAt(n: nat, i: nat)
      requires Valid() && i < n <= count
      ensures count <= capacity <= ring.Length && head < capacity && |Points()| == count && |Tail(Points(), n)| == n
      ensures Tail(Points(), n)[i].value == TailPoint(n, i).value
      ensures Tail(Points(), n)[i].time == Seconds(TailPoint(n, i).ms)
    {
      hide ValidConfig, Capacity, Seconds;
    }

    /** Highest and lowest of the last n values. */
    method Extremes(n: nat) returns (low: real, high: real)
      requires Valid() && 0 < n <= count
      ensures low == Lowest(Tail(Points(), n)) && high == Highest(Tail(Points(), n))
    {
      hide Valid, Points, Tail, TailPoint, Lowest, Highest, Seconds;
      TailAt(n, 0);
      ghost var tail := Tail(Points(), n);
      low, high := TailPoint(n, 0).value, TailPoint(n, 0).value;
      FirstExtremes(tail);
      for i := 1 to n
        invariant low == Lowest(tail[..i]) && high == Highest(tail[..i])
      {
        TailAt(n, i);
        var v := TailPoint(n, i).value;
        NextExtremes(tail, i);
        if v < low {
          low := v;
        }
        if v > high {
          high := v;
        }
      }
      assert tail[..n] == tail;
    }

    /** Whether the clock moved forward over the last n points. */
    method MovesForward(n: nat) returns (r: bool)
      requires Valid() && 2 <= n <= count
      ensures r <==> Forward(Tail(Points(), n))
      ensures r ==> forall i :: 0 <= i < n ==> TailPoint(n, 0).ms <= TailPoint(n, i).ms
      ensures r ==> TailPoint(n, 0).ms < TailPoint(n, 1).ms && TailPoint(n, 0).ms < TailPoint(n, n - 1).ms
    {
      hide Valid, Points, Tail, TailPoint, Seconds;
      TailAt(n, 0);
      ghost var tail := Tail(Points(), n);
      for i := 1 to n
        invariant forall j :: 0 < j < i ==> tail[j - 1].time < tail[j].time
        invariant forall j :: 0 < j < i ==> TailPoint(n, 0).ms < TailPoint(n, j).ms
      {
        TailAt(n, i - 1);
        TailAt(n, i);
        SecondsOrder(TailPoint(n, i - 1).ms, TailPoint(n, i).ms);
        if TailPoint(n, i).ms <= TailPoint(n, i - 1).ms {
          return false;
        }
      }
      r := true;
    }

    /** window_slope_per_second over the reals. */
    method SlopePerSecond(n: nat) returns (slope: real)
      requires Valid() && 2 <= n <= count
      ensures slope == Slope(Tail(Points(), n))
    {
      hide Valid, Points, Tail, TailPoint, Seconds, Variance, Covariance, SumTime, SumValue, Fitted;
      TailAt(n, 0);
      TailAt(n, 1);
      ghost var tail := Tail(Points(), n);
      var forward := MovesForward(n);
      if !forward {
        return 0.0;
      }
      var first := TailPoint(n, 0).ms;
      var spanMs := TailPoint(n, n - 1).ms - first;
      var span := Seconds(spanMs);
      OffsetInSpans(first, first, spanMs);
      ghost var x := Shifted(tail, tail[0].time);
      ghost var scaled := Scaled(x, span);
      FitReady(n, first, spanMs);
      var sumX, sumY := Sums(n, first, spanMs, x, scaled);
      var meanX, meanY := sumX / n as real, sumY / n as real;
      var numerator, denominator := Deviations(n, first, spanMs, x, scaled, meanX, meanY);
      SecondsOrder(first, TailPoint(n, 1).ms);
      NormalisedFit(x, span);
      slope := (numerator / denominator) / span;
    }

    lemma FitReady(n: nat, first: nat, spanMs: nat)
      requires Valid() && 2 <= n <= count && spanMs > 0 && Seconds(spanMs) > 0.0
      requires first == TailPoint(n, 0).ms && forall i :: 0 <= i < n ==> first <= TailPoint(n, i).ms
      ensures |Points()| == count && |Tail(Points(), n)| == n
      ensures var x := Shifted(Tail(Points(), n), Tail(Points(), n)[0].time);
              Fitted(n, first, spanMs, x, Scaled(x, Seconds(spanMs)))
    {
      hide ValidConfig, Capacity, Seconds, Listed;
    }

    /** The points of the fit are the scaled points of the tail. */
    ghost predicate Fitted(n: nat, first: nat, spanMs: nat, x: seq<Point>, scaled: seq<Point>)
      reads this, ring
    {
      && Valid() && 2 <= n <= count && spanMs > 0 && Seconds(spanMs) > 0.0
      && first == TailPoint(n, 0).ms && (forall i :: 0 <= i < n ==> first <= TailPoint(n, i).ms)
      && x == Shifted(Tail(Points(), n), Tail(Points(), n)[0].time) && scaled == Scaled(x, Seconds(spanMs))
    }

    lemma FittedPoint(n: nat, first: nat, spanMs: nat, x: seq<Point>, scaled: seq<Point>, i: nat)
      requires Fitted(n, first, spanMs, x, scaled) && i < n
      ensures |scaled| == n && scaled[i].value == TailPoint(n, i).value
      ensures scaled[i].time == (TailPoint(n, i).ms - first) as real / spanMs as real
    {
      hide ValidConfig, Capacity, Listed, Seconds, Points, Tail, TailPoint, Quotient;
      TailAt(n, 0);
      TailAt(n, i);
      OffsetInSpans(TailPoint(n, i).ms, first, spanMs);
    }

    method Sums(n: nat, first: nat, spanMs: nat, ghost x: seq<Point>, ghost scaled: seq<Point>)
      returns (sumX: real, sumY: real)
      requires Fitted(n, first, spanMs, x, scaled)
      ensures |scaled| == n && sumX == SumTime(scaled) && sumY == SumValue(scaled)
    {
      hide Fitted;
      sumX, sumY := 0.0, 0.0;
      FittedBounds(n, first, spanMs, x, scaled);
      FittedPoint(n, first, spanMs, x, scaled, 0);
      for i := 0 to n
        invariant sumX == SumTime(scaled[..i]) && sumY == SumValue(scaled[..i])
      {
        FittedPoint(n, first, spanMs, x, scaled, i);
        sumX := sumX + (TailPoint(n, i).ms - first) as real / spanMs as real;
        sumY := sumY + TailPoint(n, i).value;
        assert scaled[..i + 1][..i] == scaled[..i];
      }
      assert scaled[..n] == scaled;
    }

    lemma FittedBounds(n: nat, first: nat, spanMs: nat, x: seq<Point>, scaled: seq<Point>)
      requires Fitted(n, first, spanMs, x, scaled)
      ensures 2 <= n <= count <= capacity <= ring.Length && head < capacity && spanMs > 0
    {
    }

    method Deviations(n: nat, first: nat, spanMs: nat, ghost x: seq<Point>, ghost scaled: seq<Point>, meanX: real,
                      meanY: real)
      returns (numerator: real, denominator: real)
      requires Fitted(n, first, spanMs, x, scaled)
      ensures numerator == Covariance(scaled, meanX, meanY) && denominator == Variance(scaled, meanX)
    {
      hide Fitted;
      numerator, denominator := 0.0, 0.0;
      FittedBounds(n, first, spanMs, x, scaled);
      FittedPoint(n, first, spanMs, x, scaled, 0);
      for i := 0 to n
        invariant numerator == Covariance(scaled[..i], meanX, meanY) && denominator == Variance(scaled[..i], meanX)
      {
        FittedPoint(n, first, spanMs, x, scaled, i);
        var dx := (TailPoint(n, i).ms - first) as real / spanMs as real - meanX;
        var dy := TailPoint(n, i).value - meanY;
        numerator := numerator + Product(dx, dy);
        denominator := denominator + Product(dx, dx);
        assert scaled[..i + 1][..i] == scaled[..i];
      }
      assert scaled[..n] == scaled;
    }

    /** The spike part of detect_on_valid_sample. */
    method CheckSpike(v: real) returns (spike: bool)
      requires Valid()
      modifies this`spikePending, this`spikeReference
      ensures Valid()
      ensures var was, last := old(View()).spikeReference, old(View()).last;
              var returned := was.Some? && Abs(v - was.value) <= config.spikeThreshold;
              var jumped := !returned && last.Some? && Abs(v - last.value) > config.spikeThreshold;
              spike == (returned || jumped) && View() == old(View()).(spikeReference := if jumped then last else None)
    {
      hide Listed;
      var returned := false;
      if spikePending {
        returned := Abs(v - spikeReference) <= config.spikeThreshold;
        spikePending := false;
      }
      spike := returned;
      if !returned {
        var jump := if hasLastValid then Abs(v - lastValidValue) else 0.0;
        if jump > config.spikeThreshold {
          spike, spikePending, spikeReference := true, true, lastValidValue;
        }
      }
    }

    method CheckStuck() returns (stuck: bool)
      requires Valid()
      ensures stuck == Stuck(config, View().window)
    {
      hide Listed, Highest, Lowest, Tail, Capacity;
      stuck := false;
      if count >= config.stuckWindow {
        var low, high := Extremes(config.stuckWindow);
        stuck := high - low < config.stuckEpsilon;
      }
    }

    method CheckDrift() returns (drift: bool)
      requires Valid()
      modifies this`driftStreak, this`driftDirection
      ensures Valid() && View() == Trended(old(View()), Trend(config, old(View()).window))
      ensures var trend := Trend(config, old(View()).window);
              drift == (trend.Some? && trend.value != 0 && View().streak >= config.driftWindow)
    {
      hide Listed, Slope, Tail, Capacity, Abs;
      drift := false;
      if count >= config.driftWindow {
        var slope := SlopePerSecond(config.driftWindow);
        if Abs(slope) > config.driftThreshold {
          var direction := if slope > 0.0 then 1 else -1;
          if direction == driftDirection {
            driftStreak := driftStreak + 1;
          } else {
            driftDirection, driftStreak := direction, 1;
          }
          drift := driftStreak >= config.driftWindow;
        } else {
          driftStreak, driftDirection := 0, 0;
        }
      }
    }

    /** A usable value: the detectors in the order of detect_on_valid_sample. */
    method Detect(v: real, ms: nat) returns (f: Flags)
      requires Valid()
      modifies this, ring
      ensures Valid() && (View(), f) == Valued(config, old(View()), v, Seconds(ms))
    {
      hide Valid, View, Trend, Stuck, Pushed, Abs, Seconds, Capacity;
      var range := v < config.minValue || v > config.maxValue;
      var spike := CheckSpike(v);
      WindowPush(v, ms);
      var stuck := CheckStuck();
      var drift := CheckDrift();
      Remember(v);
      f := Flags(range, stuck, spike, drift, false);
    }

    method Remember(v: real)
      requires Valid()
      modifies this`consecutiveInvalid, this`invalid, this`lastValidValue, this`hasLastValid
      ensures Valid() && View() == old(View()).(invalid := 0, last := Some(v))
    {
      hide Listed;
      consecutiveInvalid, invalid, lastValidValue, hasLastValid := 0, 0, v, true;
    }

    /** No usable value: the missing count goes up and a trend ends. */
    method Miss() returns (f: Flags)
      requires Valid()
      modifies this`consecutiveInvalid, this`invalid, this`driftStreak, this`driftDirection
      ensures Valid()
      ensures View() == old(View()).(invalid := old(invalid) + 1, streak := 0, direction := 0)
      ensures f == NO_FLAGS.(missing := invalid >= config.missingLimit)
    {
      hide Listed;
      if consecutiveInvalid < INT_MAX {
        consecutiveInvalid := consecutiveInvalid + 1;
      }
      invalid := invalid + 1;
      driftStreak, driftDirection := 0, 0;
      f := NO_FLAGS.(missing := consecutiveInvalid >= config.missingLimit);
    }

    /** sensor_trust_update: the same result and the same channel as the reference. */
    method Update(r: Reading) returns (result: Result)
      requires initialised ==> Valid()
      modifies this, ring
      ensures lastResult == result && (!old(initialised) ==> !initialised && result == UNREADY)
      ensures old(initialised) ==> Valid() && (View(), result) == Updated(config, old(View()), SampleOf(r))
    {
      hide Valued, Scored, Seconds, Listed, ValidConfig, Capacity;
      if !initialised {
        lastResult := UNREADY;
        return UNREADY;
      }
      var f: Flags;
      if r.valid && r.value.Some? {
        f := Detect(r.value.value, r.ms);
      } else {
        f := Miss();
      }
      result := Scored(f);
      lastResult := result;
    }
  }

  lemma FirstExtremes(s: seq<Point>)
    requires s != []
    ensures Lowest(s[..1]) == s[0].value && Highest(s[..1]) == s[0].value
  {
  }

  lemma NextExtremes(s: seq<Point>, i: nat)
    requires 0 < i < |s|
    ensures Lowest(s[..i + 1]) == if s[i].value < Lowest(s[..i]) then s[i].value else Lowest(s[..i])
    ensures Highest(s[..i + 1]) == if s[i].value > Highest(s[..i]) then s[i].value else Highest(s[..i])
  {
    assert s[..i + 1][..i] == s[..i];
  }
}
