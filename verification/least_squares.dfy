/** The slope of the drift detector is the slope of the one line that fits best. */
module LeastSquares {
  import opened TrustReference

  function Deviation(p: Point, a: real, b: real): real {
    p.value - (a + Product(b, p.time))
  }

  /** Sum of the squared distances of the values from the line a + b * time. */
  function Errors(s: seq<Point>, a: real, b: real): real {
    if s == [] then 0.0
    else Errors(s[..|s| - 1], a, b) + Product(Deviation(s[|s| - 1], a, b), Deviation(s[|s| - 1], a, b))
  }

  function Residual(s: seq<Point>, a: real, b: real): real {
    if s == [] then 0.0 else Residual(s[..|s| - 1], a, b) + Deviation(s[|s| - 1], a, b)
  }

  function Moment(s: seq<Point>, a: real, b: real): real {
    if s == [] then 0.0 else Moment(s[..|s| - 1], a, b) + Product(Deviation(s[|s| - 1], a, b), s[|s| - 1].time)
  }

  function Height(p: Point, a: real, b: real): real {
    a + Product(b, p.time)
  }

  /** Sum of the squared distances of two lines at the times of the points. */
  function Gap(s: seq<Point>, a: real, b: real): real {
    if s == [] then 0.0
    else Gap(s[..|s| - 1], a, b) + Product(Height(s[|s| - 1], a, b), Height(s[|s| - 1], a, b))
  }

  lemma Laws(a: real, x: real, y: real)
    ensures Product(a, x + y) == Product(a, x) + Product(a, y) && Product(a, x - y) == Product(a, x) - Product(a, y)
    ensures Product(x, a) == Product(a, x) && Product(a, 0.0) == 0.0 && Product(1.0, a) == a
  {
  }

  lemma Associative(a: real, x: real, y: real)
    ensures Product(Product(a, x), y) == Product(a, Product(x, y))
  {
    assert (a * x) * y == a * (x * y);
  }

  // ---- the normal equations --------------------------------------------------------------------------------

  lemma ResidualTerm(p: Point, t: real, v: real, b: real)
    ensures Deviation(p, v - Product(b, t), b) == (p.value - v) - Product(b, p.time - t)
  {
    hide Product;
    Laws(b, p.time, t);
  }

  lemma {:induction false} ResidualSum(s: seq<Point>, t: real, v: real, b: real)
    ensures Residual(s, v - Product(b, t), b)
            == (SumValue(s) - Product(|s| as real, v)) - Product(b, SumTime(s) - Product(|s| as real, t))
  {
    hide Product, Deviation;
    if s != [] {
      var n := |s| - 1;
      var k := n as real;
      ResidualSum(s[..n], t, v, b);
      ResidualTerm(s[n], t, v, b);
      OneMore(k, v);
      OneMore(k, t);
      Laws(b, SumTime(s[..n]) - Product(k, t), s[n].time - t);
    } else {
      Laws(v, 0.0, 0.0);
      Laws(t, 0.0, 0.0);
      Laws(b, 0.0, 0.0);
    }
  }

  lemma OneMore(k: real, v: real)
    ensures Product(k + 1.0, v) == Product(k, v) + v
  {
  }

  lemma MomentTerm(p: Point, t: real, v: real, b: real)
    ensures Product(Deviation(p, v - Product(b, t), b), p.time)
            == Product(p.time - t, p.value - v) - Product(b, Product(p.time - t, p.time - t))
               + Product(t, Deviation(p, v - Product(b, t), b))
  {
    hide Product, Deviation;
    var x, y, d := p.time - t, p.value - v, Deviation(p, v - Product(b, t), b);
    ResidualTerm(p, t, v, b);
    Laws(d, x, t);
    Laws(t, d, d);
    Laws(x, y, Product(b, x));
    Laws(x, d, d);
    Laws(d, x, x);
    Laws(x, Product(b, x), y);
    Laws(Product(b, x), x, x);
    Associative(b, x, x);
  }

  lemma {:induction false} MomentSum(s: seq<Point>, t: real, v: real, b: real)
    ensures Moment(s, v - Product(b, t), b)
            == Covariance(s, t, v) - Product(b, Variance(s, t)) + Product(t, Residual(s, v - Product(b, t), b))
  {
    hide Product, Deviation;
    if s != [] {
      var n := |s| - 1;
      MomentSum(s[..n], t, v, b);
      MomentTerm(s[n], t, v, b);
      Laws(b, Variance(s[..n], t), Product(s[n].time - t, s[n].time - t));
      Laws(t, Residual(s[..n], v - Product(b, t), b), Deviation(s[n], v - Product(b, t), b));
    } else {
      Laws(b, 0.0, 0.0);
      Laws(t, 0.0, 0.0);
    }
  }

  lemma MeanTimes(sum: real, n: nat)
    requires n > 0
    ensures Product(n as real, Mean(sum, n)) == sum
  {
  }

  lemma QuotientTimes(c: real, w: real)
    requires w > 0.0
    ensures Product(c / w, w) == c
  {
  }

  /** At the means the residuals add up to nothing, and so do their moments. */
  lemma NormalEquations(s: seq<Point>)
    requires |s| >= 2 && s[0].time != s[1].time
    ensures var t, v := Mean(SumTime(s), |s|), Mean(SumValue(s), |s|);
            && Variance(s, t) > 0.0
            && var b := Covariance(s, t, v) / Variance(s, t);
               Residual(s, v - Product(b, t), b) == 0.0 && Moment(s, v - Product(b, t), b) == 0.0
  {
    hide Residual, Moment, Covariance, Variance, SumTime, SumValue, Product, Mean;
    var t, v := Mean(SumTime(s), |s|), Mean(SumValue(s), |s|);
    VariancePositive(s, t);
    var b := Covariance(s, t, v) / Variance(s, t);
    QuotientTimes(Covariance(s, t, v), Variance(s, t));
    ResidualSum(s, t, v, b);
    MomentSum(s, t, v, b);
    MeanTimes(SumTime(s), |s|);
    MeanTimes(SumValue(s), |s|);
    Laws(b, 0.0, 0.0);
    Laws(t, 0.0, 0.0);
  }

  // ---- the best line ---------------------------------------------------------------------------------------

  lemma SquareOfSum(d: real, g: real)
    ensures Product(d + g, d + g) == Product(d, d) + 2.0 * Product(d, g) + Product(g, g)
  {
    hide Product;
    Laws(d + g, d, g);
    Laws(d, d, g);
    Laws(g, d, g);
    Laws(d, d + g, d);
    Laws(g, d + g, d);
  }

  lemma ErrorTerm(p: Point, a: real, b: real, x: real, y: real)
    ensures Product(Deviation(p, x, y), Deviation(p, x, y))
            == Product(Deviation(p, a, b), Deviation(p, a, b))
               + 2.0 * (Product(a - x, Deviation(p, a, b)) + Product(b - y, Product(Deviation(p, a, b), p.time)))
               + Product(Height(p, a - x, b - y), Height(p, a - x, b - y))
  {
    hide Product;
    var d, g, t := Deviation(p, a, b), Height(p, a - x, b - y), p.time;
    Laws(t, b, y);
    Laws(b, t, t);
    Laws(y, t, t);
    Laws(b - y, t, t);
    Laws(t, b - y, y);
    Laws(t, b, b);
    assert Deviation(p, x, y) == d + g;
    SquareOfSum(d, g);
    Laws(d, a - x, Product(b - y, t));
    Laws(a - x, d, d);
    Laws(Product(b - y, t), d, d);
    Associative(b - y, t, d);
    Laws(d, t, t);
    Laws(t, d, d);
  }

  lemma {:induction false} ErrorSum(s: seq<Point>, a: real, b: real, x: real, y: real)
    ensures Errors(s, x, y)
            == Errors(s, a, b) + 2.0 * (Product(a - x, Residual(s, a, b)) + Product(b - y, Moment(s, a, b)))
               + Gap(s, a - x, b - y)
  {
    hide Product, Deviation, Height;
    if s != [] {
      var n := |s| - 1;
      ErrorSum(s[..n], a, b, x, y);
      ErrorTerm(s[n], a, b, x, y);
      Laws(a - x, Residual(s[..n], a, b), Deviation(s[n], a, b));
      Laws(b - y, Moment(s[..n], a, b), Product(Deviation(s[n], a, b), s[n].time));
    } else {
      Laws(a - x, 0.0, 0.0);
      Laws(b - y, 0.0, 0.0);
    }
  }

  lemma {:induction false} GapNonNegative(s: seq<Point>, a: real, b: real)
    ensures Gap(s, a, b) >= 0.0
  {
    hide Product, Height;
    if s != [] {
      GapNonNegative(s[..|s| - 1], a, b);
      Square(Height(s[|s| - 1], a, b));
    }
  }

  /** Two lines of different slope do not meet at two times. */
  lemma {:induction false} GapPositive(s: seq<Point>, a: real, b: real)
    requires |s| >= 2 && s[0].time != s[1].time && b != 0.0
    ensures Gap(s, a, b) > 0.0
  {
    hide Product, Height;
    var n := |s| - 1;
    Square(Height(s[n], a, b));
    if n == 1 {
      var one := s[..1];
      assert one[..0] == [] && one[0] == s[0];
      assert Gap(one[..0], a, b) == 0.0;
      assert Gap(one, a, b) == Product(Height(s[0], a, b), Height(s[0], a, b));
      Square(Height(s[0], a, b));
      DifferentHeights(s[0], s[1], a, b);
    } else {
      GapPositive(s[..n], a, b);
    }
  }

  lemma DifferentHeights(p: Point, q: Point, a: real, b: real)
    requires b != 0.0 && p.time != q.time
    ensures Height(p, a, b) != 0.0 || Height(q, a, b) != 0.0
  {
    hide Product;
    Laws(b, p.time, q.time);
    NonZero(b, p.time - q.time);
  }

  lemma NonZero(a: real, x: real)
    ensures a != 0.0 && x != 0.0 ==> Product(a, x) != 0.0
  {
  }

  /** The line a + b * time fits the points better than every line of another slope, and at least as well as any. */
  ghost predicate Best(s: seq<Point>, a: real, b: real) {
    forall x: real, y: real :: Errors(s, a, b) <= Errors(s, x, y) && (y != b ==> Errors(s, a, b) < Errors(s, x, y))
  }

  lemma NormalIsBest(s: seq<Point>, a: real, b: real)
    requires |s| >= 2 && s[0].time != s[1].time && Residual(s, a, b) == 0.0 && Moment(s, a, b) == 0.0
    ensures Best(s, a, b)
  {
    hide Errors, Residual, Moment, Gap, Product;
    forall x: real, y: real
      ensures Errors(s, a, b) <= Errors(s, x, y) && (y != b ==> Errors(s, a, b) < Errors(s, x, y))
    {
      ErrorSum(s, a, b, x, y);
      Laws(a - x, 0.0, 0.0);
      Laws(b - y, 0.0, 0.0);
      GapNonNegative(s, a - x, b - y);
      if y != b {
        GapPositive(s, a - x, b - y);
      }
    }
  }

  lemma {:induction false} ErrorsShifted(s: seq<Point>, start: real, a: real, b: real)
    ensures Errors(Shifted(s, start), a + Product(b, start), b) == Errors(s, a, b)
  {
    hide Product;
    if s != [] {
      var n := |s| - 1;
      assert Shifted(s, start)[..n] == Shifted(s[..n], start);
      ErrorsShifted(s[..n], start, a, b);
      Laws(b, s[n].time, start);
    }
  }

  /**
   * When the clock moved forward, the slope belongs to the line with the least sum of squared errors, and
   * no line of another slope reaches it.
   */
  lemma SlopeFits(s: seq<Point>)
    requires |s| >= 2 && Forward(s)
    ensures exists a :: Best(s, a, Slope(s))
  {
    hide Errors, Residual, Moment, Covariance, Variance, SumTime, SumValue, Mean, Product;
    var start := s[0].time;
    var x := Shifted(s, start);
    assert s[0].time < s[1].time;
    NormalEquations(x);
    var t, v := Mean(SumTime(x), |x|), Mean(SumValue(x), |x|);
    var b := Slope(s);
    var c := v - Product(b, t);
    NormalIsBest(x, c, b);
    BestShifted(s, start, c, b);
  }

  lemma BestShifted(s: seq<Point>, start: real, c: real, b: real)
    requires Best(Shifted(s, start), c, b)
    ensures Best(s, c - Product(b, start), b)
  {
    hide Errors, Product;
    var a := c - Product(b, start);
    ErrorsShifted(s, start, a, b);
    assert a + Product(b, start) == c;
    forall p: real, q: real
      ensures Errors(s, a, b) <= Errors(s, p, q) && (q != b ==> Errors(s, a, b) < Errors(s, p, q))
    {
      ErrorsShifted(s, start, p, q);
    }
  }

  // ---- what follows ----------------------------------------------------------------------------------------

  predicate Lies(p: Point, a: real, b: real) {
    p.value == a + b * p.time
  }

  predicate OnLine(s: seq<Point>, a: real, b: real) {
    forall i :: 0 <= i < |s| ==> Lies(s[i], a, b)
  }

  lemma {:induction false} NoErrors(s: seq<Point>, a: real, b: real)
    requires OnLine(s, a, b)
    ensures Errors(s, a, b) == 0.0
  {
    if s != [] {
      NoErrors(s[..|s| - 1], a, b);
    }
  }

  lemma {:induction false} ErrorsNonNegative(s: seq<Point>, a: real, b: real)
    ensures Errors(s, a, b) >= 0.0
  {
    if s != [] {
      ErrorsNonNegative(s[..|s| - 1], a, b);
      Square(Deviation(s[|s| - 1], a, b));
    }
  }

  /** Points on a line have the slope of that line. */
  lemma LineHasItsSlope(s: seq<Point>, a: real, b: real)
    requires |s| >= 2 && Forward(s) && OnLine(s, a, b)
    ensures Slope(s) == b
  {
    hide Errors, Slope;
    SlopeFits(s);
    var c :| Best(s, c, Slope(s));
    NoErrors(s, a, b);
    ErrorsNonNegative(s, c, Slope(s));
    assert Slope(s) != b ==> Errors(s, c, Slope(s)) < Errors(s, a, b);
  }

  function Raised(s: seq<Point>, k: real): (r: seq<Point>)
    ensures |r| == |s| && forall i :: 0 <= i < |s| ==> r[i] == Point(s[i].time, s[i].value + k)
  {
    seq(|s|, i requires 0 <= i < |s| => Point(s[i].time, s[i].value + k))
  }

  lemma {:induction false} ErrorsRaised(s: seq<Point>, k: real, a: real, b: real)
    ensures Errors(Raised(s, k), a + k, b) == Errors(s, a, b)
  {
    if s != [] {
      assert Raised(s, k)[..|s| - 1] == Raised(s[..|s| - 1], k);
      ErrorsRaised(s[..|s| - 1], k, a, b);
    }
  }

  /** An offset of the sensor does not change the slope. */
  lemma OffsetKeepsSlope(s: seq<Point>, k: real)
    requires |s| >= 2 && Forward(s)
    ensures Slope(Raised(s, k)) == Slope(s)
  {
    hide Errors, Slope;
    var r := Raised(s, k);
    SlopeFits(s);
    SlopeFits(r);
    var a :| Best(s, a, Slope(s));
    var c :| Best(r, c, Slope(r));
    ErrorsRaised(s, k, a, Slope(s));
    ErrorsRaised(s, k, c - k, Slope(r));
    assert c - k + k == c;
    assert Slope(r) != Slope(s) ==> Errors(s, a, Slope(s)) < Errors(s, c - k, Slope(r));
    assert Slope(r) != Slope(s) ==> Errors(r, c, Slope(r)) < Errors(r, a + k, Slope(s));
  }
}
