// The affine estimator's regression, over exact reals: residual sums, the
// fitted line, and why it is the least-squares line of its window.
module LeastSquares {
  import opened Numbers

  datatype Point = Point(x: real, y: real)

  ghost function Sum<T>(f: T -> real, p: seq<T>): real {
    if p == [] then 0.0 else Sum(f, p[..|p| - 1]) + f(p[|p| - 1])
  }

  // Zero stands in for the slope of a window without variance.
  function Quotient(covariance: real, variance: real): real {
    if variance > 0.0 then covariance / variance else 0.0
  }

  function LineAt(intercept: real, slope: real, x: real): real { intercept + slope * x }

  function PointX(q: Point): real { q.x }
  function PointY(q: Point): real { q.y }

  function CrossDeviation(q: Point, mx: real, my: real): real { (q.x - mx) * (q.y - my) }
  function SquareDeviation(q: Point, mx: real): real { (q.x - mx) * (q.x - mx) }
  function Residual(q: Point, a: real, b: real): real { q.y - (a + b * q.x) }

  function Deviation(q: Point, mx: real): real { q.x - mx }
  ghost function DeviationOf(mx: real): Point -> real { q => Deviation(q, mx) }
  ghost function CrossOf(mx: real, my: real): Point -> real { q => CrossDeviation(q, mx, my) }
  ghost function SquareOf(mx: real): Point -> real { q => SquareDeviation(q, mx) }
  ghost function ResidualOf(a: real, b: real): Point -> real { q => Residual(q, a, b) }
  ghost function SquaredResidualOf(a: real, b: real): Point -> real {
    q => Residual(q, a, b) * Residual(q, a, b)
  }
  // The residual weighted by the distance from the mean abscissa.
  ghost function MomentOf(a: real, b: real, mx: real): Point -> real {
    q => Residual(q, a, b) * (q.x - mx)
  }

  ghost function MeanX(p: seq<Point>): real requires p != [] { Sum(PointX, p) / |p| as real }
  ghost function MeanY(p: seq<Point>): real requires p != [] { Sum(PointY, p) / |p| as real }
  ghost function Covariance(p: seq<Point>): real requires p != [] {
    Sum(CrossOf(MeanX(p), MeanY(p)), p)
  }
  ghost function Variance(p: seq<Point>): real requires p != [] {
    Sum(SquareOf(MeanX(p)), p)
  }
  ghost function Slope(p: seq<Point>): real requires p != [] {
    Quotient(Covariance(p), Variance(p))
  }
  ghost function Intercept(p: seq<Point>): real requires p != [] {
    MeanY(p) - Slope(p) * MeanX(p)
  }
  // Value of the fitted line.
  ghost function Fit(p: seq<Point>, x: real): real requires p != [] {
    LineAt(Intercept(p), Slope(p), x)
  }

  ghost function MaxResidual(p: seq<Point>, a: real, b: real): real {
    if p == [] then 0.0
    else
      var rest := MaxResidual(p[..|p| - 1], a, b);
      var last := RealMagnitude(Residual(p[|p| - 1], a, b));
      if last > rest then last else rest
  }

  ghost function SquaredError(p: seq<Point>, a: real, b: real): real {
    Sum(SquaredResidualOf(a, b), p)
  }

  // ---- sums ----

  lemma {:induction false} SumIsNonNegative<T(!new)>(f: T -> real, p: seq<T>)
    requires forall q :: f(q) >= 0.0
    ensures Sum(f, p) >= 0.0
    ensures forall q :: q in p ==> Sum(f, p) >= f(q)
  {
    if p != [] {
      SumIsNonNegative(f, p[..|p| - 1]);
      assert p == p[..|p| - 1] + [p[|p| - 1]];
    }
  }

  lemma {:induction false} SumAppend<T>(f: T -> real, p: seq<T>, q: seq<T>)
    ensures Sum(f, p + q) == Sum(f, p) + Sum(f, q)
  {
    if q == [] {
      assert p + q == p;
    } else {
      var front := q[..|q| - 1];
      SumAppend(f, p, front);
      assert (p + q)[..|p + q| - 1] == p + front;
    }
  }

  lemma {:induction false} SumPointwise<S, T>(f: S -> real, p: seq<S>, g: T -> real, q: seq<T>)
    requires |p| == |q|
    requires forall i :: 0 <= i < |p| ==> f(p[i]) == g(q[i])
    ensures Sum(f, p) == Sum(g, q)
  {
    if p != [] {
      SumPointwise(f, p[..|p| - 1], g, q[..|q| - 1]);
    }
  }

  lemma SumOfPrefix<T>(f: T -> real, q: seq<T>, k: nat)
    requires k < |q|
    ensures Sum(f, q[..k + 1]) == Sum(f, q[..k]) + f(q[k])
  {
    assert q[..k + 1][..k] == q[..k];
  }

  lemma SumWithout<T>(f: T -> real, q: seq<T>, k: nat)
    requires k < |q|
    ensures Sum(f, q) == Sum(f, q[..k] + q[k + 1..]) + f(q[k])
  {
    hide *;
    SumAppend(f, q[..k], q[k + 1..]);
    SumAppend(f, q[..k + 1], q[k + 1..]);
    SumOfPrefix(f, q, k);
    assert q == q[..k + 1] + q[k + 1..];
  }

  lemma MultisetWithout<T>(q: seq<T>, k: nat)
    requires k < |q|
    ensures multiset(q) == multiset(q[..k] + q[k + 1..]) + multiset{q[k]}
  {
    assert q == q[..k] + [q[k]] + q[k + 1..];
  }

  lemma CancelOne<T>(a: multiset<T>, b: multiset<T>, x: T)
    requires a + multiset{x} == b + multiset{x}
    ensures a == b
  {
    assert a == a + multiset{x} - multiset{x} && b == b + multiset{x} - multiset{x};
  }

  lemma RestIsPermuted<T>(p: seq<T>, q: seq<T>, k: nat)
    requires p != [] && multiset(p) == multiset(q) && k < |q| && q[k] == p[0]
    ensures multiset(p[..0] + p[1..]) == multiset(q[..k] + q[k + 1..])
  {
    hide *;
    MultisetWithout(p, 0);
    MultisetWithout(q, k);
    CancelOne(multiset(p[..0] + p[1..]), multiset(q[..k] + q[k + 1..]), p[0]);
  }

  // The order of the samples does not matter to any sum.
  lemma {:induction false} SumIgnoresOrder<T>(f: T -> real, p: seq<T>, q: seq<T>)
    requires multiset(p) == multiset(q)
    ensures Sum(f, p) == Sum(f, q)
    decreases |p|
  {
    hide *;
    if p == [] {
      assert |q| == |multiset(q)| == 0;
    } else {
      assert p[0] in multiset(q);
      var k :| 0 <= k < |q| && q[k] == p[0];
      RestIsPermuted(p, q, k);
      SumIgnoresOrder(f, p[..0] + p[1..], q[..k] + q[k + 1..]);
      SumWithout(f, p, 0);
      SumWithout(f, q, k);
    }
  }

  ghost predicate IsLinearIn(
    f: Point -> real, k: real,
    c1: real, g1: Point -> real, c2: real, g2: Point -> real, c3: real, g3: Point -> real,
    c4: real, g4: Point -> real, c5: real, g5: Point -> real)
  {
    forall q :: f(q) == k + c1 * g1(q) + c2 * g2(q) + c3 * g3(q) + c4 * g4(q) + c5 * g5(q)
  }

  // Sums are linear in the summed function.
  lemma {:induction false} SumIsLinear(
    p: seq<Point>, f: Point -> real, k: real,
    c1: real, g1: Point -> real, c2: real, g2: Point -> real, c3: real, g3: Point -> real,
    c4: real, g4: Point -> real, c5: real, g5: Point -> real)
    requires IsLinearIn(f, k, c1, g1, c2, g2, c3, g3, c4, g4, c5, g5)
    ensures Sum(f, p) == |p| as real * k + c1 * Sum(g1, p) + c2 * Sum(g2, p) + c3 * Sum(g3, p)
                         + c4 * Sum(g4, p) + c5 * Sum(g5, p)
  {
    if p != [] {
      var front, q := p[..|p| - 1], p[|p| - 1];
      SumIsLinear(front, f, k, c1, g1, c2, g2, c3, g3, c4, g4, c5, g5);
      Distribute(k, |front| as real, 1.0);
      Distribute(c1, Sum(g1, front), g1(q));
      Distribute(c2, Sum(g2, front), g2(q));
      Distribute(c3, Sum(g3, front), g3(q));
      Distribute(c4, Sum(g4, front), g4(q));
      Distribute(c5, Sum(g5, front), g5(q));
    }
  }

  lemma Distribute(k: real, u: real, v: real)
    ensures k * (u + v) == k * u + k * v
  {
  }

  lemma SquareIsNonNegative(z: real)
    ensures z * z >= 0.0
    ensures z * z == 0.0 ==> z == 0.0
  {
    if z > 0.0 {
      ScaledIsNonNegative(z, z);
    } else if z < 0.0 {
      ScaledIsNonNegative(-z, -z);
      assert z * z == (-z) * (-z);
    }
  }

  lemma ScaledIsNonNegative(k: real, z: real)
    requires k >= 0.0 && z >= 0.0
    ensures k * z >= 0.0
    ensures k * z == 0.0 ==> k == 0.0 || z == 0.0
  {
    if k > 0.0 && z > 0.0 { assert k * z > 0.0; }
  }

  lemma SumOfDeviations(p: seq<Point>, m: real)
    ensures Sum(DeviationOf(m), p) == |p| as real * -m + Sum(PointX, p)
  {
    SumIsLinear(p, DeviationOf(m), -m, 1.0, PointX, 0.0, PointX, 0.0, PointX, 0.0, PointX, 0.0, PointX);
  }

  lemma SumOfResiduals(p: seq<Point>, a: real, b: real)
    ensures Sum(ResidualOf(a, b), p) == |p| as real * -a + Sum(PointY, p) + -b * Sum(PointX, p)
  {
    forall q: Point ensures Residual(q, a, b) == -a + 1.0 * q.y + -b * q.x {
      assert -b * q.x == -(b * q.x);
    }
    SumIsLinear(p, ResidualOf(a, b), -a, 1.0, PointY, -b, PointX, 0.0, PointX, 0.0, PointX, 0.0, PointX);
  }

  lemma MomentAtPoint(q: Point, mx: real, my: real, b: real)
    ensures Residual(q, my - b * mx, b) * (q.x - mx)
         == CrossDeviation(q, mx, my) + -b * SquareDeviation(q, mx)
  {
    var z, w := q.x - mx, q.y - my;
    assert Residual(q, my - b * mx, b) == w - b * z by {
      Distribute(b, z, mx);
    }
    assert (w - b * z) * z == z * w + -b * (z * z);
  }

  lemma MomentIsLinear(mx: real, my: real, a: real, b: real)
    requires a == my - b * mx
    ensures IsLinearIn(MomentOf(a, b, mx), 0.0, 1.0, CrossOf(mx, my), -b, SquareOf(mx),
                       0.0, PointX, 0.0, PointX, 0.0, PointX)
  {
    forall q: Point
      ensures MomentOf(a, b, mx)(q) == CrossOf(mx, my)(q) + -b * SquareOf(mx)(q)
    {
      MomentAtPoint(q, mx, my, b);
    }
  }

  // With the intercept chosen so that the line passes through the means, the
  // residual moments are what is left of the covariance.
  lemma SumOfMoments(p: seq<Point>, mx: real, my: real, a: real, b: real)
    requires a == my - b * mx
    ensures Sum(MomentOf(a, b, mx), p) == Sum(CrossOf(mx, my), p) + -b * Sum(SquareOf(mx), p)
  {
    MomentIsLinear(mx, my, a, b);
    SumIsLinear(p, MomentOf(a, b, mx), 0.0, 1.0, CrossOf(mx, my), -b, SquareOf(mx),
                0.0, PointX, 0.0, PointX, 0.0, PointX);
  }

  lemma SquareOfSum(r: real, d: real, e: real, z: real)
    ensures (r + d + e * z) * (r + d + e * z)
         == d * d + r * r + (e * e) * (z * z) + (2.0 * d) * r + (2.0 * e) * (r * z) + (2.0 * d * e) * z
  {
    var w := e * z;
    assert (r + d + w) * (r + d + w) == r * r + d * d + w * w + 2.0 * d * r + 2.0 * (r * w) + 2.0 * d * w;
    assert w * w == (e * e) * (z * z);
    assert r * w == e * (r * z);
  }

  lemma ResidualShift(q: Point, a0: real, b0: real, mx: real, a: real, b: real, d: real, e: real)
    requires e == b0 - b && d == (a0 - a) + e * mx
    ensures Residual(q, a, b) == Residual(q, a0, b0) + d + e * (q.x - mx)
  {
    Distribute(e, q.x - mx, mx);
    Distribute(q.x, b, e);
  }

  lemma ErrorAtPoint(q: Point, a0: real, b0: real, mx: real, a: real, b: real, d: real, e: real)
    requires e == b0 - b && d == (a0 - a) + e * mx
    ensures Residual(q, a, b) * Residual(q, a, b)
         == d * d + Residual(q, a0, b0) * Residual(q, a0, b0) + (e * e) * SquareDeviation(q, mx)
            + (2.0 * d) * Residual(q, a0, b0) + (2.0 * e) * (Residual(q, a0, b0) * (q.x - mx))
            + (2.0 * d * e) * Deviation(q, mx)
  {
    ResidualShift(q, a0, b0, mx, a, b, d, e);
    SquareOfSum(Residual(q, a0, b0), d, e, q.x - mx);
  }

  lemma ErrorInTerms(q: Point, a0: real, b0: real, mx: real, a: real, b: real, d: real, e: real)
    requires e == b0 - b && d == (a0 - a) + e * mx
    ensures SquaredResidualOf(a, b)(q)
         == d * d + 1.0 * SquaredResidualOf(a0, b0)(q) + (e * e) * SquareOf(mx)(q)
            + (2.0 * d) * ResidualOf(a0, b0)(q) + (2.0 * e) * MomentOf(a0, b0, mx)(q)
            + (2.0 * d * e) * DeviationOf(mx)(q)
  {
    hide Residual, SquareDeviation, Deviation;
    ErrorAtPoint(q, a0, b0, mx, a, b, d, e);
    assert SquaredResidualOf(a, b)(q) == Residual(q, a, b) * Residual(q, a, b);
    assert SquaredResidualOf(a0, b0)(q) == Residual(q, a0, b0) * Residual(q, a0, b0);
    assert MomentOf(a0, b0, mx)(q) == Residual(q, a0, b0) * (q.x - mx);
  }

  lemma ErrorIsLinear(a0: real, b0: real, mx: real, a: real, b: real, d: real, e: real)
    requires e == b0 - b && d == (a0 - a) + e * mx
    ensures IsLinearIn(SquaredResidualOf(a, b), d * d, 1.0, SquaredResidualOf(a0, b0),
                       e * e, SquareOf(mx), 2.0 * d, ResidualOf(a0, b0), 2.0 * e, MomentOf(a0, b0, mx),
                       2.0 * d * e, DeviationOf(mx))
  {
    hide Residual, SquareDeviation, Deviation, SquaredResidualOf, SquareOf, ResidualOf, MomentOf, DeviationOf;
    forall q: Point
      ensures SquaredResidualOf(a, b)(q)
           == d * d + 1.0 * SquaredResidualOf(a0, b0)(q) + (e * e) * SquareOf(mx)(q)
              + (2.0 * d) * ResidualOf(a0, b0)(q) + (2.0 * e) * MomentOf(a0, b0, mx)(q)
              + (2.0 * d * e) * DeviationOf(mx)(q)
    {
      ErrorInTerms(q, a0, b0, mx, a, b, d, e);
    }
  }

  // The squared error of any line, expanded around a reference line.
  lemma ErrorExpansion(p: seq<Point>, a0: real, b0: real, mx: real, a: real, b: real, d: real, e: real)
    requires e == b0 - b && d == (a0 - a) + e * mx
    ensures SquaredError(p, a, b)
         == |p| as real * (d * d) + 1.0 * SquaredError(p, a0, b0)
            + (e * e) * Sum(SquareOf(mx), p)
            + (2.0 * d) * Sum(ResidualOf(a0, b0), p)
            + (2.0 * e) * Sum(MomentOf(a0, b0, mx), p)
            + (2.0 * d * e) * Sum(DeviationOf(mx), p)
  {
    hide Sum, SquareOf, ResidualOf, MomentOf, DeviationOf, SquaredResidualOf, IsLinearIn;
    ErrorIsLinear(a0, b0, mx, a, b, d, e);
    SumIsLinear(p, SquaredResidualOf(a, b), d * d, 1.0, SquaredResidualOf(a0, b0),
                e * e, SquareOf(mx), 2.0 * d, ResidualOf(a0, b0), 2.0 * e, MomentOf(a0, b0, mx),
                2.0 * d * e, DeviationOf(mx));
  }

  lemma SquaresAreNonNegative(p: seq<Point>, mx: real)
    ensures Sum(SquareOf(mx), p) >= 0.0
    ensures forall q :: q in p ==> Sum(SquareOf(mx), p) >= SquareDeviation(q, mx) >= 0.0
  {
    forall q: Point ensures SquareOf(mx)(q) >= 0.0 {
      SquareIsNonNegative(q.x - mx);
    }
    SumIsNonNegative(SquareOf(mx), p);
    forall q | q in p ensures Sum(SquareOf(mx), p) >= SquareDeviation(q, mx) >= 0.0 {
      assert SquareOf(mx)(q) >= 0.0;
    }
  }

  // A window whose raw stamps all coincide has no covariance either.
  lemma {:induction false} NoVarianceNoCovariance(p: seq<Point>, mx: real, my: real)
    requires Sum(SquareOf(mx), p) <= 0.0
    ensures Sum(CrossOf(mx, my), p) == 0.0 && Sum(SquareOf(mx), p) == 0.0
  {
    SquaresAreNonNegative(p, mx);
    if p != [] {
      var front, q := p[..|p| - 1], p[|p| - 1];
      SquaresAreNonNegative(front, mx);
      assert q in p;
      SquareIsNonNegative(q.x - mx);
      assert q.x - mx == 0.0;
      NoVarianceNoCovariance(front, mx, my);
      assert CrossDeviation(q, mx, my) == 0.0;
    }
  }

  lemma MeanTimesCount(total: real, n: real)
    requires n != 0.0
    ensures n * (total / n) == total && (total / n) * n == total
  {
  }

  lemma SumsAtMeans(n: real, sx: real, sy: real, mx: real, my: real, a: real, b: real)
    requires n * mx == sx && n * my == sy && a == my - b * mx
    ensures n * -mx + sx == 0.0
    ensures n * -a + sy + -b * sx == 0.0
  {
    assert n * (my - b * mx) == n * my - b * (n * mx);
  }

  lemma Cancels(b: real, square: real, cross: real)
    requires b * square == cross
    ensures cross + -b * square == 0.0
  {
  }

  // Residuals that sum to zero, unweighted and weighted by the deviation from
  // the mean abscissa.
  ghost predicate Normal(p: seq<Point>, mx: real, a: real, b: real) {
    && Sum(ResidualOf(a, b), p) == 0.0
    && Sum(MomentOf(a, b, mx), p) == 0.0
    && Sum(DeviationOf(mx), p) == 0.0
  }

  lemma NormalEquations(p: seq<Point>, mx: real, my: real, a: real, b: real)
    requires |p| as real * mx == Sum(PointX, p) && |p| as real * my == Sum(PointY, p)
    requires b * Sum(SquareOf(mx), p) == Sum(CrossOf(mx, my), p)
    requires a == my - b * mx
    ensures Normal(p, mx, a, b)
  {
    hide Sum, SquareOf, ResidualOf, MomentOf, DeviationOf, CrossOf;
    SumsAtMeans(|p| as real, Sum(PointX, p), Sum(PointY, p), mx, my, a, b);
    Cancels(b, Sum(SquareOf(mx), p), Sum(CrossOf(mx, my), p));
    SumOfDeviations(p, mx);
    SumOfResiduals(p, a, b);
    SumOfMoments(p, mx, my, a, b);
  }

  lemma QuotientTimes(covariance: real, variance: real)
    requires variance > 0.0 || covariance == variance == 0.0
    ensures Quotient(covariance, variance) * variance == covariance
  {
  }

  lemma SlopeExplainsCovariance(p: seq<Point>)
    requires p != []
    ensures Slope(p) * Sum(SquareOf(MeanX(p)), p) == Sum(CrossOf(MeanX(p), MeanY(p)), p)
  {
    hide Quotient, Sum, MeanX, MeanY;
    if Variance(p) <= 0.0 {
      NoVarianceNoCovariance(p, MeanX(p), MeanY(p));
    }
    QuotientTimes(Covariance(p), Variance(p));
  }

  lemma MeansTimesCount(p: seq<Point>)
    requires p != []
    ensures |p| as real * MeanX(p) == Sum(PointX, p)
    ensures |p| as real * MeanY(p) == Sum(PointY, p)
  {
    MeanTimesCount(Sum(PointX, p), |p| as real);
    MeanTimesCount(Sum(PointY, p), |p| as real);
  }

  lemma InterceptAtMeans(p: seq<Point>)
    requires p != []
    ensures Intercept(p) == MeanY(p) - Slope(p) * MeanX(p)
  {
  }

  // The fitted line satisfies the normal equations of its window.
  lemma FitIsNormal(p: seq<Point>)
    requires p != []
    ensures Normal(p, MeanX(p), Intercept(p), Slope(p))
  {
    hide *;
    MeansTimesCount(p);
    SlopeExplainsCovariance(p);
    InterceptAtMeans(p);
    NormalEquations(p, MeanX(p), MeanY(p), Intercept(p), Slope(p));
  }

  // Against a line with normal residuals, every other line pays for the shift
  // of its height at the mean and for the change of its slope.
  lemma ErrorOfOtherLine(p: seq<Point>, mx: real, a0: real, b0: real, a: real, b: real, d: real, e: real)
    requires Normal(p, mx, a0, b0)
    requires e == b0 - b && d == (a0 - a) + e * mx
    ensures SquaredError(p, a, b)
         == SquaredError(p, a0, b0) + |p| as real * (d * d) + (e * e) * Sum(SquareOf(mx), p)
  {
    ErrorExpansion(p, a0, b0, mx, a, b, d, e);
  }

  // No affine function has a smaller squared error over the window than the
  // fitted line, whether or not the window has any variance; with variance,
  // every other line is strictly worse.
  lemma FitIsLeastSquares(p: seq<Point>, a: real, b: real)
    requires p != []
    ensures SquaredError(p, Intercept(p), Slope(p)) <= SquaredError(p, a, b)
    ensures Variance(p) > 0.0 && SquaredError(p, a, b) == SquaredError(p, Intercept(p), Slope(p))
            ==> a == Intercept(p) && b == Slope(p)
  {
    hide *;
    var mx, e := MeanX(p), Slope(p) - b;
    var d := (Intercept(p) - a) + e * mx;
    FitIsNormal(p);
    ErrorOfOtherLine(p, mx, Intercept(p), Slope(p), a, b, d, e);
    SquaresAreNonNegative(p, mx);
    assert Variance(p) == Sum(SquareOf(mx), p) by { VarianceAtMean(p); }
    SquareIsNonNegative(d);
    SquareIsNonNegative(e);
    ScaledIsNonNegative(|p| as real, d * d);
    ScaledIsNonNegative(e * e, Variance(p));
    if Variance(p) > 0.0 && SquaredError(p, a, b) == SquaredError(p, Intercept(p), Slope(p)) {
      assert e == 0.0 && d == 0.0;
      assert e * mx == 0.0;
    }
  }

  lemma VarianceAtMean(p: seq<Point>)
    requires p != []
    ensures Variance(p) == Sum(SquareOf(MeanX(p)), p)
  {
  }

  // A window in which two raw stamps differ has variance.
  lemma DistinctAbscissasGiveVariance(p: seq<Point>, i: nat, j: nat)
    requires i < |p| && j < |p| && p[i].x != p[j].x
    ensures Variance(p) > 0.0
  {
    var mx := MeanX(p);
    SquaresAreNonNegative(p, mx);
    VarianceAtMean(p);
    var k := if p[i].x != mx then i else j;
    assert p[k] in p && p[k].x - mx != 0.0;
    SquareIsNonNegative(p[k].x - mx);
    assert SquareDeviation(p[k], mx) > 0.0;
  }

  lemma ErrorBoundsResiduals(p: seq<Point>, a: real, b: real)
    ensures SquaredError(p, a, b) >= 0.0
    ensures SquaredError(p, a, b) == 0.0 ==> forall q :: q in p ==> Residual(q, a, b) == 0.0
  {
    forall q: Point ensures SquaredResidualOf(a, b)(q) >= 0.0 {
      SquareIsNonNegative(Residual(q, a, b));
    }
    SumIsNonNegative(SquaredResidualOf(a, b), p);
    forall q | q in p && SquaredError(p, a, b) == 0.0 ensures Residual(q, a, b) == 0.0 {
      assert SquaredResidualOf(a, b)(q) <= 0.0;
      SquareIsNonNegative(Residual(q, a, b));
    }
  }

  lemma {:induction false} ExactLineHasNoError(p: seq<Point>, a: real, b: real)
    requires forall q :: q in p ==> q.y == a + b * q.x
    ensures SquaredError(p, a, b) == 0.0
  {
    if p != [] {
      assert p[|p| - 1] in p;
      assert forall q :: q in p[..|p| - 1] ==> q in p;
      ExactLineHasNoError(p[..|p| - 1], a, b);
    }
  }

  lemma {:induction false} ZeroResidualsGiveZeroMaximum(p: seq<Point>, a: real, b: real)
    requires forall q :: q in p ==> Residual(q, a, b) == 0.0
    ensures MaxResidual(p, a, b) == 0.0
  {
    if p != [] {
      assert p[|p| - 1] in p;
      assert forall q :: q in p[..|p| - 1] ==> q in p;
      ZeroResidualsGiveZeroMaximum(p[..|p| - 1], a, b);
    }
  }

  // Collinear samples with two distinct abscissas are recovered exactly: the
  // fit is their line and no sample has a residual.
  lemma CollinearSamplesAreRecovered(p: seq<Point>, a: real, b: real, i: nat, j: nat)
    requires i < |p| && j < |p| && p[i].x != p[j].x
    requires forall q :: q in p ==> q.y == LineAt(a, b, q.x)
    ensures Intercept(p) == a && Slope(p) == b
    ensures MaxResidual(p, Intercept(p), Slope(p)) == 0.0
  {
    DistinctAbscissasGiveVariance(p, i, j);
    ExactLineHasNoError(p, a, b);
    FitIsLeastSquares(p, a, b);
    ErrorBoundsResiduals(p, Intercept(p), Slope(p));
    ZeroResidualsGiveZeroMaximum(p, Intercept(p), Slope(p));
  }

  // MaxResidual is the least upper bound of the residual magnitudes.
  lemma {:induction false} MaxResidualIsMaximum(p: seq<Point>, a: real, b: real)
    ensures MaxResidual(p, a, b) >= 0.0
    ensures forall q :: q in p ==> RealMagnitude(Residual(q, a, b)) <= MaxResidual(p, a, b)
    ensures p != [] ==> exists i :: 0 <= i < |p| && RealMagnitude(Residual(p[i], a, b)) == MaxResidual(p, a, b)
  {
    if p != [] {
      var front := p[..|p| - 1];
      MaxResidualIsMaximum(front, a, b);
      assert p == front + [p[|p| - 1]];
      if MaxResidual(p, a, b) == RealMagnitude(Residual(p[|p| - 1], a, b)) {
      } else {
        var i :| 0 <= i < |front| && RealMagnitude(Residual(front[i], a, b)) == MaxResidual(front, a, b);
        assert p[i] == front[i];
      }
    }
  }
}
