// The affine source-to-Session estimate of a sample window
// (src/core/clock_mapper.cpp:164-223), with `long double` read as `real`.
module Estimator {
  import opened Numbers
  import opened LeastSquares

  datatype Sample = Sample(rawNs: u64, sessionNs: u64)

  datatype Estimate = Estimate(
    offsetNs: i64,
    driftPpm: real,
    jitterNs: u64,
    uncertaintyNs: u64,
    mappedSessionNs: u64)

  // A sample as a regression point: its distance from an anchor stamp, and the
  // offset that takes its raw stamp to its Session stamp.
  function PointOf(s: Sample, anchor: real): Point {
    Point(s.rawNs as real - anchor, s.sessionNs as real - s.rawNs as real)
  }

  function Points(samples: seq<Sample>, anchor: real): (p: seq<Point>)
    ensures |p| == |samples|
    ensures forall i :: 0 <= i < |p| ==> p[i] == PointOf(samples[i], anchor)
  {
    seq(|samples|, i requires 0 <= i < |samples| => PointOf(samples[i], anchor))
  }

  ghost function AnchoredEstimate(samples: seq<Sample>, anchor: real, rawNs: u64, sourceUncertaintyNs: u64): Estimate
    requires samples != []
  {
    var p := Points(samples, anchor);
    var offset := Fit(p, rawNs as real - anchor);
    var jitter := RoundedUnsigned(MaxResidual(p, Intercept(p), Slope(p)));
    Estimate(RoundedSigned(offset), Slope(p) * 1000000.0, jitter,
             SaturatingAdd(sourceUncertaintyNs, jitter),
             RoundedUnsigned(rawNs as real + offset))
  }

  ghost function AffineEstimate(samples: seq<Sample>, rawNs: u64, sourceUncertaintyNs: u64): Estimate {
    if samples == [] then Estimate(0, 0.0, 0, 0, 0)
    else AnchoredEstimate(samples, samples[0].rawNs as real, rawNs, sourceUncertaintyNs)
  }

  function IdentityEstimate(rawNs: u64, sourceUncertaintyNs: u64): Estimate {
    Estimate(0, 0.0, 0, sourceUncertaintyNs, rawNs)
  }

  method EstimateAffine(samples: seq<Sample>, rawNs: u64, sourceUncertaintyNs: u64) returns (result: Estimate)
    ensures result == AffineEstimate(samples, rawNs, sourceUncertaintyNs)
  {
    if |samples| == 0 {
      return Estimate(0, 0.0, 0, 0, 0);
    }
    hide Sum, MaxResidual, RoundedUnsigned, RoundedSigned, Points, Slope, Intercept, LineAt;
    var anchor := samples[0].rawNs as real;
    var intercept, slope := FittedLine(samples, anchor);
    var currentX := rawNs as real - anchor;
    var currentOffset := LineAt(intercept, slope, currentX);
    var maxAbsoluteResidual := WorstResidual(samples, anchor, intercept, slope);

    var jitter := RoundedUnsigned(maxAbsoluteResidual);
    result := Estimate(RoundedSigned(currentOffset), slope * 1000000.0, jitter,
                       SaturatingAdd(sourceUncertaintyNs, jitter),
                       RoundedUnsigned(rawNs as real + currentOffset));
  }

  method FittedLine(samples: seq<Sample>, anchor: real) returns (intercept: real, slope: real)
    requires samples != []
    ensures intercept == Intercept(Points(samples, anchor)) && slope == Slope(Points(samples, anchor))
  {
    hide Sum, Points, MeanX, MeanY, Quotient;
    var meanX, meanY := Means(samples, anchor);
    var covariance, variance := Deviations(samples, anchor, meanX, meanY);
    slope := Quotient(covariance, variance);
    intercept := meanY - slope * meanX;
  }

  method Means(samples: seq<Sample>, anchor: real) returns (meanX: real, meanY: real)
    requires samples != []
    ensures meanX == MeanX(Points(samples, anchor)) && meanY == MeanY(Points(samples, anchor))
  {
    ghost var p := Points(samples, anchor);
    meanX, meanY := 0.0, 0.0;
    for i := 0 to |samples|
      invariant meanX == Sum(PointX, p[..i]) && meanY == Sum(PointY, p[..i])
    {
      SumOfPrefix(PointX, p, i);
      SumOfPrefix(PointY, p, i);
      var q := PointOf(samples[i], anchor);
      meanX := meanX + q.x;
      meanY := meanY + q.y;
    }
    assert p[..|samples|] == p;
    meanX := meanX / |samples| as real;
    meanY := meanY / |samples| as real;
  }

  method Deviations(samples: seq<Sample>, anchor: real, meanX: real, meanY: real)
    returns (covariance: real, variance: real)
    ensures covariance == Sum(CrossOf(meanX, meanY), Points(samples, anchor))
    ensures variance == Sum(SquareOf(meanX), Points(samples, anchor))
  {
    hide CrossDeviation, SquareDeviation;
    ghost var p := Points(samples, anchor);
    covariance, variance := 0.0, 0.0;
    for i := 0 to |samples|
      invariant covariance == Sum(CrossOf(meanX, meanY), p[..i])
      invariant variance == Sum(SquareOf(meanX), p[..i])
    {
      SumOfPrefix(CrossOf(meanX, meanY), p, i);
      SumOfPrefix(SquareOf(meanX), p, i);
      var q := PointOf(samples[i], anchor);
      covariance := covariance + CrossDeviation(q, meanX, meanY);
      variance := variance + SquareDeviation(q, meanX);
    }
    assert p[..|samples|] == p;
  }

  method WorstResidual(samples: seq<Sample>, anchor: real, intercept: real, slope: real)
    returns (worst: real)
    ensures worst == MaxResidual(Points(samples, anchor), intercept, slope)
  {
    hide Residual;
    ghost var p := Points(samples, anchor);
    worst := 0.0;
    for i := 0 to |samples|
      invariant worst == MaxResidual(p[..i], intercept, slope)
    {
      assert p[..i + 1][..i] == p[..i];
      var residual := RealMagnitude(Residual(PointOf(samples[i], anchor), intercept, slope));
      worst := if residual > worst then residual else worst;
    }
    assert p[..|samples|] == p;
  }

  // ---- what the estimate means ----

  // Rounding a value that lies within r of an integer leaves it within the
  // rounded r of that integer, with the stamp range's saturation included.
  lemma RoundingKeepsDistance(v: real, k: u64, r: real)
    requires RealMagnitude(k as real - v) <= r
    ensures Magnitude(RoundedUnsigned(v) - k) <= RoundedUnsigned(r)
  {
    if v <= 0.0 {
      assert k as real <= r;
      if r < U64_MAX as real && k > 0 {
        assert (r + 0.5).Floor >= k;
      }
    } else if v >= U64_MAX as real {
      assert (U64_MAX - k) as real <= r;
      if 0.0 < r < U64_MAX as real {
        assert (r + 0.5).Floor >= U64_MAX - k;
      }
    } else {
      var n := (v + 0.5).Floor;
      RoundsInside(v, 0, U64_MAX);
      if 0.0 < r < U64_MAX as real {
        var m := (r + 0.5).Floor;
        assert n as real - 0.5 <= v < n as real + 0.5;
        assert m as real - 0.5 <= r < m as real + 0.5;
        assert (n - k) as real < m as real + 1.0 && (k - n) as real < m as real + 1.0;
      }
    }
  }

  lemma ResidualBounds(p: seq<Point>, i: nat, a: real, b: real)
    requires i < |p|
    ensures RealMagnitude(p[i].y - (a + b * p[i].x)) <= MaxResidual(p, a, b)
  {
    hide Sum, MaxResidual;
    MaxResidualIsMaximum(p, a, b);
    assert p[i] in p;
    assert p[i].y - (a + b * p[i].x) == Residual(p[i], a, b);
  }

  // Every sample of the window maps, through the window's own estimate, to
  // within the reported jitter of the Session stamp it was fitted at.
  lemma WindowMapsWithinJitter(samples: seq<Sample>, i: nat, sourceUncertaintyNs: u64)
    requires i < |samples|
    ensures var e := AffineEstimate(samples, samples[i].rawNs, sourceUncertaintyNs);
            Magnitude(e.mappedSessionNs - samples[i].sessionNs) <= e.jitterNs
  {
    hide Sum, MaxResidual, RoundedUnsigned, RoundedSigned, Points, Slope, Intercept;
    var anchor := samples[0].rawNs as real;
    var p := Points(samples, anchor);
    ResidualBounds(p, i, Intercept(p), Slope(p));
    var v := samples[i].rawNs as real + Fit(p, p[i].x);
    RoundingKeepsDistance(v, samples[i].sessionNs, MaxResidual(p, Intercept(p), Slope(p)));
  }

  // ---- independence of anchor and order ----

  lemma OrderKeepsSums(f: Point -> real, s: seq<Sample>, t: seq<Sample>, anchor: real)
    requires multiset(s) == multiset(t)
    ensures Sum(f, Points(s, anchor)) == Sum(f, Points(t, anchor))
  {
    hide Sum;
    var g := (q: Sample) => f(PointOf(q, anchor));
    SumPointwise(f, Points(s, anchor), g, s);
    SumPointwise(f, Points(t, anchor), g, t);
    SumIgnoresOrder(g, s, t);
  }

  lemma OrderBoundsMaximum(s: seq<Sample>, t: seq<Sample>, anchor: real, a: real, b: real)
    requires multiset(s) == multiset(t)
    ensures MaxResidual(Points(s, anchor), a, b) <= MaxResidual(Points(t, anchor), a, b)
  {
    hide MaxResidual, Residual;
    var p, q := Points(s, anchor), Points(t, anchor);
    MaxResidualIsMaximum(p, a, b);
    MaxResidualIsMaximum(q, a, b);
    if p == [] {
      assert |t| == |multiset(t)| == 0;
    } else {
      var i :| 0 <= i < |p| && RealMagnitude(Residual(p[i], a, b)) == MaxResidual(p, a, b);
      assert s[i] in multiset(t);
      var j :| 0 <= j < |t| && t[j] == s[i];
      assert q[j] in q && q[j] == p[i];
    }
  }

  lemma OrderKeepsFit(s: seq<Sample>, t: seq<Sample>, anchor: real)
    requires s != [] && multiset(s) == multiset(t)
    ensures t != []
    ensures var p, q := Points(s, anchor), Points(t, anchor);
            Slope(p) == Slope(q) && Intercept(p) == Intercept(q)
  {
    hide Sum, PointX, PointY, CrossOf, SquareOf, Quotient, Points;
    assert |s| == |multiset(s)| == |t|;
    var p := Points(s, anchor);
    OrderKeepsSums(PointX, s, t, anchor);
    OrderKeepsSums(PointY, s, t, anchor);
    OrderKeepsSums(CrossOf(MeanX(p), MeanY(p)), s, t, anchor);
    OrderKeepsSums(SquareOf(MeanX(p)), s, t, anchor);
  }

  // Permuting the window changes nothing.
  lemma OrderKeepsEstimate(s: seq<Sample>, t: seq<Sample>, anchor: real, rawNs: u64, sourceUncertaintyNs: u64)
    requires s != [] && multiset(s) == multiset(t)
    ensures t != []
    ensures AnchoredEstimate(s, anchor, rawNs, sourceUncertaintyNs) == AnchoredEstimate(t, anchor, rawNs, sourceUncertaintyNs)
  {
    hide Sum, MaxResidual, Slope, Intercept, LineAt, Points, RoundedUnsigned, RoundedSigned, SaturatingAdd;
    OrderKeepsFit(s, t, anchor);
    var p := Points(s, anchor);
    OrderBoundsMaximum(s, t, anchor, Intercept(p), Slope(p));
    OrderBoundsMaximum(t, s, anchor, Intercept(p), Slope(p));
  }

  lemma ShiftedMean(total: real, shifted: real, n: real, shift: real)
    requires n > 0.0 && shifted == n * -shift + total
    ensures shifted / n == total / n - shift
  {
    MeanTimesCount(total, n);
    MeanTimesCount(shifted, n);
    assert n * (total / n - shift) == shifted;
  }

  lemma AnchorShiftsMean(s: seq<Sample>, k1: real, k2: real)
    requires s != []
    ensures MeanX(Points(s, k2)) == MeanX(Points(s, k1)) - (k2 - k1)
    ensures MeanY(Points(s, k2)) == MeanY(Points(s, k1))
  {
    hide Sum;
    var p, q, shift := Points(s, k1), Points(s, k2), k2 - k1;
    SumPointwise(PointY, p, PointY, q);
    SumPointwise(DeviationOf(shift), p, PointX, q);
    SumOfDeviations(p, shift);
    ShiftedMean(Sum(PointX, p), Sum(PointX, q), |s| as real, shift);
  }

  lemma AnchorKeepsSlope(s: seq<Sample>, k1: real, k2: real)
    requires s != []
    ensures Slope(Points(s, k2)) == Slope(Points(s, k1))
  {
    hide Sum, MeanX, MeanY, Quotient;
    var p, q := Points(s, k1), Points(s, k2);
    AnchorShiftsMean(s, k1, k2);
    forall i | 0 <= i < |s|
      ensures CrossOf(MeanX(p), MeanY(p))(p[i]) == CrossOf(MeanX(q), MeanY(q))(q[i])
      ensures SquareOf(MeanX(p))(p[i]) == SquareOf(MeanX(q))(q[i])
    {
      assert p[i].x - MeanX(p) == q[i].x - MeanX(q) && p[i].y == q[i].y;
    }
    SumPointwise(CrossOf(MeanX(p), MeanY(p)), p, CrossOf(MeanX(q), MeanY(q)), q);
    SumPointwise(SquareOf(MeanX(p)), p, SquareOf(MeanX(q)), q);
  }

  lemma ShiftedLine(my: real, mx: real, slope: real, shift: real, x: real)
    ensures LineAt(my - slope * (mx - shift), slope, x - shift) == LineAt(my - slope * mx, slope, x)
  {
    Distribute(slope, mx - shift, shift);
    Distribute(slope, x - shift, shift);
  }

  lemma SameLine(my: real, mx: real, slope: real, shift: real, x: real, a: real, b: real, y: real)
    requires a == my - slope * mx && b == my - slope * (mx - shift) && y == x - shift
    ensures LineAt(b, slope, y) == LineAt(a, slope, x)
  {
    ShiftedLine(my, mx, slope, shift, x);
  }

  // The fitted line predicts the same offset for a raw stamp whichever stamp
  // the window is anchored at.
  lemma AnchorKeepsFit(s: seq<Sample>, k1: real, k2: real, raw: real)
    requires s != []
    ensures Fit(Points(s, k2), raw - k2) == Fit(Points(s, k1), raw - k1)
  {
    hide Sum, MeanX, MeanY, Slope, LineAt;
    var p, q := Points(s, k1), Points(s, k2);
    AnchorShiftsMean(s, k1, k2);
    AnchorKeepsSlope(s, k1, k2);
    SameLine(MeanY(p), MeanX(p), Slope(p), k2 - k1, raw - k1, Intercept(p), Intercept(q), raw - k2);
  }

  lemma {:induction false} EqualResidualsEqualMaximum(p: seq<Point>, a: real, b: real, q: seq<Point>, c: real, d: real)
    requires |p| == |q|
    requires forall i :: 0 <= i < |p| ==> Residual(p[i], a, b) == Residual(q[i], c, d)
    ensures MaxResidual(p, a, b) == MaxResidual(q, c, d)
  {
    hide Residual;
    if p != [] {
      EqualResidualsEqualMaximum(p[..|p| - 1], a, b, q[..|q| - 1], c, d);
    }
  }

  lemma AnchorKeepsResiduals(s: seq<Sample>, k1: real, k2: real)
    requires s != []
    ensures var p, q := Points(s, k1), Points(s, k2);
            MaxResidual(p, Intercept(p), Slope(p)) == MaxResidual(q, Intercept(q), Slope(q))
  {
    hide Sum, MaxResidual, Intercept, Slope;
    var p, q := Points(s, k1), Points(s, k2);
    forall i | 0 <= i < |s|
      ensures Residual(p[i], Intercept(p), Slope(p)) == Residual(q[i], Intercept(q), Slope(q))
    {
      AnchorKeepsFit(s, k1, k2, s[i].rawNs as real);
      assert p[i].y == q[i].y;
      assert Residual(p[i], Intercept(p), Slope(p)) == p[i].y - Fit(p, p[i].x);
      assert Residual(q[i], Intercept(q), Slope(q)) == q[i].y - Fit(q, q[i].x);
    }
    EqualResidualsEqualMaximum(p, Intercept(p), Slope(p), q, Intercept(q), Slope(q));
  }

  // Moving the anchor changes nothing.
  lemma AnchorKeepsEstimate(s: seq<Sample>, k1: real, k2: real, rawNs: u64, sourceUncertaintyNs: u64)
    requires s != []
    ensures AnchoredEstimate(s, k1, rawNs, sourceUncertaintyNs) == AnchoredEstimate(s, k2, rawNs, sourceUncertaintyNs)
  {
    hide Sum, MaxResidual, Slope, Intercept, Fit, Points, RoundedUnsigned, RoundedSigned, SaturatingAdd;
    AnchorKeepsFit(s, k1, k2, rawNs as real);
    AnchorKeepsSlope(s, k1, k2);
    AnchorKeepsResiduals(s, k1, k2);
  }

  // The affine estimate is a function of the multiset of window samples: the
  // stamp the code anchors at (the front of the deque) and the arrival order
  // have no influence on any reported number.
  lemma EstimateDependsOnlyOnSamples(s: seq<Sample>, t: seq<Sample>, rawNs: u64, sourceUncertaintyNs: u64)
    requires multiset(s) == multiset(t)
    ensures AffineEstimate(s, rawNs, sourceUncertaintyNs) == AffineEstimate(t, rawNs, sourceUncertaintyNs)
  {
    hide AnchoredEstimate;
    assert |s| == |multiset(s)| == |multiset(t)| == |t|;
    if s != [] {
      OrderKeepsEstimate(s, t, s[0].rawNs as real, rawNs, sourceUncertaintyNs);
      AnchorKeepsEstimate(t, s[0].rawNs as real, t[0].rawNs as real, rawNs, sourceUncertaintyNs);
    }
  }

  // Samples on one affine source-to-Session relation, with two distinct raw
  // stamps, are recovered exactly: no jitter, the relation's drift, and the
  // relation's own prediction for every raw stamp.
  lemma AffineRelationIsRecovered(samples: seq<Sample>, alpha: real, beta: real, i: nat, j: nat,
                                  rawNs: u64, sourceUncertaintyNs: u64)
    requires i < |samples| && j < |samples| && samples[i].rawNs != samples[j].rawNs
    requires forall q :: q in samples ==>
               q.sessionNs as real - q.rawNs as real == LineAt(alpha, beta, q.rawNs as real)
    ensures AffineEstimate(samples, rawNs, sourceUncertaintyNs)
         == Estimate(RoundedSigned(LineAt(alpha, beta, rawNs as real)), beta * 1000000.0, 0, sourceUncertaintyNs,
                     RoundedUnsigned(rawNs as real + LineAt(alpha, beta, rawNs as real)))
  {
    hide Sum, MaxResidual, Slope, Intercept, LineAt, RoundedSigned;
    var p := Points(samples, 0.0);
    forall q | q in p ensures q.y == LineAt(alpha, beta, q.x) {
      var k :| 0 <= k < |p| && p[k] == q;
      assert samples[k] in samples;
    }
    CollinearSamplesAreRecovered(p, alpha, beta, i, j);
    AnchorKeepsEstimate(samples, samples[0].rawNs as real, 0.0, rawNs, sourceUncertaintyNs);
  }
}
