// What every number of an affine estimate reports, for any window: the line that
// misses the window's Session stamps least, the worst miss, and the uncertainty
// they add up to (src/core/clock_mapper.cpp:164-215).
module EstimateReports {
  import opened Numbers
  import opened LeastSquares
  import opened Estimator

  // How far the offset line a + b * raw lands from a sample's Session stamp.
  function Miss(q: Sample, a: real, b: real): real {
    q.sessionNs as real - (q.rawNs as real + (a + b * q.rawNs as real))
  }

  ghost function SquaredMiss(samples: seq<Sample>, a: real, b: real): real {
    if samples == [] then 0.0
    else
      var miss := Miss(samples[|samples| - 1], a, b);
      SquaredMiss(samples[..|samples| - 1], a, b) + miss * miss
  }

  // No line misses the window by less, and a window of one raw stamp gives no
  // drift.
  ghost predicate BestLine(samples: seq<Sample>, a: real, b: real) {
    && (forall c, d :: SquaredMiss(samples, a, b) <= SquaredMiss(samples, c, d))
    && ((forall i, j :: 0 <= i < j < |samples| ==> samples[i].rawNs == samples[j].rawNs) ==> b == 0.0)
  }

  // The worst miss: no sample exceeds it, and some sample attains it.
  predicate WorstMiss(samples: seq<Sample>, a: real, b: real, r: real) {
    && (forall i :: 0 <= i < |samples| ==> RealMagnitude(Miss(samples[i], a, b)) <= r)
    && (exists i :: 0 <= i < |samples| && RealMagnitude(Miss(samples[i], a, b)) == r)
  }

  // The numbers a line and its worst miss give for a raw stamp.
  predicate Reports(e: Estimate, a: real, b: real, r: real, rawNs: u64, sourceUncertaintyNs: u64) {
    && e.offsetNs == RoundedSigned(a + b * rawNs as real)
    && e.driftPpm == b * 1000000.0
    && e.jitterNs == RoundedUnsigned(r)
    && e.uncertaintyNs == Min(sourceUncertaintyNs + RoundedUnsigned(r), U64_MAX)
    && e.mappedSessionNs == RoundedUnsigned(rawNs as real + (a + b * rawNs as real))
  }

  // ---- the fitted line is the best one ----

  lemma MissIsResidual(samples: seq<Sample>, i: nat, a: real, b: real)
    requires i < |samples|
    ensures Miss(samples[i], a, b) == Residual(Points(samples, 0.0)[i], a, b)
  {
  }

  lemma {:induction false} SquaredMissIsError(samples: seq<Sample>, a: real, b: real)
    ensures SquaredMiss(samples, a, b) == SquaredError(Points(samples, 0.0), a, b)
  {
    hide Residual, Miss, Points;
    if samples != [] {
      var front := samples[..|samples| - 1];
      SquaredMissIsError(front, a, b);
      MissIsResidual(samples, |samples| - 1, a, b);
      assert Points(samples, 0.0)[..|samples| - 1] == Points(front, 0.0);
    }
  }

  lemma {:induction false} ConstantSum(f: Point -> real, p: seq<Point>, k: real)
    requires forall i :: 0 <= i < |p| ==> f(p[i]) == k
    ensures Sum(f, p) == |p| as real * k
  {
    if p != [] {
      ConstantSum(f, p[..|p| - 1], k);
      Distribute(k, (|p| - 1) as real, 1.0);
    }
  }

  lemma Divided(n: real, k: real)
    requires n > 0.0
    ensures n * k / n == k
  {
    MeanTimesCount(n * k, n);
  }

  // Points above one abscissa have no variance, and so no slope.
  lemma OneAbscissaIsFlat(p: seq<Point>, x: real)
    requires p != [] && forall i :: 0 <= i < |p| ==> p[i].x == x
    ensures Slope(p) == 0.0
  {
    hide Sum;
    ConstantSum(PointX, p, x);
    Divided(|p| as real, x);
    assert MeanX(p) == x;
    forall i | 0 <= i < |p| ensures SquareOf(x)(p[i]) == 0.0 {
      assert SquareDeviation(p[i], x) == 0.0;
    }
    ConstantSum(SquareOf(x), p, 0.0);
    assert Variance(p) == |p| as real * 0.0 by { VarianceAtMean(p); }
    hide Variance;
  }

  lemma FittedLineIsBest(samples: seq<Sample>)
    requires samples != []
    ensures var p := Points(samples, 0.0); BestLine(samples, Intercept(p), Slope(p))
  {
    hide SquaredError, Intercept, Slope, SquaredMiss;
    var p := Points(samples, 0.0);
    SquaredMissIsError(samples, Intercept(p), Slope(p));
    forall c, d ensures SquaredMiss(samples, Intercept(p), Slope(p)) <= SquaredMiss(samples, c, d) {
      SquaredMissIsError(samples, c, d);
      FitIsLeastSquares(p, c, d);
    }
    if forall i, j :: 0 <= i < j < |samples| ==> samples[i].rawNs == samples[j].rawNs {
      forall i | 0 <= i < |p| ensures p[i].x == p[0].x { assert i > 0 ==> samples[0].rawNs == samples[i].rawNs; }
      OneAbscissaIsFlat(p, p[0].x);
    }
  }

  lemma WorstIsAttained(samples: seq<Sample>, a: real, b: real)
    requires samples != []
    ensures WorstMiss(samples, a, b, MaxResidual(Points(samples, 0.0), a, b))
  {
    hide Residual, MaxResidual, Miss;
    var p := Points(samples, 0.0);
    MaxResidualIsMaximum(p, a, b);
    forall i | 0 <= i < |samples| ensures Miss(samples[i], a, b) == Residual(p[i], a, b) && p[i] in p {
      MissIsResidual(samples, i, a, b);
    }
  }

  lemma AnchoredReports(samples: seq<Sample>, rawNs: u64, sourceUncertaintyNs: u64)
    requires samples != []
    ensures var p := Points(samples, 0.0); var a, b := Intercept(p), Slope(p);
            Reports(AnchoredEstimate(samples, 0.0, rawNs, sourceUncertaintyNs), a, b, MaxResidual(p, a, b), rawNs,
                    sourceUncertaintyNs)
  {
    hide MaxResidual, Intercept, Slope, RoundedSigned, RoundedUnsigned, Points;
  }

  // ---- what an estimate reports ----

  // Every estimate is that of the best line of its window: it maps the raw stamp
  // along that line, its jitter is the rounded worst miss of the window, and its
  // uncertainty is the source's own plus that jitter, capped at the 64-bit maximum.
  lemma EstimateReportsBestLine(samples: seq<Sample>, rawNs: u64, sourceUncertaintyNs: u64)
    requires samples != []
    ensures exists a, b, r :: BestLine(samples, a, b) && WorstMiss(samples, a, b, r)
                              && Reports(AffineEstimate(samples, rawNs, sourceUncertaintyNs), a, b, r, rawNs, sourceUncertaintyNs)
  {
    hide AnchoredEstimate, Intercept, Slope, MaxResidual, BestLine, WorstMiss, Reports;
    var p := Points(samples, 0.0);
    var a, b := Intercept(p), Slope(p);
    AnchorKeepsEstimate(samples, samples[0].rawNs as real, 0.0, rawNs, sourceUncertaintyNs);
    FittedLineIsBest(samples);
    WorstIsAttained(samples, a, b);
    AnchoredReports(samples, rawNs, sourceUncertaintyNs);
  }

  lemma UncertaintyAddsJitter(samples: seq<Sample>, rawNs: u64, sourceUncertaintyNs: u64)
    requires samples != []
    ensures var e := AffineEstimate(samples, rawNs, sourceUncertaintyNs);
            e.uncertaintyNs == Min(sourceUncertaintyNs + e.jitterNs, U64_MAX)
  {
    hide AffineEstimate, BestLine, WorstMiss;
    EstimateReportsBestLine(samples, rawNs, sourceUncertaintyNs);
  }

  // Whenever it has not reached that cap, the uncertainty beyond the source's own
  // covers the mapping of every sample of the window.
  lemma UncertaintyCoversWindow(samples: seq<Sample>, i: nat, sourceUncertaintyNs: u64)
    requires i < |samples|
    ensures var e := AffineEstimate(samples, samples[i].rawNs, sourceUncertaintyNs);
            sourceUncertaintyNs + e.jitterNs <= U64_MAX ==>
              Magnitude(e.mappedSessionNs - samples[i].sessionNs) <= e.uncertaintyNs - sourceUncertaintyNs
  {
    hide AffineEstimate;
    WindowMapsWithinJitter(samples, i, sourceUncertaintyNs);
    UncertaintyAddsJitter(samples, samples[i].rawNs, sourceUncertaintyNs);
  }
}
