// Samples of one affine source-to-Session relation: what the fit makes of them,
// and that a route takes them (src/core/clock_mapper.cpp:164-223, 378-476).
module LineFits {
  import opened Numbers
  import opened Types
  import opened LeastSquares
  import opened Estimator
  import opened MapperSpec
  import opened MapperRuns

  // The offset that takes a raw stamp to its Session stamp is
  // intercept + slope * raw.
  datatype Line = Line(intercept: real, slope: real)

  predicate OnLine(line: Line, rawNs: u64, sessionNs: u64) {
    sessionNs as real - rawNs as real == LineAt(line.intercept, line.slope, rawNs as real)
  }

  function OffsetOf(o: Observation): int { o.sessionNs - o.rawNs }

  ghost predicate WindowOnLine(line: Line, samples: seq<Sample>) {
    && DistinctRaws(samples)
    && forall q :: q in samples ==> OnLine(line, q.rawNs, q.sessionNs)
  }

  // ---- the estimate of samples on one line ----

  lemma RoundingIntegers(n: int)
    ensures 0 <= n <= U64_MAX ==> RoundedUnsigned(n as real) == n
    ensures RoundedSigned(n as real) == Clamp(n, I64_MIN, I64_MAX)
  {
  }

  // A single sample is its own fit.
  lemma SingleSampleFits(q: Sample, sourceUncertaintyNs: u64)
    ensures AffineEstimate([q], q.rawNs, sourceUncertaintyNs)
         == Estimate(Clamp(q.sessionNs - q.rawNs, I64_MIN, I64_MAX), 0.0, 0, sourceUncertaintyNs, q.sessionNs)
  {
    hide RoundedSigned, RoundedUnsigned;
    var p := Points([q], q.rawNs as real);
    var offset := q.sessionNs - q.rawNs;
    SinglePointFits(p, offset as real);
    RoundingIntegers(offset);
    RoundingIntegers(0);
    RoundingIntegers(q.sessionNs);
    hide Slope, Intercept, MaxResidual, Points;
    assert Fit(p, 0.0) == offset as real;
    assert q.rawNs as real + offset as real == q.sessionNs as real;
  }

  lemma SinglePointFits(p: seq<Point>, y: real)
    requires |p| == 1 && p[0] == Point(0.0, y)
    ensures Intercept(p) == y && Slope(p) == 0.0 && MaxResidual(p, Intercept(p), Slope(p)) == 0.0
  {
    assert p[..0] == [];
    SumOfOne(PointX, p);
    SumOfOne(PointY, p);
    SumOfOne(SquareOf(0.0), p);
    hide Sum;
    assert MeanX(p) == 0.0 && MeanY(p) == y && Variance(p) == 0.0;
  }

  lemma SumOfOne(f: Point -> real, p: seq<Point>)
    requires |p| == 1
    ensures Sum(f, p) == f(p[0])
  {
    assert p[..0] == [];
  }

  // Where a window on the line has two samples, its fit is the line.
  lemma LineIsFitted(line: Line, samples: seq<Sample>, rawNs: u64, sessionNs: u64, sourceUncertaintyNs: u64)
    requires WindowOnLine(line, samples) && |samples| >= 2 && OnLine(line, rawNs, sessionNs)
    ensures AffineEstimate(samples, rawNs, sourceUncertaintyNs)
         == Estimate(Clamp(sessionNs - rawNs, I64_MIN, I64_MAX), line.slope * 1000000.0, 0, sourceUncertaintyNs, sessionNs)
  {
    hide RoundedSigned, RoundedUnsigned, LineAt, AffineEstimate;
    assert samples[0].rawNs != samples[1].rawNs;
    AffineRelationIsRecovered(samples, line.intercept, line.slope, 0, 1, rawNs, sourceUncertaintyNs);
    RoundingIntegers(sessionNs - rawNs);
    RoundingIntegers(sessionNs);
    assert LineAt(line.intercept, line.slope, rawNs as real) == (sessionNs - rawNs) as real;
    assert rawNs as real + (sessionNs - rawNs) as real == sessionNs as real;
  }

  // The sample joins the window, or finds its raw stamp there.
  lemma CandidateOnLine(c: MapperConfig, line: Line, samples: seq<Sample>, o: Observation)
    requires MapperConfigValid(c) && c.mapping == AffineToSession
    requires WindowOnLine(line, samples) && |samples| <= c.policy.estimatorWindow.value
    requires OnLine(line, o.rawNs, o.sessionNs)
    ensures var w := Candidate(c, samples, o);
            && WindowOnLine(line, w) && 1 <= |w| <= c.policy.estimatorWindow.value
            && (|w| == 1 ==> w == [Sample(o.rawNs, o.sessionNs)])
  {
    hide OnLine;
    if RawFitted(samples, o.rawNs) {
      var i :| 0 <= i < |samples| && samples[i].rawNs == o.rawNs;
      assert samples[i] in samples;
      OneStampOnLine(line, o.rawNs, samples[i].sessionNs, o.sessionNs);
    }
  }

  lemma OneStampOnLine(line: Line, rawNs: u64, a: u64, b: u64)
    requires OnLine(line, rawNs, a) && OnLine(line, rawNs, b)
    ensures a == b
  {
  }

  // The fit of an in-gate sample maps it to its own Session stamp.
  lemma FitOnLine(c: MapperConfig, line: Line, samples: seq<Sample>, o: Observation)
    requires MapperConfigValid(c) && c.mapping == AffineToSession
    requires WindowOnLine(line, samples) && |samples| <= c.policy.estimatorWindow.value
    requires OnLine(line, o.rawNs, o.sessionNs)
    ensures var w, fit := Candidate(c, samples, o), NextFit(c, samples, o);
            && fit.offsetNs == Clamp(OffsetOf(o), I64_MIN, I64_MAX)
            && fit.jitterNs == 0 && fit.uncertaintyNs == c.route.sourceUncertaintyNs && fit.mappedSessionNs == o.sessionNs
            && (|w| >= 2 ==> fit.driftPpm == line.slope * 1000000.0)
  {
    hide Candidate, AffineEstimate, OnLine, WindowOnLine;
    CandidateOnLine(c, line, samples, o);
    var w := Candidate(c, samples, o);
    if |w| == 1 {
      SingleSampleFits(w[0], c.route.sourceUncertaintyNs);
    } else {
      LineIsFitted(line, w, o.rawNs, o.sessionNs, c.route.sourceUncertaintyNs);
    }
  }

  // ---- samples on the line are taken ----

  // The line is within the frozen limits of the route.
  predicate LineAllowed(c: MapperConfig, line: Line) {
    && c.route.sourceUncertaintyNs <= c.policy.maxUncertaintyNs
    && (c.mapping == AffineToSession ==>
          c.policy.maxDriftPpm.Some? && RealMagnitude(line.slope * 1000000.0) <= c.policy.maxDriftPpm.value)
  }

  predicate SampleOnLine(c: MapperConfig, line: Line, o: Observation) {
    c.mapping == AffineToSession ==> OnLine(line, o.rawNs, o.sessionNs)
  }

  // What an affine route's window holds of the line; an identity route has none.
  ghost predicate HoldsLine(c: MapperConfig, line: Line, samples: seq<Sample>)
    requires MapperConfigValid(c)
  {
    c.mapping == AffineToSession ==> WindowOnLine(line, samples) && |samples| <= c.policy.estimatorWindow.value
  }

  // The sample's offset is within one frozen step of the latest one.
  predicate StepAllowed(c: MapperConfig, st: MapperState, o: Observation)
    requires MapperConfigValid(c)
  {
    c.mapping == AffineToSession && st.haveEstimate ==>
      RoundedUnsigned(RealMagnitude(Clamp(OffsetOf(o), I64_MIN, I64_MAX) as real - st.status.offsetNs as real))
        <= c.policy.maxOffsetStepNs.value
  }

  // What an accepted sample on the line maps to.
  function MappedStamp(c: MapperConfig, o: Observation): u64 {
    if c.mapping == AffineToSession then o.sessionNs else o.rawNs
  }

  lemma ClampBringsCloser(a: int, b: int)
    ensures Magnitude(Clamp(a, I64_MIN, I64_MAX) - Clamp(b, I64_MIN, I64_MAX)) <= Magnitude(a - b)
    ensures Magnitude(Clamp(a, I64_MIN, I64_MAX) - Clamp(b, I64_MIN, I64_MAX)) <= U64_MAX
  {
  }

  lemma StepWithin(next: i64, last: i64, a: int, b: int, limit: u64)
    requires next == Clamp(a, I64_MIN, I64_MAX) && last == Clamp(b, I64_MIN, I64_MAX) && Magnitude(a - b) <= limit
    ensures RoundedUnsigned(RealMagnitude(next as real - last as real)) <= limit
  {
    hide RoundedUnsigned;
    ClampBringsCloser(a, b);
    RoundingIntegers(Magnitude(next - last));
    assert RealMagnitude(next as real - last as real) == Magnitude(next - last) as real;
  }

  lemma PredictionHolds(c: MapperConfig, line: Line, st: MapperState, o: Observation)
    requires MapperConfigValid(c) && HoldsLine(c, line, st.samples) && SampleOnLine(c, line, o)
    ensures !PredictionImplausible(c, st, o)
  {
    hide AffineEstimate, OnLine, WindowOnLine;
    if c.mapping == AffineToSession && |st.samples| >= c.policy.minLockSamples {
      LineIsFitted(line, st.samples, o.rawNs, o.sessionNs, c.route.sourceUncertaintyNs);
    }
  }

  // The quality limits bind a window of `min_lock_samples`, and an identity route
  // at once.
  lemma QualityHolds(c: MapperConfig, line: Line, st: MapperState, o: Observation)
    requires MapperConfigValid(c) && HoldsLine(c, line, st.samples) && SampleOnLine(c, line, o) && StepAllowed(c, st, o)
    requires o.rawNs != 0 && o.sessionNs != 0
    requires QualityReady(c, Candidate(c, st.samples, o)) ==> LineAllowed(c, line)
    ensures !QualityViolated(c, st, Candidate(c, st.samples, o), NextFit(c, st.samples, o))
  {
    hide Candidate, OnLine, WindowOnLine, RoundedUnsigned, AffineEstimate;
    if c.mapping == AffineToSession { FitOnLine(c, line, st.samples, o); }
  }

  lemma FitMaps(c: MapperConfig, line: Line, samples: seq<Sample>, o: Observation)
    requires MapperConfigValid(c) && HoldsLine(c, line, samples) && SampleOnLine(c, line, o)
    ensures NextFit(c, samples, o).mappedSessionNs == MappedStamp(c, o)
    ensures c.mapping == AffineToSession ==> NextFit(c, samples, o).offsetNs == Clamp(OffsetOf(o), I64_MIN, I64_MAX)
  {
    hide Candidate, OnLine, WindowOnLine, AffineEstimate;
    if c.mapping == AffineToSession { FitOnLine(c, line, samples, o); }
  }

  // A route takes a sample on its line that arrives in order, and maps it to its
  // own Session stamp.
  lemma AcceptedOnLine(c: MapperConfig, line: Line, st: MapperState, o: Observation)
    requires MapperConfigValid(c) && InOrder(c, st, o)
    requires HoldsLine(c, line, st.samples) && SampleOnLine(c, line, o) && StepAllowed(c, st, o)
    requires QualityReady(c, Candidate(c, st.samples, o)) ==> LineAllowed(c, line)
    ensures Judge(c, st, o) == Accepted(o, NextFit(c, st.samples, o))
    ensures EnvelopeOf(c, st, o).mappedSessionNs == MappedStamp(c, o)
  {
    hide PredictionImplausible, QualityViolated, Candidate, NextFit, HoldsLine, SampleOnLine, StepAllowed, Misrouted, Judge,
         LineAllowed, EnvelopeOf, StartupExpired, MappedStamp;
    PredictionHolds(c, line, st, o);
    QualityHolds(c, line, st, o);
    FitMaps(c, line, st.samples, o);
    JudgedInOrder(c, st, o);
    AcceptedMaps(c, st, o, NextFit(c, st.samples, o));
  }

  lemma AcceptedMaps(c: MapperConfig, st: MapperState, o: Observation, fit: Estimate)
    requires MapperConfigValid(c) && Judge(c, st, o) == Accepted(o, fit)
    ensures EnvelopeOf(c, st, o).mappedSessionNs == fit.mappedSessionNs
  {
    hide Judge, Candidate;
  }

  // The window stays on the line, and the route remembers the sample's offset.
  lemma LineHeld(c: MapperConfig, line: Line, st: MapperState, o: Observation)
    requires MapperConfigValid(c) && HoldsLine(c, line, st.samples) && SampleOnLine(c, line, o)
    ensures var t := Advance(c, st, Accepted(o, NextFit(c, st.samples, o)));
            && HoldsLine(c, line, t.samples) && t.samples == Candidate(c, st.samples, o) && t.haveEstimate
            && (c.mapping == AffineToSession ==> t.status.offsetNs == Clamp(OffsetOf(o), I64_MIN, I64_MAX))
  {
    hide Candidate, NextFit, WindowOnLine, OnLine;
    FitMaps(c, line, st.samples, o);
    if c.mapping == AffineToSession { CandidateOnLine(c, line, st.samples, o); }
  }
}
