// What a route does with an observation, case by case, in terms of the frozen
// limits, the estimates and the statuses before and after
// (src/core/clock_mapper.cpp:225-246, 294-493).
module MapperGates {
  import opened Numbers
  import opened Types
  import opened Estimator
  import opened Policy
  import opened MapperSpec

  // ---- the checks before the estimate ----

  // The observation loses the route at once: it is another route's, a fallback,
  // out of time, unstamped, or behind what its stream has delivered.
  predicate Fatal(c: MapperConfig, st: MapperState, o: Observation) {
    var t := st.TimelineOf(o.stream);
    || o.slot != c.route.slot || o.sourceBody != c.route.sourceBody || o.sourceDomain != c.route.sourceDomain
    || o.fallbackSource
    || o.monotonicNs == 0 || o.monotonicNs < st.epochMonotonicNs
    || ((!st.pose.seen || !st.twist.seen) && o.monotonicNs > st.epochMonotonicNs + c.policy.startupLockTimeoutNs)
    || o.sessionNs == 0
    || (o.rawNs == 0 && !Unstarted(c, st, o))
    || (o.rawNs != 0 && t.seen && (o.rawNs < t.rawNs || (o.rawNs > t.rawNs && o.monotonicNs <= t.monotonicNs)))
  }

  // A simulated source that has not started its clock yet.
  predicate Unstarted(c: MapperConfig, st: MapperState, o: Observation) {
    o.rawNs == 0 && c.route.sourceDomain == SimulationSource && !st.TimelineOf(o.stream).seen && st.status.state == Initializing
  }

  // The observation repeats its stream's latest raw stamp.
  predicate Repeated(st: MapperState, o: Observation) {
    st.TimelineOf(o.stream).seen && o.rawNs == st.TimelineOf(o.stream).rawNs
  }

  // What a failure leaves: nothing but the state and the counters move, and the
  // state is lost at once or when the failures in a row reach their limit.
  predicate Fails(c: MapperConfig, st: MapperState, t: MapperState, immediate: bool) {
    && t == st.(status := t.status, recoverySamples := 0)
    && t.status == st.status.(state := t.status.state, healthySamples := 0, consecutiveFailures := t.status.consecutiveFailures)
    && t.status.consecutiveFailures == Min(st.status.consecutiveFailures + 1, U32_MAX)
    && t.status.state == if immediate || t.status.consecutiveFailures >= c.policy.lostAfterFailures then Lost else Degraded
  }

  // Before any estimate a live route is lost by a fatal observation, and left as it
  // is by an unstarted or a repeated one; neither is accepted.
  lemma EarlyChecks(c: MapperConfig, st: MapperState, o: Observation)
    requires MapperConfigValid(c) && st.status.epoch != 0 && st.status.state != Lost
    ensures var t, e := Step(c, st, ObserveOp(o)), EnvelopeOf(c, st, o);
            && (Fatal(c, st, o) ==> !e.accepted && Fails(c, st, t, true))
            && (!Fatal(c, st, o) && (Unstarted(c, st, o) || Repeated(st, o)) ==> !e.accepted && t == st)
    ensures InOrder(c, st, o) <==> !Fatal(c, st, o) && !Unstarted(c, st, o) && !Repeated(st, o)
  {
    hide ThresholdPolicyValid, PredictionImplausible, QualityViolated, NextFit, Candidate;
  }

  // A lost route takes nothing and stays as it is.
  lemma LostRouteRefuses(c: MapperConfig, st: MapperState, o: Observation)
    requires MapperConfigValid(c) && st.status.epoch != 0 && st.status.state == Lost
    ensures Step(c, st, ObserveOp(o)) == st && !EnvelopeOf(c, st, o).accepted
  {
    hide ThresholdPolicyValid, PredictionImplausible, QualityViolated, NextFit, Candidate;
  }

  // A mapper without an epoch accepts nothing: each observation is a failure, and
  // one of another route loses it at once; a poll does nothing.
  lemma NoEpochRefuses(c: MapperConfig, st: MapperState, o: Observation, nowNs: u64)
    requires MapperConfigValid(c) && st.status.epoch == 0
    ensures var t := Step(c, st, ObserveOp(o));
            var foreign := o.slot != c.route.slot || o.sourceBody != c.route.sourceBody || o.sourceDomain != c.route.sourceDomain;
            !EnvelopeOf(c, st, o).accepted && if st.status.state == Lost then t == st else Fails(c, st, t, foreign)
    ensures Step(c, st, PollOp(nowNs)) == st
  {
    hide ThresholdPolicyValid, PredictionImplausible, QualityViolated, NextFit, Candidate;
  }

  // ---- the gates on the estimate ----

  // The window the observation is fitted in: the latest samples of distinct raw
  // stamps, its own among them.
  function Window(c: MapperConfig, samples: seq<Sample>, o: Observation): seq<Sample>
    requires c.policy.estimatorWindow.Some?
  {
    var w := if exists q :: q in samples && q.rawNs == o.rawNs then samples else samples + [Sample(o.rawNs, o.sessionNs)];
    if |w| > c.policy.estimatorWindow.value then w[|w| - c.policy.estimatorWindow.value..] else w
  }

  // The estimate of a full window is within the frozen limits.
  predicate WithinLimits(c: MapperConfig, e: Estimate) {
    && c.policy.maxDriftPpm.Some? && c.policy.maxJitterNs.Some?
    && -c.policy.maxDriftPpm.value <= e.driftPpm <= c.policy.maxDriftPpm.value
    && e.jitterNs <= c.policy.maxJitterNs.value
    && e.uncertaintyNs <= c.policy.maxUncertaintyNs
  }

  // A full window predicts the sample to within the sample age, as far as a
  // clamped difference tells.
  ghost predicate Predicted(c: MapperConfig, st: MapperState, o: Observation) {
    |st.samples| >= c.policy.minLockSamples && st.haveEstimate ==>
      var predicted := AffineEstimate(st.samples, o.rawNs, c.route.sourceUncertaintyNs).mappedSessionNs;
      Min(Magnitude(o.sessionNs - predicted), I64_MAX) <= c.policy.maxSampleAgeNs
  }

  // The state after an accepted sample reports its estimate.
  predicate Adopts(st: MapperState, t: MapperState, o: Observation, e: Estimate) {
    && t.haveEstimate
    && t.status.offsetNs == e.offsetNs && t.status.driftPpm == e.driftPpm && t.status.jitterNs == e.jitterNs
    && t.status.uncertaintyNs == e.uncertaintyNs && t.status.lastSessionNs == e.mappedSessionNs
    && t.status.lastRawNs == o.rawNs && t.status.lastMonotonicNs == o.monotonicNs
    && t.status.authorityAgeNs == o.authorityAgeNs && t.status.gazeboSkewNs == o.gazeboSkewNs
    && t.status.epoch == st.status.epoch && t.status.consecutiveFailures == 0
    && t.epochMonotonicNs == st.epochMonotonicNs
    && t.TimelineOf(o.stream) == Timeline(true, o.rawNs, o.sessionNs, o.monotonicNs)
    && (forall other: StreamKind :: other != o.stream ==> t.TimelineOf(other) == st.TimelineOf(other))
  }

  lemma WindowIsCandidate(c: MapperConfig, samples: seq<Sample>, o: Observation)
    requires MapperConfigValid(c) && c.mapping == AffineToSession
    ensures Candidate(c, samples, o) == Window(c, samples, o)
  {
    hide ThresholdPolicyValid;
    if RawFitted(samples, o.rawNs) {
      var i :| 0 <= i < |samples| && samples[i].rawNs == o.rawNs;
      assert samples[i] in samples;
    }
    if q :| q in samples && q.rawNs == o.rawNs {
      var i :| 0 <= i < |samples| && samples[i] == q;
      assert RawFitted(samples, o.rawNs);
    }
  }

  lemma OffsetStepIsExact(a: i64, b: i64, limit: u64)
    ensures RoundedUnsigned(RealMagnitude(a as real - b as real)) <= limit <==> Magnitude(a - b) <= limit
  {
    var n := Magnitude(a - b);
    assert RealMagnitude(a as real - b as real) == n as real;
    assert (n as real + 0.5).Floor == n;
  }

  lemma PredictionIsExact(c: MapperConfig, st: MapperState, o: Observation)
    requires MapperConfigValid(c) && c.mapping == AffineToSession
    ensures PredictionImplausible(c, st, o) <==> !Predicted(c, st, o)
  {
    hide ThresholdPolicyValid, AffineEstimate;
  }

  lemma QualityIsExact(c: MapperConfig, st: MapperState, w: seq<Sample>, e: Estimate)
    requires MapperConfigValid(c) && c.mapping == AffineToSession
    ensures !QualityViolated(c, st, w, e) <==>
              && (|w| >= c.policy.minLockSamples ==>
                    && (st.haveEstimate ==> Magnitude(e.offsetNs - st.status.offsetNs) <= c.policy.maxOffsetStepNs.value)
                    && WithinLimits(c, e))
              && e.mappedSessionNs != 0
  {
    hide ThresholdPolicyValid, RoundedUnsigned;
    OffsetStepIsExact(e.offsetNs, st.status.offsetNs, c.policy.maxOffsetStepNs.value);
  }

  lemma AcceptedIsAdopted(c: MapperConfig, st: MapperState, o: Observation, e: Estimate)
    requires MapperConfigValid(c) && Judge(c, st, o) == Accepted(o, e)
    ensures Adopts(st, Step(c, st, ObserveOp(o)), o, e) && Step(c, st, ObserveOp(o)).samples == Candidate(c, st.samples, o)
    ensures EnvelopeOf(c, st, o).accepted
  {
    hide Judge, Candidate;
  }

  lemma RefusedFails(c: MapperConfig, st: MapperState, o: Observation, immediate: bool)
    requires MapperConfigValid(c) && st.status.state != Lost && Judge(c, st, o) == Failed(immediate)
    ensures Fails(c, st, Step(c, st, ObserveOp(o)), immediate) && !EnvelopeOf(c, st, o).accepted
  {
    hide Judge;
  }

  // A mapped route that finds the sample in order accepts it exactly when a full
  // window predicted it, when the estimate it leads to, on a full window, steps the
  // offset by no more than its limit and is within the limits on drift in either
  // direction, jitter and uncertainty, and when it maps to a nonzero stamp. Accepted,
  // it is reported as that estimate; refused, it is a soft failure.
  lemma AffineGateIsExact(c: MapperConfig, st: MapperState, o: Observation)
    requires MapperConfigValid(c) && c.mapping == AffineToSession && InOrder(c, st, o)
    ensures var t, w := Step(c, st, ObserveOp(o)), Window(c, st.samples, o);
            var e := AffineEstimate(w, o.rawNs, c.route.sourceUncertaintyNs);
            var full := |w| >= c.policy.minLockSamples;
            && (EnvelopeOf(c, st, o).accepted <==>
                  && Predicted(c, st, o)
                  && (full && st.haveEstimate ==>
                        Magnitude(e.offsetNs - st.status.offsetNs) <= c.policy.maxOffsetStepNs.value)
                  && (full ==> WithinLimits(c, e))
                  && e.mappedSessionNs != 0)
            && (EnvelopeOf(c, st, o).accepted ==> Adopts(st, t, o, e) && t.samples == w)
            && (!EnvelopeOf(c, st, o).accepted ==> Fails(c, st, t, false))
  {
    hide ThresholdPolicyValid, AffineEstimate, PredictionImplausible, QualityViolated, Candidate, Judge, EnvelopeOf, Fails, Adopts,
         Predicted, WithinLimits, InOrder, Window, Step, NextFit;
    WindowIsCandidate(c, st.samples, o);
    PredictionIsExact(c, st, o);
    var e := NextFit(c, st.samples, o);
    FitOfWindow(c, st.samples, o);
    QualityIsExact(c, st, Candidate(c, st.samples, o), e);
    JudgedInOrder(c, st, o);
    LiveInOrder(c, st, o);
    match Judge(c, st, o)
    case Accepted(_, _) => AcceptedIsAdopted(c, st, o, e);
    case Failed(immediate) => RefusedFails(c, st, o, immediate);
    case Ignored =>
  }

  lemma FitOfWindow(c: MapperConfig, samples: seq<Sample>, o: Observation)
    requires MapperConfigValid(c) && c.mapping == AffineToSession
    ensures NextFit(c, samples, o) == AffineEstimate(Candidate(c, samples, o), o.rawNs, c.route.sourceUncertaintyNs)
  {
  }

  lemma LiveInOrder(c: MapperConfig, st: MapperState, o: Observation)
    requires InOrder(c, st, o)
    ensures st.status.state != Lost && o.rawNs != 0
  {
  }

  // An unmapped route that finds the sample in order accepts it exactly when the
  // source's uncertainty is within its limit, and reports the raw stamp as it is.
  lemma IdentityGateIsExact(c: MapperConfig, st: MapperState, o: Observation)
    requires MapperConfigValid(c) && c.mapping == Identity && InOrder(c, st, o)
    ensures var t := Step(c, st, ObserveOp(o));
            && (EnvelopeOf(c, st, o).accepted <==> c.route.sourceUncertaintyNs <= c.policy.maxUncertaintyNs)
            && (EnvelopeOf(c, st, o).accepted ==>
                  Adopts(st, t, o, Estimate(0, 0.0, 0, c.route.sourceUncertaintyNs, o.rawNs)) && t.samples == st.samples)
            && (!EnvelopeOf(c, st, o).accepted ==> Fails(c, st, t, false))
  {
    hide ThresholdPolicyValid, Judge, EnvelopeOf, Fails, Adopts, InOrder, Step;
    JudgedInOrder(c, st, o);
    LiveInOrder(c, st, o);
    match Judge(c, st, o)
    case Accepted(_, fit) => AcceptedIsAdopted(c, st, o, fit);
    case Failed(immediate) => RefusedFails(c, st, o, immediate);
    case Ignored =>
  }

  // ---- what acceptance counts ----

  // An accepted sample counts when its raw stamp is a new maximum: once as healthy,
  // and once towards recovery on a degraded route. The route locks when both streams
  // have delivered and its count, of healthy samples at first and of recovered ones
  // later, reaches its limit; a relock starts the recovery count over.
  lemma AcceptanceCounts(c: MapperConfig, st: MapperState, o: Observation)
    requires MapperConfigValid(c) && EnvelopeOf(c, st, o).accepted
    ensures var t, state := Step(c, st, ObserveOp(o)), st.status.state;
            var counts := if o.rawNs > st.lastCountedRawNs then 1 else 0;
            var recovered := if state == Degraded then Min(st.recoverySamples + counts, U32_MAX) else st.recoverySamples;
            var locks := t.pose.seen && t.twist.seen &&
                         ((state == Initializing && t.status.healthySamples >= c.policy.minLockSamples)
                          || (state == Degraded && recovered >= c.policy.recoverLockSamples));
            && t.lastCountedRawNs == (if counts == 1 then o.rawNs else st.lastCountedRawNs)
            && t.status.healthySamples == Min(st.status.healthySamples + counts, U32_MAX)
            && t.recoverySamples == (if locks && state == Degraded then 0 else recovered)
            && t.status.state == (if locks then Locked else state)
  {
    hide ThresholdPolicyValid, Judge, Candidate, Committed, Counted, Relocked;
    AcceptedFit(c, st, o);
    CommittedAs(c, st, o, Judge(c, st, o).fit);
    var u := Committed(c, st, o, Judge(c, st, o).fit);
    CountedAs(c, u, o.rawNs);
  }

  lemma AcceptedFit(c: MapperConfig, st: MapperState, o: Observation)
    requires MapperConfigValid(c) && EnvelopeOf(c, st, o).accepted
    ensures Judge(c, st, o).Accepted? && Judge(c, st, o).observation == o
  {
    hide ThresholdPolicyValid, PredictionImplausible, QualityViolated, NextFit, Candidate;
  }

  lemma CommittedAs(c: MapperConfig, st: MapperState, o: Observation, fit: Estimate)
    requires MapperConfigValid(c)
    ensures var u := Committed(c, st, o, fit);
            && u.lastCountedRawNs == st.lastCountedRawNs && u.recoverySamples == st.recoverySamples
            && u.status.healthySamples == st.status.healthySamples && u.status.state == st.status.state
  {
    hide ThresholdPolicyValid, Candidate;
  }

  lemma CountedAs(c: MapperConfig, u: MapperState, rawNs: u64)
    ensures var t, state := Relocked(c, Counted(u, rawNs)), u.status.state;
            var counts := if rawNs > u.lastCountedRawNs then 1 else 0;
            var recovered := if state == Degraded then Min(u.recoverySamples + counts, U32_MAX) else u.recoverySamples;
            var locks := t.pose.seen && t.twist.seen &&
                         ((state == Initializing && t.status.healthySamples >= c.policy.minLockSamples)
                          || (state == Degraded && recovered >= c.policy.recoverLockSamples));
            && t.lastCountedRawNs == (if counts == 1 then rawNs else u.lastCountedRawNs)
            && t.status.healthySamples == Min(u.status.healthySamples + counts, U32_MAX)
            && t.recoverySamples == (if locks && state == Degraded then 0 else recovered)
            && t.status.state == (if locks then Locked else state)
  {
  }

  // ---- polls ----

  // A stream whose latest sample is too old.
  predicate StreamLate(c: MapperConfig, t: Timeline, nowNs: u64) {
    t.seen && nowNs - t.monotonicNs > c.policy.maxSampleAgeNs
  }

  // A stream that lies ahead of the poll, or has not started in its allowance.
  predicate StreamBroken(c: MapperConfig, st: MapperState, t: Timeline, nowNs: u64) {
    if t.seen then nowNs < t.monotonicNs else nowNs - st.epochMonotonicNs > c.policy.startupLockTimeoutNs
  }

  // A poll leaves a lost route as it is; loses it at once when the poll lies before
  // the epoch or a stream is broken, unless the pose is merely late; counts a failure
  // when a stream is late; and does nothing otherwise.
  lemma PollIsExact(c: MapperConfig, st: MapperState, nowNs: u64)
    requires MapperConfigValid(c) && st.status.epoch != 0
    ensures var t := Step(c, st, PollOp(nowNs));
            var broken := || nowNs < st.epochMonotonicNs || StreamBroken(c, st, st.pose, nowNs)
                          || (!StreamLate(c, st.pose, nowNs) && StreamBroken(c, st, st.twist, nowNs));
            var late := StreamLate(c, st.pose, nowNs) || StreamLate(c, st.twist, nowNs);
            if st.status.state != Lost && (broken || late) then Fails(c, st, t, broken) else t == st
  {
    hide ThresholdPolicyValid;
  }
}
