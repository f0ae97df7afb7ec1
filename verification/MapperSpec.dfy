// What one route's clock mapper does, on values: every operation first reaches
// a verdict, and the verdict alone moves the state
// (src/core/clock_mapper.cpp:89-493).
module MapperSpec {
  import opened Numbers
  import opened Types
  import opened Estimator
  import opened Policy

  datatype MapperConfig = MapperConfig(route: Route, policy: ThresholdPolicy, mapping: ClockMapping)

  predicate MapperConfigValid(c: MapperConfig) {
    ThresholdPolicyValid(c.policy) && (c.mapping == AffineToSession ==> AffineFieldsPresent(c.policy))
  }

  datatype Timeline = Timeline(seen: bool, rawNs: u64, sessionNs: u64, monotonicNs: u64)

  const UNSEEN := Timeline(false, 0, 0, 0)

  datatype RouteStatus = RouteStatus(
    epoch: u64,
    state: GuardState,
    offsetNs: i64,
    driftPpm: real,
    jitterNs: u64,
    uncertaintyNs: u64,
    lastRawNs: u64,
    lastSessionNs: u64,
    lastMonotonicNs: u64,
    authorityAgeNs: u64,
    gazeboSkewNs: i64,
    healthySamples: u32,
    consecutiveFailures: u32)

  datatype MapperState = MapperState(
    status: RouteStatus,
    samples: seq<Sample>,
    pose: Timeline,
    twist: Timeline,
    haveEstimate: bool,
    epochMonotonicNs: u64,
    lastCountedRawNs: u64,
    recoverySamples: u32)
  {
    function TimelineOf(stream: StreamKind): Timeline {
      match stream
      case Pose => pose
      case Twist => twist
    }

    function WithTimeline(stream: StreamKind, t: Timeline): MapperState {
      match stream
      case Pose => this.(pose := t)
      case Twist => this.(twist := t)
    }

    predicate BothSeen() { pose.seen && twist.seen }
  }

  datatype MapperOp =
    | ObserveOp(observation: Observation)
    | PollOp(nowNs: u64)
    | AuthorityFailureOp(immediate: bool)

  datatype Verdict =
    | Ignored
    | Failed(immediate: bool)
    | Accepted(observation: Observation, fit: Estimate)

  // ---- construction ----

  function Created(c: MapperConfig): MapperState {
    MapperState(RouteStatus(0, Initializing, 0, 0.0, 0, 0, 0, 0, 0, 0, 0, 0, 0),
                [], UNSEEN, UNSEEN, false, 0, 0, 0)
  }

  predicate EpochAcceptable(c: MapperConfig, currentEpoch: u64, epoch: u64, sessionStartNs: u64, monotonicStartNs: u64) {
    && epoch != 0 && epoch > currentEpoch
    && !(c.mapping == AffineToSession && sessionStartNs == 0)
    && monotonicStartNs != 0
  }

  function Started(c: MapperConfig, epoch: u64, monotonicStartNs: u64): MapperState {
    MapperState(RouteStatus(epoch, Initializing, 0, 0.0, 0, c.route.sourceUncertaintyNs, 0, 0, 0, 0, 0, 0, 0),
                [], UNSEEN, UNSEEN, false, monotonicStartNs, 0, 0)
  }

  // ---- the fit ----

  predicate RawFitted(samples: seq<Sample>, rawNs: u64) {
    exists i :: 0 <= i < |samples| && samples[i].rawNs == rawNs
  }

  function LastN<T>(s: seq<T>, n: nat): seq<T> {
    if |s| > n then s[|s| - n..] else s
  }

  function Pushed(samples: seq<Sample>, rawNs: u64, sessionNs: u64): seq<Sample> {
    if RawFitted(samples, rawNs) then samples else samples + [Sample(rawNs, sessionNs)]
  }

  // The window an observation is fitted in.
  function Candidate(c: MapperConfig, samples: seq<Sample>, o: Observation): seq<Sample>
    requires MapperConfigValid(c)
  {
    if c.mapping == AffineToSession
    then LastN(Pushed(samples, o.rawNs, o.sessionNs), c.policy.estimatorWindow.value)
    else samples
  }

  ghost function NextFit(c: MapperConfig, samples: seq<Sample>, o: Observation): Estimate
    requires MapperConfigValid(c)
  {
    if c.mapping == Identity then IdentityEstimate(o.rawNs, c.route.sourceUncertaintyNs)
    else AffineEstimate(Candidate(c, samples, o), o.rawNs, c.route.sourceUncertaintyNs)
  }

  ghost predicate PredictionImplausible(c: MapperConfig, st: MapperState, o: Observation) {
    && c.mapping == AffineToSession
    && |st.samples| >= c.policy.minLockSamples
    && st.haveEstimate
    && Magnitude(SignedDifference(o.sessionNs,
         AffineEstimate(st.samples, o.rawNs, c.route.sourceUncertaintyNs).mappedSessionNs)) > c.policy.maxSampleAgeNs
  }

  predicate QualityReady(c: MapperConfig, candidate: seq<Sample>) {
    c.mapping == AffineToSession ==> |candidate| >= c.policy.minLockSamples
  }

  predicate QualityViolated(c: MapperConfig, st: MapperState, candidate: seq<Sample>, fit: Estimate)
    requires MapperConfigValid(c)
  {
    || (c.mapping == AffineToSession && QualityReady(c, candidate) &&
          (|| (st.haveEstimate &&
                 RoundedUnsigned(RealMagnitude(fit.offsetNs as real - st.status.offsetNs as real))
                   > c.policy.maxOffsetStepNs.value)
           || RealMagnitude(fit.driftPpm) > c.policy.maxDriftPpm.value
           || fit.jitterNs > c.policy.maxJitterNs.value))
    || (QualityReady(c, candidate) && fit.uncertaintyNs > c.policy.maxUncertaintyNs)
    || fit.mappedSessionNs == 0
  }

  // ---- verdicts ----

  predicate Misrouted(c: MapperConfig, o: Observation) {
    o.slot != c.route.slot || o.sourceBody != c.route.sourceBody || o.sourceDomain != c.route.sourceDomain
  }

  // Some required stream is still missing and its startup allowance is over.
  predicate StartupExpired(c: MapperConfig, st: MapperState, nowNs: u64) {
    !st.BothSeen() && nowNs - st.epochMonotonicNs > c.policy.startupLockTimeoutNs
  }

  ghost function Judge(c: MapperConfig, st: MapperState, o: Observation): Verdict
    requires MapperConfigValid(c)
  {
    var t := st.TimelineOf(o.stream);
    if Misrouted(c, o) then Failed(true)
    else if st.status.epoch == 0 then Failed(false)
    else if st.status.state == Lost then Ignored
    else if o.fallbackSource then Failed(true)
    else if o.monotonicNs == 0 || o.monotonicNs < st.epochMonotonicNs then Failed(true)
    else if StartupExpired(c, st, o.monotonicNs) then Failed(true)
    else if o.sessionNs == 0 then Failed(true)
    else if o.rawNs == 0 then
      if c.route.sourceDomain == SimulationSource && !t.seen && st.status.state == Initializing then Ignored
      else Failed(true)
    else if t.seen && o.rawNs == t.rawNs then Ignored
    else if t.seen && (o.rawNs < t.rawNs || o.monotonicNs <= t.monotonicNs) then Failed(true)
    else if PredictionImplausible(c, st, o) then Failed(false)
    else
      var fit := NextFit(c, st.samples, o);
      if QualityViolated(c, st, Candidate(c, st.samples, o), fit) then Failed(false)
      else Accepted(o, fit)
  }

  // The sample passes every check before its estimate.
  predicate InOrder(c: MapperConfig, st: MapperState, o: Observation) {
    var t := st.TimelineOf(o.stream);
    && !Misrouted(c, o) && st.status.epoch != 0 && st.status.state != Lost && !o.fallbackSource
    && o.monotonicNs != 0 && o.monotonicNs >= st.epochMonotonicNs && !StartupExpired(c, st, o.monotonicNs)
    && o.sessionNs != 0 && o.rawNs != 0
    && (t.seen ==> o.rawNs > t.rawNs && o.monotonicNs > t.monotonicNs)
  }

  // What is left of the judgement of such a sample.
  lemma JudgedInOrder(c: MapperConfig, st: MapperState, o: Observation)
    requires MapperConfigValid(c) && InOrder(c, st, o)
    ensures Judge(c, st, o) ==
              if PredictionImplausible(c, st, o) then Failed(false)
              else
                var fit := NextFit(c, st.samples, o);
                if QualityViolated(c, st, Candidate(c, st.samples, o), fit) then Failed(false)
                else Accepted(o, fit)
  {
    hide PredictionImplausible, NextFit, QualityViolated, Candidate, StartupExpired, Misrouted;
  }

  function TimelineVerdict(c: MapperConfig, st: MapperState, t: Timeline, nowNs: u64): Verdict {
    var reference := if t.seen then t.monotonicNs else st.epochMonotonicNs;
    var limit := if t.seen then c.policy.maxSampleAgeNs else c.policy.startupLockTimeoutNs;
    if nowNs < reference then Failed(true)
    else if nowNs - reference > limit then Failed(!t.seen)
    else Ignored
  }

  function PollVerdict(c: MapperConfig, st: MapperState, nowNs: u64): Verdict {
    if st.status.epoch == 0 || st.status.state == Lost then Ignored
    else if nowNs < st.epochMonotonicNs then Failed(true)
    else
      var pose := TimelineVerdict(c, st, st.pose, nowNs);
      if pose != Ignored then pose else TimelineVerdict(c, st, st.twist, nowNs)
  }

  ghost function Decide(c: MapperConfig, st: MapperState, op: MapperOp): Verdict
    requires MapperConfigValid(c)
  {
    match op
    case ObserveOp(o) => Judge(c, st, o)
    case PollOp(now) => PollVerdict(c, st, now)
    case AuthorityFailureOp(immediate) => Failed(immediate)
  }

  // ---- what a verdict does ----

  function RecordFailure(c: MapperConfig, st: MapperState, immediate: bool): MapperState {
    if st.status.state == Lost then st
    else
      var failures := SaturatingIncrement(st.status.consecutiveFailures);
      var state := if immediate || failures >= c.policy.lostAfterFailures then Lost else Degraded;
      st.(status := st.status.(consecutiveFailures := failures, healthySamples := 0, state := state),
          recoverySamples := 0)
  }

  // The counters after an accepted raw stamp: only a new maximum counts.
  function Counted(st: MapperState, rawNs: u64): MapperState {
    if rawNs > st.lastCountedRawNs then
      st.(lastCountedRawNs := rawNs,
          recoverySamples := if st.status.state == Degraded then SaturatingIncrement(st.recoverySamples)
                             else st.recoverySamples,
          status := st.status.(healthySamples := SaturatingIncrement(st.status.healthySamples)))
    else st
  }

  function Relocked(c: MapperConfig, st: MapperState): MapperState {
    if st.status.state == Initializing && st.BothSeen() && st.status.healthySamples >= c.policy.minLockSamples then
      st.(status := st.status.(state := Locked))
    else if st.status.state == Degraded && st.BothSeen() && st.recoverySamples >= c.policy.recoverLockSamples then
      st.(status := st.status.(state := Locked), recoverySamples := 0)
    else st
  }

  // The accepted sample is committed: window, stream timeline and diagnostics.
  function Committed(c: MapperConfig, st: MapperState, o: Observation, fit: Estimate): MapperState
    requires MapperConfigValid(c)
  {
    st.(samples := Candidate(c, st.samples, o),
        haveEstimate := true,
        status := st.status.(
          offsetNs := fit.offsetNs,
          driftPpm := fit.driftPpm,
          jitterNs := fit.jitterNs,
          uncertaintyNs := fit.uncertaintyNs,
          lastRawNs := o.rawNs,
          lastSessionNs := fit.mappedSessionNs,
          lastMonotonicNs := o.monotonicNs,
          authorityAgeNs := o.authorityAgeNs,
          gazeboSkewNs := o.gazeboSkewNs,
          consecutiveFailures := 0))
      .WithTimeline(o.stream, Timeline(true, o.rawNs, o.sessionNs, o.monotonicNs))
  }

  function Advance(c: MapperConfig, st: MapperState, v: Verdict): MapperState
    requires MapperConfigValid(c)
  {
    match v
    case Ignored => st
    case Failed(immediate) => RecordFailure(c, st, immediate)
    case Accepted(o, fit) => Relocked(c, Counted(Committed(c, st, o, fit), o.rawNs))
  }

  ghost function Step(c: MapperConfig, st: MapperState, op: MapperOp): MapperState
    requires MapperConfigValid(c)
  {
    Advance(c, st, Decide(c, st, op))
  }

  function MakeEnvelope(c: MapperConfig, st: MapperState, o: Observation, accepted: bool): TimestampEnvelope {
    TimestampEnvelope(
      o.slot, c.route.sourceBody, c.route.canonicalBody, o.sourceDomain, o.stream, st.status.epoch, o.rawNs,
      if accepted then st.status.lastSessionNs else 0, o.monotonicNs, o.authorityAgeNs, o.gazeboSkewNs,
      st.status.offsetNs, st.status.driftPpm, st.status.jitterNs, st.status.uncertaintyNs, st.status.state,
      accepted, accepted && st.status.state == Locked)
  }

  ghost function EnvelopeOf(c: MapperConfig, st: MapperState, o: Observation): TimestampEnvelope
    requires MapperConfigValid(c)
  {
    MakeEnvelope(c, Step(c, st, ObserveOp(o)), o, Judge(c, st, o).Accepted?)
  }

  // ---- runs ----

  ghost function Run(c: MapperConfig, st: MapperState, ops: seq<MapperOp>): MapperState
    requires MapperConfigValid(c)
  {
    if ops == [] then st
    else Step(c, Run(c, st, ops[..|ops| - 1]), ops[|ops| - 1])
  }

  ghost function Verdicts(c: MapperConfig, st: MapperState, ops: seq<MapperOp>): (h: seq<Verdict>)
    requires MapperConfigValid(c)
    ensures |h| == |ops|
  {
    if ops == [] then []
    else
      var front := ops[..|ops| - 1];
      Verdicts(c, st, front) + [Decide(c, Run(c, st, front), ops[|ops| - 1])]
  }
}
