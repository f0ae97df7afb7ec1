// One route's clock mapper as the guard owns it: an object whose methods
// update its fields in place (src/core/clock_mapper.cpp:78-493). Each method
// is tied to its value-level meaning in MapperSpec.
module ClockMappers {
  import opened Numbers
  import opened Types
  import opened Estimator
  import opened MapperSpec

  class ClockMapper {
    const config: MapperConfig
    var samples: seq<Sample>
    // Indexed by StreamIndex.
    var timelines: seq<Timeline>
    var status: RouteStatus
    var haveEstimate: bool
    var epochStartMonotonicNs: u64
    var lastCountedHealthyRawNs: u64
    var recoverySamples: u32

    predicate Valid() reads this {
      MapperConfigValid(config) && |timelines| == 2
    }

    function State(): MapperState
      reads this
      requires Valid()
    {
      MapperState(status, samples, timelines[0], timelines[1], haveEstimate,
                  epochStartMonotonicNs, lastCountedHealthyRawNs, recoverySamples)
    }

    static function StreamIndex(stream: StreamKind): (i: nat)
      ensures i < 2
    {
      match stream
      case Pose => 0
      case Twist => 1
    }

    constructor (c: MapperConfig)
      requires MapperConfigValid(c)
      ensures Valid() && config == c && State() == Created(c)
    {
      config := c;
      samples := [];
      timelines := [UNSEEN, UNSEEN];
      status := RouteStatus(0, Initializing, 0, 0.0, 0, 0, 0, 0, 0, 0, 0, 0, 0);
      haveEstimate := false;
      epochStartMonotonicNs := 0;
      lastCountedHealthyRawNs := 0;
      recoverySamples := 0;
    }

    method InitializeEpoch(epoch: u64, sessionStartNs: u64, monotonicStartNs: u64) returns (ok: bool)
      requires Valid()
      modifies this
      ensures Valid()
      ensures ok <==> EpochAcceptable(config, old(status.epoch), epoch, sessionStartNs, monotonicStartNs)
      ensures ok <==> && epoch > old(status.epoch) && monotonicStartNs != 0
                      && (config.mapping == AffineToSession ==> sessionStartNs != 0)
      ensures ok ==> && status.epoch == epoch && status.state == Initializing && epochStartMonotonicNs == monotonicStartNs
                     && status.uncertaintyNs == config.route.sourceUncertaintyNs
                     && samples == [] && !haveEstimate && status.healthySamples == 0 && status.consecutiveFailures == 0
      ensures State() == if ok then Started(config, epoch, monotonicStartNs) else old(State())
    {
      var invalidSessionStart := config.mapping == AffineToSession && sessionStartNs == 0;
      if epoch == 0 || epoch <= status.epoch || invalidSessionStart || monotonicStartNs == 0 {
        return false;
      }
      samples := [];
      timelines := [UNSEEN, UNSEEN];
      haveEstimate := false;
      epochStartMonotonicNs := monotonicStartNs;
      lastCountedHealthyRawNs := 0;
      recoverySamples := 0;
      status := RouteStatus(epoch, Initializing, 0, 0.0, 0, config.route.sourceUncertaintyNs, 0, 0, 0, 0, 0, 0, 0);
      return true;
    }

    method RecordFailure(immediate: bool)
      requires Valid()
      modifies this
      ensures Valid()
      ensures State() == MapperSpec.RecordFailure(config, old(State()), immediate)
    {
      if status.state == Lost {
        return;
      }
      if status.consecutiveFailures < U32_MAX {
        status := status.(consecutiveFailures := status.consecutiveFailures + 1);
      }
      status := status.(healthySamples := 0);
      recoverySamples := 0;
      if immediate || status.consecutiveFailures >= config.policy.lostAfterFailures {
        status := status.(state := Lost);
        return;
      }
      status := status.(state := Degraded);
    }

    method AuthorityFailure(immediate: bool)
      requires Valid()
      modifies this
      ensures Valid()
      ensures State() == Step(config, old(State()), AuthorityFailureOp(immediate))
    {
      RecordFailure(immediate);
    }

    method Poll(nowNs: u64)
      requires Valid()
      modifies this
      ensures Valid()
      ensures State() == Step(config, old(State()), PollOp(nowNs))
    {
      if status.epoch == 0 || status.state == Lost {
        return;
      }
      if nowNs < epochStartMonotonicNs {
        RecordFailure(true);
        return;
      }
      for i := 0 to 2
        invariant Valid() && State() == old(State())
        invariant i > 0 ==> TimelineVerdict(config, State(), timelines[0], nowNs) == Ignored
        invariant i > 1 ==> TimelineVerdict(config, State(), timelines[1], nowNs) == Ignored
      {
        var timeline := timelines[i];
        var reference := if timeline.seen then timeline.monotonicNs else epochStartMonotonicNs;
        if nowNs < reference {
          RecordFailure(true);
          return;
        }
        var ageLimit := if timeline.seen then config.policy.maxSampleAgeNs else config.policy.startupLockTimeoutNs;
        if nowNs - reference > ageLimit {
          RecordFailure(!timeline.seen);
          return;
        }
      }
    }

    // An envelope for an observation that was not accepted.
    method RejectedEnvelope(o: Observation) returns (e: TimestampEnvelope)
      requires Valid()
      ensures e == MakeEnvelope(config, State(), o, false)
    {
      e := MakeEnvelope(config, State(), o, false);
    }

    method Reject(o: Observation, immediate: bool) returns (e: TimestampEnvelope)
      requires Valid()
      modifies this
      ensures Valid()
      ensures State() == MapperSpec.RecordFailure(config, old(State()), immediate)
      ensures e == MakeEnvelope(config, State(), o, false)
    {
      RecordFailure(immediate);
      e := RejectedEnvelope(o);
    }

    method PredictionFails(o: Observation) returns (implausible: bool)
      requires Valid()
      ensures implausible <==> PredictionImplausible(config, State(), o)
    {
      var ready := config.mapping == AffineToSession && |samples| >= config.policy.minLockSamples;
      if !ready || !haveEstimate {
        return false;
      }
      var prediction := EstimateAffine(samples, o.rawNs, config.route.sourceUncertaintyNs);
      var error := SignedDifference(o.sessionNs, prediction.mappedSessionNs);
      return Magnitude(error) > config.policy.maxSampleAgeNs;
    }

    method FitCandidate(o: Observation) returns (candidate: seq<Sample>, next: Estimate)
      requires Valid()
      ensures candidate == Candidate(config, samples, o)
      ensures next == NextFit(config, samples, o)
    {
      candidate := samples;
      if config.mapping == Identity {
        next := IdentityEstimate(o.rawNs, config.route.sourceUncertaintyNs);
        return;
      }
      if !RawFitted(candidate, o.rawNs) {
        candidate := candidate + [Sample(o.rawNs, o.sessionNs)];
      }
      ghost var pushed := candidate;
      while |candidate| > config.policy.estimatorWindow.value
        invariant |candidate| <= |pushed| && candidate == pushed[|pushed| - |candidate|..]
        invariant |candidate| >= Min(|pushed|, config.policy.estimatorWindow.value)
      {
        candidate := candidate[1..];
      }
      next := EstimateAffine(candidate, o.rawNs, config.route.sourceUncertaintyNs);
    }

    method Observe(o: Observation) returns (e: TimestampEnvelope)
      requires Valid()
      modifies this
      ensures Valid()
      ensures State() == Step(config, old(State()), ObserveOp(o))
      ensures e == EnvelopeOf(config, old(State()), o)
    {
      hide Candidate, NextFit, PredictionImplausible, QualityViolated;
      if o.slot != config.route.slot || o.sourceBody != config.route.sourceBody
         || o.sourceDomain != config.route.sourceDomain {
        e := Reject(o, true);
        return;
      }
      if status.epoch == 0 {
        e := Reject(o, false);
        return;
      }
      if status.state == Lost {
        e := RejectedEnvelope(o);
        return;
      }
      if o.fallbackSource {
        e := Reject(o, true);
        return;
      }
      var index := StreamIndex(o.stream);
      var timeline := timelines[index];
      if o.monotonicNs == 0 || o.monotonicNs < epochStartMonotonicNs {
        e := Reject(o, true);
        return;
      }
      var expired := StartupOver(o.monotonicNs);
      if expired {
        e := Reject(o, true);
        return;
      }
      if o.sessionNs == 0 {
        e := Reject(o, true);
        return;
      }
      if o.rawNs == 0 {
        if config.route.sourceDomain == SimulationSource && !timeline.seen && status.state == Initializing {
          e := RejectedEnvelope(o);
          return;
        }
        e := Reject(o, true);
        return;
      }
      if timeline.seen && o.rawNs == timeline.rawNs {
        e := RejectedEnvelope(o);
        return;
      }
      if timeline.seen && o.rawNs < timeline.rawNs {
        e := Reject(o, true);
        return;
      }
      if timeline.seen && o.monotonicNs <= timeline.monotonicNs {
        e := Reject(o, true);
        return;
      }
      e := FitAndCommit(o);
    }

    // A sample that arrived in order is judged by the estimate it leads to.
    method FitAndCommit(o: Observation) returns (e: TimestampEnvelope)
      requires Valid() && InOrder(config, State(), o)
      modifies this
      ensures Valid()
      ensures State() == Step(config, old(State()), ObserveOp(o))
      ensures e == EnvelopeOf(config, old(State()), o)
    {
      hide Candidate, NextFit, PredictionImplausible, QualityViolated, InOrder, Judge;
      JudgedInOrder(config, State(), o);
      var implausible := PredictionFails(o);
      if implausible {
        e := Reject(o, false);
        return;
      }
      var candidate, next := FitCandidate(o);
      if QualityViolated(config, State(), candidate, next) {
        e := Reject(o, false);
        return;
      }
      Commit(o, candidate, next);
      Count(o.rawNs);
      Relock();
      e := MakeEnvelope(config, State(), o, true);
    }

    // Whether a required stream is still missing when its allowance is over.
    method StartupOver(nowNs: u64) returns (expired: bool)
      requires Valid()
      ensures expired <==> StartupExpired(config, State(), nowNs)
    {
      for i := 0 to 2
        invariant forall j :: 0 <= j < i ==>
                    timelines[j].seen || nowNs - epochStartMonotonicNs <= config.policy.startupLockTimeoutNs
      {
        if !timelines[i].seen && nowNs - epochStartMonotonicNs > config.policy.startupLockTimeoutNs {
          return true;
        }
      }
      assert timelines[0].seen || nowNs - epochStartMonotonicNs <= config.policy.startupLockTimeoutNs;
      assert timelines[1].seen || nowNs - epochStartMonotonicNs <= config.policy.startupLockTimeoutNs;
      return false;
    }

    method Commit(o: Observation, candidate: seq<Sample>, next: Estimate)
      requires Valid() && candidate == Candidate(config, samples, o)
      modifies this
      ensures Valid()
      ensures State() == Committed(config, old(State()), o, next)
    {
      if config.mapping == AffineToSession {
        samples := candidate;
      }
      haveEstimate := true;
      timelines := timelines[StreamIndex(o.stream) := Timeline(true, o.rawNs, o.sessionNs, o.monotonicNs)];
      status := status.(
        offsetNs := next.offsetNs,
        driftPpm := next.driftPpm,
        jitterNs := next.jitterNs,
        uncertaintyNs := next.uncertaintyNs,
        lastRawNs := o.rawNs,
        lastSessionNs := next.mappedSessionNs,
        lastMonotonicNs := o.monotonicNs,
        authorityAgeNs := o.authorityAgeNs,
        gazeboSkewNs := o.gazeboSkewNs,
        consecutiveFailures := 0);
    }

    method Count(rawNs: u64)
      requires Valid()
      modifies this
      ensures Valid()
      ensures State() == Counted(old(State()), rawNs)
    {
      if rawNs > lastCountedHealthyRawNs {
        lastCountedHealthyRawNs := rawNs;
        if status.healthySamples < U32_MAX {
          status := status.(healthySamples := status.healthySamples + 1);
        }
        if status.state == Degraded && recoverySamples < U32_MAX {
          recoverySamples := recoverySamples + 1;
        }
      }
    }

    method Relock()
      requires Valid()
      modifies this
      ensures Valid()
      ensures State() == Relocked(config, old(State()))
    {
      var requiredStreamsSeen := timelines[0].seen && timelines[1].seen;
      if status.state == Initializing && requiredStreamsSeen
         && status.healthySamples >= config.policy.minLockSamples {
        status := status.(state := Locked);
      } else if status.state == Degraded && requiredStreamsSeen
                && recoverySamples >= config.policy.recoverLockSamples {
        status := status.(state := Locked);
        recoverySamples := 0;
      }
    }
  }
}
