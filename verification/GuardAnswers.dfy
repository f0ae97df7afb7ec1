// What the guard answers to an observation, field by field, after every run
// (src/core/clock_mapper.cpp:248-292, src/core/session_clock_guard.cpp:522-611),
// and what an accepted answer has passed.
module GuardAnswers {
  import opened Numbers
  import opened Types
  import opened Policy
  import opened Estimator
  import opened MapperSpec
  import opened MapperRuns
  import opened MapperGates
  import opened GuardSpec
  import opened GuardInvariant
  import opened GuardRuns
  import opened GuardFeeds
  import opened QuietRuns

  // The answer names the frozen route and the observation.
  predicate Names(c: Startup, r: Route, o: Observation, e: TimestampEnvelope) {
    && e.slot == o.slot && e.sourceBody == r.sourceBody && e.canonicalBody == r.canonicalBody
    && e.sourceDomain == o.sourceDomain && e.stream == o.stream
    && e.epoch == c.epoch && e.rawNs == o.rawNs && e.monotonicNs == o.monotonicNs
  }

  // It reports the route as the call leaves it, and the stamp only if accepted.
  predicate ReportsRoute(st: MapperState, e: TimestampEnvelope) {
    && e.offsetNs == st.status.offsetNs && e.driftPpm == st.status.driftPpm && e.jitterNs == st.status.jitterNs
    && e.uncertaintyNs == st.status.uncertaintyNs && e.state == st.status.state
    && e.mappedSessionNs == (if e.accepted then st.status.lastSessionNs else 0)
    && (!e.accepted ==> !e.canonicalPublishAllowed)
  }

  // The answer names the observation, and reports the route as the guard now
  // has it.
  ghost predicate Answers(c: Startup, o: Observation, t: Guard, e: TimestampEnvelope) {
    && Known(c, t, o.slot) && t.routes[o.slot].status.epoch == c.epoch
    && Names(c, Table(c)[o.slot], o, e) && ReportsRoute(t.routes[o.slot], e)
  }

  // The same observation with other readings of the authority.
  predicate SameSample(o: Observation, given: Observation) {
    given == o.(sessionNs := given.sessionNs, gazeboStampNs := given.gazeboStampNs,
                authorityAgeNs := given.authorityAgeNs, gazeboSkewNs := given.gazeboSkewNs)
  }

  // ---- the three kinds of answer ----

  lemma EnvelopeAnswers(c: Startup, t: Guard, o: Observation, given: Observation, accepted: bool, allowed: bool)
    requires Known(c, t, o.slot) && t.routes[o.slot].status.epoch == c.epoch && SameSample(o, given)
    requires allowed ==> accepted
    ensures var e := MakeEnvelope(RouteConfig(c, Table(c)[o.slot]), t.routes[o.slot], given, accepted)
                       .(canonicalPublishAllowed := allowed);
            && Answers(c, o, t, e)
            && e.authorityAgeNs == given.authorityAgeNs && e.gazeboSkewNs == given.gazeboSkewNs && e.accepted == accepted
  {
    hide Table;
  }

  lemma RefusalAnswers(c: Startup, t: Guard, o: Observation, given: Observation)
    requires Known(c, t, o.slot) && t.routes[o.slot].status.epoch == c.epoch && SameSample(o, given)
    ensures var e := AuthorityEnvelope(c, t, given);
            && Answers(c, o, t, e) && !e.accepted
            && e.authorityAgeNs == t.status.ageNs && e.gazeboSkewNs == t.status.lastSkewNs
  {
    hide Table, MakeEnvelope, Answers;
    var enriched := given.(authorityAgeNs := t.status.ageNs, gazeboStampNs := t.lastGazeboStampNs,
                           gazeboSkewNs := t.status.lastSkewNs);
    EnvelopeAnswers(c, t, o, enriched, false, false);
    RefusalIsClosed(c, t, enriched);
  }

  lemma RefusalIsClosed(c: Startup, t: Guard, o: Observation)
    requires Known(c, t, o.slot)
    ensures var e := MakeEnvelope(RouteConfig(c, Table(c)[o.slot]), t.routes[o.slot], o, false);
            e == e.(canonicalPublishAllowed := false)
  {
    hide Table, RouteConfig;
  }

  lemma StepKeepsEpoch(c: Startup, s: Guard, slot: string, op: MapperOp)
    requires c.Valid() && Known(c, s, slot) && s.routes[slot].status.epoch == c.epoch
    ensures StepRoute(c, s, slot, op).routes[slot].status.epoch == c.epoch
  {
    hide Startup.Valid, Table, RouteConfig, Decide, Advance, MapperConfigValid;
    RouteConfigIsValid(c, Table(c)[slot]);
    var m := RouteConfig(c, Table(c)[slot]);
    AdvanceKeepsEpoch(m, s.routes[slot], Decide(m, s.routes[slot], op));
  }

  lemma MapAnswers(c: Startup, s: Guard, o: Observation, given: Observation, before: GuardState)
    requires c.Valid() && Known(c, s, o.slot) && s.routes[o.slot].status.epoch == c.epoch && SameSample(o, given)
    ensures var (t, e) := MapObservation(c, s, given, before);
            && Answers(c, o, t, e) && e.authorityAgeNs == given.authorityAgeNs && e.gazeboSkewNs == given.gazeboSkewNs
            && t.status == s.status && t.lastGazeboStampNs == s.lastGazeboStampNs
  {
    hide Startup.Valid, Table, RouteConfig, StepSlot, EmitTransition, SensitiveOutputAllowed, Step, MakeEnvelope, Judge,
         MapperConfigValid, Names, ReportsRoute;
    StepKeepsEpoch(c, s, o.slot, ObserveOp(given));
    RouteConfigIsValid(c, Table(c)[o.slot]);
    var u := StepRoute(c, s, o.slot, ObserveOp(given));
    var t := EmitTransition(c, u, before, given.monotonicNs);
    assert t == u.(nextSequence := t.nextSequence, pending := t.pending);
    var accepted := Judge(RouteConfig(c, Table(c)[o.slot]), s.routes[o.slot], given).Accepted?;
    SlotIsStepped(c, s, o.slot, ObserveOp(given));
    AcceptedFlag(RouteConfig(c, Table(c)[o.slot]), s.routes[o.slot], given);
    EnvelopeAnswers(c, t, o, given, accepted, accepted && SensitiveOutputAllowed(u));
  }

  lemma SlotIsStepped(c: Startup, s: Guard, slot: string, op: MapperOp)
    requires c.Valid() && Known(c, s, slot)
    ensures MapperConfigValid(RouteConfig(c, Table(c)[slot]))
    ensures StepRoute(c, s, slot, op).routes[slot] == Step(RouteConfig(c, Table(c)[slot]), s.routes[slot], op)
  {
    hide Startup.Valid, Table, RouteConfig, Step, MapperConfigValid;
    RouteConfigIsValid(c, Table(c)[slot]);
  }

  lemma AcceptedFlag(m: MapperConfig, st: MapperState, o: Observation)
    requires MapperConfigValid(m)
    ensures EnvelopeOf(m, st, o).accepted == Judge(m, st, o).Accepted?
  {
    hide Judge, Step, MapperConfigValid;
  }

  lemma SkewFailureAnswers(c: Startup, s: Guard, o: Observation, given: Observation, before: GuardState)
    requires c.Valid() && Known(c, s, o.slot) && s.routes[o.slot].status.epoch == c.epoch && SameSample(o, given)
    ensures var (t, e) := SkewFailure(c, s, given, before);
            && Answers(c, o, t, e) && e.authorityAgeNs == given.authorityAgeNs && e.gazeboSkewNs == given.gazeboSkewNs
            && t.status == s.status && t.lastGazeboStampNs == s.lastGazeboStampNs
  {
    hide Startup.Valid, Table, RouteConfig, StepSlot, EmitTransition, MakeEnvelope, MapperConfigValid, Names, ReportsRoute;
    StepKeepsEpoch(c, s, o.slot, AuthorityFailureOp(false));
    var u := StepRoute(c, s, o.slot, AuthorityFailureOp(false));
    var t := EmitTransition(c, u, before, given.monotonicNs);
    assert t == u.(nextSequence := t.nextSequence, pending := t.pending);
    EnvelopeAnswers(c, t, o, given, false, false);
    RefusalIsClosed(c, t, given);
  }

  // ---- behind the authority ----

  ghost predicate GateAnswers(c: Startup, o: Observation, feed: Option<MapperOp>, t: Guard, e: TimestampEnvelope)
    requires o.slot in Table(c)
  {
    var asked, physical := feed.Some? && feed.value.ObserveOp?, Table(c)[o.slot].sourceDomain == PhysicalSource;
    && Answers(c, o, t, e)
    && e.authorityAgeNs == t.status.ageNs
    && e.gazeboSkewNs == (if asked && physical then 0 else t.status.lastSkewNs)
    && (asked && c.GazeboRequired() && !physical ==> t.status.lastSkewNs == SignedDifference(o.rawNs, t.lastGazeboStampNs))
  }

  lemma SkewAnswers(c: Startup, s: Guard, o: Observation, given: Observation, before: GuardState)
    requires c.Valid() && Known(c, s, o.slot) && s.routes[o.slot].status.epoch == c.epoch && SameSample(o, given)
    requires c.GazeboRequired() && given.gazeboSkewNs == 0
    ensures var (t, e) := GateSkew(c, s, given, before); GateAnswers(c, o, Some(SkewFeed(c, s, given)), t, e)
  {
    hide Startup.Valid, Table, MapObservation, SkewFailure, Magnitude, SignedDifference, Answers;
    ModeFacts(c);
    var enriched := Enriched(c, s, given);
    var skew := SignedDifference(given.rawNs, s.lastGazeboStampNs);
    var skewed := enriched.(gazeboSkewNs := skew);
    if Table(c)[o.slot].sourceDomain != SimulationSource {
      MapAnswers(c, s, o, enriched, before);
    } else if Magnitude(skew) > c.config.thresholds.maxGazeboClockSkewNs.value {
      SkewFailureAnswers(c, WithSkew(s, skew), o, skewed, before);
    } else {
      MapAnswers(c, WithSkew(s, skew), o, skewed, before);
    }
  }

  lemma GateAnswered(c: Startup, s: Guard, o: Observation, given: Observation, before: GuardState)
    requires c.Valid() && Known(c, s, o.slot) && s.routes[o.slot].status.epoch == c.epoch && SameSample(o, given)
    requires given.gazeboSkewNs == 0 && given.authorityAgeNs == 0
    requires !c.GazeboRequired() ==> s.status.ageNs == 0 && s.status.lastSkewNs == 0
    ensures var (t, e) := GateGazebo(c, s, given, before); GateAnswers(c, o, GateFeed(c, s, given, o.slot), t, e)
  {
    hide Startup.Valid, Table, MapObservation, GateSkew, GazeboAge, Failing, AuthorityEnvelope, SkewFeed, Answers,
         DeadlineExceeded;
    if !c.GazeboRequired() {
      MapAnswers(c, s, o, given, before);
    } else {
      var (s1, check) := GazeboAge(c, s, given.monotonicNs);
      if check != Fresh {
        var t := if check == Hopeless || DeadlineExceeded(c, s1)
                 then Failing(c, s1, check == Hopeless, before, given.monotonicNs) else s1;
        FailingKeepsEpoch(c, s1, check == Hopeless, before, given.monotonicNs, o.slot);
        RefusalAnswers(c, t, o, given);
      } else if !s1.status.healthy {
        RefusalAnswers(c, s1, o, given);
      } else {
        SkewAnswers(c, s1, o, given, before);
      }
    }
  }

  lemma FailingKeepsEpoch(c: Startup, s: Guard, immediate: bool, before: GuardState, monotonicNs: u64, slot: string)
    requires c.Valid() && Known(c, s, slot) && s.routes[slot].status.epoch == c.epoch
    ensures var t := Failing(c, s, immediate, before, monotonicNs);
            Known(c, t, slot) && t.routes[slot].status.epoch == c.epoch
  {
    hide Startup.Valid, Table, RouteConfig, EmitTransition, Decide, Advance, MapperConfigValid, Refresh, AuthorityFailed;
    RouteConfigIsValid(c, Table(c)[slot]);
    var m, op := RouteConfig(c, Table(c)[slot]), AuthorityFailureOp(immediate);
    AdvanceKeepsEpoch(m, s.routes[slot], Decide(m, s.routes[slot], op));
    LogKeepsRoutes(c, FailAuthority(c, s, immediate), before, monotonicNs);
  }

  // A failed station reading ends the observation.
  lemma StationStops(c: Startup, s: Guard, o: Observation, slot: string)
    requires c.Valid() && c.StationRequired() && StationFieldsPresent(c.config.thresholds) && Known(c, s, o.slot)
    requires !ValidateStation(c, s, o.monotonicNs, o.systemWallNs).1
    ensures var t := Failing(c, ValidateStation(c, s, o.monotonicNs, o.systemWallNs).0, true, Aggregate(s), o.monotonicNs);
            && Known(c, t, o.slot) && ObserveRoute(c, s, o) == (t, AuthorityEnvelope(c, t, Cleared(o)))
            && RouteFeed(c, s, o, slot) == Some(AuthorityFailureOp(true))
  {
    hide Startup.Valid, Table, GateGazebo, GateFeed, Aggregate, StationTime, ValidateStation, Failing, AuthorityEnvelope, Cleared;
  }

  lemma ClearedSample(o: Observation, sessionNs: u64)
    ensures SameSample(o, Cleared(o)) && SameSample(o, Cleared(o).(sessionNs := sessionNs))
    ensures Cleared(o).gazeboSkewNs == 0 && Cleared(o).authorityAgeNs == 0
  {
  }

  lemma StationAnswered(c: Startup, s: Guard, o: Observation)
    requires c.Valid() && Known(c, s, o.slot) && s.routes[o.slot].status.epoch == c.epoch && c.StationRequired()
    requires StationFieldsPresent(c.config.thresholds)
    requires !c.GazeboRequired() ==> s.status.ageNs == 0 && s.status.lastSkewNs == 0
    ensures var (t, e) := ObserveRoute(c, s, o); GateAnswers(c, o, RouteFeed(c, s, o, o.slot), t, e)
  {
    hide Startup.Valid, Table, GateGazebo, GateFeed, ValidateStation, Failing, AuthorityEnvelope, Answers, Aggregate, SessionNow,
         ObserveRoute, RouteFeed, Cleared, SameSample, SignedDifference;
    var (s1, ok) := ValidateStation(c, s, o.monotonicNs, o.systemWallNs);
    StationKeepsZero(c, s, o.monotonicNs, o.systemWallNs);
    ClearedSample(o, SessionNow(c, s1, o.monotonicNs));
    if ok {
      StationLetsThrough(c, s, o, o.slot);
      GateAnswered(c, s1, o, Cleared(o).(sessionNs := SessionNow(c, s1, o.monotonicNs)), Aggregate(s));
    } else {
      StationStops(c, s, o, o.slot);
      FailingKeepsEpoch(c, s1, true, Aggregate(s), o.monotonicNs, o.slot);
      RefusalAnswers(c, Failing(c, s1, true, Aggregate(s), o.monotonicNs), o, Cleared(o));
    }
  }

  lemma WithoutStation(c: Startup, s: Guard, o: Observation, slot: string)
    requires c.Valid() && !c.StationRequired() && Known(c, s, o.slot)
    ensures ObserveRoute(c, s, o) == GateGazebo(c, s, Cleared(o), Aggregate(s))
    ensures RouteFeed(c, s, o, slot) == GateFeed(c, s, Cleared(o), slot)
  {
    hide Startup.Valid, Table, GateGazebo, GateFeed, Aggregate, ValidateStation, Cleared;
  }

  lemma ObservationAnswered(c: Startup, s: Guard, o: Observation)
    requires c.Valid() && Inv(c, s) && o.slot in Table(c)
    ensures var (t, e) := ObserveRoute(c, s, o); GateAnswers(c, o, RouteFeed(c, s, o, o.slot), t, e)
  {
    hide Startup.Valid, Inv, Table, GateGazebo, GateFeed, ObserveRoute, RouteFeed, Cleared, SameSample, Aggregate, GateAnswers;
    RouteEpochIs(c, s, o.slot);
    UnusedAreZero(c, s);
    ModeFacts(c);
    if c.StationRequired() {
      StationAnswered(c, s, o);
    } else {
      ClearedSample(o, 0);
      WithoutStation(c, s, o, o.slot);
      GateAnswered(c, s, o, Cleared(o), Aggregate(s));
    }
  }

  lemma UnusedAreZero(c: Startup, s: Guard)
    requires c.Valid() && Inv(c, s)
    ensures !c.GazeboRequired() ==> s.status.ageNs == 0 && s.status.lastSkewNs == 0
  {
    hide Startup.Valid, RoutesSound, Settled;
  }

  lemma StationKeepsZero(c: Startup, s: Guard, monotonicNs: u64, systemWallNs: u64)
    requires StationFieldsPresent(c.config.thresholds)
    ensures var t := ValidateStation(c, s, monotonicNs, systemWallNs).0;
            t.routes == s.routes && t.status.lastSkewNs == s.status.lastSkewNs && (s.status.ageNs == 0 ==> t.status.ageNs == 0)
  {
    hide SessionNow, SignedDifference, ClampedDifference;
  }

  lemma RouteEpochIs(c: Startup, s: Guard, slot: string)
    requires c.Valid() && Inv(c, s) && slot in Table(c)
    ensures Known(c, s, slot) && s.routes[slot].status.epoch == c.epoch
  {
    hide Startup.Valid, Table, Settled, RouteConfig, RouteSound;
    SoundRoutes(c, s.routes);
    SoundRouteFacts(c, slot, s.routes[slot]);
  }

  // ---- after every run ----

  // The answer to an observation of a frozen route names that route and the
  // observation, and reports the route as the call leaves it; its age is the
  // authority's, and its skew depends on whether the route was fed the sample.
  lemma AnswerFollowsFeed(c: Startup, ops: seq<GuardOp>, o: Observation, i: nat)
    requires c.Valid() && i < |c.config.routes| && c.config.routes[i].slot == o.slot
    ensures var s, (t, e), r := After(c, ops), ObserveRoute(c, After(c, ops), o), c.config.routes[i];
            var feed := RouteFeed(c, s, o, o.slot);
            var asked := feed.Some? && feed.value.ObserveOp?;
            && o.slot in t.routes && Names(c, r, o, e) && ReportsRoute(t.routes[o.slot], e)
            && e.authorityAgeNs == t.status.ageNs
            && e.gazeboSkewNs == (if asked && r.sourceDomain == PhysicalSource then 0 else t.status.lastSkewNs)
            && (asked && c.GazeboRequired() && r.sourceDomain == SimulationSource ==>
                  t.status.lastSkewNs == SignedDifference(o.rawNs, t.lastGazeboStampNs))
  {
    hide Startup.Valid, Inv, Table, After, ObserveRoute, RouteFeed, SignedDifference, Names, ReportsRoute;
    RouteIsHeld(c, i);
    RunInv(c, ops);
    ObservationAnswered(c, After(c, ops), o);
  }

  lemma RouteIsHeld(c: Startup, i: nat)
    requires c.Valid() && i < |c.config.routes|
    ensures c.config.routes[i].slot in Table(c) && Table(c)[c.config.routes[i].slot] == c.config.routes[i]
  {
    hide ThresholdPolicyValid, ModeClockPolicyValid, SourceTimingValid, RouteLegal;
    forall j | 0 <= j < i ensures c.config.routes[j].slot != c.config.routes[i].slot {
      assert RoutesApart(c.config.routes[j], c.config.routes[i]);
    }
  }

  // An observation of no frozen route changes nothing and is answered with its own
  // words, no canonical body and a lost state.
  lemma UnknownAnswerIsExact(c: Startup, ops: seq<GuardOp>, o: Observation)
    requires c.Valid() && forall i :: 0 <= i < |c.config.routes| ==> c.config.routes[i].slot != o.slot
    ensures var (t, e) := ObserveRoute(c, After(c, ops), o);
            && t == After(c, ops)
            && e.slot == o.slot && e.sourceBody == o.sourceBody && e.canonicalBody == "" && e.sourceDomain == o.sourceDomain
            && e.stream == o.stream && e.epoch == c.epoch && e.rawNs == o.rawNs && e.monotonicNs == o.monotonicNs
            && e.mappedSessionNs == 0 && e.authorityAgeNs == 0 && e.gazeboSkewNs == 0
            && e.offsetNs == 0 && e.driftPpm == 0.0 && e.jitterNs == 0 && e.uncertaintyNs == 0
            && e.state == Lost && !e.accepted && !e.canonicalPublishAllowed
  {
    assert o.slot !in Table(c);
    hide Startup.Valid, Table, After, GateGazebo, ValidateStation, Failing, AuthorityEnvelope;
  }

  // ---- what acceptance means for the reported quality ----

  // The estimator's report before and after an accepted observation.
  predicate WithinPolicy(p: ThresholdPolicy, before: MapperState, after: MapperState) {
    && p.maxOffsetStepNs.Some? && p.maxDriftPpm.Some? && p.maxJitterNs.Some?
    && (before.haveEstimate ==> Magnitude(after.status.offsetNs - before.status.offsetNs) <= p.maxOffsetStepNs.value)
    && -p.maxDriftPpm.value <= after.status.driftPpm <= p.maxDriftPpm.value
    && after.status.jitterNs <= p.maxJitterNs.value
    && after.status.uncertaintyNs <= p.maxUncertaintyNs
  }

  lemma AcceptedInOrder(m: MapperConfig, st: MapperState, o: Observation)
    requires MapperConfigValid(m) && Judge(m, st, o).Accepted?
    ensures InOrder(m, st, o)
  {
    hide ThresholdPolicyValid, PredictionImplausible, QualityViolated, NextFit, Candidate, Misrouted, StartupExpired;
  }

  lemma RouteAcceptsWithin(m: MapperConfig, st: MapperState, o: Observation)
    requires MapperConfigValid(m) && Judge(m, st, o).Accepted?
    ensures var t := Step(m, st, ObserveOp(o));
            && (m.mapping == AffineToSession && |t.samples| >= m.policy.minLockSamples ==> WithinPolicy(m.policy, st, t))
            && (m.mapping == Identity ==> t.status.uncertaintyNs <= m.policy.maxUncertaintyNs)
  {
    hide ThresholdPolicyValid, Judge, EnvelopeOf, InOrder, Window, AffineEstimate, Predicted, Fails, Step;
    AcceptedInOrder(m, st, o);
    AcceptedFlag(m, st, o);
    if m.mapping == AffineToSession { AffineGateIsExact(m, st, o); } else { IdentityGateIsExact(m, st, o); }
  }

  lemma AcceptedRoute(c: Startup, s: Guard, o: Observation)
    requires c.Valid() && Inv(c, s) && ObserveRoute(c, s, o).1.accepted
    ensures Known(c, s, o.slot) && Known(c, ObserveRoute(c, s, o).0, o.slot)
    ensures MapperConfigValid(RouteConfig(c, Table(c)[o.slot]))
    ensures exists given ::
              && Judge(RouteConfig(c, Table(c)[o.slot]), s.routes[o.slot], given).Accepted?
              && ObserveRoute(c, s, o).0.routes[o.slot]
                 == Step(RouteConfig(c, Table(c)[o.slot]), s.routes[o.slot], ObserveOp(given))
  {
    hide Startup.Valid, Inv, Table, RouteConfig, RouteFeed, Judge, Step, MapperConfigValid, ObserveRoute, EnvelopeOf;
    AcceptedIsKnown(c, s, o);
    RouteEpochIs(c, s, o.slot);
    RouteConfigIsValid(c, Table(c)[o.slot]);
    RouteFeeds(c, s, o, o.slot);
    var feed := RouteFeed(c, s, o, o.slot);
    assert Judge(RouteConfig(c, Table(c)[o.slot]), s.routes[o.slot], feed.value.observation).Accepted?;
  }

  lemma AcceptedIsKnown(c: Startup, s: Guard, o: Observation)
    requires c.Valid() && ObserveRoute(c, s, o).1.accepted
    ensures o.slot in Table(c)
  {
    hide Startup.Valid, Table, GateGazebo, ValidateStation, Failing, AuthorityEnvelope;
  }

  // Over every run, an accepted observation that leaves a full window leaves the
  // route's reported drift, in either direction, jitter and uncertainty within the
  // policy, and its offset within one step of the one before; an unmapped route's
  // uncertainty is within the policy too.
  lemma AcceptedWithinPolicy(c: Startup, ops: seq<GuardOp>, o: Observation)
    requires c.Valid() && ObserveRoute(c, After(c, ops), o).1.accepted
    ensures var s, t := After(c, ops), ObserveRoute(c, After(c, ops), o).0;
            && o.slot in s.routes && o.slot in t.routes
            && (c.config.mapping == AffineToSession && |t.routes[o.slot].samples| >= c.config.thresholds.minLockSamples ==>
                  WithinPolicy(c.config.thresholds, s.routes[o.slot], t.routes[o.slot]))
            && (c.config.mapping == Identity ==>
                  t.routes[o.slot].status.uncertaintyNs <= c.config.thresholds.maxUncertaintyNs)
  {
    hide Startup.Valid, Inv, Table, After, ObserveRoute, Judge, Step, MapperConfigValid, WithinPolicy;
    RunInv(c, ops);
    var s := After(c, ops);
    AcceptedRoute(c, s, o);
    var m := RouteConfig(c, Table(c)[o.slot]);
    var given :| Judge(m, s.routes[o.slot], given).Accepted?
                 && ObserveRoute(c, s, o).0.routes[o.slot] == Step(m, s.routes[o.slot], ObserveOp(given));
    RouteAcceptsWithin(m, s.routes[o.slot], given);
  }
}
