// Every public operation of the guard, as one call: it ends in a whole state,
// logs at most the one transition it causes, and never moves a route or the
// authority backwards.
module GuardCalls {
  import opened Numbers
  import opened Types
  import opened Policy
  import opened Estimator
  import opened MapperSpec
  import opened GuardSpec
  import opened GuardInvariant

  // ---- Gazebo clock ----

  // What an admitted clock must be against the remembered one.
  predicate ClockAdvances(c: Startup, s: Guard, o: GazeboObservation)
    requires c.config.runMode == Hybrid ==> RateFieldsPresent(c.config.thresholds)
  {
    && o.stampNs != 0
    && o.monotonicNs >= c.monotonicNs
    && (!s.haveGazeboClock ==> o.monotonicNs - c.monotonicNs <= c.config.thresholds.startupLockTimeoutNs)
    && (s.haveGazeboClock ==>
          && o.stampNs > s.lastGazeboStampNs
          && o.monotonicNs > s.lastGazeboMonotonicNs
          && (c.config.runMode == Hybrid ==> !RateFails(c, RealTimeFactor(s, o))))
  }

  // The remembered clock moves to an admitted one and stays put otherwise.
  predicate ClockMemory(c: Startup, s: Guard, o: GazeboObservation, t: Guard, admitted: bool)
    requires c.config.runMode == Hybrid ==> RateFieldsPresent(c.config.thresholds)
  {
    if admitted then
      && ClockAdvances(c, s, o)
      && t.haveGazeboClock && t.lastGazeboStampNs == o.stampNs && t.lastGazeboMonotonicNs == o.monotonicNs
    else
      && t.haveGazeboClock == s.haveGazeboClock
      && t.lastGazeboStampNs == s.lastGazeboStampNs && t.lastGazeboMonotonicNs == s.lastGazeboMonotonicNs
  }

  lemma LoggedKeepsReadings(c: Startup, u: Guard, before: GuardState, monotonicNs: u64)
    ensures SameReadings(u, EmitTransition(c, u, before, monotonicNs))
  {
    hide EmitTransition;
    var t := EmitTransition(c, u, before, monotonicNs);
    assert t == u.(nextSequence := t.nextSequence, pending := t.pending);
  }

  lemma AcceptanceRemembers(c: Startup, s: Guard, o: GazeboObservation, factor: real, haveRate: bool)
    ensures var u := AcceptClock(c, s, o, factor, haveRate);
            && u.haveGazeboClock && u.lastGazeboStampNs == o.stampNs && u.lastGazeboMonotonicNs == o.monotonicNs
            && SameWall(s, u)
  {
  }

  lemma AcceptedClockCall(c: Startup, s0: Guard, s: Guard, o: GazeboObservation, factor: real, haveRate: bool)
    requires c.Valid() && Core(c, s) && StationWithin(c, s) && Untouched(s0, s)
    requires c.GazeboRequired() && o.stampNs != 0
    requires c.config.runMode == Hybrid ==> s.stationHealthy
    requires haveRate ==> c.config.runMode == Hybrid && !RateFails(c, factor)
    requires c.config.runMode != Hybrid ==> factor == 0.0
    requires c.config.runMode == Hybrid && !haveRate ==> s.authorityState != Locked
    ensures var t := EmitTransition(c, AcceptClock(c, s, o, factor, haveRate), Aggregate(s0), o.monotonicNs);
            && Call(c, s0, t)
            && t.haveGazeboClock && t.lastGazeboStampNs == o.stampNs && t.lastGazeboMonotonicNs == o.monotonicNs
            && SameWall(s, t)
  {
    hide Startup.Valid, AcceptClock, Core, Settled, StationWithin, RateFails, Aggregate, Call, EmitTransition;
    AcceptanceSettles(c, s, o, factor, haveRate);
    AcceptanceRemembers(c, s, o, factor, haveRate);
    var u := AcceptClock(c, s, o, factor, haveRate);
    LoggedKeepsReadings(c, u, Aggregate(s0), o.monotonicNs);
    LoggedCall(c, s0, u, o.monotonicNs);
  }

  lemma UnlockedWithoutClock(c: Startup, s: Guard)
    requires c.Valid() && Inv(c, s) && c.GazeboRequired()
    ensures !s.haveGazeboClock ==> s.authorityState != Locked && !s.haveGazeboRate
    ensures StationWithin(c, s)
  {
    hide Startup.Valid, RoutesSound, SimulationRouteOpen;
  }

  // Measuring the real-time factor touches only its diagnostic.
  lemma MeasuredCore(c: Startup, s: Guard, factor: real)
    requires c.Valid() && Inv(c, s) && c.config.runMode == Hybrid
    ensures var m := s.(status := s.status.(realTimeFactor := factor));
            Core(c, m) && StationWithin(c, m) && Untouched(s, m) && SameReadings(s, m)
  {
    hide Startup.Valid, RoutesSound, SimulationRouteOpen, AllLost;
  }

  lemma RefreshKeeps(c: Startup, s: Guard)
    requires c.Valid() && Inv(c, s)
    ensures Inv(c, Refresh(c, s)) && Untouched(s, Refresh(c, s)) && SameReadings(s, Refresh(c, s))
  {
    ModeFacts(c);
    hide Startup.Valid, RoutesSound, SimulationRouteOpen, AllLost;
  }

  lemma AdmitClockCall(c: Startup, s0: Guard, s: Guard, o: GazeboObservation)
    requires c.Valid() && Inv(c, s0) && Inv(c, s) && Untouched(s0, s) && c.GazeboRequired()
    requires c.config.runMode == Hybrid ==> s.stationHealthy
    ensures var (t, admitted) := AdmitClock(c, s, o, Aggregate(s0));
            && Call(c, s0, t)
            && ClockMemory(c, s, o, t, admitted)
            && SameWall(s, t)
  {
    hide Startup.Valid, Aggregate, Core, Settled, StationWithin, Call, Failing, AcceptClock, EmitTransition, Refresh;
    ModeFacts(c);
    UnlockedWithoutClock(c, s);
    assert Core(c, s);
    RefreshKeeps(c, s);
    if ReceiptFails(c, s, o) || (o.stampNs == 0 && s.haveGazeboClock)
       || (o.stampNs != 0 && s.haveGazeboClock && o.stampNs < s.lastGazeboStampNs) {
      FailingCall(c, s0, s, true, o.monotonicNs);
    } else if o.stampNs == 0 {
      QuietCall(c, s0, Refresh(c, s));
    } else if !s.haveGazeboClock || (o.stampNs != s.lastGazeboStampNs && c.config.runMode != Hybrid) {
      AcceptedClockCall(c, s0, s, o, 0.0, s.haveGazeboRate) by { RateIsForHybrid(c, s); }
    } else if o.stampNs == s.lastGazeboStampNs {
      FailingCall(c, s0, s, false, o.monotonicNs);
    } else {
      var factor := RealTimeFactor(s, o);
      MeasuredCore(c, s, factor);
      var measured := s.(status := s.status.(realTimeFactor := factor));
      if RateFails(c, factor) {
        FailingCall(c, s0, measured, false, o.monotonicNs);
      } else {
        AcceptedClockCall(c, s0, measured, o, factor, true);
      }
    }
  }

  lemma RateIsForHybrid(c: Startup, s: Guard)
    requires c.Valid() && Core(c, s)
    ensures s.haveGazeboRate ==> s.haveGazeboClock && c.config.runMode == Hybrid
  {
  }

  // A Gazebo clock is admitted exactly when the mode takes one, a hybrid station
  // reading passes, and the clock advances; the authority's own state, even a
  // lost one, plays no part.
  lemma AdmittedExactlyWhen(c: Startup, s: Guard, o: GazeboObservation)
    requires c.Valid()
    ensures c.config.runMode == Hybrid ==> StationFieldsPresent(c.config.thresholds) && RateFieldsPresent(c.config.thresholds)
    ensures ObserveGazebo(c, s, o).1 <==>
              && c.GazeboRequired()
              && (c.config.runMode == Hybrid ==> ValidateStation(c, s, o.monotonicNs, o.systemWallNs).1)
              && o.monotonicNs != 0 && ClockAdvances(c, s, o)
  {
    hide Startup.Valid, Failing, EmitTransition, AcceptClock, RateFails, StationReading, StationPasses, Refresh;
    ModeFacts(c);
    StationKeepsClock(c, s, o.monotonicNs, o.systemWallNs);
  }

  lemma StationKeepsClock(c: Startup, s: Guard, monotonicNs: u64, systemWallNs: u64)
    ensures StationFieldsPresent(c.config.thresholds) ==>
              var t := ValidateStation(c, s, monotonicNs, systemWallNs).0;
              && t.haveGazeboClock == s.haveGazeboClock
              && t.lastGazeboStampNs == s.lastGazeboStampNs && t.lastGazeboMonotonicNs == s.lastGazeboMonotonicNs
  {
    hide StationTime, SignedDifference, ClampedDifference, StationPasses;
  }

  lemma GazeboCall(c: Startup, s: Guard, o: GazeboObservation)
    requires c.Valid() && Inv(c, s)
    ensures var (t, admitted) := ObserveGazebo(c, s, o);
            && Call(c, s, t)
            && ClockMemory(c, s, o, t, admitted)
            && (c.config.runMode == Hybrid && t.authorityState != Lost ==>
                  ReadStation(c, s, t, o.monotonicNs, o.systemWallNs))
  {
    hide Startup.Valid, Aggregate, Core, Settled, StationWithin, Call, Failing, AdmitClock, ValidateStation, RateFails;
    ModeFacts(c);
    assert Core(c, s);
    if !c.GazeboRequired() {
      QuietCall(c, s, s);
    } else if c.config.runMode == Hybrid {
      var (s1, ok) := ValidateStation(c, s, o.monotonicNs, o.systemWallNs);
      StationValidation(c, s, o.monotonicNs, o.systemWallNs);
      if ok {
        AdmitClockCall(c, s, s1, o);
      } else {
        FailingCall(c, s, s1, true, o.monotonicNs);
      }
    } else {
      AdmitClockCall(c, s, s, o);
    }
  }

  // ---- observations ----

  // What a route's acceptance of a sample says about that route.
  predicate RouteAccepted(mapping: ClockMapping, st: MapperState, st': MapperState,
                          stream: StreamKind, rawNs: u64, monotonicNs: u64, e: TimestampEnvelope)
  {
    && rawNs != 0
    && e.rawNs == rawNs
    && e.mappedSessionNs == st'.status.lastSessionNs
    && st'.TimelineOf(stream).seen
    && st'.TimelineOf(stream).rawNs == rawNs
    && st'.TimelineOf(stream).monotonicNs == monotonicNs
    && (st.TimelineOf(stream).seen ==>
          && rawNs > st.TimelineOf(stream).rawNs
          && monotonicNs > st.TimelineOf(stream).monotonicNs)
    && (mapping == Identity ==> e.mappedSessionNs == rawNs)
    && st.status.state != Lost
  }

  lemma MapperAcceptance(m: MapperConfig, st: MapperState, o: Observation)
    requires MapperConfigValid(m) && st.status.epoch != 0
    ensures EnvelopeOf(m, st, o).accepted ==>
              RouteAccepted(m.mapping, st, Step(m, st, ObserveOp(o)), o.stream, o.rawNs, o.monotonicNs, EnvelopeOf(m, st, o))
  {
    hide PredictionImplausible, QualityViolated, AffineEstimate, Candidate, ThresholdPolicyValid;
  }

  lemma SlotAcceptance(c: Startup, slot: string, st: MapperState, o: Observation)
    requires c.Valid() && slot in Table(c) && RouteSound(c, slot, st)
    ensures RouteConfigValidAt(c, slot)
    ensures var e := EnvelopeOf(RouteConfig(c, Table(c)[slot]), st, o);
            e.accepted ==>
              RouteAccepted(c.config.mapping, st, StepSlot(c, slot, st, ObserveOp(o)), o.stream, o.rawNs, o.monotonicNs, e)
  {
    RouteConfigIsValid(c, Table(c)[slot]);
    SoundRouteFacts(c, slot, st);
    hide RouteSound, Step, EnvelopeOf, Table, RouteAccepted, ThresholdPolicyValid, RoutesValid, ModeClockPolicyValid, SourceTimingValid;
    MapperAcceptance(RouteConfig(c, Table(c)[slot]), st, o);
  }

  predicate RouteConfigValidAt(c: Startup, slot: string) requires slot in Table(c) {
    MapperConfigValid(RouteConfig(c, Table(c)[slot]))
  }

  // What the mapper's stretch of an observation guarantees of a published one.
  predicate Admitted(c: Startup, s: Guard, t: Guard, o: Observation, e: TimestampEnvelope) {
    e.canonicalPublishAllowed ==>
      && e.accepted
      && Known(c, s, o.slot) && Known(c, t, o.slot)
      && t.authorityState == Locked && Aggregate(t) == Locked
      && RouteAccepted(c.config.mapping, s.routes[o.slot], t.routes[o.slot], o.stream, o.rawNs, o.monotonicNs, e)
  }

  lemma LockedAggregate(c: Startup, s: Guard)
    requires c.Valid() && Inv(c, s) && Aggregate(s) == Locked
    ensures s.authorityState == Locked && s.status.healthy
    ensures forall k :: k in s.routes ==> s.routes[k].status.state == Locked && s.routes[k].BothSeen()
  {
    hide Startup.Valid, Table, RouteSound;
    forall k | k in s.routes
      ensures s.routes[k].status.state == Locked && s.routes[k].BothSeen()
    {
      SoundRouteFacts(c, k, s.routes[k]);
      assert !SomeRoute(s.routes, Lost) && !SomeRoute(s.routes, Degraded) && !SomeRoute(s.routes, Initializing);
    }
  }

  // Everything Core says apart from the routes' own soundness and the skew.
  predicate CoreScalars(c: Startup, s: Guard) {
    && FrozenStatus(c, s) && GazeboMemory(c, s) && UnusedDiagnostics(c, s)
    && (!c.GazeboRequired() ==> s.authorityState == Locked || (s.authorityState == Lost && AllLost(s.routes)))
  }

  lemma RoutesReplaced(c: Startup, s: Guard, r: map<string, MapperState>)
    requires c.Valid() && CoreScalars(c, s) && Settled(c, s)
    requires RoutesSound(c, r) && RoutesProgress(s.routes, r)
    requires c.GazeboRequired() && !SkewWithin(c, s.status.lastSkewNs) ==> SimulationRouteOpen(c, r)
    ensures Inv(c, s.(routes := r))
  {
    hide Startup.Valid, RoutesSound, SimulationRouteOpen, SkewWithin;
    assert AllLost(s.routes) ==> AllLost(r);
  }

  lemma CoreHasScalars(c: Startup, s: Guard)
    requires c.Valid() && Core(c, s)
    ensures CoreScalars(c, s) && RoutesSound(c, s.routes)
    ensures c.GazeboRequired() && !SkewWithin(c, s.status.lastSkewNs) ==> SimulationRouteOpen(c, s.routes)
  {
    hide Startup.Valid, RoutesSound, SimulationRouteOpen, SkewWithin;
  }

  // Stepping one route keeps a whole state whole, as long as a skew outside the
  // bound still leaves some simulation-domain route open.
  lemma StepRouteKeeps(c: Startup, s: Guard, slot: string, op: MapperOp)
    requires c.Valid() && CoreScalars(c, s) && Settled(c, s) && RoutesSound(c, s.routes)
    requires Known(c, s, slot) && OnTimeline(c, op)
    requires c.GazeboRequired() && !SkewWithin(c, s.status.lastSkewNs) ==>
               || (op.AuthorityFailureOp? && Table(c)[slot].sourceDomain == SimulationSource)
               || (Table(c)[slot].sourceDomain == PhysicalSource && SimulationRouteOpen(c, s.routes))
    ensures var t := StepRoute(c, s, slot, op);
            && Inv(c, t)
            && RoutesProgress(s.routes, t.routes)
            && t == s.(routes := t.routes)
            && t.routes == s.routes[slot := StepSlot(c, slot, s.routes[slot], op)]
  {
    hide Startup.Valid, Table, RoutesSound, SimulationRouteOpen, StepSlot, SkewWithin, CoreScalars, Settled, RoutesProgress, Inv, OnTimeline;
    RoutesAfterStep(c, s.routes, slot, op);
    RoutesReplaced(c, s, s.routes[slot := StepSlot(c, slot, s.routes[slot], op)]);
  }

  lemma MapObservationCall(c: Startup, s0: Guard, s: Guard, o: Observation)
    requires c.Valid() && Inv(c, s) && Untouched(s0, s) && Known(c, s, o.slot) && OnTimeline(c, ObserveOp(o))
    requires c.GazeboRequired() && !SkewWithin(c, s.status.lastSkewNs) ==> Table(c)[o.slot].sourceDomain == PhysicalSource
    ensures var (t, e) := MapObservation(c, s, o, Aggregate(s0));
            && Call(c, s0, t)
            && SameReadings(s, t)
            && (e.accepted ==> s.routes[o.slot].status.state != Lost)
            && Admitted(c, s, t, o, e)
  {
    hide Startup.Valid, Table, RouteSound, Core, Settled, StepSlot, RouteConfig, EnvelopeOf, Aggregate, EmitTransition, RoutesProgress, SkewWithin;
    CoreHasScalars(c, s);
    SoundRoutes(c, s.routes);
    StepRouteKeeps(c, s, o.slot, ObserveOp(o));
    SlotAcceptance(c, o.slot, s.routes[o.slot], o);
    var u := StepRoute(c, s, o.slot, ObserveOp(o));
    LoggedCall(c, s0, u, o.monotonicNs);
    LoggedKeepsReadings(c, u, Aggregate(s0), o.monotonicNs);
    var t := EmitTransition(c, u, Aggregate(s0), o.monotonicNs);
    assert t == u.(nextSequence := t.nextSequence, pending := t.pending);
    AggregateIgnoresLog(u, t);
    if Aggregate(u) == Locked { LockedAggregate(c, u); }
  }

  lemma AggregateIgnoresLog(s: Guard, t: Guard)
    requires t == s.(nextSequence := t.nextSequence, pending := t.pending)
    ensures Aggregate(t) == Aggregate(s)
  {
  }

  // Recording a skew keeps everything but the skew fact itself.
  lemma SkewRecorded(c: Startup, s: Guard, skew: i64)
    requires c.Valid() && Inv(c, s) && c.GazeboRequired()
    ensures var m := s.(status := s.status.(lastSkewNs := skew));
            && CoreScalars(c, m) && Settled(c, m) && RoutesSound(c, m.routes)
            && Untouched(s, m) && SameReadings(s, m)
            && (SkewWithin(c, skew) ==> Inv(c, m))
  {
    hide Startup.Valid, RoutesSound, SimulationRouteOpen, SkewWithin, AllLost;
  }

  lemma FailureIsOnTimeline(c: Startup)
    ensures OnTimeline(c, AuthorityFailureOp(false)) && OnTimeline(c, AuthorityFailureOp(true))
  {
  }

  lemma NotPublished(m: MapperConfig, st: MapperState, o: Observation)
    ensures !MakeEnvelope(m, st, o, false).accepted && !MakeEnvelope(m, st, o, false).canonicalPublishAllowed
  {
  }

  lemma SkewFailureCall(c: Startup, s0: Guard, s: Guard, o: Observation)
    requires c.Valid() && CoreScalars(c, s) && Settled(c, s) && RoutesSound(c, s.routes)
    requires Untouched(s0, s) && Known(c, s, o.slot)
    requires Table(c)[o.slot].sourceDomain == SimulationSource
    ensures var (t, e) := SkewFailure(c, s, o, Aggregate(s0));
            && Call(c, s0, t)
            && SameReadings(s, t)
            && !e.accepted && !e.canonicalPublishAllowed
  {
    hide Startup.Valid, Table, RoutesSound, Inv, CoreScalars, Settled, RouteConfig, Aggregate,
         EmitTransition, RoutesProgress, Call, MakeEnvelope;
    FailureIsOnTimeline(c);
    StepRouteKeeps(c, s, o.slot, AuthorityFailureOp(false));
    var t := StepRoute(c, s, o.slot, AuthorityFailureOp(false));
    LoggedCall(c, s0, t, o.monotonicNs);
    LoggedKeepsReadings(c, t, Aggregate(s0), o.monotonicNs);
    NotPublished(RouteConfig(c, Table(c)[o.slot]), t.routes[o.slot], o);
  }

  // Enrichment changes none of the fields that acceptance speaks about.
  lemma EnrichedAdmission(c: Startup, s: Guard, s': Guard, t: Guard, o: Observation, o': Observation, e: TimestampEnvelope)
    requires s'.routes == s.routes
    requires o'.slot == o.slot && o'.stream == o.stream && o'.rawNs == o.rawNs && o'.monotonicNs == o.monotonicNs
    requires Admitted(c, s', t, o', e)
    ensures Admitted(c, s, t, o, e)
  {
    hide RouteAccepted, Table, Aggregate;
  }

  lemma EnrichedOnTimeline(c: Startup, s: Guard, o: Observation, skew: i64)
    requires c.Valid() && OnTimeline(c, ObserveOp(o))
    ensures OnTimeline(c, ObserveOp(Enriched(c, s, o)))
    ensures OnTimeline(c, ObserveOp(Enriched(c, s, o).(gazeboSkewNs := skew)))
  {
    ModeFacts(c);
  }

  lemma GateSkewCall(c: Startup, s0: Guard, s: Guard, o: Observation)
    requires c.Valid() && Inv(c, s) && Untouched(s0, s) && Known(c, s, o.slot) && OnTimeline(c, ObserveOp(o))
    requires c.GazeboRequired()
    ensures var (t, e) := GateSkew(c, s, o, Aggregate(s0));
            && Call(c, s0, t)
            && SameReadings(s, t)
            && Admitted(c, s, t, o, e)
            && (e.accepted ==> s.routes[o.slot].status.state != Lost)
            && (e.accepted && Table(c)[o.slot].sourceDomain == SimulationSource ==>
                  SkewWithin(c, SignedDifference(o.rawNs, s.lastGazeboStampNs)))
  {
    hide Startup.Valid, Table, RoutesSound, Inv, CoreScalars, Settled, MapObservation, SkewFailure, Aggregate,
         Call, SignedDifference, OnTimeline, Admitted;
    ModeFacts(c);
    var skew := SignedDifference(o.rawNs, s.lastGazeboStampNs);
    SkewRecorded(c, s, skew);
    EnrichedOnTimeline(c, s, o, skew);
    var enriched := Enriched(c, s, o);
    var skewed := enriched.(gazeboSkewNs := skew);
    if Table(c)[o.slot].sourceDomain != SimulationSource {
      MapObservationCall(c, s0, s, enriched);
      var (t, e) := MapObservation(c, s, enriched, Aggregate(s0));
      EnrichedAdmission(c, s, s, t, o, enriched, e);
    } else if SkewWithin(c, skew) {
      MapObservationCall(c, s0, WithSkew(s, skew), skewed);
      var (t, e) := MapObservation(c, WithSkew(s, skew), skewed, Aggregate(s0));
      EnrichedAdmission(c, s, WithSkew(s, skew), t, o, skewed, e);
    } else {
      SkewFailureCall(c, s0, WithSkew(s, skew), skewed);
      var (t, e) := SkewFailure(c, WithSkew(s, skew), skewed, Aggregate(s0));
      NothingAdmitted(c, s, t, o, e);
    }
  }

  lemma NothingAdmitted(c: Startup, s: Guard, t: Guard, o: Observation, e: TimestampEnvelope)
    requires !e.canonicalPublishAllowed
    ensures Admitted(c, s, t, o, e)
  {
  }

  // The Gazebo evidence behind an accepted observation: the receipt is no older
  // than the frozen age, and a simulation-domain stamp is within the skew.
  predicate GazeboBacked(c: Startup, s: Guard, o: Observation) {
    c.GazeboRequired() ==>
      && s.haveGazeboClock && s.authorityState == Locked
      && 0 <= o.monotonicNs - s.lastGazeboMonotonicNs <= c.config.thresholds.maxAuthorityAgeNs
      && (o.slot in Table(c) && Table(c)[o.slot].sourceDomain == SimulationSource ==>
            SkewWithin(c, SignedDifference(o.rawNs, s.lastGazeboStampNs)))
  }

  lemma RefusedForAuthority(c: Startup, s: Guard, t: Guard, o: Observation)
    requires Known(c, t, o.slot)
    ensures var e := AuthorityEnvelope(c, t, o);
            !e.accepted && !e.canonicalPublishAllowed && Admitted(c, s, t, o, e)
  {
    hide RouteAccepted, Table, Aggregate, RouteConfig;
  }

  // What an observation of a known route guarantees once the station clock, if
  // there is one, has been validated in s.
  ghost predicate Gated(c: Startup, s0: Guard, s: Guard, o: Observation, t: Guard, e: TimestampEnvelope)
    requires c.Valid() && Known(c, s, o.slot)
  {
    && Call(c, s0, t)
    && SameReadings(s, t)
    && Admitted(c, s, t, o, e)
    && (e.accepted ==> GazeboBacked(c, s, o) && s.routes[o.slot].status.state != Lost)
  }

  // The authority is too old or not ready: the observation is refused, and only
  // a passed deadline or a broken steady clock fails the authority.
  lemma StaleCall(c: Startup, s0: Guard, s: Guard, s1: Guard, o: Observation, check: AgeCheck)
    requires c.Valid() && Inv(c, s0) && Untouched(s0, s1) && Known(c, s1, o.slot)
    requires Core(c, s1) && StationWithin(c, s1) && c.GazeboRequired()
    requires check == Hopeless || (check != Fresh && DeadlineExceeded(c, s1)) || Inv(c, s1)
    requires SameReadings(s, s1)
    requires Known(c, s, o.slot)
    ensures var t := if check == Hopeless || (check != Fresh && DeadlineExceeded(c, s1))
                     then Failing(c, s1, check == Hopeless, Aggregate(s0), o.monotonicNs) else s1;
            Gated(c, s0, s, o, t, AuthorityEnvelope(c, t, o))
  {
    hide Startup.Valid, Table, RoutesSound, Core, Aggregate, Call, Admitted, Settled,
         DeadlineExceeded, Failing, AuthorityEnvelope, StationWithin;
    if check == Hopeless || (check != Fresh && DeadlineExceeded(c, s1)) {
      FailingCall(c, s0, s1, check == Hopeless, o.monotonicNs);
      RefusedForAuthority(c, s, Failing(c, s1, check == Hopeless, Aggregate(s0), o.monotonicNs), o);
    } else {
      QuietCall(c, s0, s1);
      RefusedForAuthority(c, s, s1, o);
    }
  }

  lemma WithoutGazebo(c: Startup, s0: Guard, s: Guard, o: Observation)
    requires c.Valid() && Inv(c, s) && Untouched(s0, s) && Known(c, s, o.slot) && OnTimeline(c, ObserveOp(o))
    requires !c.GazeboRequired()
    ensures var (t, e) := MapObservation(c, s, o, Aggregate(s0)); Gated(c, s0, s, o, t, e)
  {
    hide Startup.Valid, Table, Inv, Untouched, Aggregate, Call, SkewWithin, OnTimeline, Admitted, MapObservation;
    MapObservationCall(c, s0, s, o);
  }

  // Ageing the authority changes only its age.
  predicate OnlyAged(s: Guard, t: Guard) {
    t == s.(status := s.status.(ageNs := t.status.ageNs))
  }

  lemma GatedWhenAged(c: Startup, s0: Guard, s: Guard, s1: Guard, o: Observation, t: Guard, e: TimestampEnvelope)
    requires c.Valid() && OnlyAged(s, s1) && Known(c, s1, o.slot)
    requires Gated(c, s0, s1, o, t, e)
    ensures Known(c, s, o.slot) && Gated(c, s0, s, o, t, e)
  {
    hide Startup.Valid, Table, Call, RouteAccepted, Aggregate, SkewWithin, SignedDifference;
  }

  lemma GateSkewGated(c: Startup, s0: Guard, s: Guard, o: Observation)
    requires c.Valid() && Inv(c, s) && Untouched(s0, s) && Known(c, s, o.slot) && OnTimeline(c, ObserveOp(o))
    requires c.GazeboRequired() && s.status.healthy && s.haveGazeboClock
    requires 0 <= o.monotonicNs - s.lastGazeboMonotonicNs <= c.config.thresholds.maxAuthorityAgeNs
    ensures var (t, e) := GateSkew(c, s, o, Aggregate(s0)); Gated(c, s0, s, o, t, e)
  {
    HealthyIsLocked(c, s);
    hide Startup.Valid, Table, Inv, Untouched, Aggregate, Call, SkewWithin, OnTimeline, Admitted, GateSkew, SignedDifference;
    GateSkewCall(c, s0, s, o);
  }

  lemma HealthyIsLocked(c: Startup, s: Guard)
    requires c.Valid() && Inv(c, s)
    ensures s.status.healthy <==> s.authorityState == Locked
  {
    hide Startup.Valid, Core, LockSupported, StationWithin;
  }

  lemma AgedFacts(c: Startup, s0: Guard, s: Guard, o: Observation)
    requires c.Valid() && Inv(c, s) && Untouched(s0, s) && Known(c, s, o.slot)
    ensures var (t, check) := GazeboAge(c, s, o.monotonicNs);
            && Untouched(s0, t) && SameReadings(s, t) && Known(c, t, o.slot) && OnlyAged(s, t)
            && (check == Fresh && c.GazeboRequired() ==>
                  && !DeadlineExceeded(c, t) && t.haveGazeboClock
                  && 0 <= o.monotonicNs - t.lastGazeboMonotonicNs <= c.config.thresholds.maxAuthorityAgeNs)
  {
    AgeChecking(c, s, o.monotonicNs);
    hide Startup.Valid, Table, Core, Inv, StationWithin, GazeboAge;
  }

  lemma FreshCall(c: Startup, s0: Guard, s: Guard, o: Observation)
    requires c.Valid() && Inv(c, s) && Untouched(s0, s) && Known(c, s, o.slot)
    requires OnTimeline(c, ObserveOp(o)) && c.GazeboRequired()
    requires GazeboAge(c, s, o.monotonicNs).1 == Fresh && GazeboAge(c, s, o.monotonicNs).0.status.healthy
    ensures var (t, e) := GateSkew(c, GazeboAge(c, s, o.monotonicNs).0, o, Aggregate(s0)); Gated(c, s0, s, o, t, e)
  {
    AgeChecking(c, s, o.monotonicNs);
    AgedFacts(c, s0, s, o);
    hide Startup.Valid, Table, Inv, Core, StationWithin, Aggregate, Gated, OnTimeline, Untouched, Known, GateSkew, GazeboAge,
         OnlyAged, SameReadings, DeadlineExceeded;
    var s1 := GazeboAge(c, s, o.monotonicNs).0;
    GateSkewGated(c, s0, s1, o);
    var (t, e) := GateSkew(c, s1, o, Aggregate(s0));
    GatedWhenAged(c, s0, s, s1, o, t, e);
  }

  lemma NotFreshCall(c: Startup, s0: Guard, s: Guard, o: Observation)
    requires c.Valid() && Inv(c, s0) && Inv(c, s) && Untouched(s0, s) && Known(c, s, o.slot) && c.GazeboRequired()
    requires GazeboAge(c, s, o.monotonicNs).1 != Fresh || !GazeboAge(c, s, o.monotonicNs).0.status.healthy
    ensures var (t, e) := GateGazebo(c, s, o, Aggregate(s0)); Gated(c, s0, s, o, t, e)
  {
    var (s1, check) := GazeboAge(c, s, o.monotonicNs);
    AgeChecking(c, s, o.monotonicNs);
    AgedFacts(c, s0, s, o);
    hide Startup.Valid, Table, Aggregate, Inv, Core, Admitted, GazeboBacked, StationWithin, Untouched, SameReadings,
         GazeboAge, Call, Failing, AuthorityEnvelope, OnlyAged, DeadlineExceeded, Known;
    StaleCall(c, s0, s, s1, o, check);
  }

  lemma GateGazeboCall(c: Startup, s0: Guard, s: Guard, o: Observation)
    requires c.Valid() && Inv(c, s0) && Inv(c, s) && Untouched(s0, s) && Known(c, s, o.slot)
    requires OnTimeline(c, ObserveOp(o))
    ensures var (t, e) := GateGazebo(c, s, o, Aggregate(s0)); Gated(c, s0, s, o, t, e)
  {
    hide Startup.Valid, Table, Inv, Untouched, Aggregate, OnTimeline, Gated, MapObservation, Known, GazeboAge, GateSkew,
         AuthorityEnvelope, Failing, DeadlineExceeded;
    if !c.GazeboRequired() {
      WithoutGazebo(c, s0, s, o);
    } else if GazeboAge(c, s, o.monotonicNs).1 == Fresh && GazeboAge(c, s, o.monotonicNs).0.status.healthy {
      FreshCall(c, s0, s, o);
    } else {
      NotFreshCall(c, s0, s, o);
    }
  }
}
