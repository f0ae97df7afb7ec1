// The public operations of the guard as whole calls.
module GuardOperations {
  import opened Numbers
  import opened Types
  import opened Policy
  import opened MapperSpec
  import opened GuardSpec
  import opened GuardInvariant
  import opened GuardCalls

  predicate SameClock(s: Guard, t: Guard) {
    && t.haveGazeboClock == s.haveGazeboClock
    && t.haveGazeboRate == s.haveGazeboRate
    && t.lastGazeboStampNs == s.lastGazeboStampNs
    && t.lastGazeboMonotonicNs == s.lastGazeboMonotonicNs
  }

  // ---- observe ----

  // What an observation does, whatever it holds: an accepted one found a live
  // route and a live authority, and a published one found everything locked.
  ghost predicate Observed(c: Startup, s: Guard, o: Observation, t: Guard, e: TimestampEnvelope)
    requires c.Valid()
  {
    && Call(c, s, t)
    && SameClock(s, t)
    && Admitted(c, s, t, o, e)
    && (e.accepted ==>
          && Known(c, s, o.slot) && s.routes[o.slot].status.state != Lost
          && s.authorityState != Lost && GazeboBacked(c, s, o))
    && (if !Known(c, s, o.slot) then t == s
        else c.StationRequired() && t.authorityState != Lost ==> ReadStation(c, s, t, o.monotonicNs, o.systemWallNs))
  }

  lemma UnknownCall(c: Startup, s: Guard, o: Observation)
    requires c.Valid() && Inv(c, s) && !Known(c, s, o.slot)
    ensures Observed(c, s, o, s, UnknownSlotEnvelope(c, o))
  {
    hide Startup.Valid, Inv, Table, RouteAccepted, Aggregate;
    QuietCall(c, s, s);
  }

  lemma BackedSame(c: Startup, s: Guard, s1: Guard, o: Observation, o1: Observation)
    requires SameClock(s, s1) && s1.authorityState == s.authorityState
    requires o1.slot == o.slot && o1.rawNs == o.rawNs && o1.monotonicNs == o.monotonicNs
    requires GazeboBacked(c, s1, o1)
    ensures GazeboBacked(c, s, o)
  {
    hide SkewWithin, SignedDifference, Table;
  }

  lemma ReadingsSame(c: Startup, s: Guard, s1: Guard, t: Guard, monotonicNs: u64, systemWallNs: u64)
    requires SameClock(s, s1) && SameReadings(s1, t)
    ensures SameClock(s, t)
    ensures ReadStation(c, s, s1, monotonicNs, systemWallNs) ==> ReadStation(c, s, t, monotonicNs, systemWallNs)
  {
    hide StationTime, SignedDifference, ClampedDifference;
  }

  lemma GatedIsObserved(c: Startup, s: Guard, s1: Guard, o: Observation, o1: Observation, t: Guard, e: TimestampEnvelope)
    requires c.Valid() && Inv(c, s) && Untouched(s, s1) && SameClock(s, s1) && Known(c, s, o.slot)
    requires o1 == o.(sessionNs := o1.sessionNs, gazeboStampNs := 0, authorityAgeNs := 0, gazeboSkewNs := 0)
    requires Gated(c, s, s1, o1, t, e)
    requires c.StationRequired() ==> ReadStation(c, s, s1, o.monotonicNs, o.systemWallNs)
    ensures Observed(c, s, o, t, e)
  {
    hide Startup.Valid, Inv, Table, RouteAccepted, Aggregate, Call, SkewWithin, SignedDifference, Admitted, GazeboBacked,
         SameReadings, SameClock, ReadStation;
    EnrichedAdmission(c, s, s1, t, o, o1, e);
    if e.accepted { BackedSame(c, s, s1, o, o1); }
    AcceptanceNeedsAuthority(c, s, o);
    ReadingsSame(c, s, s1, t, o.monotonicNs, o.systemWallNs);
  }

  // A live route means a live authority, or a required Gazebo clock that vouches.
  lemma AcceptanceNeedsAuthority(c: Startup, s: Guard, o: Observation)
    requires c.Valid() && Inv(c, s) && Known(c, s, o.slot)
    ensures s.routes[o.slot].status.state != Lost && GazeboBacked(c, s, o) ==> s.authorityState != Lost
  {
    hide Startup.Valid, Table, RoutesSound, SkewWithin, SignedDifference;
  }

  lemma ObserveWithoutStation(c: Startup, s: Guard, o: Observation)
    requires c.Valid() && Inv(c, s) && Known(c, s, o.slot) && !c.StationRequired()
    ensures var (t, e) := ObserveRoute(c, s, o); Observed(c, s, o, t, e)
  {
    hide Startup.Valid, Inv, Table, GateGazebo, Gated, Aggregate, Observed;
    GateGazeboCall(c, s, s, Cleared(o));
    var (t, e) := ObserveRoute(c, s, o);
    GatedIsObserved(c, s, s, o, Cleared(o), t, e);
  }

  lemma ObserveAfterStation(c: Startup, s: Guard, o: Observation)
    requires c.Valid() && Inv(c, s) && Known(c, s, o.slot) && c.StationRequired()
    requires ValidateStation(c, s, o.monotonicNs, o.systemWallNs).1
    ensures var (t, e) := ObserveRoute(c, s, o); Observed(c, s, o, t, e)
  {
    StationValidation(c, s, o.monotonicNs, o.systemWallNs);
    var s1 := ValidateStation(c, s, o.monotonicNs, o.systemWallNs).0;
    var o1 := Cleared(o).(sessionNs := SessionNow(c, s1, o.monotonicNs));
    assert OnTimeline(c, ObserveOp(o1));
    hide Startup.Valid, Inv, Core, Table, GateGazebo, Gated, Aggregate, Observed, ValidateStation, ReadStation,
         OnTimeline, StationPasses, SessionNow, AuthorityEnvelope;
    GateGazeboCall(c, s, s1, o1);
    var (t, e) := ObserveRoute(c, s, o);
    GatedIsObserved(c, s, s1, o, o1, t, e);
  }

  lemma RefusedIsObserved(c: Startup, s: Guard, o: Observation, t: Guard)
    requires c.Valid() && Known(c, s, o.slot) && Known(c, t, o.slot) && Call(c, s, t) && SameClock(s, t)
    requires t.authorityState == Lost
    ensures Observed(c, s, o, t, AuthorityEnvelope(c, t, Cleared(o)))
  {
    hide Startup.Valid, Table, Aggregate, Call, ReadStation, RouteAccepted, GazeboBacked, SameClock, RouteConfig;
  }

  lemma ObserveFailsStation(c: Startup, s: Guard, o: Observation)
    requires c.Valid() && Inv(c, s) && Known(c, s, o.slot) && c.StationRequired()
    requires !ValidateStation(c, s, o.monotonicNs, o.systemWallNs).1
    ensures var (t, e) := ObserveRoute(c, s, o); Observed(c, s, o, t, e)
  {
    hide Startup.Valid, Inv, Core, Table, GateGazebo, Aggregate, Call, ValidateStation, ReadStation, Observed,
         StationPasses, SessionNow, AuthorityEnvelope, Failing, StationWithin;
    ModeFacts(c);
    StationValidation(c, s, o.monotonicNs, o.systemWallNs);
    var s1 := ValidateStation(c, s, o.monotonicNs, o.systemWallNs).0;
    FailingCall(c, s, s1, true, o.monotonicNs);
    RefusedIsObserved(c, s, o, Failing(c, s1, true, Aggregate(s), o.monotonicNs));
  }

  lemma ObserveCall(c: Startup, s: Guard, o: Observation)
    requires c.Valid() && Inv(c, s)
    ensures var (t, e) := ObserveRoute(c, s, o); Observed(c, s, o, t, e)
  {
    ModeFacts(c);
    hide Startup.Valid, Inv, Table, Aggregate, Observed, ValidateStation, GateGazebo, AuthorityEnvelope, Known;
    if !Known(c, s, o.slot) {
      UnknownCall(c, s, o);
    } else if !c.StationRequired() {
      ObserveWithoutStation(c, s, o);
    } else if ValidateStation(c, s, o.monotonicNs, o.systemWallNs).1 {
      ObserveAfterStation(c, s, o);
    } else {
      ObserveFailsStation(c, s, o);
    }
  }

  // ---- poll ----

  // Every stream of a route has an accepted receipt no older than the frozen age.
  predicate StreamsFresh(c: Startup, st: MapperState, nowNs: u64) {
    && st.pose.seen && 0 <= nowNs - st.pose.monotonicNs <= c.config.thresholds.maxSampleAgeNs
    && st.twist.seen && 0 <= nowNs - st.twist.monotonicNs <= c.config.thresholds.maxSampleAgeNs
  }

  predicate ClockFresh(c: Startup, s: Guard, nowNs: u64) {
    c.GazeboRequired() ==>
      && s.haveGazeboClock
      && 0 <= nowNs - s.lastGazeboMonotonicNs <= c.config.thresholds.maxAuthorityAgeNs
  }

  predicate AllFresh(c: Startup, s: Guard, nowNs: u64) {
    && (forall k :: k in s.routes ==> StreamsFresh(c, s.routes[k], nowNs))
    && ClockFresh(c, s, nowNs)
  }

  // A locked mapper that has just been polled and is still locked is fresh.
  lemma PolledMapper(m: MapperConfig, st: MapperState, nowNs: u64)
    requires MapperConfigValid(m)
    requires st.status.state == Locked ==> st.BothSeen()
    requires st.status.epoch != 0
    requires Step(m, st, PollOp(nowNs)).status.state == Locked
    ensures var t := Step(m, st, PollOp(nowNs));
            && t.pose.seen && 0 <= nowNs - t.pose.monotonicNs <= m.policy.maxSampleAgeNs
            && t.twist.seen && 0 <= nowNs - t.twist.monotonicNs <= m.policy.maxSampleAgeNs
  {
    hide ThresholdPolicyValid;
  }

  lemma PolledSlot(c: Startup, slot: string, st: MapperState, nowNs: u64)
    requires c.Valid() && slot in Table(c) && RouteSound(c, slot, st)
    requires StepSlot(c, slot, st, PollOp(nowNs)).status.state == Locked
    ensures StreamsFresh(c, StepSlot(c, slot, st, PollOp(nowNs)), nowNs)
  {
    RouteConfigIsValid(c, Table(c)[slot]);
    SoundRouteFacts(c, slot, st);
    hide Table, RouteSound, ThresholdPolicyValid, RoutesValid, SourceTimingValid, ModeClockPolicyValid, Step;
    PolledMapper(RouteConfig(c, Table(c)[slot]), st, nowNs);
  }

  lemma PolledRoutes(c: Startup, routes: map<string, MapperState>, nowNs: u64)
    requires c.Valid() && RoutesSound(c, routes)
    ensures var r := PollRoutes(c, routes, nowNs);
            forall k :: k in r && r[k].status.state == Locked ==> StreamsFresh(c, r[k], nowNs)
  {
    hide Startup.Valid, Table, RouteSound, StepSlot, StreamsFresh;
    var r := PollRoutes(c, routes, nowNs);
    forall k | k in r && r[k].status.state == Locked
      ensures StreamsFresh(c, r[k], nowNs)
    {
      PolledSlot(c, k, routes[k], nowNs);
    }
  }

  ghost predicate Polled(c: Startup, s: Guard, monotonicNs: u64, t: Guard)
    requires c.Valid()
  {
    && Call(c, s, t)
    && SameClock(s, t)
    && (Aggregate(t) == Locked ==> AllFresh(c, t, monotonicNs))
  }

  lemma UnlockedIsPolled(c: Startup, s: Guard, monotonicNs: u64, t: Guard)
    requires c.Valid() && Call(c, s, t) && SameClock(s, t) && t.authorityState != Locked
    ensures Polled(c, s, monotonicNs, t)
  {
    hide Startup.Valid, AllFresh, Call;
  }

  // With a locked authority, a Gazebo age that is not fresh has passed its deadline.
  lemma LockedAgeIsDeadline(c: Startup, s: Guard, monotonicNs: u64)
    requires c.Valid() && Inv(c, s)
    ensures var (t, check) := GazeboAge(c, s, monotonicNs);
            && (check == Stale && !DeadlineExceeded(c, t) ==> t.authorityState != Locked)
            && SameReadings(s, t) && Untouched(s, t)
  {
    hide Startup.Valid, Core, StationWithin;
  }

  lemma RoutesPolled(c: Startup, s: Guard, sessionNowNs: u64, monotonicNs: u64)
    requires c.Valid() && Inv(c, s)
    ensures var t := s.(routes := PollRoutes(c, s.routes, monotonicNs), status := s.status.(sessionNowNs := sessionNowNs));
            && Inv(c, t) && RoutesProgress(s.routes, t.routes)
            && forall k :: k in t.routes && t.routes[k].status.state == Locked ==> StreamsFresh(c, t.routes[k], monotonicNs)
  {
    CoreHasScalars(c, s);
    hide Startup.Valid, Table, RoutesSound, SimulationRouteOpen, PollRoutes, StreamsFresh, SkewWithin, RoutesProgress, CoreScalars, Core;
    RoutesAfterPoll(c, s.routes, monotonicNs);
    PolledRoutes(c, s.routes, monotonicNs);
    RoutesReplaced(c, s, PollRoutes(c, s.routes, monotonicNs));
    SessionNowIsFree(c, s.(routes := PollRoutes(c, s.routes, monotonicNs)), sessionNowNs);
  }

  lemma SessionNowIsFree(c: Startup, s: Guard, sessionNowNs: u64)
    requires c.Valid() && Inv(c, s)
    ensures Inv(c, s.(status := s.status.(sessionNowNs := sessionNowNs)))
  {
    hide Startup.Valid, RoutesSound, SimulationRouteOpen, AllLost;
  }

  lemma PollFreshnessCall(c: Startup, s0: Guard, s: Guard, monotonicNs: u64)
    requires c.Valid() && Inv(c, s0) && Inv(c, s) && Untouched(s0, s) && SameClock(s0, s)
    ensures var t := PollFreshness(c, s, Aggregate(s0), monotonicNs);
            Polled(c, s0, monotonicNs, t) && SameReadings(s, t)
  {
    AgeChecking(c, s, monotonicNs);
    LockedAgeIsDeadline(c, s, monotonicNs);
    var (s1, check) := GazeboAge(c, s, monotonicNs);
    hide Startup.Valid, Core, Aggregate, Call, StationWithin, Settled, GazeboAge, DeadlineExceeded, Failing,
         StreamsFresh, PollRoutes, SessionNow, RoutesProgress, Polled, EmitTransition;
    if check == Fresh {
      FreshPollCall(c, s0, s1, monotonicNs);
    } else if check == Hopeless || DeadlineExceeded(c, s1) {
      FailingCall(c, s0, s1, check == Hopeless, monotonicNs);
      UnlockedIsPolled(c, s0, monotonicNs, Failing(c, s1, check == Hopeless, Aggregate(s0), monotonicNs));
    } else {
      QuietCall(c, s0, s1);
      UnlockedIsPolled(c, s0, monotonicNs, s1);
    }
  }

  lemma FreshPollCall(c: Startup, s0: Guard, s: Guard, monotonicNs: u64)
    requires c.Valid() && Inv(c, s) && Untouched(s0, s) && SameClock(s0, s)
    requires ClockFresh(c, s, monotonicNs)
    ensures var u := s.(routes := PollRoutes(c, s.routes, monotonicNs),
                        status := s.status.(sessionNowNs := SessionNow(c, s, monotonicNs)));
            var t := EmitTransition(c, u, Aggregate(s0), monotonicNs);
            Polled(c, s0, monotonicNs, t) && SameReadings(s, t)
  {
    hide Startup.Valid, Inv, Aggregate, StreamsFresh, PollRoutes, SessionNow, RoutesProgress, EmitTransition, Call, SomeRoute;
    var u := s.(routes := PollRoutes(c, s.routes, monotonicNs),
                status := s.status.(sessionNowNs := SessionNow(c, s, monotonicNs)));
    RoutesPolled(c, s, SessionNow(c, s, monotonicNs), monotonicNs);
    LoggedCall(c, s0, u, monotonicNs);
    LoggedKeepsReadings(c, u, Aggregate(s0), monotonicNs);
    var t := EmitTransition(c, u, Aggregate(s0), monotonicNs);
    assert t == u.(nextSequence := t.nextSequence, pending := t.pending);
    AggregateIgnoresLog(u, t);
    if Aggregate(u) == Locked { LockedAggregate(c, u); }
  }

  lemma PollCall(c: Startup, s: Guard, monotonicNs: u64, systemWallNs: u64)
    requires c.Valid() && Inv(c, s)
    ensures var t := Poll(c, s, monotonicNs, systemWallNs);
            && Polled(c, s, monotonicNs, t)
            && (c.StationRequired() && t.authorityState != Lost ==> ReadStation(c, s, t, monotonicNs, systemWallNs))
  {
    ModeFacts(c);
    if !c.StationRequired() {
      hide Startup.Valid, Inv, Aggregate, Polled, PollFreshness;
      PollFreshnessCall(c, s, s, monotonicNs);
    } else {
      StationValidation(c, s, monotonicNs, systemWallNs);
      var (s1, ok) := ValidateStation(c, s, monotonicNs, systemWallNs);
      hide Startup.Valid, Inv, Core, Aggregate, Call, Polled, PollFreshness, ValidateStation, ReadStation, Failing,
           StationPasses;
      if ok {
        PollFreshnessCall(c, s, s1, monotonicNs);
        ReadingsSame(c, s, s1, PollFreshness(c, s1, Aggregate(s), monotonicNs), monotonicNs, systemWallNs);
      } else {
        FailingCall(c, s, s1, true, monotonicNs);
        UnlockedIsPolled(c, s, monotonicNs, Failing(c, s1, true, Aggregate(s), monotonicNs));
      }
    }
  }

  // ---- the fence and the drain ----

  lemma FenceCall(c: Startup, s: Guard, monotonicNs: u64)
    requires c.Valid() && Inv(c, s)
    ensures var t := FailEpochFence(c, s, monotonicNs);
            Call(c, s, t) && SameClock(s, t) && t.authorityState == Lost && AllLost(t.routes)
  {
    hide Startup.Valid, Aggregate, Settled, Failing, Call;
    FailingCall(c, s, s, true, monotonicNs);
    AllRoutesLost(c, s, monotonicNs);
  }

  lemma AllRoutesLost(c: Startup, s: Guard, monotonicNs: u64)
    requires c.Valid() && Inv(c, s)
    ensures AllLost(Failing(c, s, true, Aggregate(s), monotonicNs).routes)
  {
    hide Startup.Valid, Table, RoutesSound, Aggregate, Refresh, AuthorityFailed, EmitTransition, FailRoutes, RoutesProgress;
    assert RoutesSound(c, s.routes);
    RoutesAfterFailure(c, s.routes, true);
    var u := FailAuthority(c, s, true);
    var t := EmitTransition(c, u, Aggregate(s), monotonicNs);
    assert t == u.(nextSequence := t.nextSequence, pending := t.pending);
  }
}
