// What every public operation of the guard keeps. Core facts hold even in the
// middle of a call; Settled facts are broken midway by some calls and hold
// again whenever one returns.
module GuardInvariant {
  import opened Numbers
  import opened Types
  import opened Policy
  import opened MapperSpec
  import opened MapperRuns
  import opened GuardSpec

  // Under station authority a mapper only sees observations whose Session stamp
  // is the station time of their receipt.
  predicate OnTimeline(c: Startup, op: MapperOp) {
    op.ObserveOp? && c.StationRequired() ==>
      op.observation.sessionNs == StationTime(c, op.observation.monotonicNs)
  }

  ghost predicate ReachedBy(c: Startup, slot: string, st: MapperState, ops: seq<MapperOp>)
    requires c.Valid() && slot in Table(c)
  {
    RouteConfigIsValid(c, Table(c)[slot]);
    var m := RouteConfig(c, Table(c)[slot]);
    && st == MapperSpec.Run(m, Started(m, c.epoch, c.monotonicNs), ops)
    && forall i :: 0 <= i < |ops| ==> OnTimeline(c, ops[i])
  }

  // A route state that some run of its own mapper reaches.
  ghost predicate RouteSound(c: Startup, slot: string, st: MapperState)
    requires c.Valid() && slot in Table(c)
  {
    exists ops :: ReachedBy(c, slot, st, ops)
  }

  ghost predicate RoutesSound(c: Startup, routes: map<string, MapperState>)
    requires c.Valid()
  {
    && routes.Keys == Table(c).Keys
    && forall k :: k in routes ==> RouteSound(c, k, routes[k])
  }

  lemma SoundRoutes(c: Startup, routes: map<string, MapperState>)
    requires c.Valid() && RoutesSound(c, routes)
    ensures routes.Keys == Table(c).Keys && forall k :: k in routes ==> RouteSound(c, k, routes[k])
  {
    hide Startup.Valid, Table, RouteSound;
  }

  predicate AllLost(routes: map<string, MapperState>) {
    forall k :: k in routes ==> routes[k].status.state == Lost
  }

  // Some simulation-domain route is not locked.
  ghost predicate SimulationRouteOpen(c: Startup, routes: map<string, MapperState>) {
    exists k :: k in routes && k in Table(c) && Table(c)[k].sourceDomain == SimulationSource
                && routes[k].status.state != Locked
  }

  predicate SkewWithin(c: Startup, skew: i64) {
    c.config.thresholds.maxGazeboClockSkewNs.Some? &&
    Magnitude(skew) <= c.config.thresholds.maxGazeboClockSkewNs.value
  }

  // ---- facts that no step of a call breaks ----

  predicate FrozenStatus(c: Startup, s: Guard) {
    && s.status.authority == c.config.authority
    && s.status.mapping == c.config.mapping
    && s.status.epoch == c.epoch
    && s.status.gazeboRequired == c.GazeboRequired()
  }

  predicate GazeboMemory(c: Startup, s: Guard) {
    && s.status.lastGazeboStampNs == s.lastGazeboStampNs
    && (s.haveGazeboClock <==> s.lastGazeboStampNs != 0)
    && (s.haveGazeboClock ==> c.GazeboRequired())
    && (s.haveGazeboRate ==> s.haveGazeboClock && c.config.runMode == Hybrid)
  }

  predicate UnusedDiagnostics(c: Startup, s: Guard) {
    && s.status.wallErrorNs == s.lastWallErrorNs
    && (!c.StationRequired() ==> s.status.wallErrorNs == 0 && s.status.wallStepNs == 0)
    && (c.config.runMode != Hybrid ==> s.status.realTimeFactor == 0.0)
    && (!c.GazeboRequired() ==> s.status.lastSkewNs == 0 && s.status.ageNs == 0)
  }

  ghost predicate Core(c: Startup, s: Guard)
    requires c.Valid()
  {
    && FrozenStatus(c, s)
    && GazeboMemory(c, s)
    && UnusedDiagnostics(c, s)
    && RoutesSound(c, s.routes)
    && (c.GazeboRequired() && !SkewWithin(c, s.status.lastSkewNs) ==> SimulationRouteOpen(c, s.routes))
    && (!c.GazeboRequired() ==> s.authorityState == Locked || (s.authorityState == Lost && AllLost(s.routes)))
  }

  // ---- facts restored by the end of every call ----

  predicate Mirrored(c: Startup, s: Guard) {
    && s.status.state == s.authorityState
    && s.status.consecutiveFailures == s.authorityFailures
    && s.status.recoverySamples == s.authorityRecovery
    && s.status.gazeboReady == (s.haveGazeboClock && (c.config.runMode != Hybrid || s.haveGazeboRate))
    && (s.status.healthy <==> s.authorityState == Locked)
  }

  // What a locked authority rests on.
  predicate LockSupported(c: Startup, s: Guard)
    requires c.config.runMode == Hybrid ==> RateFieldsPresent(c.config.thresholds)
  {
    s.authorityState == Locked ==>
      && (c.StationRequired() ==> s.stationHealthy)
      && (c.GazeboRequired() ==> s.gazeboHealthy && s.haveGazeboClock)
      && s.status.ageNs <= c.config.thresholds.maxAuthorityAgeNs
      && (c.config.runMode == Hybrid ==> s.haveGazeboRate && !RateFails(c, s.status.realTimeFactor))
  }

  ghost predicate StationWithin(c: Startup, s: Guard)
    requires c.Valid()
  {
    c.StationRequired() && s.authorityState != Lost ==> StationPasses(c, s)
  }

  ghost predicate Settled(c: Startup, s: Guard)
    requires c.Valid()
  {
    Mirrored(c, s) && LockSupported(c, s) && StationWithin(c, s)
  }

  ghost predicate Inv(c: Startup, s: Guard)
    requires c.Valid()
  {
    Core(c, s) && Settled(c, s)
  }

  // ---- routes ----

  lemma SoundStep(c: Startup, slot: string, st: MapperState, op: MapperOp)
    requires c.Valid() && slot in Table(c) && RouteSound(c, slot, st) && OnTimeline(c, op)
    ensures RouteSound(c, slot, StepSlot(c, slot, st, op))
  {
    hide Step, Startup.Valid, Table, RouteConfig, Started, OnTimeline;
    var ops :| ReachedBy(c, slot, st, ops);
    var longer := ops + [op];
    assert longer[..|longer| - 1] == ops;
    assert ReachedBy(c, slot, StepSlot(c, slot, st, op), longer);
  }

  lemma SoundRouteFacts(c: Startup, slot: string, st: MapperState)
    requires c.Valid() && slot in Table(c) && RouteSound(c, slot, st)
    ensures st.status.epoch == c.epoch && st.epochMonotonicNs == c.monotonicNs
    ensures st.status.state == Locked ==> st.BothSeen() && st.status.consecutiveFailures == 0
  {
    hide CountersTrack, WindowTracks, LatestOf, Table, Started, MapperSpec.Run, OnTimeline;
    var ops :| ReachedBy(c, slot, st, ops);
    RouteConfigIsValid(c, Table(c)[slot]);
    RunTracks(RouteConfig(c, Table(c)[slot]), c.epoch, c.monotonicNs, ops);
  }

  // Lost routes stay lost, failures never lock, and a locked route never goes
  // back to its initial state.
  lemma StepOfState(m: MapperConfig, st: MapperState, op: MapperOp)
    requires MapperConfigValid(m) && st.status.epoch != 0
    ensures var st' := Step(m, st, op);
            && (st.status.state == Lost ==> st' == st)
            && (!op.ObserveOp? && st.status.state != Locked ==> st'.status.state != Locked)
            && (op.AuthorityFailureOp? ==> st'.status.state == Degraded || st'.status.state == Lost)
            && (op == AuthorityFailureOp(true) ==> st'.status.state == Lost)
            && (st.status.state != Initializing ==> st'.status.state != Initializing)
  {
    hide PredictionImplausible, QualityViolated, NextFit, Candidate, ThresholdPolicyValid;
  }

  lemma StepOfSlot(c: Startup, slot: string, st: MapperState, op: MapperOp)
    requires c.Valid() && slot in Table(c) && RouteSound(c, slot, st) && OnTimeline(c, op)
    ensures var st' := StepSlot(c, slot, st, op);
            && RouteSound(c, slot, st')
            && (st.status.state == Lost ==> st' == st)
            && (!op.ObserveOp? && st.status.state != Locked ==> st'.status.state != Locked)
            && (op.AuthorityFailureOp? ==> st'.status.state == Degraded || st'.status.state == Lost)
            && (op == AuthorityFailureOp(true) ==> st'.status.state == Lost)
            && (st.status.state != Initializing ==> st'.status.state != Initializing)
  {
    hide RouteSound, Step, Table, RouteConfig, ThresholdPolicyValid, RoutesValid, ModeClockPolicyValid, SourceTimingValid;
    SoundStep(c, slot, st, op);
    SoundRouteFacts(c, slot, st);
    RouteConfigIsValid(c, Table(c)[slot]);
    StepOfState(RouteConfig(c, Table(c)[slot]), st, op);
  }

  // Routes only move forward: none returns to its initial state, none leaves Lost.
  predicate RoutesProgress(a: map<string, MapperState>, b: map<string, MapperState>) {
    && a.Keys == b.Keys
    && forall k :: k in a ==>
         && (a[k].status.state != Initializing ==> b[k].status.state != Initializing)
         && (a[k].status.state == Lost ==> b[k] == a[k])
  }

  predicate AuthorityProgress(a: GuardState, b: GuardState) {
    (a != Initializing ==> b != Initializing) && (a == Lost ==> b == Lost)
  }

  lemma RoutesAfterFailure(c: Startup, routes: map<string, MapperState>, immediate: bool)
    requires c.Valid() && RoutesSound(c, routes)
    ensures var r := FailRoutes(c, routes, immediate);
            && RoutesSound(c, r)
            && (forall k :: k in r ==> r[k].status.state == Degraded || r[k].status.state == Lost)
            && (immediate ==> AllLost(r))
            && RoutesProgress(routes, r)
            && (SimulationRouteOpen(c, routes) ==> SimulationRouteOpen(c, r))
  {
    hide Startup.Valid, Table, RouteSound, StepSlot;
    var r := FailRoutes(c, routes, immediate);
    assert r.Keys == routes.Keys;
    forall k | k in r
      ensures RouteSound(c, k, r[k])
      ensures r[k].status.state == Degraded || r[k].status.state == Lost
      ensures immediate ==> r[k].status.state == Lost
      ensures routes[k].status.state == Lost ==> r[k] == routes[k]
    {
      StepOfSlot(c, k, routes[k], AuthorityFailureOp(immediate));
    }
    if SimulationRouteOpen(c, routes) {
      var k :| k in routes && k in Table(c) && Table(c)[k].sourceDomain == SimulationSource
               && routes[k].status.state != Locked;
      assert r[k].status.state != Locked;
    }
  }

  lemma RoutesAfterPoll(c: Startup, routes: map<string, MapperState>, nowNs: u64)
    requires c.Valid() && RoutesSound(c, routes)
    ensures var r := PollRoutes(c, routes, nowNs);
            && RoutesSound(c, r)
            && (SimulationRouteOpen(c, routes) ==> SimulationRouteOpen(c, r))
            && RoutesProgress(routes, r)
  {
    hide Startup.Valid, Table, RouteSound, StepSlot;
    var r := PollRoutes(c, routes, nowNs);
    assert r.Keys == routes.Keys;
    forall k | k in r
      ensures RouteSound(c, k, r[k])
      ensures routes[k].status.state != Locked ==> r[k].status.state != Locked
      ensures routes[k].status.state == Lost ==> r[k] == routes[k]
      ensures routes[k].status.state != Initializing ==> r[k].status.state != Initializing
    {
      StepOfSlot(c, k, routes[k], PollOp(nowNs));
    }
    if SimulationRouteOpen(c, routes) {
      var k :| k in routes && k in Table(c) && Table(c)[k].sourceDomain == SimulationSource
               && routes[k].status.state != Locked;
      assert r[k].status.state != Locked;
    }
  }

  lemma RoutesAfterStep(c: Startup, routes: map<string, MapperState>, slot: string, op: MapperOp)
    requires c.Valid() && RoutesSound(c, routes) && slot in routes && OnTimeline(c, op)
    ensures var r := routes[slot := StepSlot(c, slot, routes[slot], op)];
            && RoutesSound(c, r)
            && RoutesProgress(routes, r)
            && (SimulationRouteOpen(c, routes) && (op.AuthorityFailureOp? || Table(c)[slot].sourceDomain == PhysicalSource)
                ==> SimulationRouteOpen(c, r))
            && (op.AuthorityFailureOp? && Table(c)[slot].sourceDomain == SimulationSource ==> SimulationRouteOpen(c, r))
  {
    hide Startup.Valid, Table, RouteSound, StepSlot;
    var r := routes[slot := StepSlot(c, slot, routes[slot], op)];
    assert r.Keys == routes.Keys;
    StepOfSlot(c, slot, routes[slot], op);
    if SimulationRouteOpen(c, routes) && (op.AuthorityFailureOp? || Table(c)[slot].sourceDomain == PhysicalSource) {
      var k :| k in routes && k in Table(c) && Table(c)[k].sourceDomain == SimulationSource
               && routes[k].status.state != Locked;
      assert r[k].status.state != Locked;
    }
    if op.AuthorityFailureOp? && Table(c)[slot].sourceDomain == SimulationSource {
      assert r[slot].status.state != Locked;
    }
  }

  // ---- modes ----

  lemma ModeFacts(c: Startup)
    requires c.Valid()
    ensures c.StationRequired() <==> c.config.runMode != Simulation
    ensures c.StationRequired() ==> StationFieldsPresent(c.config.thresholds)
    ensures c.GazeboRequired() ==> c.config.thresholds.maxGazeboClockSkewNs.Some?
    ensures c.config.runMode == Hybrid ==> RateFieldsPresent(c.config.thresholds)
    ensures c.config.mapping == Identity <==> c.config.runMode == Simulation
    ensures c.config.mapping == AffineToSession ==> AffineFieldsPresent(c.config.thresholds)
  {
    hide ThresholdPolicyValid, RoutesValid, SourceTimingValid;
  }

  // ---- authority ----

  lemma FailureSettlesAuthority(c: Startup, s: Guard, immediate: bool)
    requires c.Valid()
    requires FrozenStatus(c, s) && GazeboMemory(c, s) && UnusedDiagnostics(c, s)
    requires immediate || (c.GazeboRequired() && StationWithin(c, s))
    ensures var t := Refresh(c, AuthorityFailed(c, s, immediate));
            && FrozenStatus(c, t) && GazeboMemory(c, t) && UnusedDiagnostics(c, t)
            && Settled(c, t)
            && (t.authorityState == Degraded || t.authorityState == Lost)
            && (s.authorityState == Lost || immediate ==> t.authorityState == Lost)
            && t.nextSequence == s.nextSequence && t.pending == s.pending && t.routes == s.routes
            && t.status.lastSkewNs == s.status.lastSkewNs
            && SameReadings(s, t)
  {
    hide ThresholdPolicyValid, RoutesValid, SourceTimingValid;
    ModeFacts(c);
  }

  // A failure restores every settled fact: an immediate one from any core
  // state, a soft one when the station is within bounds.
  lemma FailureSettles(c: Startup, s: Guard, immediate: bool)
    requires c.Valid() && Core(c, s)
    requires immediate || (c.GazeboRequired() && StationWithin(c, s))
    ensures Inv(c, FailAuthority(c, s, immediate))
    ensures var t := FailAuthority(c, s, immediate);
            && (t.authorityState == Degraded || t.authorityState == Lost)
            && (s.authorityState == Lost || immediate ==> t.authorityState == Lost)
            && t.nextSequence == s.nextSequence && t.pending == s.pending
            && RoutesProgress(s.routes, t.routes)
            && SameReadings(s, t)
  {
    hide Startup.Valid, Table, RoutesSound, AllLost, SimulationRouteOpen, FailRoutes, AuthorityFailed, Refresh, RoutesProgress;
    RoutesAfterFailure(c, s.routes, immediate);
    FailureSettlesAuthority(c, s, immediate);
  }

  // ---- one call ----

  // The remembered Gazebo clock and wall error are the same.
  predicate SameReadings(s: Guard, t: Guard) {
    && t.haveGazeboClock == s.haveGazeboClock
    && t.haveGazeboRate == s.haveGazeboRate
    && t.lastGazeboStampNs == s.lastGazeboStampNs
    && t.lastGazeboMonotonicNs == s.lastGazeboMonotonicNs
    && SameWall(s, t)
  }

  predicate SameWall(s: Guard, t: Guard) {
    t.lastWallErrorNs == s.lastWallErrorNs && t.status.wallStepNs == s.status.wallStepNs
  }

  // A call that validated the station clock remembers this reading of it.
  predicate ReadStation(c: Startup, s: Guard, t: Guard, monotonicNs: u64, systemWallNs: u64) {
    && monotonicNs >= c.monotonicNs && systemWallNs != 0
    && t.lastWallErrorNs == SignedDifference(systemWallNs, StationTime(c, monotonicNs))
    && t.status.wallStepNs == ClampedDifference(t.lastWallErrorNs, s.lastWallErrorNs)
  }

  // The state a call has worked up so far still has the routes, the authority
  // state and the log it started with.
  predicate Untouched(s: Guard, u: Guard) {
    && u.routes == s.routes && u.authorityState == s.authorityState
    && u.pending == s.pending && u.nextSequence == s.nextSequence
  }

  function KindOf(state: GuardState): GuardEventKind {
    match state
    case Initializing => NewEpochEvent
    case Locked => LockedEvent
    case Degraded => DegradedEvent
    case Lost => LostEvent
  }

  // A call logs the aggregate it reaches exactly when that differs from the
  // aggregate it started from and is not the initial one, and nothing else.
  predicate Logged(s: Guard, t: Guard) {
    if Aggregate(t) == Aggregate(s) || Aggregate(t) == Initializing
    then t.pending == s.pending && t.nextSequence == s.nextSequence
    else
      && |t.pending| == |s.pending| + 1
      && t.pending[..|s.pending|] == s.pending
      && t.pending[|s.pending|].sequence == s.nextSequence
      && t.pending[|s.pending|].state == Aggregate(t)
      && t.pending[|s.pending|].kind == KindOf(Aggregate(t))
      && t.nextSequence == (s.nextSequence + 1) % (U64_MAX + 1)
  }

  ghost predicate Call(c: Startup, s: Guard, t: Guard)
    requires c.Valid()
  {
    && Inv(c, t)
    && Logged(s, t)
    && RoutesProgress(s.routes, t.routes)
    && AuthorityProgress(s.authorityState, t.authorityState)
  }

  // A quiet return: nothing the aggregate depends on has changed.
  lemma QuietCall(c: Startup, s: Guard, t: Guard)
    requires c.Valid() && Inv(c, s) && Inv(c, t)
    requires Untouched(s, t)
    ensures Call(c, s, t)
  {
    hide Startup.Valid, Core, SomeRoute;
  }

  // A return through the transition log, from a state u the call worked up.
  lemma LoggedCall(c: Startup, s: Guard, u: Guard, monotonicNs: u64)
    requires c.Valid() && Inv(c, u)
    requires u.pending == s.pending && u.nextSequence == s.nextSequence
    requires RoutesProgress(s.routes, u.routes) && AuthorityProgress(s.authorityState, u.authorityState)
    ensures Call(c, s, EmitTransition(c, u, Aggregate(s), monotonicNs))
  {
    hide Startup.Valid, Table, RoutesSound, AllLost, SimulationRouteOpen, SomeRoute, RoutesProgress, EventAt;
    EventSays(c, u, KindOf(Aggregate(u)), Aggregate(u), monotonicNs);
  }

  lemma EventSays(c: Startup, s: Guard, kind: GuardEventKind, state: GuardState, monotonicNs: u64)
    ensures var e := EventAt(c, s, kind, state, monotonicNs);
            e.sequence == s.nextSequence && e.kind == kind && e.state == state
  {
  }

  lemma FailingCall(c: Startup, s: Guard, u: Guard, immediate: bool, monotonicNs: u64)
    requires c.Valid() && Core(c, u)
    requires immediate || (c.GazeboRequired() && StationWithin(c, u))
    requires Untouched(s, u)
    ensures SameReadings(u, Failing(c, u, immediate, Aggregate(s), monotonicNs))
    ensures Call(c, s, Failing(c, u, immediate, Aggregate(s), monotonicNs))
    ensures immediate ==> Failing(c, u, immediate, Aggregate(s), monotonicNs).authorityState == Lost
    ensures Failing(c, u, immediate, Aggregate(s), monotonicNs).authorityState != Locked
  {
    hide Startup.Valid, Aggregate, FailAuthority, Core, Settled, RoutesProgress, Call;
    FailureSettles(c, u, immediate);
    LoggedCall(c, s, FailAuthority(c, u, immediate), monotonicNs);
  }

  // Station validation leaves a whole state when the wall passes; when it does
  // not, only the core facts survive, and an immediate failure must follow.
  lemma StationValidation(c: Startup, s: Guard, monotonicNs: u64, systemWallNs: u64)
    requires c.Valid() && Inv(c, s) && c.StationRequired()
    ensures var (t, ok) := ValidateStation(c, s, monotonicNs, systemWallNs);
            && Core(c, t)
            && (ok ==> Inv(c, t) && t.stationHealthy && StationPasses(c, t)
                       && ReadStation(c, s, t, monotonicNs, systemWallNs))
            && Untouched(s, t)
            && t.haveGazeboClock == s.haveGazeboClock && t.haveGazeboRate == s.haveGazeboRate
            && t.lastGazeboStampNs == s.lastGazeboStampNs && t.lastGazeboMonotonicNs == s.lastGazeboMonotonicNs
  {
    hide ThresholdPolicyValid, RoutesValid, SourceTimingValid, Table, RoutesSound, AllLost, SimulationRouteOpen, SignedDifference, ClampedDifference;
    ModeFacts(c);
  }

  // The Gazebo age check keeps everything when it passes, and when it neither
  // passes nor exceeds a deadline; otherwise what a failure needs.
  lemma AgeChecking(c: Startup, s: Guard, monotonicNs: u64)
    requires c.Valid() && Inv(c, s)
    ensures var (t, check) := GazeboAge(c, s, monotonicNs);
            && Core(c, t)
            && StationWithin(c, t)
            && (check != Fresh ==> c.GazeboRequired())
            && (check == Fresh || !(check == Hopeless || DeadlineExceeded(c, t)) ==> Inv(c, t))
            && (check == Fresh && c.GazeboRequired() ==>
                  && t.haveGazeboClock && t.authorityState != Lost
                  && 0 <= monotonicNs - t.lastGazeboMonotonicNs <= c.config.thresholds.maxAuthorityAgeNs
                  && t.status.ageNs == monotonicNs - t.lastGazeboMonotonicNs)
            && t == s.(status := t.status) && t.status == s.status.(ageNs := t.status.ageNs)
  {
    hide ThresholdPolicyValid, RoutesValid, SourceTimingValid, Table, RoutesSound, AllLost, SimulationRouteOpen;
    ModeFacts(c);
  }

  // An admitted Gazebo clock leaves a whole state.
  lemma AcceptanceSettles(c: Startup, s: Guard, o: GazeboObservation, factor: real, haveRate: bool)
    requires c.Valid() && Core(c, s) && StationWithin(c, s)
    requires c.GazeboRequired() && o.stampNs != 0
    requires c.config.runMode == Hybrid ==> s.stationHealthy
    requires haveRate ==> c.config.runMode == Hybrid && !RateFails(c, factor)
    requires c.config.runMode != Hybrid ==> factor == 0.0
    requires c.config.runMode == Hybrid && !haveRate ==> s.authorityState != Locked
    ensures Inv(c, AcceptClock(c, s, o, factor, haveRate))
    ensures var t := AcceptClock(c, s, o, factor, haveRate);
            && t.routes == s.routes && t.nextSequence == s.nextSequence && t.pending == s.pending
            && (s.authorityState == Lost ==> t.authorityState == Lost)
            && (s.authorityState == Locked ==> t.authorityState == Locked)
            && (s.authorityState == Degraded ==> t.authorityState != Initializing)
  {
    hide ThresholdPolicyValid, RoutesValid, SourceTimingValid, Table, RoutesSound, AllLost, SimulationRouteOpen;
    ModeFacts(c);
  }
}
