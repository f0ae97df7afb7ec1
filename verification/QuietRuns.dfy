// Runs in which nothing is wrong with the authority, in every mode: what the
// guard knows then, and what it hands to each route, read from the inputs alone
// (src/core/session_clock_guard.cpp:180-296, 352-650).
module QuietRuns {
  import opened Numbers
  import opened Types
  import opened Policy
  import opened MapperSpec
  import opened GuardSpec
  import opened GuardInvariant
  import opened GuardRuns
  import opened GuardFeeds
  import opened GuardClocks

  // What the authority has taken in: the latest Gazebo clock, whether it has a
  // rate, the latest wall error, and its own state.
  datatype View = View(
    clock: Option<GazeboObservation>,
    rated: bool,
    errorNs: i64,
    state: GuardState,
    failures: u32,
    recovery: u32)

  ghost predicate Sees(c: Startup, s: Guard, v: View) {
    && s.haveGazeboClock == v.clock.Some? && s.haveGazeboRate == v.rated
    && (v.clock.Some? ==>
          s.lastGazeboStampNs == v.clock.value.stampNs && s.lastGazeboMonotonicNs == v.clock.value.monotonicNs)
    && (c.StationRequired() ==> s.lastWallErrorNs == v.errorNs)
    && s.authorityState == v.state && s.authorityFailures == v.failures && s.authorityRecovery == v.recovery
  }

  function ViewSeen(s: Guard): View {
    View(if s.haveGazeboClock then Some(GazeboObservation(s.lastGazeboStampNs, s.lastGazeboMonotonicNs, 0)) else None,
         s.haveGazeboRate, s.lastWallErrorNs, s.authorityState, s.authorityFailures, s.authorityRecovery)
  }

  lemma ViewIsSeen(c: Startup, s: Guard)
    ensures Sees(c, s, ViewSeen(s))
  {
  }

  function InitialView(c: Startup): View {
    View(None, false, 0, if c.config.runMode == Physical then Locked else Initializing, 0, 0)
  }

  // ---- what is quiet ----

  // The guard may lean on the clock it has at this time.
  predicate Backed(c: Startup, v: View, nowNs: u64) {
    c.GazeboRequired() ==>
      && v.state == Locked && v.clock.Some? && (c.config.runMode == Hybrid ==> v.rated)
      && nowNs >= c.monotonicNs
      && 0 <= nowNs - v.clock.value.monotonicNs <= c.config.thresholds.maxAuthorityAgeNs
  }

  // It still waits for its clock, or for a second one, and may do so.
  predicate Awaited(c: Startup, v: View, nowNs: u64) {
    && v.state != Lost && nowNs >= c.monotonicNs
    && match v.clock
       case None => nowNs - c.monotonicNs <= c.config.thresholds.startupLockTimeoutNs
       case Some(p) =>
         c.config.runMode == Hybrid && !v.rated && 0 <= nowNs - p.monotonicNs <= c.config.thresholds.maxAuthorityAgeNs
  }

  // The clock advances on both stamps, timely and at an allowed rate.
  predicate ClockInGate(c: Startup, v: View, o: GazeboObservation) {
    && o.monotonicNs >= c.monotonicNs
    && match v.clock
       case None => o.monotonicNs - c.monotonicNs <= c.config.thresholds.startupLockTimeoutNs
       case Some(p) =>
         && o.monotonicNs > p.monotonicNs && o.stampNs > p.stampNs
         && (c.config.runMode == Hybrid ==> RateAllowed(c, p, o))
  }

  predicate RateAllowed(c: Startup, p: GazeboObservation, o: GazeboObservation)
    requires o.monotonicNs > p.monotonicNs
  {
    var rate := (o.stampNs - p.stampNs) as real / (o.monotonicNs - p.monotonicNs) as real;
    && RateFieldsPresent(c.config.thresholds)
    && c.config.thresholds.minGazeboRealTimeFactor.value <= rate <= c.config.thresholds.maxGazeboRealTimeFactor.value
  }

  predicate SkewInGate(c: Startup, v: View, o: Observation)
    requires o.slot in Table(c)
  {
    c.GazeboRequired() && Table(c)[o.slot].sourceDomain == SimulationSource ==>
      v.clock.Some? && SkewWithin(c, SignedDifference(o.rawNs, v.clock.value.stampNs))
  }

  predicate GazeboQuiet(c: Startup, v: View, op: GuardOp) {
    match op
    case GazeboClockOp(o) => c.GazeboRequired() ==> v.state != Lost && ClockInGate(c, v, o)
    case RouteOp(o) => o.slot in Table(c) ==> Backed(c, v, o.monotonicNs) && SkewInGate(c, v, o)
    case GuardPollOp(m, _) => Backed(c, v, m) || Awaited(c, v, m)
    case FailEpochFenceOp(_) => false
    case TakeEventsOp => true
  }

  // The operation passes every check of the authority.
  predicate Quiet(c: Startup, v: View, op: GuardOp) {
    && (ReadingOf(c, op).Some? ==> ReadingPasses(c, v.errorNs, ReadingOf(c, op).value))
    && GazeboQuiet(c, v, op)
  }

  // ---- what it leads to ----

  // A healthy clock ends the failure run and brings the authority closer to
  // its lock.
  function ViewHealthy(c: Startup, v: View): View {
    match v.state
    case Lost => v
    case Initializing => v.(failures := 0, state := Locked, recovery := 0)
    case Locked => v.(failures := 0)
    case Degraded =>
      var recovery := SaturatingIncrement(v.recovery);
      if recovery >= c.config.thresholds.recoverLockSamples then v.(failures := 0, state := Locked, recovery := 0)
      else v.(failures := 0, recovery := recovery)
  }

  function ViewOfClock(c: Startup, v: View, o: GazeboObservation): View {
    if !c.GazeboRequired() || o.stampNs == 0 then v
    else
      var w := v.(clock := Some(o), rated := c.config.runMode == Hybrid && v.clock.Some?);
      if c.config.runMode == Simulation || w.rated then ViewHealthy(c, w) else w
  }

  function ViewRead(c: Startup, v: View, op: GuardOp): View {
    match ReadingOf(c, op)
    case None => v
    case Some(r) => v.(errorNs := ErrorOf(c, r))
  }

  function ViewNext(c: Startup, v: View, op: GuardOp): View {
    var w := ViewRead(c, v, op);
    if op.GazeboClockOp? then ViewOfClock(c, w, op.clock) else w
  }

  // The observation with what the Gazebo clock adds to it.
  function Backing(c: Startup, v: View, o: Observation): Observation
    requires o.slot in Table(c)
  {
    if !c.GazeboRequired() || v.clock.None? then o
    else
      var p := v.clock.value;
      o.(gazeboStampNs := p.stampNs,
         authorityAgeNs := if o.monotonicNs >= p.monotonicNs then o.monotonicNs - p.monotonicNs else 0,
         sessionNs := if c.config.runMode == Simulation then p.stampNs else o.sessionNs,
         gazeboSkewNs := if Table(c)[o.slot].sourceDomain == SimulationSource
                         then SignedDifference(o.rawNs, p.stampNs) else o.gazeboSkewNs)
  }

  // The observation with what the authority adds to it.
  function Given(c: Startup, v: View, o: Observation): Observation
    requires o.slot in Table(c)
  {
    Backing(c, v, Cleared(o).(sessionNs := if c.StationRequired() then StationTime(c, o.monotonicNs) else 0))
  }

  // What a quiet operation hands to a route.
  function FeedAt(c: Startup, v: View, op: GuardOp, slot: string): Option<MapperOp>
    requires slot in Table(c)
  {
    match op
    case RouteOp(o) => if o.slot == slot then Some(ObserveOp(Given(c, v, o))) else None
    case GuardPollOp(m, _) => if Backed(c, v, m) then Some(PollOp(m)) else None
    case _ => None
  }

  // ---- the station reading ----

  lemma ModeIs(c: Startup)
    requires c.Valid()
    ensures c.StationRequired() <==> c.config.runMode != Simulation
    ensures c.StationRequired() ==> StationFieldsPresent(c.config.thresholds)
    ensures c.config.authority == GazeboSimulation <==> c.config.runMode == Simulation
    ensures c.GazeboRequired() ==> c.config.thresholds.maxGazeboClockSkewNs.Some?
    ensures c.config.runMode == Hybrid ==> RateFieldsPresent(c.config.thresholds)
    ensures c.monotonicNs != 0 && c.systemWallNs != 0 && c.epoch != 0
  {
    ModeFacts(c);
    hide ThresholdPolicyValid, RoutesValid, SourceTimingValid;
  }

  lemma ReadingValidates(c: Startup, s: Guard, r: Reading)
    requires StationFieldsPresent(c.config.thresholds) && c.config.authority == StationWallMonotonic
    requires ReadingPasses(c, s.lastWallErrorNs, r)
    ensures var (t, ok) := ValidateStation(c, s, r.monotonicNs, r.systemWallNs);
            && ok && t.stationHealthy && t.lastWallErrorNs == ErrorOf(c, r)
            && t == s.(stationHealthy := true, lastWallErrorNs := t.lastWallErrorNs, status := t.status)
            && t.status.gazeboRequired == s.status.gazeboRequired && t.status.lastSkewNs == s.status.lastSkewNs
            && (t.status.healthy <==>
                  && t.authorityState == Locked
                  && (!t.status.gazeboRequired
                      || (t.gazeboHealthy && t.haveGazeboClock && (c.config.runMode != Hybrid || t.haveGazeboRate))))
  {
    hide StationTime, SignedDifference, ClampedDifference;
  }

  // What the guard knows after a passing reading.
  lemma ReadingSeen(c: Startup, s: Guard, v: View, r: Reading)
    requires c.Valid() && c.StationRequired() && Sees(c, s, v) && ReadingPasses(c, v.errorNs, r)
    ensures StationFieldsPresent(c.config.thresholds)
    ensures var (t, ok) := ValidateStation(c, s, r.monotonicNs, r.systemWallNs);
            && ok && Sees(c, t, v.(errorNs := ErrorOf(c, r)))
            && t.status.gazeboRequired == s.status.gazeboRequired && t.status.lastSkewNs == s.status.lastSkewNs
            && t.gazeboHealthy == s.gazeboHealthy && t.stationHealthy
            && (t.status.healthy <==>
                  && t.authorityState == Locked
                  && (!t.status.gazeboRequired
                      || (t.gazeboHealthy && t.haveGazeboClock && (c.config.runMode != Hybrid || t.haveGazeboRate))))
  {
    ModeIs(c);
    hide Startup.Valid, ReadingPasses, ErrorOf, ValidateStation;
    ReadingValidates(c, s, r);
  }

  lemma LogSees(c: Startup, s: Guard, v: View, before: GuardState, monotonicNs: u64)
    ensures Sees(c, EmitTransition(c, s, before, monotonicNs), v) <==> Sees(c, s, v)
  {
    hide EmitTransition;
    var t := EmitTransition(c, s, before, monotonicNs);
    assert t == s.(nextSequence := t.nextSequence, pending := t.pending);
  }

  // ---- a Gazebo clock ----

  lemma AcceptedClockSeen(c: Startup, s: Guard, v: View, o: GazeboObservation, factor: real, haveRate: bool)
    requires c.Valid() && c.GazeboRequired() && Sees(c, s, v)
    requires haveRate == (c.config.runMode == Hybrid && v.clock.Some?) && o.stampNs != 0
    ensures Sees(c, AcceptClock(c, s, o, factor, haveRate), ViewOfClock(c, v, o))
  {
    hide Startup.Valid, SessionNow;
  }

  lemma RateIsAllowed(c: Startup, s: Guard, v: View, o: GazeboObservation)
    requires c.Valid() && c.config.runMode == Hybrid && Sees(c, s, v) && v.clock.Some?
    requires o.monotonicNs > v.clock.value.monotonicNs && o.stampNs > v.clock.value.stampNs
    requires RateAllowed(c, v.clock.value, o)
    ensures RateFieldsPresent(c.config.thresholds) && !RateFails(c, RealTimeFactor(s, o))
  {
    hide Startup.Valid;
  }

  lemma StampQuiet(c: Startup, s: Guard, v: View, o: GazeboObservation, before: GuardState)
    requires c.Valid() && c.GazeboRequired() && Sees(c, s, v) && ClockInGate(c, v, o) && !ReceiptFails(c, s, o)
    requires s.haveGazeboRate ==> c.config.runMode == Hybrid && s.haveGazeboClock
    ensures Sees(c, AdmitStamp(c, s, o, before).0, ViewOfClock(c, v, o))
    ensures StampFeed(c, s, o) == None
  {
    ModeIs(c);
    hide Startup.Valid, AcceptClock, Failing, RateFails, RealTimeFactor, Refresh, ViewOfClock, EmitTransition, RateAllowed;
    if v.clock.None? {
      if o.stampNs == 0 {
        RefreshSees(c, s, v, o);
      } else {
        LogSees(c, AcceptClock(c, s, o, 0.0, s.haveGazeboRate), ViewOfClock(c, v, o), before, o.monotonicNs);
        AcceptedClockSeen(c, s, v, o, 0.0, false);
      }
    } else if c.config.runMode == Hybrid {
      RateIsAllowed(c, s, v, o);
      var factor := RealTimeFactor(s, o);
      var measured := s.(status := s.status.(realTimeFactor := factor));
      AcceptedClockSeen(c, measured, v, o, factor, true);
      LogSees(c, AcceptClock(c, measured, o, factor, true), ViewOfClock(c, v, o), before, o.monotonicNs);
    } else {
      AcceptedClockSeen(c, s, v, o, 0.0, false);
      LogSees(c, AcceptClock(c, s, o, 0.0, false), ViewOfClock(c, v, o), before, o.monotonicNs);
    }
  }

  lemma RefreshSees(c: Startup, s: Guard, v: View, o: GazeboObservation)
    requires Sees(c, s, v) && o.stampNs == 0
    ensures Sees(c, Refresh(c, s), ViewOfClock(c, v, o))
  {
  }

  lemma ReceiptPasses(c: Startup, s: Guard, v: View, o: GazeboObservation)
    requires c.Valid() && Sees(c, s, v) && ClockInGate(c, v, o)
    ensures !ReceiptFails(c, s, o)
  {
    ModeIs(c);
    hide Startup.Valid, RateAllowed;
  }

  lemma ClockQuiet(c: Startup, s: Guard, v: View, o: GazeboObservation)
    requires c.Valid() && Sees(c, s, v) && Quiet(c, v, GazeboClockOp(o))
    requires s.haveGazeboRate ==> c.config.runMode == Hybrid && s.haveGazeboClock
    ensures Sees(c, ObserveGazebo(c, s, o).0, ViewNext(c, v, GazeboClockOp(o)))
    ensures ClockFeed(c, s, o) == None
  {
    ModeIs(c);
    hide Startup.Valid, AdmitStamp, Failing, ViewOfClock, ReceiptFails, StampFeed, ClockInGate, ReadingPasses, ErrorOf,
         ValidateStation, Aggregate, Table;
    if c.config.runMode == Hybrid {
      ReadingSeen(c, s, v, Reading(o.monotonicNs, o.systemWallNs));
      var s1 := ValidateStation(c, s, o.monotonicNs, o.systemWallNs).0;
      var w := v.(errorNs := ErrorOf(c, Reading(o.monotonicNs, o.systemWallNs)));
      ReadingKeepsClockGate(c, v, w, o);
      ReceiptPasses(c, s1, w, o);
      StampQuiet(c, s1, w, o, Aggregate(s));
    } else if c.GazeboRequired() {
      ReceiptPasses(c, s, v, o);
      StampQuiet(c, s, v, o, Aggregate(s));
    } else {
      ClockIgnored(c, v, o);
    }
  }

  lemma ReadingKeepsClockGate(c: Startup, v: View, w: View, o: GazeboObservation)
    requires ClockInGate(c, v, o) && w == v.(errorNs := w.errorNs)
    ensures ClockInGate(c, w, o)
  {
    hide RateAllowed;
  }

  lemma ClockIgnored(c: Startup, v: View, o: GazeboObservation)
    requires !c.GazeboRequired()
    ensures ViewNext(c, v, GazeboClockOp(o)) == v
  {
  }

  // ---- an observation ----

  lemma BackedIsFresh(c: Startup, s: Guard, v: View, nowNs: u64)
    requires c.Valid() && Sees(c, s, v) && Backed(c, v, nowNs)
    ensures var (t, check) := GazeboAge(c, s, nowNs);
            && check == Fresh && Sees(c, t, v) && t == s.(status := t.status)
            && t.status.healthy == s.status.healthy && t.status.lastSkewNs == s.status.lastSkewNs
            && (c.GazeboRequired() ==> t.status.ageNs == nowNs - v.clock.value.monotonicNs)
  {
    ModeIs(c);
    hide Startup.Valid;
  }

  lemma MappingSees(c: Startup, s: Guard, v: View, o: Observation, before: GuardState)
    requires c.Valid() && Known(c, s, o.slot) && Sees(c, s, v)
    ensures Sees(c, MapObservation(c, s, o, before).0, v)
  {
    hide Startup.Valid, Table, StepSlot, EnvelopeOf, EmitTransition, SensitiveOutputAllowed;
    LogSees(c, StepRoute(c, s, o.slot, ObserveOp(o)), v, before, o.monotonicNs);
  }

  lemma SkewSees(c: Startup, s: Guard, v: View, o: Observation, before: GuardState)
    requires c.Valid() && Known(c, s, o.slot) && c.GazeboRequired() && Sees(c, s, v) && v.clock.Some?
    requires SkewInGate(c, v, o)
    ensures Sees(c, GateSkew(c, s, o, before).0, v)
  {
    ModeIs(c);
    hide Startup.Valid, Table, MapObservation, SignedDifference, Magnitude, SkewFailure, Sees;
    var enriched := Enriched(c, s, o);
    var skew := SignedDifference(o.rawNs, s.lastGazeboStampNs);
    SkewIsSeen(c, s, v, skew);
    MappingSees(c, s, v, enriched, before);
    MappingSees(c, WithSkew(s, skew), v, enriched.(gazeboSkewNs := skew), before);
  }

  lemma SkewIsSeen(c: Startup, s: Guard, v: View, skew: i64)
    requires Sees(c, s, v)
    ensures Sees(c, WithSkew(s, skew), v)
    ensures v.clock.Some? ==> s.lastGazeboStampNs == v.clock.value.stampNs
  {
  }

  lemma SkewBacks(c: Startup, s: Guard, v: View, o: Observation)
    requires c.Valid() && Known(c, s, o.slot) && c.GazeboRequired() && v.clock.Some? && SkewInGate(c, v, o)
    requires s.lastGazeboStampNs == v.clock.value.stampNs
    requires s.status.ageNs == o.monotonicNs - v.clock.value.monotonicNs
    ensures SkewFeed(c, s, o) == ObserveOp(Backing(c, v, o))
  {
    ModeIs(c);
    hide Startup.Valid, Table, SignedDifference, Magnitude, Enriched;
    EnrichedIs(c, s, v, o);
  }

  lemma EnrichedIs(c: Startup, s: Guard, v: View, o: Observation)
    requires o.slot in Table(c) && c.GazeboRequired() && v.clock.Some?
    requires s.lastGazeboStampNs == v.clock.value.stampNs
    requires s.status.ageNs == o.monotonicNs - v.clock.value.monotonicNs
    ensures Backing(c, v, o) == if Table(c)[o.slot].sourceDomain == SimulationSource
                                then Enriched(c, s, o).(gazeboSkewNs := SignedDifference(o.rawNs, v.clock.value.stampNs))
                                else Enriched(c, s, o)
  {
    hide Table, SignedDifference;
  }

  lemma ClockOfBacked(c: Startup, v: View, nowNs: u64)
    requires Backed(c, v, nowNs) && c.GazeboRequired()
    ensures v.clock.Some? && v.state == Locked && nowNs >= v.clock.value.monotonicNs
  {
  }

  lemma GateQuiet(c: Startup, s: Guard, v: View, o: Observation, before: GuardState, slot: string)
    requires c.Valid() && Known(c, s, o.slot) && Sees(c, s, v) && (c.GazeboRequired() ==> s.status.healthy)
    requires Backed(c, v, o.monotonicNs) && SkewInGate(c, v, o)
    ensures Sees(c, GateGazebo(c, s, o, before).0, v)
    ensures GateFeed(c, s, o, slot) == if slot == o.slot then Some(ObserveOp(Backing(c, v, o))) else None
  {
    hide Startup.Valid, Table, GateSkew, MapObservation, SkewFeed, SkewInGate, GazeboAge, SignedDifference, Sees, Backed;
    BackedIsFresh(c, s, v, o.monotonicNs);
    if c.GazeboRequired() {
      var s1 := GazeboAge(c, s, o.monotonicNs).0;
      ClockOfBacked(c, v, o.monotonicNs);
      SkewIsSeen(c, s1, v, 0);
      SkewSees(c, s1, v, o, before);
      SkewBacks(c, s1, v, o);
    } else {
      MappingSees(c, s, v, o, before);
    }
  }

  lemma UnknownChangesNothing(c: Startup, s: Guard, o: Observation, slot: string)
    requires c.Valid() && !Known(c, s, o.slot)
    ensures ObserveRoute(c, s, o).0 == s && RouteFeed(c, s, o, slot) == None
  {
    hide Startup.Valid, Table, GateGazebo, ValidateStation, GateFeed;
  }

  // A locked authority is backed by what it needs, whenever a call returns.
  lemma LockedIsHealthy(c: Startup, s: Guard)
    requires c.Valid() && Inv(c, s)
    ensures s.routes.Keys == Table(c).Keys
    ensures s.status.healthy <==> s.authorityState == Locked
    ensures s.status.gazeboRequired == c.GazeboRequired()
    ensures s.authorityState == Locked && c.GazeboRequired() ==>
              s.gazeboHealthy && s.haveGazeboClock && (c.config.runMode == Hybrid ==> s.haveGazeboRate)
    ensures s.haveGazeboRate ==> c.config.runMode == Hybrid && s.haveGazeboClock
  {
    hide Startup.Valid, Table, RouteSound, StationWithin;
  }

  lemma RouteQuiet(c: Startup, s: Guard, v: View, o: Observation, slot: string)
    requires c.Valid() && Inv(c, s) && o.slot in Table(c) && slot in Table(c) && Sees(c, s, v) && Quiet(c, v, RouteOp(o))
    ensures Sees(c, ObserveRoute(c, s, o).0, ViewNext(c, v, RouteOp(o)))
    ensures RouteFeed(c, s, o, slot) == FeedAt(c, v, RouteOp(o), slot)
  {
    ModeIs(c);
    LockedIsHealthy(c, s);
    hide Startup.Valid, Inv, Table, GateGazebo, GateFeed, Aggregate, StationTime, Backed, SkewInGate, ReadingPasses, Sees, Backing;
    if c.StationRequired() {
      StationQuiet(c, s, v, o, slot);
    } else {
      BackedHealth(c, s, v, o);
      GateQuiet(c, s, v, Cleared(o), Aggregate(s), slot);
    }
  }

  lemma BackedHealth(c: Startup, s: Guard, v: View, o: Observation)
    requires c.Valid() && Sees(c, s, v) && Backed(c, v, o.monotonicNs) && o.slot in Table(c) && SkewInGate(c, v, o)
    ensures c.GazeboRequired() ==> s.authorityState == Locked
    ensures SkewInGate(c, v, Cleared(o))
  {
    hide Startup.Valid, Table, SignedDifference;
  }

  // Behind a passing reading an observation goes on to the Gazebo gate.
  lemma StationLetsThrough(c: Startup, s: Guard, o: Observation, slot: string)
    requires c.Valid() && c.StationRequired() && StationFieldsPresent(c.config.thresholds) && Known(c, s, o.slot)
    requires ValidateStation(c, s, o.monotonicNs, o.systemWallNs).1
    ensures var s1 := ValidateStation(c, s, o.monotonicNs, o.systemWallNs).0;
            var given := Cleared(o).(sessionNs := SessionNow(c, s1, o.monotonicNs));
            && ObserveRoute(c, s, o) == GateGazebo(c, s1, given, Aggregate(s))
            && RouteFeed(c, s, o, slot) == GateFeed(c, s1, given, slot)
  {
    hide Startup.Valid, Table, GateGazebo, GateFeed, Aggregate, StationTime, ValidateStation, Failing, AuthorityEnvelope, Cleared;
  }

  lemma StationHealthy(c: Startup, s: Guard, v: View, o: Observation)
    requires c.Valid() && Inv(c, s) && c.StationRequired() && Sees(c, s, v)
    requires o.slot in Table(c) && Backed(c, v, o.monotonicNs) && SkewInGate(c, v, o)
    requires ReadingPasses(c, v.errorNs, Reading(o.monotonicNs, o.systemWallNs))
    ensures StationFieldsPresent(c.config.thresholds)
    ensures c.GazeboRequired() ==> ValidateStation(c, s, o.monotonicNs, o.systemWallNs).0.status.healthy
  {
    BackedHealth(c, s, v, o);
    LockedIsHealthy(c, s);
    hide Startup.Valid, Inv, Table, ReadingPasses, Backed, SkewInGate, ErrorOf, ValidateStation;
    ReadingSeen(c, s, v, Reading(o.monotonicNs, o.systemWallNs));
  }

  // What a quiet observation of a known slot amounts to under station time.
  lemma StationObservation(c: Startup, v: View, o: Observation, slot: string)
    requires c.Valid() && o.slot in Table(c) && slot in Table(c) && Quiet(c, v, RouteOp(o)) && c.StationRequired()
    ensures var r := Reading(o.monotonicNs, o.systemWallNs);
            && ReadingPasses(c, v.errorNs, r) && ViewNext(c, v, RouteOp(o)) == v.(errorNs := ErrorOf(c, r))
            && Backed(c, v, o.monotonicNs) && SkewInGate(c, v, o)
    ensures FeedAt(c, v, RouteOp(o), slot) ==
              if o.slot == slot then Some(ObserveOp(Backing(c, v, Cleared(o).(sessionNs := StationTime(c, o.monotonicNs)))))
              else None
  {
    ModeIs(c);
    hide Startup.Valid, Table, StationTime, Backed, SkewInGate, ReadingPasses, Backing, ErrorOf;
  }

  lemma StationQuiet(c: Startup, s: Guard, v: View, o: Observation, slot: string)
    requires c.Valid() && Inv(c, s) && o.slot in Table(c) && slot in Table(c) && Sees(c, s, v) && Quiet(c, v, RouteOp(o))
    requires c.StationRequired()
    ensures Sees(c, ObserveRoute(c, s, o).0, ViewNext(c, v, RouteOp(o)))
    ensures RouteFeed(c, s, o, slot) == FeedAt(c, v, RouteOp(o), slot)
  {
    ModeIs(c);
    SlotsAreThere(c, s);
    hide Startup.Valid, Inv, Table, GateGazebo, GateFeed, Aggregate, StationTime, Backed, SkewInGate, ReadingPasses, Sees, Backing,
         ErrorOf, ValidateStation, ObserveRoute, RouteFeed, Quiet, ViewNext, FeedAt, Cleared;
    var r := Reading(o.monotonicNs, o.systemWallNs);
    StationObservation(c, v, o, slot);
    ReadingSeen(c, s, v, r);
    StationHealthy(c, s, v, o);
    StationLetsThrough(c, s, o, slot);
    var s1 := ValidateStation(c, s, o.monotonicNs, o.systemWallNs).0;
    var w := v.(errorNs := ErrorOf(c, r));
    var given := Cleared(o).(sessionNs := SessionNow(c, s1, o.monotonicNs));
    ReadingKeepsBacking(c, v, w, o.monotonicNs);
    ClearedKeeps(o);
    ReadingKeepsSkew(c, v, w, o, given);
    GateQuiet(c, s1, w, given, Aggregate(s), slot);
  }

  lemma ClearedKeeps(o: Observation)
    ensures Cleared(o).slot == o.slot && Cleared(o).rawNs == o.rawNs && Cleared(o).monotonicNs == o.monotonicNs
  {
  }

  lemma SlotsAreThere(c: Startup, s: Guard)
    requires c.Valid() && Inv(c, s)
    ensures s.routes.Keys == Table(c).Keys
  {
    hide Startup.Valid, Table, RouteSound, StationWithin;
  }

  lemma ReadingKeepsSkew(c: Startup, v: View, w: View, o: Observation, given: Observation)
    requires w == v.(errorNs := w.errorNs) && o.slot in Table(c) && given.slot == o.slot && given.rawNs == o.rawNs
    requires SkewInGate(c, v, o)
    ensures SkewInGate(c, w, given) && Backing(c, w, given) == Backing(c, v, given)
  {
    hide Table, SignedDifference;
  }

  // ---- a poll ----

  lemma PollGateQuiet(c: Startup, s: Guard, v: View, before: GuardState, nowNs: u64)
    requires c.Valid() && Sees(c, s, v) && (Backed(c, v, nowNs) || Awaited(c, v, nowNs))
    ensures Sees(c, PollFreshness(c, s, before, nowNs), v)
    ensures PollGateFeed(c, s, nowNs) == if Backed(c, v, nowNs) then Some(PollOp(nowNs)) else None
  {
    hide Startup.Valid, Table, GazeboAge, PollCompleted, Failing, Backed, Awaited;
    if Backed(c, v, nowNs) {
      BackedIsFresh(c, s, v, nowNs);
      var s1 := GazeboAge(c, s, nowNs).0;
      PollCompletedSees(c, s1, v, before, nowNs);
    } else {
      AwaitedIsHarmless(c, s, v, nowNs);
    }
  }

  lemma AwaitedIsHarmless(c: Startup, s: Guard, v: View, nowNs: u64)
    requires c.Valid() && Sees(c, s, v) && Awaited(c, v, nowNs) && !Backed(c, v, nowNs)
    ensures var (t, check) := GazeboAge(c, s, nowNs); check == Stale && !DeadlineExceeded(c, t) && Sees(c, t, v)
  {
    ModeIs(c);
    hide Startup.Valid;
  }

  lemma PollCompletedSees(c: Startup, s: Guard, v: View, before: GuardState, nowNs: u64)
    requires c.Valid() && Sees(c, s, v)
    ensures Sees(c, PollCompleted(c, s, before, nowNs), v)
  {
    hide Startup.Valid, Table, EmitTransition, PollRoutes, SessionNow;
    LogSees(c, s.(routes := PollRoutes(c, s.routes, nowNs), status := s.status.(sessionNowNs := SessionNow(c, s, nowNs))),
            v, before, nowNs);
  }

  lemma PollQuiet(c: Startup, s: Guard, v: View, monotonicNs: u64, systemWallNs: u64)
    requires c.Valid() && Sees(c, s, v) && Quiet(c, v, GuardPollOp(monotonicNs, systemWallNs))
    ensures Sees(c, Poll(c, s, monotonicNs, systemWallNs), ViewNext(c, v, GuardPollOp(monotonicNs, systemWallNs)))
    ensures PollFeed(c, s, monotonicNs, systemWallNs) == if Backed(c, v, monotonicNs) then Some(PollOp(monotonicNs)) else None
  {
    ModeIs(c);
    hide Startup.Valid, Table, PollFreshness, PollGateFeed, ReadingPasses, ErrorOf, ValidateStation, Aggregate, Backed, Awaited;
    if c.StationRequired() {
      ReadingSeen(c, s, v, Reading(monotonicNs, systemWallNs));
      var s1 := ValidateStation(c, s, monotonicNs, systemWallNs).0;
      var w := v.(errorNs := ErrorOf(c, Reading(monotonicNs, systemWallNs)));
      ReadingKeepsBacking(c, v, w, monotonicNs);
      PollGateQuiet(c, s1, w, Aggregate(s), monotonicNs);
    } else {
      PollGateQuiet(c, s, v, Aggregate(s), monotonicNs);
    }
  }

  lemma ReadingKeepsBacking(c: Startup, v: View, w: View, nowNs: u64)
    requires w == v.(errorNs := w.errorNs)
    ensures Backed(c, v, nowNs) <==> Backed(c, w, nowNs)
    ensures Awaited(c, v, nowNs) <==> Awaited(c, w, nowNs)
  {
  }

  // ---- any quiet operation ----

  // After a quiet operation the guard knows what its inputs say, and each route
  // was handed exactly its own sample or poll.
  lemma QuietStep(c: Startup, s: Guard, v: View, op: GuardOp, slot: string)
    requires c.Valid() && Inv(c, s) && Sees(c, s, v) && Quiet(c, v, op) && slot in Table(c)
    ensures Sees(c, Apply(c, s, op), ViewNext(c, v, op))
    ensures Feed(c, s, op, slot) == FeedAt(c, v, op, slot)
  {
    hide Startup.Valid, Inv, Table, ObserveGazebo, ObserveRoute, Poll, ClockFeed, RouteFeed, PollFeed, Backed, SkewInGate, ReadingPasses,
         ViewNext, Sees, Apply, Awaited, ClockInGate, Backing, Given;
    QuietView(c, s, v, op);
    LockedIsHealthy(c, s);
    match op
    case GazeboClockOp(o) => ClockQuiet(c, s, v, o);
    case RouteOp(o) =>
      if o.slot in Table(c) {
        RouteQuiet(c, s, v, o, slot);
      } else {
        UnknownChangesNothing(c, s, o, slot);
      }
    case GuardPollOp(m, w) => PollQuiet(c, s, v, m, w);
    case TakeEventsOp =>
  }

  lemma QuietView(c: Startup, s: Guard, v: View, op: GuardOp)
    requires c.Valid() && Inv(c, s) && Sees(c, s, v) && Quiet(c, v, op)
    ensures Sees(c, Apply(c, s, op), ViewNext(c, v, op))
  {
    hide Startup.Valid, Inv, Table, ObserveGazebo, ObserveRoute, Poll, Backed, SkewInGate, ReadingPasses, Awaited, ClockInGate;
    LockedIsHealthy(c, s);
    match op
    case GazeboClockOp(o) => ClockQuiet(c, s, v, o);
    case RouteOp(o) =>
      if o.slot in Table(c) {
        RouteQuiet(c, s, v, o, o.slot);
      } else {
        UnknownChangesNothing(c, s, o, o.slot);
      }
    case GuardPollOp(m, w) => PollQuiet(c, s, v, m, w);
    case TakeEventsOp =>
  }

  // ---- quiet runs ----

  function ViewOf(c: Startup, ops: seq<GuardOp>): View {
    if ops == [] then InitialView(c) else ViewNext(c, ViewOf(c, ops[..|ops| - 1]), ops[|ops| - 1])
  }

  predicate QuietRun(c: Startup, ops: seq<GuardOp>) {
    ops == [] || (QuietRun(c, ops[..|ops| - 1]) && Quiet(c, ViewOf(c, ops[..|ops| - 1]), ops[|ops| - 1]))
  }

  function Listed(feed: Option<MapperOp>): seq<MapperOp> {
    match feed
    case None => []
    case Some(op) => [op]
  }

  // What a quiet run hands to a route, in order.
  function QuietOps(c: Startup, ops: seq<GuardOp>, slot: string): seq<MapperOp>
    requires slot in Table(c)
  {
    if ops == [] then []
    else
      QuietOps(c, ops[..|ops| - 1], slot) + Listed(FeedAt(c, ViewOf(c, ops[..|ops| - 1]), ops[|ops| - 1], slot))
  }

  lemma QuietNext(c: Startup, ops: seq<GuardOp>, op: GuardOp)
    ensures ViewOf(c, ops + [op]) == ViewNext(c, ViewOf(c, ops), op)
    ensures QuietRun(c, ops + [op]) <==> QuietRun(c, ops) && Quiet(c, ViewOf(c, ops), op)
    ensures forall slot :: slot in Table(c) ==>
              QuietOps(c, ops + [op], slot) == QuietOps(c, ops, slot) + Listed(FeedAt(c, ViewOf(c, ops), op, slot))
  {
    hide Table, ViewNext, Quiet, FeedAt;
    assert (ops + [op])[..|ops|] == ops;
  }

  lemma StartsSeen(c: Startup)
    ensures Sees(c, Initial(c), InitialView(c))
  {
    hide Aggregate, Table, InitialStatus, EventAt, RouteConfig;
  }

  lemma RouteOpsNext(c: Startup, ops: seq<GuardOp>, op: GuardOp, slot: string)
    requires c.Valid()
    ensures RouteOps(c, ops + [op], slot) == RouteOps(c, ops, slot) + Listed(Feed(c, After(c, ops), op, slot))
  {
    hide Startup.Valid, After, Feed;
    assert (ops + [op])[..|ops|] == ops;
  }

  // A quiet run leaves the guard knowing exactly what its inputs say, and has
  // handed each route exactly its own samples and polls.
  lemma {:induction false} QuietRunIs(c: Startup, ops: seq<GuardOp>)
    requires c.Valid() && QuietRun(c, ops)
    ensures Sees(c, After(c, ops), ViewOf(c, ops))
    ensures forall slot :: slot in Table(c) ==> RouteOps(c, ops, slot) == QuietOps(c, ops, slot)
  {
    hide Startup.Valid, Table, Inv, Sees, Apply, Initial, Quiet, ViewNext, Feed, FeedAt, InitialView;
    if ops == [] {
      StartsSeen(c);
    } else {
      var front, op := ops[..|ops| - 1], ops[|ops| - 1];
      assert front + [op] == ops;
      QuietRunIs(c, front);
      QuietNext(c, front, op);
      RunInv(c, front);
      RunExtends(c, front, op);
      QuietView(c, After(c, front), ViewOf(c, front), op);
      forall slot | slot in Table(c) ensures RouteOps(c, ops, slot) == QuietOps(c, ops, slot) {
        RouteOpsNext(c, front, op, slot);
        QuietStep(c, After(c, front), ViewOf(c, front), op, slot);
      }
    }
  }

  // The authority has what its mode asks for: nothing more than station time, one
  // Gazebo clock, or two of them in hybrid.
  predicate AuthorityReady(c: Startup, v: View) {
    c.GazeboRequired() ==> v.clock.Some? && (c.config.runMode == Hybrid ==> v.rated)
  }

  predicate ViewSound(c: Startup, v: View) {
    && v.state == (if AuthorityReady(c, v) then Locked else Initializing)
    && (v.rated ==> v.clock.Some?)
  }

  lemma ViewStaysSound(c: Startup, v: View, op: GuardOp)
    requires c.Valid() && ViewSound(c, v) && Quiet(c, v, op)
    ensures ViewSound(c, ViewNext(c, v, op))
  {
    hide Startup.Valid, ReadingPasses, ErrorOf, Table, RateAllowed, SkewInGate;
  }

  lemma {:induction false} QuietViewIsSound(c: Startup, ops: seq<GuardOp>)
    requires c.Valid() && QuietRun(c, ops)
    ensures ViewSound(c, ViewOf(c, ops))
  {
    hide Startup.Valid, Quiet, ViewNext;
    if ops != [] {
      QuietViewIsSound(c, ops[..|ops| - 1]);
      ViewStaysSound(c, ViewOf(c, ops[..|ops| - 1]), ops[|ops| - 1]);
    } else {
      ModeIs(c);
    }
  }

  // ---- publication ----

  // The envelope may be published exactly when it is accepted and the guard
  // allows sensitive output on return.
  predicate PublishesRight(r: (Guard, TimestampEnvelope)) {
    r.1.canonicalPublishAllowed <==> r.1.accepted && SensitiveOutputAllowed(r.0)
  }

  // Whatever the run, an observation may be published exactly when it is accepted
  // and the guard allows sensitive output on return.
  lemma PublishedWhenAllowed(c: Startup, s: Guard, o: Observation)
    requires c.Valid()
    ensures var (t, e) := ObserveRoute(c, s, o); e.canonicalPublishAllowed <==> e.accepted && SensitiveOutputAllowed(t)
  {
    ModeIs(c);
    hide Startup.Valid, Table, ValidateStation, GateGazebo, Aggregate, SensitiveOutputAllowed, Failing, SessionNow, Cleared, MakeEnvelope;
    if Known(c, s, o.slot) {
      if !c.StationRequired() {
        GatePublishes(c, s, Cleared(o), Aggregate(s));
      } else {
        var (s1, ok) := ValidateStation(c, s, o.monotonicNs, o.systemWallNs);
        if ok {
          GatePublishes(c, s1, Cleared(o).(sessionNs := SessionNow(c, s1, o.monotonicNs)), Aggregate(s));
        } else {
          RefusedIsUnpublished(c, Failing(c, s1, true, Aggregate(s), o.monotonicNs), Cleared(o));
        }
      }
    }
  }

  lemma RefusedIsUnpublished(c: Startup, s: Guard, o: Observation)
    requires Known(c, s, o.slot)
    ensures !AuthorityEnvelope(c, s, o).accepted && !AuthorityEnvelope(c, s, o).canonicalPublishAllowed
  {
    hide Table;
  }

  lemma MappedWhenAllowed(c: Startup, s: Guard, o: Observation, before: GuardState)
    requires c.Valid() && Known(c, s, o.slot)
    ensures PublishesRight(MapObservation(c, s, o, before))
  {
    hide Startup.Valid, Table, StepSlot, EnvelopeOf, EmitTransition;
    var u := StepRoute(c, s, o.slot, ObserveOp(o));
    var t := EmitTransition(c, u, before, o.monotonicNs);
    assert t == u.(nextSequence := t.nextSequence, pending := t.pending);
  }

  lemma EnrichedSlot(c: Startup, s: Guard, o: Observation)
    ensures Enriched(c, s, o).slot == o.slot
  {
  }

  lemma SkewPublishes(c: Startup, s: Guard, o: Observation, before: GuardState)
    requires c.Valid() && Known(c, s, o.slot) && c.GazeboRequired()
    ensures PublishesRight(GateSkew(c, s, o, before))
  {
    hide Startup.Valid, Table, MapObservation, SignedDifference, Magnitude, SkewFailure, PublishesRight, Enriched;
    ModeIs(c);
    EnrichedSlot(c, s, o);
    var enriched := Enriched(c, s, o);
    var skew := SignedDifference(o.rawNs, s.lastGazeboStampNs);
    MappedWhenAllowed(c, s, enriched, before);
    MappedWhenAllowed(c, WithSkew(s, skew), enriched.(gazeboSkewNs := skew), before);
    SkewFailureIsUnpublished(c, WithSkew(s, skew), enriched.(gazeboSkewNs := skew), before);
  }

  lemma SkewFailureIsUnpublished(c: Startup, s: Guard, o: Observation, before: GuardState)
    requires c.Valid() && Known(c, s, o.slot)
    ensures PublishesRight(SkewFailure(c, s, o, before))
  {
    hide Startup.Valid, Table, StepRoute, EmitTransition, RouteConfig;
  }

  lemma GatePublishes(c: Startup, s: Guard, o: Observation, before: GuardState)
    requires c.Valid() && Known(c, s, o.slot)
    ensures PublishesRight(GateGazebo(c, s, o, before))
  {
    hide Startup.Valid, Table, MapObservation, GateSkew, GazeboAge, DeadlineExceeded, Failing, AuthorityEnvelope;
    if !c.GazeboRequired() {
      MappedWhenAllowed(c, s, o, before);
    } else {
      var (s1, check) := GazeboAge(c, s, o.monotonicNs);
      if check != Fresh {
        var s2 := if check == Hopeless || DeadlineExceeded(c, s1)
                  then Failing(c, s1, check == Hopeless, before, o.monotonicNs) else s1;
        RefusedIsUnpublished(c, s2, o);
      } else if !s1.status.healthy {
        RefusedIsUnpublished(c, s1, o);
      } else {
        SkewPublishes(c, s1, o, before);
      }
    }
  }
}
