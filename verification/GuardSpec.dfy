// What the Session clock guard does, on values: every public operation as a
// function from state to state (src/core/session_clock_guard.cpp:60-772).
module GuardSpec {
  import opened Numbers
  import opened Types
  import opened Policy
  import opened MapperSpec

  // The constructor's arguments; immutable for the life of a guard.
  datatype Startup = Startup(config: FrozenConfig, epoch: u64, monotonicNs: u64, systemWallNs: u64)
  {
    ghost predicate Valid() {
      ConfigValid(config) && epoch != 0 && monotonicNs != 0 && systemWallNs != 0
    }
    predicate StationRequired() { config.authority == StationWallMonotonic }
    predicate GazeboRequired() { config.runMode != Physical }
  }

  datatype AuthorityStatus = AuthorityStatus(
    authority: SessionTimeAuthority,
    mapping: ClockMapping,
    state: GuardState,
    healthy: bool,
    gazeboRequired: bool,
    gazeboReady: bool,
    epoch: u64,
    sessionNowNs: u64,
    lastAuthorityMonotonicNs: u64,
    ageNs: u64,
    lastGazeboStampNs: u64,
    lastSkewNs: i64,
    wallErrorNs: i64,
    wallStepNs: i64,
    realTimeFactor: real,
    consecutiveFailures: u32,
    recoverySamples: u32)

  datatype Guard = Guard(
    stationHealthy: bool,
    gazeboHealthy: bool,
    haveGazeboClock: bool,
    haveGazeboRate: bool,
    lastGazeboStampNs: u64,
    lastGazeboMonotonicNs: u64,
    lastWallErrorNs: i64,
    authorityState: GuardState,
    authorityFailures: u32,
    authorityRecovery: u32,
    status: AuthorityStatus,
    nextSequence: u64,
    pending: seq<GuardEvent>,
    routes: map<string, MapperState>)

  datatype GuardOp =
    | GazeboClockOp(clock: GazeboObservation)
    | RouteOp(observation: Observation)
    | GuardPollOp(monotonicNs: u64, systemWallNs: u64)
    | FailEpochFenceOp(monotonicNs: u64)
    | TakeEventsOp

  // When an operation happens; taking the events happens at no time.
  function TimeOf(op: GuardOp): u64
    requires op != TakeEventsOp
  {
    match op
    case GazeboClockOp(o) => o.monotonicNs
    case RouteOp(o) => o.monotonicNs
    case GuardPollOp(m, _) => m
    case FailEpochFenceOp(m) => m
  }

  // ---- route table ----

  function RouteTable(routes: seq<Route>): map<string, Route> {
    map i | 0 <= i < |routes| && (forall j :: 0 <= j < i ==> routes[j].slot != routes[i].slot)
        :: routes[i].slot := routes[i]
  }

  function Table(c: Startup): map<string, Route> { RouteTable(c.config.routes) }

  function RouteConfig(c: Startup, r: Route): MapperConfig {
    MapperConfig(r, c.config.thresholds, c.config.mapping)
  }

  lemma RouteConfigIsValid(c: Startup, r: Route)
    requires c.Valid()
    ensures MapperConfigValid(RouteConfig(c, r))
  {
  }

  // ---- session time and the aggregate ----

  // W0 + (M - M0), with the immutable anchors.
  function StationTime(c: Startup, monotonicNs: u64): u64 {
    if monotonicNs < c.monotonicNs then 0
    else SaturatingAdd(c.systemWallNs, monotonicNs - c.monotonicNs)
  }

  function SessionNow(c: Startup, s: Guard, monotonicNs: u64): u64 {
    if c.config.authority == GazeboSimulation then s.lastGazeboStampNs
    else StationTime(c, monotonicNs)
  }

  predicate SomeRoute(routes: map<string, MapperState>, state: GuardState) {
    exists k :: k in routes && routes[k].status.state == state
  }

  function Aggregate(s: Guard): GuardState {
    if SomeRoute(s.routes, Lost) || s.authorityState == Lost then Lost
    else if SomeRoute(s.routes, Degraded) || s.authorityState == Degraded then Degraded
    else if SomeRoute(s.routes, Initializing) || s.authorityState == Initializing || !s.status.healthy
    then Initializing
    else Locked
  }

  predicate SensitiveOutputAllowed(s: Guard) {
    s.status.healthy && Aggregate(s) == Locked
  }

  function LockedRouteCount(s: Guard): nat {
    |set k | k in s.routes && s.routes[k].status.state == Locked|
  }

  // ---- events ----

  function EventAt(c: Startup, s: Guard, kind: GuardEventKind, state: GuardState, monotonicNs: u64): GuardEvent {
    GuardEvent(s.nextSequence, kind, state, c.epoch, monotonicNs, SessionNow(c, s, monotonicNs),
               s.status.ageNs, s.status.lastGazeboStampNs, s.status.lastSkewNs,
               s.status.wallErrorNs, s.status.wallStepNs, s.status.realTimeFactor)
  }

  function Emit(c: Startup, s: Guard, kind: GuardEventKind, state: GuardState, monotonicNs: u64): Guard {
    s.(nextSequence := (s.nextSequence + 1) % (U64_MAX + 1),
       pending := s.pending + [EventAt(c, s, kind, state, monotonicNs)])
  }

  function EmitTransition(c: Startup, s: Guard, before: GuardState, monotonicNs: u64): (t: Guard)
    ensures t == s.(nextSequence := t.nextSequence, pending := t.pending)
  {
    var after := Aggregate(s);
    if after == before then s
    else
      match after
      case Locked => Emit(c, s, LockedEvent, after, monotonicNs)
      case Degraded => Emit(c, s, DegradedEvent, after, monotonicNs)
      case Lost => Emit(c, s, LostEvent, after, monotonicNs)
      case Initializing => s
  }

  // ---- the authority machine ----

  function Refresh(c: Startup, s: Guard): Guard {
    var ready := s.haveGazeboClock && (c.config.runMode != Hybrid || s.haveGazeboRate);
    s.(status := s.status.(
         gazeboReady := ready,
         state := s.authorityState,
         consecutiveFailures := s.authorityFailures,
         recoverySamples := s.authorityRecovery,
         healthy :=
           && s.authorityState == Locked
           && (!c.StationRequired() || s.stationHealthy)
           && (!s.status.gazeboRequired || (s.gazeboHealthy && ready))))
  }

  // The wall reading's diagnostics; whether it passes the frozen thresholds.
  function StationReading(c: Startup, s: Guard, monotonicNs: u64, systemWallNs: u64): Guard {
    var now := SessionNow(c, s, monotonicNs);
    var wallError := SignedDifference(systemWallNs, now);
    s.(lastWallErrorNs := wallError,
       status := s.status.(
         sessionNowNs := now,
         lastAuthorityMonotonicNs := monotonicNs,
         ageNs := 0,
         wallErrorNs := wallError,
         wallStepNs := ClampedDifference(wallError, s.lastWallErrorNs)))
  }

  predicate StationPasses(c: Startup, s: Guard)
    requires StationFieldsPresent(c.config.thresholds)
  {
    && Magnitude(s.status.wallErrorNs) <= c.config.thresholds.maxStationWallErrorNs.value
    && Magnitude(s.status.wallStepNs) <= c.config.thresholds.maxStationWallStepNs.value
  }

  function ValidateStation(c: Startup, s: Guard, monotonicNs: u64, systemWallNs: u64): (r: (Guard, bool))
    requires StationFieldsPresent(c.config.thresholds)
    ensures r.0.routes == s.routes
  {
    if monotonicNs == 0 || systemWallNs == 0 || monotonicNs < c.monotonicNs then
      (Refresh(c, s.(stationHealthy := false)), false)
    else
      var r := StationReading(c, s, monotonicNs, systemWallNs);
      (Refresh(c, r.(stationHealthy := StationPasses(c, r))), StationPasses(c, r))
  }

  datatype AgeCheck = Fresh | Stale | Hopeless

  // Fresh: usable. Stale: not usable now. Hopeless: an immediate loss.
  function GazeboAge(c: Startup, s: Guard, monotonicNs: u64): (r: (Guard, AgeCheck))
    ensures r.0.routes == s.routes
  {
    if !c.GazeboRequired() then (s, Fresh)
    else if monotonicNs == 0 || monotonicNs < c.monotonicNs
            || (s.haveGazeboClock && monotonicNs < s.lastGazeboMonotonicNs) then (s, Hopeless)
    else if s.authorityState == Lost then (s, Stale)
    else
      var reference := if s.haveGazeboClock then s.lastGazeboMonotonicNs else c.monotonicNs;
      var aged := s.(status := s.status.(ageNs := monotonicNs - reference));
      if !s.haveGazeboClock then
        (aged, if aged.status.ageNs > c.config.thresholds.startupLockTimeoutNs then Hopeless else Stale)
      else if aged.status.ageNs > c.config.thresholds.maxAuthorityAgeNs then (aged, Stale)
      else if c.config.runMode == Hybrid && !s.haveGazeboRate then (aged, Stale)
      else (aged, Fresh)
  }

  predicate DeadlineExceeded(c: Startup, s: Guard) {
    s.haveGazeboClock && s.status.ageNs > c.config.thresholds.maxAuthorityAgeNs
  }

  // One mapper operation on the route of a slot.
  ghost function StepSlot(c: Startup, slot: string, st: MapperState, op: MapperOp): MapperState
    requires c.Valid() && slot in Table(c)
  {
    RouteConfigIsValid(c, Table(c)[slot]);
    Step(RouteConfig(c, Table(c)[slot]), st, op)
  }

  predicate Known(c: Startup, s: Guard, slot: string) { slot in Table(c) && slot in s.routes }

  ghost function FailRoutes(c: Startup, routes: map<string, MapperState>, immediate: bool): (r: map<string, MapperState>)
    requires c.Valid()
    ensures r.Keys == routes.Keys * Table(c).Keys
  {
    map k | k in routes && k in Table(c) :: StepSlot(c, k, routes[k], AuthorityFailureOp(immediate))
  }

  // A failed authority vouches for neither clock any longer.
  function MarkedUnhealthy(c: Startup, s: Guard): Guard {
    s.(stationHealthy := s.stationHealthy && !c.StationRequired(),
       gazeboHealthy := s.gazeboHealthy && !s.status.gazeboRequired)
  }

  // The failure count, and the state it leads to.
  function FailureCounted(c: Startup, s: Guard, immediate: bool): Guard {
    if s.authorityState == Lost then s
    else
      var failures := SaturatingIncrement(s.authorityFailures);
      s.(authorityFailures := failures,
         authorityRecovery := 0,
         authorityState := if immediate || failures >= c.config.thresholds.lostAfterFailures then Lost else Degraded)
  }

  function AuthorityFailed(c: Startup, s: Guard, immediate: bool): Guard {
    FailureCounted(c, MarkedUnhealthy(c, s), immediate)
  }

  ghost function FailAuthority(c: Startup, s: Guard, immediate: bool): (t: Guard)
    requires c.Valid()
    ensures t.routes.Keys == s.routes.Keys * Table(c).Keys
  {
    Refresh(c, AuthorityFailed(c, s, immediate)).(routes := FailRoutes(c, s.routes, immediate))
  }

  // A healthy reading ends the failure run, and locks the authority at once
  // from its initial state or after enough of them when it is degraded.
  function Recovered(c: Startup, s: Guard): Guard {
    if s.authorityState == Lost then s
    else
      var t := s.(authorityFailures := 0);
      if s.authorityState == Initializing then t.(authorityState := Locked, authorityRecovery := 0)
      else if s.authorityState == Degraded then
        var recovery := SaturatingIncrement(s.authorityRecovery);
        if recovery >= c.config.thresholds.recoverLockSamples then t.(authorityState := Locked, authorityRecovery := 0)
        else t.(authorityRecovery := recovery)
      else t
  }

  function RecordHealthy(c: Startup, s: Guard): Guard {
    Refresh(c, Recovered(c, s))
  }

  // ---- public operations ----
  // `before` is the aggregate state at the start of the call.

  ghost function Failing(c: Startup, s: Guard, immediate: bool, before: GuardState, monotonicNs: u64): (t: Guard)
    requires c.Valid()
    ensures t.routes.Keys == s.routes.Keys * Table(c).Keys
  {
    EmitTransition(c, FailAuthority(c, s, immediate), before, monotonicNs)
  }

  // The receipt itself is unusable: no steady progress, or the first positive
  // clock is overdue.
  predicate ReceiptFails(c: Startup, s: Guard, o: GazeboObservation) {
    || o.monotonicNs == 0
    || o.monotonicNs < c.monotonicNs
    || (s.haveGazeboClock && o.monotonicNs <= s.lastGazeboMonotonicNs)
    || (!s.haveGazeboClock && o.monotonicNs - c.monotonicNs > c.config.thresholds.startupLockTimeoutNs)
  }

  function RealTimeFactor(s: Guard, o: GazeboObservation): real
    requires s.haveGazeboClock && s.lastGazeboStampNs <= o.stampNs && s.lastGazeboMonotonicNs < o.monotonicNs
  {
    (o.stampNs - s.lastGazeboStampNs) as real / (o.monotonicNs - s.lastGazeboMonotonicNs) as real
  }

  predicate RateFails(c: Startup, factor: real)
    requires RateFieldsPresent(c.config.thresholds)
  {
    factor < c.config.thresholds.minGazeboRealTimeFactor.value
    || factor > c.config.thresholds.maxGazeboRealTimeFactor.value
  }

  // The guard remembers an admitted clock.
  function ClockRemembered(c: Startup, s: Guard, o: GazeboObservation, haveRate: bool): Guard {
    s.(haveGazeboClock := true,
       haveGazeboRate := haveRate,
       lastGazeboStampNs := o.stampNs,
       lastGazeboMonotonicNs := o.monotonicNs,
       gazeboHealthy := c.config.runMode == Simulation || haveRate)
  }

  function ClockReported(c: Startup, s: Guard, o: GazeboObservation, factor: real): Guard {
    s.(status := s.status.(
         lastGazeboStampNs := o.stampNs,
         lastAuthorityMonotonicNs := o.monotonicNs,
         ageNs := 0,
         sessionNowNs := if c.config.runMode == Simulation then o.stampNs else SessionNow(c, s, o.monotonicNs),
         realTimeFactor := factor))
  }

  function ClockTaken(c: Startup, s: Guard, o: GazeboObservation, factor: real, haveRate: bool): Guard {
    ClockReported(c, ClockRemembered(c, s, o, haveRate), o, factor)
  }

  function AcceptClock(c: Startup, s: Guard, o: GazeboObservation, factor: real, haveRate: bool): Guard {
    var t := ClockTaken(c, s, o, factor, haveRate);
    if t.gazeboHealthy then RecordHealthy(c, t) else Refresh(c, t)
  }

  // A usable receipt's stamp: lineage, progress and rate.
  ghost function AdmitStamp(c: Startup, s: Guard, o: GazeboObservation, before: GuardState): (Guard, bool)
    requires c.Valid() && !ReceiptFails(c, s, o)
  {
    if o.stampNs == 0 then
      if !s.haveGazeboClock then (Refresh(c, s), false)
      else (Failing(c, s, true, before, o.monotonicNs), false)
    else if !s.haveGazeboClock then
      (EmitTransition(c, AcceptClock(c, s, o, 0.0, s.haveGazeboRate), before, o.monotonicNs), true)
    else if o.stampNs < s.lastGazeboStampNs then (Failing(c, s, true, before, o.monotonicNs), false)
    else if o.stampNs == s.lastGazeboStampNs then (Failing(c, s, false, before, o.monotonicNs), false)
    else if c.config.runMode == Hybrid then
      var factor := RealTimeFactor(s, o);
      var measured := s.(status := s.status.(realTimeFactor := factor));
      if RateFails(c, factor) then (Failing(c, measured, false, before, o.monotonicNs), false)
      else (EmitTransition(c, AcceptClock(c, measured, o, factor, true), before, o.monotonicNs), true)
    else
      (EmitTransition(c, AcceptClock(c, s, o, 0.0, s.haveGazeboRate), before, o.monotonicNs), true)
  }

  // The stretch after station validation: the receipt, then its stamp.
  ghost function AdmitClock(c: Startup, s: Guard, o: GazeboObservation, before: GuardState): (Guard, bool)
    requires c.Valid()
  {
    if ReceiptFails(c, s, o) then (Failing(c, s, true, before, o.monotonicNs), false)
    else AdmitStamp(c, s, o, before)
  }

  ghost function ObserveGazebo(c: Startup, s: Guard, o: GazeboObservation): (Guard, bool)
    requires c.Valid()
  {
    var before := Aggregate(s);
    if !c.GazeboRequired() then (s, false)
    else if c.config.runMode == Hybrid then
      var (s1, stationOk) := ValidateStation(c, s, o.monotonicNs, o.systemWallNs);
      if !stationOk then (Failing(c, s1, true, before, o.monotonicNs), false)
      else AdmitClock(c, s1, o, before)
    else AdmitClock(c, s, o, before)
  }

  function UnknownSlotEnvelope(c: Startup, o: Observation): TimestampEnvelope {
    TimestampEnvelope(o.slot, o.sourceBody, "", o.sourceDomain, o.stream, c.epoch, o.rawNs, 0, o.monotonicNs,
                      0, 0, 0, 0.0, 0, 0, Lost, false, false)
  }

  // The envelope of an observation refused because of the authority.
  function AuthorityEnvelope(c: Startup, s: Guard, o: Observation): TimestampEnvelope
    requires Known(c, s, o.slot)
  {
    var enriched := o.(authorityAgeNs := s.status.ageNs,
                       gazeboStampNs := s.lastGazeboStampNs,
                       gazeboSkewNs := s.status.lastSkewNs);
    MakeEnvelope(RouteConfig(c, Table(c)[o.slot]), s.routes[o.slot], enriched, false)
  }

  ghost function StepRoute(c: Startup, s: Guard, slot: string, op: MapperOp): (t: Guard)
    requires c.Valid() && Known(c, s, slot)
    ensures t.routes.Keys == s.routes.Keys
  {
    s.(routes := s.routes[slot := StepSlot(c, slot, s.routes[slot], op)])
  }

  // The last stretch of an observation: the route's own mapper decides.
  ghost function MapObservation(c: Startup, s: Guard, o: Observation, before: GuardState): (Guard, TimestampEnvelope)
    requires c.Valid() && Known(c, s, o.slot)
  {
    RouteConfigIsValid(c, Table(c)[o.slot]);
    var t := StepRoute(c, s, o.slot, ObserveOp(o));
    var e := EnvelopeOf(RouteConfig(c, Table(c)[o.slot]), s.routes[o.slot], o);
    (EmitTransition(c, t, before, o.monotonicNs),
     e.(canonicalPublishAllowed := e.accepted && SensitiveOutputAllowed(t)))
  }

  // The observation with what the Gazebo authority contributes.
  function Enriched(c: Startup, s: Guard, o: Observation): Observation {
    o.(gazeboStampNs := s.lastGazeboStampNs,
       authorityAgeNs := s.status.ageNs,
       sessionNs := if c.config.runMode == Simulation then s.lastGazeboStampNs else o.sessionNs)
  }

  function WithSkew(s: Guard, skew: i64): Guard {
    s.(status := s.status.(lastSkewNs := skew))
  }

  ghost function SkewFailure(c: Startup, s: Guard, o: Observation, before: GuardState): (Guard, TimestampEnvelope)
    requires c.Valid() && Known(c, s, o.slot)
  {
    var t := StepRoute(c, s, o.slot, AuthorityFailureOp(false));
    (EmitTransition(c, t, before, o.monotonicNs),
     MakeEnvelope(RouteConfig(c, Table(c)[o.slot]), t.routes[o.slot], o, false))
  }

  // The stretch between authority freshness and the mapper: skew of
  // simulation-domain stamps against the latest admitted Gazebo clock.
  ghost function GateSkew(c: Startup, s: Guard, o: Observation, before: GuardState): (Guard, TimestampEnvelope)
    requires c.Valid() && Known(c, s, o.slot) && c.GazeboRequired()
  {
    var enriched := Enriched(c, s, o);
    if Table(c)[o.slot].sourceDomain != SimulationSource then MapObservation(c, s, enriched, before)
    else
      var skew := SignedDifference(o.rawNs, s.lastGazeboStampNs);
      var skewed := enriched.(gazeboSkewNs := skew);
      if Magnitude(skew) > c.config.thresholds.maxGazeboClockSkewNs.value
      then SkewFailure(c, WithSkew(s, skew), skewed, before)
      else MapObservation(c, WithSkew(s, skew), skewed, before)
  }

  ghost function GateGazebo(c: Startup, s: Guard, o: Observation, before: GuardState): (Guard, TimestampEnvelope)
    requires c.Valid() && Known(c, s, o.slot)
  {
    if !c.GazeboRequired() then MapObservation(c, s, o, before)
    else
      var (s1, check) := GazeboAge(c, s, o.monotonicNs);
      if check != Fresh then
        var s2 := if check == Hopeless || DeadlineExceeded(c, s1)
                  then Failing(c, s1, check == Hopeless, before, o.monotonicNs) else s1;
        (s2, AuthorityEnvelope(c, s2, o))
      else if !s1.status.healthy then (s1, AuthorityEnvelope(c, s1, o))
      else GateSkew(c, s1, o, before)
  }

  // The observation without the fields the guard fills itself.
  function Cleared(o: Observation): Observation {
    o.(sessionNs := 0, gazeboStampNs := 0, authorityAgeNs := 0, gazeboSkewNs := 0)
  }

  ghost function ObserveRoute(c: Startup, s: Guard, o: Observation): (Guard, TimestampEnvelope)
    requires c.Valid()
  {
    if !Known(c, s, o.slot) then (s, UnknownSlotEnvelope(c, o))
    else
      var before := Aggregate(s);
      var cleared := Cleared(o);
      if !c.StationRequired() then GateGazebo(c, s, cleared, before)
      else
        var (s1, ok) := ValidateStation(c, s, o.monotonicNs, o.systemWallNs);
        if !ok then
          var s2 := Failing(c, s1, true, before, o.monotonicNs);
          (s2, AuthorityEnvelope(c, s2, cleared))
        else GateGazebo(c, s1, cleared.(sessionNs := SessionNow(c, s1, o.monotonicNs)), before)
  }

  ghost function PollRoutes(c: Startup, routes: map<string, MapperState>, nowNs: u64): (r: map<string, MapperState>)
    requires c.Valid()
    ensures r.Keys == routes.Keys * Table(c).Keys
  {
    map k | k in routes && k in Table(c) :: StepSlot(c, k, routes[k], PollOp(nowNs))
  }

  // The stretch of a poll after the freshness of the authority.
  ghost function PollCompleted(c: Startup, s: Guard, before: GuardState, monotonicNs: u64): Guard
    requires c.Valid()
  {
    var t := s.(routes := PollRoutes(c, s.routes, monotonicNs),
                status := s.status.(sessionNowNs := SessionNow(c, s, monotonicNs)));
    EmitTransition(c, t, before, monotonicNs)
  }

  // The stretch of a poll after station validation.
  ghost function PollFreshness(c: Startup, s: Guard, before: GuardState, monotonicNs: u64): Guard
    requires c.Valid()
  {
    var (s1, check) := GazeboAge(c, s, monotonicNs);
    if check != Fresh then
      if check == Hopeless || DeadlineExceeded(c, s1)
      then Failing(c, s1, check == Hopeless, before, monotonicNs) else s1
    else PollCompleted(c, s1, before, monotonicNs)
  }

  ghost function Poll(c: Startup, s: Guard, monotonicNs: u64, systemWallNs: u64): Guard
    requires c.Valid()
  {
    var before := Aggregate(s);
    if !c.StationRequired() then PollFreshness(c, s, before, monotonicNs)
    else
      var (s1, ok) := ValidateStation(c, s, monotonicNs, systemWallNs);
      if !ok then Failing(c, s1, true, before, monotonicNs)
      else PollFreshness(c, s1, before, monotonicNs)
  }

  ghost function FailEpochFence(c: Startup, s: Guard, monotonicNs: u64): Guard
    requires c.Valid()
  {
    Failing(c, s, true, Aggregate(s), monotonicNs)
  }

  ghost function Apply(c: Startup, s: Guard, op: GuardOp): Guard
    requires c.Valid()
  {
    match op
    case GazeboClockOp(o) => ObserveGazebo(c, s, o).0
    case RouteOp(o) => ObserveRoute(c, s, o).0
    case GuardPollOp(m, w) => Poll(c, s, m, w)
    case FailEpochFenceOp(m) => FailEpochFence(c, s, m)
    case TakeEventsOp => s.(pending := [])
  }

  // ---- construction ----

  function InitialStatus(c: Startup): AuthorityStatus {
    AuthorityStatus(
      c.config.authority, c.config.mapping,
      if c.config.runMode == Physical then Locked else Initializing,
      false, c.GazeboRequired(), false, c.epoch,
      if c.StationRequired() then c.systemWallNs else 0,
      if c.config.runMode == Physical then c.monotonicNs else 0,
      0, 0, 0, 0, 0, 0.0, 0, 0)
  }

  function InitialAuthority(c: Startup): Guard {
    Guard(c.StationRequired(), false, false, false, 0, 0, 0,
          if c.config.runMode == Physical then Locked else Initializing,
          0, 0, InitialStatus(c), 1, [],
          map k | k in Table(c) :: Started(RouteConfig(c, Table(c)[k]), c.epoch, c.monotonicNs))
  }

  function Initial(c: Startup): Guard {
    var s := Emit(c, Refresh(c, InitialAuthority(c)), NewEpochEvent, Initializing, c.monotonicNs);
    if Aggregate(s) == Locked then Emit(c, s, LockedEvent, Locked, c.monotonicNs) else s
  }

  // ---- runs ----

  ghost function After(c: Startup, ops: seq<GuardOp>): Guard
    requires c.Valid()
  {
    if ops == [] then Initial(c)
    else Apply(c, After(c, ops[..|ops| - 1]), ops[|ops| - 1])
  }

  // Everything a caller has drained so far.
  ghost function Drained(c: Startup, ops: seq<GuardOp>): seq<GuardEvent>
    requires c.Valid()
  {
    if ops == [] then []
    else
      var front := ops[..|ops| - 1];
      Drained(c, front) + if ops[|ops| - 1] == TakeEventsOp then After(c, front).pending else []
  }

  // The event log as its consumer sees it: the drains in order, then what is
  // still pending.
  ghost function Log(c: Startup, ops: seq<GuardOp>): seq<GuardEvent>
    requires c.Valid()
  {
    Drained(c, ops) + After(c, ops).pending
  }
}
