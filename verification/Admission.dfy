// The admission side: what a consumer rechecks from published diagnostics
// (src/core/healthcheck.cpp:24-103) and what the node publishes of a guard
// (src/ros/session_clock_guard_node.cpp:311-350). The two agree in every
// reachable state.
module Admission {
  import opened Numbers
  import opened Types
  import opened Policy
  import opened GuardSpec
  import opened GuardInvariant
  import opened GuardCalls
  import opened GuardRuns

  datatype Evidence = Evidence(
    sessionId: string,
    sessionContractSha256: string,
    policySha256: string,
    runMode: string,
    authority: string,
    mapping: string,
    statusSequence: u64,
    epoch: u64,
    state: GuardState,
    authorityState: GuardState,
    authorityHealthy: bool,
    sensitiveOutputAllowed: bool,
    gazeboRequired: bool,
    gazeboReady: bool,
    gazeboTopic: string,
    authorityAgeNs: u64,
    lastGazeboStampNs: u64,
    lastGazeboSkewNs: i64,
    wallErrorNs: i64,
    wallStepNs: i64,
    realTimeFactor: real,
    requiredRoutes: u32,
    lockedRoutes: u32,
    wireResolutionNs: u64,
    measurementDelayEnabled: bool,
    delayTimestampPolicy: string)

  // Why evidence is refused, in the order of the checks.
  datatype Refusal =
    | SessionMismatch
    | ContractMismatch
    | PolicyMismatch
    | ModeMismatch
    | EpochMismatch
    | ZeroSequence
    | NotLocked
    | RouteCountMismatch
    | AuthorityTooOld
    | GazeboDiagnostics
    | StationDiagnostics
    | RateDiagnostics
    | TimingMismatch

  function ValidateLockedAdmission(e: Evidence, config: FrozenConfig, expectedEpoch: u64): (r: Option<Refusal>)
    requires ModeClockPolicyValid(config)
    ensures r.None? ==> e.state == Locked && e.authorityState == Locked && e.authorityHealthy && e.sensitiveOutputAllowed
  {
    var p := config.thresholds;
    if e.sessionId != config.sessionId then Some(SessionMismatch)
    else if e.sessionContractSha256 != config.sessionContractSha256 then Some(ContractMismatch)
    else if e.policySha256 != config.policySha256 then Some(PolicyMismatch)
    else if e.runMode != RunModeText(config.runMode) || e.authority != AuthorityText(config.authority)
            || e.mapping != MappingText(config.mapping) then Some(ModeMismatch)
    else if e.epoch != expectedEpoch then Some(EpochMismatch)
    else if e.statusSequence == 0 then Some(ZeroSequence)
    else if e.state != Locked || e.authorityState != Locked || !e.authorityHealthy || !e.sensitiveOutputAllowed
    then Some(NotLocked)
    else if e.requiredRoutes != |config.routes| || e.lockedRoutes != |config.routes| then Some(RouteCountMismatch)
    else if e.authorityAgeNs > p.maxAuthorityAgeNs then Some(AuthorityTooOld)
    else if GazeboUnacceptable(e, config) then Some(GazeboDiagnostics)
    else if StationUnacceptable(e, config) then Some(StationDiagnostics)
    else if RateUnacceptable(e, config) then Some(RateDiagnostics)
    else if e.wireResolutionNs != config.wireResolutionNs || e.measurementDelayEnabled != config.measurementDelayEnabled
            || e.delayTimestampPolicy != config.delayTimestampPolicy then Some(TimingMismatch)
    else None
  }

  predicate GazeboUnacceptable(e: Evidence, config: FrozenConfig)
    requires ModeClockPolicyValid(config)
  {
    if config.runMode == Simulation || config.runMode == Hybrid then
      || !e.gazeboRequired || !e.gazeboReady
      || e.gazeboTopic != GazeboClockTopic(config.runMode)
      || e.lastGazeboStampNs == 0
      || Magnitude(e.lastGazeboSkewNs) > config.thresholds.maxGazeboClockSkewNs.value
    else
      e.gazeboRequired || e.gazeboReady || e.gazeboTopic != "" || e.lastGazeboStampNs != 0 || e.lastGazeboSkewNs != 0
  }

  predicate StationUnacceptable(e: Evidence, config: FrozenConfig)
    requires ModeClockPolicyValid(config)
  {
    if config.runMode == Physical || config.runMode == Hybrid then
      || Magnitude(e.wallErrorNs) > config.thresholds.maxStationWallErrorNs.value
      || Magnitude(e.wallStepNs) > config.thresholds.maxStationWallStepNs.value
    else
      e.wallErrorNs != 0 || e.wallStepNs != 0
  }

  predicate RateUnacceptable(e: Evidence, config: FrozenConfig)
    requires ModeClockPolicyValid(config)
  {
    if config.runMode == Hybrid then
      || e.realTimeFactor < config.thresholds.minGazeboRealTimeFactor.value
      || e.realTimeFactor > config.thresholds.maxGazeboRealTimeFactor.value
    else
      e.realTimeFactor != 0.0
  }

  // A count as it fits the 32-bit field of the status message.
  function Truncated(count: nat): u32 { count % (U32_MAX + 1) }

  // What the node publishes of a guard.
  function Published(c: Startup, s: Guard, statusSequence: u64): Evidence {
    Evidence(
      c.config.sessionId, c.config.sessionContractSha256, c.config.policySha256,
      RunModeText(c.config.runMode), AuthorityText(s.status.authority), MappingText(s.status.mapping),
      statusSequence, c.epoch, Aggregate(s), s.status.state, s.status.healthy, SensitiveOutputAllowed(s),
      s.status.gazeboRequired, s.status.gazeboReady, GazeboClockTopic(c.config.runMode),
      s.status.ageNs, s.status.lastGazeboStampNs, s.status.lastSkewNs, s.status.wallErrorNs, s.status.wallStepNs,
      s.status.realTimeFactor, Truncated(|c.config.routes|), Truncated(LockedRouteCount(s)),
      c.config.wireResolutionNs, c.config.measurementDelayEnabled, c.config.delayTimestampPolicy)
  }

  // ---- counting routes ----

  // The slots of a valid table are as many as its routes.
  lemma {:induction false} SlotsCounted(routes: seq<Route>)
    requires forall i, j :: 0 <= i < j < |routes| ==> RoutesApart(routes[i], routes[j])
    ensures |set i | 0 <= i < |routes| :: routes[i].slot| == |routes|
  {
    if routes != [] {
      var front, last := routes[..|routes| - 1], routes[|routes| - 1];
      SlotsCounted(front);
      var slots := set i | 0 <= i < |routes| :: routes[i].slot;
      var frontSlots := set i | 0 <= i < |front| :: front[i].slot;
      forall i | 0 <= i < |front| ensures front[i].slot != last.slot {
        assert RoutesApart(routes[i], routes[|routes| - 1]);
      }
      assert slots == frontSlots + {last.slot} by {
        assert forall i :: 0 <= i < |front| ==> routes[i] == front[i];
        assert routes[|routes| - 1] == last;
      }
    }
  }

  lemma TableSlots(routes: seq<Route>)
    requires forall i, j :: 0 <= i < j < |routes| ==> RoutesApart(routes[i], routes[j])
    ensures RouteTable(routes).Keys == set i | 0 <= i < |routes| :: routes[i].slot
  {
    forall k | 0 <= k < |routes| ensures routes[k].slot in RouteTable(routes) {
      assert forall j :: 0 <= j < k ==> RoutesApart(routes[j], routes[k]);
    }
  }

  lemma RoutesAreApart(c: Startup)
    requires c.Valid()
    ensures forall i, j :: 0 <= i < j < |c.config.routes| ==> RoutesApart(c.config.routes[i], c.config.routes[j])
  {
    hide RouteLegal, RoutesApart, ThresholdPolicyValid, ModeClockPolicyValid, SourceTimingValid, HasDomain;
  }

  // A locked guard counts as many locked routes as the policy freezes.
  lemma LockedCountsAll(c: Startup, s: Guard)
    requires c.Valid() && Inv(c, s) && Aggregate(s) == Locked
    ensures LockedRouteCount(s) == |c.config.routes|
  {
    assert s.routes.Keys == Table(c).Keys by { hide Startup.Valid, Settled, RouteTable; }
    hide Startup.Valid, Aggregate, Inv, RouteTable, RoutesApart;
    RoutesAreApart(c);
    LockedAggregate(c, s);
    TableSlots(c.config.routes);
    SlotsCounted(c.config.routes);
    assert (set k | k in s.routes && s.routes[k].status.state == Locked) == s.routes.Keys;
  }

  // ---- agreement ----

  // A locked guard's diagnostics are within everything the consumer checks.
  lemma LockedDiagnostics(c: Startup, s: Guard, sequence: u64)
    requires c.Valid() && Inv(c, s) && Aggregate(s) == Locked
    ensures var e := Published(c, s, sequence);
            && ModeClockPolicyValid(c.config)
            && s.status.state == Locked && s.status.healthy
            && e.authorityAgeNs <= c.config.thresholds.maxAuthorityAgeNs
            && !GazeboUnacceptable(e, c.config) && !StationUnacceptable(e, c.config) && !RateUnacceptable(e, c.config)
  {
    LockedAggregate(c, s);
    LockedSkew(c, s);
    ModeFacts(c);
    hide ThresholdPolicyValid, RoutesValid, SourceTimingValid, Aggregate, RoutesSound, SimulationRouteOpen, AllLost,
         LockedRouteCount;
  }

  lemma LockedSkew(c: Startup, s: Guard)
    requires c.Valid() && Inv(c, s) && Aggregate(s) == Locked
    ensures c.GazeboRequired() ==> SkewWithin(c, s.status.lastSkewNs)
  {
    hide Startup.Valid, Aggregate, RoutesSound, Settled, SkewWithin;
    LockedAggregate(c, s);
  }

  lemma PublishedIdentity(c: Startup, s: Guard, sequence: u64)
    requires c.Valid() && Inv(c, s)
    ensures var e := Published(c, s, sequence);
            && e.authority == AuthorityText(c.config.authority) && e.mapping == MappingText(c.config.mapping)
            && (e.state == Locked && e.authorityState == Locked && e.authorityHealthy && e.sensitiveOutputAllowed
                <==> Aggregate(s) == Locked)
  {
    assert FrozenStatus(c, s) && Mirrored(c, s) by { hide Startup.Valid, RoutesSound; }
    hide Startup.Valid, Core, Settled, AuthorityText, MappingText, LockedRouteCount;
  }

  // Everything the checks come down to once identity, mode and timing agree.
  lemma AcceptedWhen(e: Evidence, config: FrozenConfig, expectedEpoch: u64)
    requires ModeClockPolicyValid(config)
    requires e.sessionId == config.sessionId && e.sessionContractSha256 == config.sessionContractSha256
    requires e.policySha256 == config.policySha256 && e.runMode == RunModeText(config.runMode)
    requires e.authority == AuthorityText(config.authority) && e.mapping == MappingText(config.mapping)
    requires e.epoch == expectedEpoch && e.wireResolutionNs == config.wireResolutionNs
    requires e.measurementDelayEnabled == config.measurementDelayEnabled
    requires e.delayTimestampPolicy == config.delayTimestampPolicy
    ensures ValidateLockedAdmission(e, config, expectedEpoch).None? <==>
            && e.statusSequence != 0
            && e.state == Locked && e.authorityState == Locked && e.authorityHealthy && e.sensitiveOutputAllowed
            && e.requiredRoutes == |config.routes| && e.lockedRoutes == |config.routes|
            && e.authorityAgeNs <= config.thresholds.maxAuthorityAgeNs
            && !GazeboUnacceptable(e, config) && !StationUnacceptable(e, config) && !RateUnacceptable(e, config)
  {
    hide ModeClockPolicyValid, GazeboUnacceptable, StationUnacceptable, RateUnacceptable, RunModeText, AuthorityText, MappingText;
  }

  lemma WholeAgrees(c: Startup, s: Guard, sequence: u64)
    requires c.Valid() && Inv(c, s) && ModeClockPolicyValid(c.config)
    ensures ValidateLockedAdmission(Published(c, s, sequence), c.config, c.epoch).None?
            <==> Aggregate(s) == Locked && sequence != 0 && |c.config.routes| <= U32_MAX
  {
    hide Startup.Valid, Inv, Aggregate, ModeClockPolicyValid, GazeboUnacceptable, StationUnacceptable, RateUnacceptable,
         LockedRouteCount, SensitiveOutputAllowed, AuthorityText, MappingText, RunModeText, GazeboClockTopic, ValidateLockedAdmission;
    PublishedIdentity(c, s, sequence);
    AcceptedWhen(Published(c, s, sequence), c.config, c.epoch);
    if Aggregate(s) == Locked {
      LockedDiagnostics(c, s, sequence);
      LockedCountsAll(c, s);
    }
  }

  lemma ConfigHasMode(c: Startup)
    requires c.Valid()
    ensures ModeClockPolicyValid(c.config)
  {
    hide ThresholdPolicyValid, RoutesValid, SourceTimingValid, ModeClockPolicyValid;
  }

  // In every reachable state of every mode, the consumer accepts what the node
  // publishes exactly when the guard's aggregate is locked, as long as the
  // status sequence is not zero and the route count fits its 32-bit field; with
  // either of those broken it never accepts.
  lemma AdmissionAgreesWithGuard(c: Startup, ops: seq<GuardOp>, sequence: u64)
    requires c.Valid()
    ensures ModeClockPolicyValid(c.config)
    ensures ValidateLockedAdmission(Published(c, After(c, ops), sequence), c.config, c.epoch).None?
            <==> Aggregate(After(c, ops)) == Locked && sequence != 0 && |c.config.routes| <= U32_MAX
  {
    hide *;
    RunInv(c, ops);
    ConfigHasMode(c);
    WholeAgrees(c, After(c, ops), sequence);
  }

  // ---- any consumer ----

  // The evidence is of this very Session, policy and epoch.
  predicate Identifies(e: Evidence, config: FrozenConfig, expectedEpoch: u64) {
    && e.sessionId == config.sessionId
    && e.sessionContractSha256 == config.sessionContractSha256
    && e.policySha256 == config.policySha256
    && e.runMode == RunModeText(config.runMode)
    && e.authority == AuthorityText(config.authority)
    && e.mapping == MappingText(config.mapping)
    && e.epoch == expectedEpoch
    && e.wireResolutionNs == config.wireResolutionNs
    && e.measurementDelayEnabled == config.measurementDelayEnabled
    && e.delayTimestampPolicy == config.delayTimestampPolicy
  }

  // The diagnostics are those of a guard of this mode within these limits.
  predicate Diagnoses(e: Evidence, mode: RunMode, p: ThresholdPolicy) {
    && e.authorityAgeNs <= p.maxAuthorityAgeNs
    && e.gazeboRequired == e.gazeboReady == (mode != Physical)
    && e.gazeboTopic == GazeboClockTopic(mode)
    && (e.lastGazeboStampNs != 0 <==> mode != Physical)
    && (mode == Physical ==> e.lastGazeboSkewNs == 0)
    && (mode == Simulation ==> e.wallErrorNs == 0 && e.wallStepNs == 0)
    && (mode != Hybrid ==> e.realTimeFactor == 0.0)
    && ReadingsWithin(e.lastGazeboSkewNs, e.wallErrorNs, e.wallStepNs, e.realTimeFactor, mode, p)
  }

  // The readings a mode has are within the limits.
  predicate ReadingsWithin(skewNs: i64, wallErrorNs: i64, wallStepNs: i64, rate: real, mode: RunMode, p: ThresholdPolicy) {
    && (mode != Physical ==> p.maxGazeboClockSkewNs.Some? && Magnitude(skewNs) <= p.maxGazeboClockSkewNs.value)
    && (mode != Simulation ==>
          && p.maxStationWallErrorNs.Some? && Magnitude(wallErrorNs) <= p.maxStationWallErrorNs.value
          && p.maxStationWallStepNs.Some? && Magnitude(wallStepNs) <= p.maxStationWallStepNs.value)
    && (mode == Hybrid ==>
          && p.minGazeboRealTimeFactor.Some? && p.maxGazeboRealTimeFactor.Some?
          && p.minGazeboRealTimeFactor.value <= rate <= p.maxGazeboRealTimeFactor.value)
  }

  // The guard says it is locked in every way it can.
  predicate SaysLocked(e: Evidence) {
    e.state == Locked && e.authorityState == Locked && e.authorityHealthy && e.sensitiveOutputAllowed
  }

  lemma DiagnosticsAreExact(e: Evidence, config: FrozenConfig)
    requires ModeClockPolicyValid(config)
    ensures Diagnoses(e, config.runMode, config.thresholds) <==>
              && e.authorityAgeNs <= config.thresholds.maxAuthorityAgeNs
              && !GazeboUnacceptable(e, config) && !StationUnacceptable(e, config) && !RateUnacceptable(e, config)
  {
    hide Magnitude;
  }

  // What each refusal finds fault with.
  predicate Faulty(reason: Refusal, e: Evidence, config: FrozenConfig, expectedEpoch: u64) {
    var p, mode := config.thresholds, config.runMode;
    match reason
    case SessionMismatch => e.sessionId != config.sessionId
    case ContractMismatch => e.sessionContractSha256 != config.sessionContractSha256
    case PolicyMismatch => e.policySha256 != config.policySha256
    case ModeMismatch =>
      e.runMode != RunModeText(mode) || e.authority != AuthorityText(config.authority) || e.mapping != MappingText(config.mapping)
    case EpochMismatch => e.epoch != expectedEpoch
    case ZeroSequence => e.statusSequence == 0
    case NotLocked => !SaysLocked(e)
    case RouteCountMismatch => !(e.requiredRoutes == |config.routes| == e.lockedRoutes)
    case AuthorityTooOld => e.authorityAgeNs > p.maxAuthorityAgeNs
    case GazeboDiagnostics =>
      || !(e.gazeboRequired == e.gazeboReady == (mode != Physical)) || e.gazeboTopic != GazeboClockTopic(mode)
      || (e.lastGazeboStampNs == 0) != (mode == Physical)
      || (if mode == Physical then e.lastGazeboSkewNs != 0
          else p.maxGazeboClockSkewNs.Some? && Magnitude(e.lastGazeboSkewNs) > p.maxGazeboClockSkewNs.value)
    case StationDiagnostics =>
      if mode == Simulation then !(e.wallErrorNs == e.wallStepNs == 0)
      else
        || (p.maxStationWallErrorNs.Some? && Magnitude(e.wallErrorNs) > p.maxStationWallErrorNs.value)
        || (p.maxStationWallStepNs.Some? && Magnitude(e.wallStepNs) > p.maxStationWallStepNs.value)
    case RateDiagnostics =>
      if mode != Hybrid then e.realTimeFactor != 0.0
      else
        || (p.minGazeboRealTimeFactor.Some? && e.realTimeFactor < p.minGazeboRealTimeFactor.value)
        || (p.maxGazeboRealTimeFactor.Some? && e.realTimeFactor > p.maxGazeboRealTimeFactor.value)
    case TimingMismatch =>
      || e.wireResolutionNs != config.wireResolutionNs || e.measurementDelayEnabled != config.measurementDelayEnabled
      || e.delayTimestampPolicy != config.delayTimestampPolicy
  }

  // The refusals in the order in which their faults are looked for.
  const REFUSALS: seq<Refusal> := [
    SessionMismatch, ContractMismatch, PolicyMismatch, ModeMismatch, EpochMismatch, ZeroSequence, NotLocked,
    RouteCountMismatch, AuthorityTooOld, GazeboDiagnostics, StationDiagnostics, RateDiagnostics, TimingMismatch]

  lemma FaultsAreExact(e: Evidence, config: FrozenConfig, expectedEpoch: u64)
    requires ModeClockPolicyValid(config)
    ensures Faulty(GazeboDiagnostics, e, config, expectedEpoch) <==> GazeboUnacceptable(e, config)
    ensures Faulty(StationDiagnostics, e, config, expectedEpoch) <==> StationUnacceptable(e, config)
    ensures Faulty(RateDiagnostics, e, config, expectedEpoch) <==> RateUnacceptable(e, config)
  {
    hide Magnitude;
  }

  // The first fault from a place on.
  function FirstFault(e: Evidence, config: FrozenConfig, expectedEpoch: u64, n: nat): Option<Refusal>
    requires n <= |REFUSALS|
    decreases |REFUSALS| - n
  {
    if n == |REFUSALS| then None
    else if Faulty(REFUSALS[n], e, config, expectedEpoch) then Some(REFUSALS[n])
    else FirstFault(e, config, expectedEpoch, n + 1)
  }

  lemma FaultsInOrder(e: Evidence, config: FrozenConfig, expectedEpoch: u64)
    requires ModeClockPolicyValid(config)
    ensures ValidateLockedAdmission(e, config, expectedEpoch) == FirstFault(e, config, expectedEpoch, 0)
  {
    hide GazeboUnacceptable, StationUnacceptable, RateUnacceptable, RunModeText, AuthorityText, MappingText, GazeboClockTopic,
         FirstFault, ModeClockPolicyValid;
    FaultsAreExact(e, config, expectedEpoch);
    NextFault(e, config, expectedEpoch, 0);
    NextFault(e, config, expectedEpoch, 1);
    NextFault(e, config, expectedEpoch, 2);
    NextFault(e, config, expectedEpoch, 3);
    NextFault(e, config, expectedEpoch, 4);
    NextFault(e, config, expectedEpoch, 5);
    NextFault(e, config, expectedEpoch, 6);
    NextFault(e, config, expectedEpoch, 7);
    NextFault(e, config, expectedEpoch, 8);
    NextFault(e, config, expectedEpoch, 9);
    NextFault(e, config, expectedEpoch, 10);
    NextFault(e, config, expectedEpoch, 11);
    NextFault(e, config, expectedEpoch, 12);
    NextFault(e, config, expectedEpoch, 13);
  }

  lemma NextFault(e: Evidence, config: FrozenConfig, expectedEpoch: u64, n: nat)
    requires n <= |REFUSALS|
    ensures FirstFault(e, config, expectedEpoch, n) ==
              if n == 13 then None
              else if Faulty(REFUSALS[n], e, config, expectedEpoch) then Some(REFUSALS[n])
              else FirstFault(e, config, expectedEpoch, n + 1)
  {
    hide Faulty;
  }

  lemma RefusalsDiffer(n: nat, m: nat)
    requires n < m < |REFUSALS|
    ensures REFUSALS[n] != REFUSALS[m]
  {
  }

  lemma {:induction false} FirstFaultFrom(e: Evidence, config: FrozenConfig, expectedEpoch: u64, k: nat, n: nat)
    requires k <= |REFUSALS| && n < |REFUSALS|
    ensures FirstFault(e, config, expectedEpoch, k) == Some(REFUSALS[n]) <==>
              && k <= n && Faulty(REFUSALS[n], e, config, expectedEpoch)
              && forall m :: k <= m < n ==> !Faulty(REFUSALS[m], e, config, expectedEpoch)
    decreases |REFUSALS| - k
  {
    hide Faulty, REFUSALS;
    if k < |REFUSALS| {
      if n < k { RefusalsDiffer(n, k); } else if k < n { RefusalsDiffer(k, n); }
      FirstFaultFrom(e, config, expectedEpoch, k + 1, n);
    }
  }

  // Evidence is refused for the first fault it has, in this order.
  lemma RefusalIsFirstFault(e: Evidence, config: FrozenConfig, expectedEpoch: u64, n: nat)
    requires ModeClockPolicyValid(config) && n < |REFUSALS|
    ensures ValidateLockedAdmission(e, config, expectedEpoch) == Some(REFUSALS[n]) <==>
              && Faulty(REFUSALS[n], e, config, expectedEpoch)
              && forall m :: 0 <= m < n ==> !Faulty(REFUSALS[m], e, config, expectedEpoch)
  {
    hide Faulty, REFUSALS, ModeClockPolicyValid, ValidateLockedAdmission, FirstFault;
    FaultsInOrder(e, config, expectedEpoch);
    FirstFaultFrom(e, config, expectedEpoch, 0, n);
  }

  // Whatever the evidence and whoever the consumer, it is accepted exactly when it
  // is of that consumer's Session, policy and epoch, has a sequence, says it is
  // locked with as many routes as the policy freezes, all of them locked, and
  // reports diagnostics within the consumer's own limits.
  lemma AdmissionIsExact(e: Evidence, config: FrozenConfig, expectedEpoch: u64)
    requires ModeClockPolicyValid(config)
    ensures ValidateLockedAdmission(e, config, expectedEpoch).None? <==>
              && Identifies(e, config, expectedEpoch)
              && e.statusSequence != 0 && SaysLocked(e)
              && e.requiredRoutes == |config.routes| && e.lockedRoutes == |config.routes|
              && Diagnoses(e, config.runMode, config.thresholds)
  {
    hide ModeClockPolicyValid, Diagnoses, RunModeText, AuthorityText, MappingText, GazeboUnacceptable, StationUnacceptable,
         RateUnacceptable;
    DiagnosticsAreExact(e, config);
  }

  // The guard was built for this Session, policy and epoch.
  predicate BuiltFor(c: Startup, config: FrozenConfig, expectedEpoch: u64) {
    && c.config.sessionId == config.sessionId
    && c.config.sessionContractSha256 == config.sessionContractSha256
    && c.config.policySha256 == config.policySha256
    && c.config.runMode == config.runMode && c.config.authority == config.authority && c.config.mapping == config.mapping
    && c.epoch == expectedEpoch
    && c.config.wireResolutionNs == config.wireResolutionNs
    && c.config.measurementDelayEnabled == config.measurementDelayEnabled
    && c.config.delayTimestampPolicy == config.delayTimestampPolicy
  }

  lemma ModeTextsDiffer(a: FrozenConfig, b: FrozenConfig)
    ensures RunModeText(a.runMode) == RunModeText(b.runMode) <==> a.runMode == b.runMode
    ensures AuthorityText(a.authority) == AuthorityText(b.authority) <==> a.authority == b.authority
    ensures MappingText(a.mapping) == MappingText(b.mapping) <==> a.mapping == b.mapping
  {
    assert |RunModeText(Simulation)| == 10 && |RunModeText(Physical)| == 8 && |RunModeText(Hybrid)| == 6;
    assert |AuthorityText(GazeboSimulation)| == 17 && |AuthorityText(StationWallMonotonic)| == 22;
    assert |MappingText(Identity)| == 8 && |MappingText(AffineToSession)| == 17;
  }

  lemma PublishedIdentifies(c: Startup, s: Guard, sequence: u64, config: FrozenConfig, expectedEpoch: u64)
    requires c.Valid() && Inv(c, s)
    ensures Identifies(Published(c, s, sequence), config, expectedEpoch) <==> BuiltFor(c, config, expectedEpoch)
  {
    hide Startup.Valid, Inv, LockedRouteCount, Aggregate, SensitiveOutputAllowed, RunModeText, AuthorityText, MappingText,
         GazeboClockTopic;
    PublishedIdentity(c, s, sequence);
    ModeTextsDiffer(c.config, config);
  }

  // What a locked guard publishes of its diagnostics is within limits of its mode
  // exactly when its readings are.
  lemma LockedDiagnoses(c: Startup, s: Guard, sequence: u64, config: FrozenConfig)
    requires c.Valid() && Inv(c, s) && Aggregate(s) == Locked && config.runMode == c.config.runMode
    ensures Diagnoses(Published(c, s, sequence), config.runMode, config.thresholds) <==>
              && s.status.ageNs <= config.thresholds.maxAuthorityAgeNs
              && ReadingsWithin(s.status.lastSkewNs, s.status.wallErrorNs, s.status.wallStepNs, s.status.realTimeFactor,
                                config.runMode, config.thresholds)
  {
    hide Startup.Valid, Inv, LockedRouteCount, Aggregate, SensitiveOutputAllowed, RunModeText, AuthorityText, MappingText,
         GazeboClockTopic, ReadingsWithin, ModeClockPolicyValid, GazeboUnacceptable, StationUnacceptable, RateUnacceptable;
    LockedDiagnostics(c, s, sequence);
    DiagnosticsAreExact(Published(c, s, sequence), c.config);
  }

  lemma ForeignAgrees(c: Startup, s: Guard, sequence: u64, config: FrozenConfig, expectedEpoch: u64)
    requires c.Valid() && Inv(c, s) && ModeClockPolicyValid(config)
    ensures ValidateLockedAdmission(Published(c, s, sequence), config, expectedEpoch).None? <==>
              && BuiltFor(c, config, expectedEpoch) && Aggregate(s) == Locked && sequence != 0
              && Truncated(|c.config.routes|) == |config.routes|
              && s.status.ageNs <= config.thresholds.maxAuthorityAgeNs
              && ReadingsWithin(s.status.lastSkewNs, s.status.wallErrorNs, s.status.wallStepNs, s.status.realTimeFactor,
                                config.runMode, config.thresholds)
  {
    hide Startup.Valid, Inv, Aggregate, ModeClockPolicyValid, ValidateLockedAdmission, Identifies, Diagnoses, ReadingsWithin,
         SensitiveOutputAllowed, LockedRouteCount, Truncated;
    var e := Published(c, s, sequence);
    AdmissionIsExact(e, config, expectedEpoch);
    PublishedIdentifies(c, s, sequence, config, expectedEpoch);
    PublishedIdentity(c, s, sequence);
    if Aggregate(s) == Locked {
      LockedCountsAll(c, s);
      if BuiltFor(c, config, expectedEpoch) { LockedDiagnoses(c, s, sequence, config); }
    }
  }

  // After every run of any guard, any consumer accepts what its node publishes
  // exactly when the guard was built for that consumer's Session, policy, mode and
  // epoch, is locked, carries a sequence, publishes the consumer's route count, and
  // its readings are within the consumer's own limits.
  lemma ForeignAdmissionIsExact(c: Startup, ops: seq<GuardOp>, sequence: u64, config: FrozenConfig, expectedEpoch: u64)
    requires c.Valid() && ModeClockPolicyValid(config)
    ensures var s := After(c, ops);
            ValidateLockedAdmission(Published(c, s, sequence), config, expectedEpoch).None? <==>
              && BuiltFor(c, config, expectedEpoch) && Aggregate(s) == Locked && sequence != 0
              && Truncated(|c.config.routes|) == |config.routes|
              && s.status.ageNs <= config.thresholds.maxAuthorityAgeNs
              && ReadingsWithin(s.status.lastSkewNs, s.status.wallErrorNs, s.status.wallStepNs, s.status.realTimeFactor,
                                config.runMode, config.thresholds)
  {
    hide *;
    RunInv(c, ops);
    ForeignAgrees(c, After(c, ops), sequence, config, expectedEpoch);
  }
}
