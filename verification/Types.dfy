// The guard's values (include/xgc_session_clock_guard/types.hpp). `double`
// fields are `real`; human-readable reason strings are not modelled.
module Types {
  import opened Numbers

  datatype Option<+T> = None | Some(value: T)

  datatype GuardState = Initializing | Locked | Degraded | Lost
  datatype SourceDomain = SimulationSource | PhysicalSource
  datatype StreamKind = Pose | Twist
  datatype SessionTimeAuthority = GazeboSimulation | StationWallMonotonic
  datatype ClockMapping = Identity | AffineToSession
  datatype RunMode = Simulation | Physical | Hybrid
  datatype GuardEventKind = NewEpochEvent | LockedEvent | DegradedEvent | LostEvent

  datatype ThresholdPolicy = ThresholdPolicy(
    estimatorWindow: Option<u64>,
    minLockSamples: u32,
    recoverLockSamples: u32,
    lostAfterFailures: u32,
    startupLockTimeoutNs: u64,
    maxOffsetStepNs: Option<u64>,
    maxDriftPpm: Option<real>,
    maxJitterNs: Option<u64>,
    maxUncertaintyNs: u64,
    maxSampleAgeNs: u64,
    maxAuthorityAgeNs: u64,
    maxGazeboClockSkewNs: Option<u64>,
    maxStationWallErrorNs: Option<u64>,
    maxStationWallStepNs: Option<u64>,
    minGazeboRealTimeFactor: Option<real>,
    maxGazeboRealTimeFactor: Option<real>,
    guardPollPeriodNs: u64,
    ioQueueDepth: u32)

  datatype Route = Route(
    slot: string,
    sourceBody: string,
    canonicalBody: string,
    sourceDomain: SourceDomain,
    samplePeriodNs: u64,
    sourceUncertaintyNs: u64)

  datatype FrozenConfig = FrozenConfig(
    sessionId: string,
    sessionContractSha256: string,
    runMode: RunMode,
    authority: SessionTimeAuthority,
    mapping: ClockMapping,
    policySha256: string,
    wireResolutionNs: u64,
    measurementDelayEnabled: bool,
    delayTimestampPolicy: string,
    thresholds: ThresholdPolicy,
    routes: seq<Route>)

  datatype Observation = Observation(
    slot: string,
    sourceBody: string,
    sourceDomain: SourceDomain,
    stream: StreamKind,
    rawNs: u64,
    monotonicNs: u64,
    systemWallNs: u64,
    // The guard fills the next four from the frozen authority.
    sessionNs: u64,
    gazeboStampNs: u64,
    authorityAgeNs: u64,
    gazeboSkewNs: i64,
    fallbackSource: bool)

  datatype GazeboObservation = GazeboObservation(stampNs: u64, monotonicNs: u64, systemWallNs: u64)

  datatype TimestampEnvelope = TimestampEnvelope(
    slot: string,
    sourceBody: string,
    canonicalBody: string,
    sourceDomain: SourceDomain,
    stream: StreamKind,
    epoch: u64,
    rawNs: u64,
    mappedSessionNs: u64,
    monotonicNs: u64,
    authorityAgeNs: u64,
    gazeboSkewNs: i64,
    offsetNs: i64,
    driftPpm: real,
    jitterNs: u64,
    uncertaintyNs: u64,
    state: GuardState,
    accepted: bool,
    canonicalPublishAllowed: bool)

  datatype GuardEvent = GuardEvent(
    sequence: u64,
    kind: GuardEventKind,
    state: GuardState,
    epoch: u64,
    monotonicNs: u64,
    sessionNs: u64,
    authorityAgeNs: u64,
    gazeboStampNs: u64,
    gazeboSkewNs: i64,
    wallErrorNs: i64,
    wallStepNs: i64,
    realTimeFactor: real)

  function RunModeText(m: RunMode): string {
    match m
    case Simulation => "simulation"
    case Physical => "physical"
    case Hybrid => "hybrid"
  }

  function AuthorityText(a: SessionTimeAuthority): string {
    match a
    case GazeboSimulation => "gazebo-simulation"
    case StationWallMonotonic => "station-wall-monotonic"
  }

  function MappingText(m: ClockMapping): string {
    match m
    case Identity => "identity"
    case AffineToSession => "affine-to-session"
  }

  function DomainText(d: SourceDomain): string {
    match d
    case SimulationSource => "simulation"
    case PhysicalSource => "physical"
  }

  function RawRoot(d: SourceDomain): string {
    match d
    case SimulationSource => "/xgc/source/vrpn/simulation"
    case PhysicalSource => "/xgc/source/vrpn/physical"
  }

  function RawSource(r: Route): string {
    RawRoot(r.sourceDomain) + "/" + r.sourceBody
  }

  function GazeboClockTopic(m: RunMode): string {
    match m
    case Simulation => "/clock"
    case Hybrid => "/xgc/source/gazebo/clock"
    case Physical => ""
  }

  // Two routes read the same raw topics exactly when they agree on domain and
  // source body.
  lemma RawSourceIsInjective(a: Route, b: Route)
    ensures RawSource(a) == RawSource(b) <==> a.sourceDomain == b.sourceDomain && a.sourceBody == b.sourceBody
  {
    assert RawSource(a)[17] == RawRoot(a.sourceDomain)[17];
    assert RawSource(b)[17] == RawRoot(b.sourceDomain)[17];
    if RawSource(a) == RawSource(b) {
      var n := |RawRoot(a.sourceDomain)| + 1;
      assert a.sourceBody == RawSource(a)[n..];
      assert b.sourceBody == RawSource(b)[n..];
    }
  }
}
