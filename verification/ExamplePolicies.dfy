// The repository's example policies (config/example-*-v24.cfg) are valid, so
// every theorem about valid guards speaks of some guard in each mode; and a
// guard without routes locks on its authority alone.
module ExamplePolicies {
  import opened Numbers
  import opened Types
  import opened Policy
  import opened GuardSpec
  import opened GuardInvariant
  import opened GuardRuns
  import opened GuardVerdicts
  import opened GuardDiagnostics
  import opened LockLimits

  function ExampleThresholds(mode: RunMode): ThresholdPolicy {
    var affine, gazebo := mode != Simulation, mode != Physical;
    ThresholdPolicy(
      if affine then Some(32) else None, 8, 4, 3, 60000000000,
      if affine then Some(5000000) else None, if affine then Some(5000.0) else None,
      if affine then Some(3000000) else None,
      10000000, 100000000, 100000000,
      if gazebo then Some(20000000) else None,
      if affine then Some(20000000) else None, if affine then Some(5000000) else None,
      if mode == Hybrid then Some(0.8) else None, if mode == Hybrid then Some(1.2) else None,
      25000000, 32)
  }

  const SIMULATED := Route("fs150_1", "uav1", "uav1", SimulationSource, 8333333, 5000000)
  const TRACKED := Route("scout_1", "ugv1", "ugv1", PhysicalSource, 10000000, 6000000)
  const TRACKED_AS_UAV := Route("scout_1", "ugv1", "uav7", PhysicalSource, 10000000, 6000000)

  function ExampleRoutes(mode: RunMode): seq<Route> {
    match mode
    case Simulation => [SIMULATED]
    case Physical => [TRACKED]
    case Hybrid => [SIMULATED, TRACKED_AS_UAV]
  }

  function ExampleSession(mode: RunMode): string {
    match mode
    case Simulation => "example-simulation-session"
    case Physical => "example-physical-session"
    case Hybrid => "example-hybrid-session"
  }

  // A digest of one digit.
  function Uniform(digit: char): string { seq(64, _ => digit) }

  function ExampleContract(mode: RunMode): string {
    match mode
    case Simulation => Uniform('1')
    case Physical => Uniform('2')
    case Hybrid => Uniform('0')
  }

  function ExampleConfig(mode: RunMode): FrozenConfig {
    FrozenConfig(
      ExampleSession(mode), ExampleContract(mode), mode,
      if mode == Simulation then GazeboSimulation else StationWallMonotonic,
      if mode == Simulation then Identity else AffineToSession,
      "", 1000, true, "sample_time", ExampleThresholds(mode), ExampleRoutes(mode))
  }

  lemma ExampleRoutesLegal(mode: RunMode)
    ensures forall i :: 0 <= i < |ExampleRoutes(mode)| ==> RouteLegal(mode, ExampleRoutes(mode)[i])
  {
  }

  lemma ExampleRoutesApart()
    ensures RoutesApart(SIMULATED, TRACKED_AS_UAV)
  {
    assert SIMULATED.slot[0] != TRACKED_AS_UAV.slot[0];
    assert SIMULATED.canonicalBody[3] != TRACKED_AS_UAV.canonicalBody[3];
  }

  // In every mode the example policy is one a guard can be built from.
  lemma ExamplesAreValid(mode: RunMode, epoch: u64, monotonicNs: u64, systemWallNs: u64)
    requires epoch != 0 && monotonicNs != 0 && systemWallNs != 0
    ensures Startup(ExampleConfig(mode), epoch, monotonicNs, systemWallNs).Valid()
  {
    hide RouteLegal, RoutesApart, ExampleSession, ExampleContract;
    ExampleRoutesLegal(mode);
    ExampleRoutesApart();
    var routes := ExampleRoutes(mode);
    assert mode == Hybrid ==> routes[0].sourceDomain == SimulationSource && routes[1].sourceDomain == PhysicalSource;
  }

  // A physical guard without routes is locked from the start, and says so in its
  // second event.
  lemma AuthorityOnlyPhysicalStartsLocked(c: Startup)
    requires c.Valid() && c.config.runMode == Physical && c.config.routes == []
    ensures Aggregate(After(c, [])) == Locked
    ensures |Log(c, [])| == 2 && Log(c, [])[1].kind == LockedEvent
  {
    ModeFacts(c);
    hide ThresholdPolicyValid, RoutesValid, SourceTimingValid;
    assert Table(c) == map[];
    var r := Refresh(c, InitialAuthority(c));
    assert r.routes == map[];
    assert Aggregate(r) == Locked;
  }

  // A simulation guard without routes locks on its first timely positive clock.
  lemma AuthorityOnlySimulationLocks(c: Startup, o: GazeboObservation)
    requires c.Valid() && c.config.runMode == Simulation && c.config.routes == []
    requires o.stampNs > 0 && 0 <= o.monotonicNs - c.monotonicNs <= c.config.thresholds.startupLockTimeoutNs
    ensures Aggregate(After(c, [])) == Initializing
    ensures Aggregate(After(c, [GazeboClockOp(o)])) == Locked
  {
    hide Startup.Valid, Table, After, ObserveGazebo, Aggregate, FreshRoute, AuthorityFails, RoutesFail, Held;
    NoSlots(c);
    StartIsPositive(c);
    var op := GazeboClockOp(o);
    FreshGuardIsExact(c);
    AggregateIsTheWorst(c, []);
    ClockVerdictIsExact(c, [], o);
    RunExtends(c, [], op);
    assert [] + [op] == [op];
    AggregateIsTheWorst(c, [op]);
  }

  lemma StartIsPositive(c: Startup)
    requires c.Valid()
    ensures c.monotonicNs > 0
  {
    hide ConfigValid;
  }

  lemma NoSlots(c: Startup)
    requires c.config.routes == []
    ensures Table(c).Keys == {}
  {
  }

  // A guard under the physical or the hybrid example policy can be locked with a
  // window no quality limit binds.
  lemma ExamplesLockShort(mode: RunMode)
    requires mode != Simulation
    ensures !GuardLocksAreFull(ExampleConfig(mode))
  {
    hide GuardLocksAreFull, RouteLocksAreFull;
    ExamplesAreValid(mode, 1, 1, 1);
    hide ConfigValid;
    GuardFullLocksAreExact(ExampleConfig(mode));
  }
}
