// The clocks a run admits: the Gazebo receipts the guard remembers and the rate
// bound between any two of them, and the station readings it validates and the
// drift bound between any two of those.
module GuardClocks {
  import opened Numbers
  import opened Types
  import opened Policy
  import opened GuardSpec
  import opened GuardInvariant
  import opened GuardCalls
  import opened GuardOperations
  import opened GuardRuns

  // ---- Gazebo ----

  ghost predicate AdmitsNow(c: Startup, s: Guard, op: GuardOp)
    requires c.Valid()
  {
    op.GazeboClockOp? && ObserveGazebo(c, s, op.clock).1
  }

  // Operation i of the run is an admitted Gazebo receipt.
  ghost predicate ClockReceipt(c: Startup, ops: seq<GuardOp>, i: nat)
    requires c.Valid() && i < |ops|
  {
    AdmitsNow(c, After(c, ops[..i]), ops[i])
  }

  // The latest admitted receipt of a run.
  ghost function LastClock(c: Startup, ops: seq<GuardOp>): Option<GazeboObservation>
    requires c.Valid()
  {
    if ops == [] then None
    else
      var front, op := ops[..|ops| - 1], ops[|ops| - 1];
      if AdmitsNow(c, After(c, front), op) then Some(op.clock) else LastClock(c, front)
  }

  predicate Remembers(s: Guard, last: Option<GazeboObservation>) {
    match last
    case None => !s.haveGazeboClock
    case Some(o) => s.haveGazeboClock && s.lastGazeboStampNs == o.stampNs && s.lastGazeboMonotonicNs == o.monotonicNs
  }

  lemma ApplyClock(c: Startup, s: Guard, op: GuardOp)
    requires c.Valid() && Inv(c, s)
    requires c.config.runMode == Hybrid ==> RateFieldsPresent(c.config.thresholds)
    ensures AdmitsNow(c, s, op) ==> ClockMemory(c, s, op.clock, Apply(c, s, op), true)
    ensures !AdmitsNow(c, s, op) ==>
              && Apply(c, s, op).haveGazeboClock == s.haveGazeboClock
              && Apply(c, s, op).lastGazeboStampNs == s.lastGazeboStampNs
              && Apply(c, s, op).lastGazeboMonotonicNs == s.lastGazeboMonotonicNs
  {
    hide Startup.Valid, Inv, ObserveGazebo, ObserveRoute, Poll, FailEpochFence, Call, Admitted, ClockAdvances,
         ReadStation, GazeboBacked, AllFresh, Table;
    match op
    case GazeboClockOp(o) => GazeboCall(c, s, o);
    case RouteOp(o) => ObserveCall(c, s, o);
    case GuardPollOp(m, w) => PollCall(c, s, m, w);
    case FailEpochFenceOp(m) => FenceCall(c, s, m);
    case TakeEventsOp =>
  }

  // After every run the guard remembers exactly the latest admitted receipt.
  lemma {:induction false} ClockIsLatestReceipt(c: Startup, ops: seq<GuardOp>)
    requires c.Valid()
    ensures Remembers(After(c, ops), LastClock(c, ops))
  {
    ModeFacts(c);
    hide Startup.Valid, Initial, AdmitsNow, Apply, Inv, RateFieldsPresent, ClockAdvances;
    if ops == [] {
      InitialHasNoClock(c);
    } else {
      var front, op := ops[..|ops| - 1], ops[|ops| - 1];
      RunInv(c, front);
      ClockIsLatestReceipt(c, front);
      ApplyClock(c, After(c, front), op);
    }
  }

  lemma InitialHasNoClock(c: Startup)
    ensures !Initial(c).haveGazeboClock && Initial(c).lastWallErrorNs == 0
  {
    hide Aggregate, EventAt, InitialStatus, RouteConfig, Table;
  }

  // The first admitted receipt of a run arrives within the startup allowance;
  // later ones strictly advance both stamps.
  lemma ReceiptsAdvanceTheClock(c: Startup, ops: seq<GuardOp>, j: nat)
    requires c.Valid() && j < |ops| && ClockReceipt(c, ops, j)
    ensures ops[j].GazeboClockOp?
    ensures match LastClock(c, ops[..j])
            case None => 0 <= ops[j].clock.monotonicNs - c.monotonicNs <= c.config.thresholds.startupLockTimeoutNs
            case Some(last) => ops[j].clock.stampNs > last.stampNs && ops[j].clock.monotonicNs > last.monotonicNs
  {
    hide Startup.Valid, ObserveGazebo, Apply, Inv, RateFieldsPresent, RateFails, After, LastClock;
    ModeFacts(c);
    RunInv(c, ops[..j]);
    ClockIsLatestReceipt(c, ops[..j]);
    ApplyClock(c, After(c, ops[..j]), ops[j]);
  }

  // The two receipts are apart by a rate within the frozen bounds.
  predicate RateWithin(c: Startup, a: GazeboObservation, b: GazeboObservation)
    requires RateFieldsPresent(c.config.thresholds)
  {
    && c.config.thresholds.minGazeboRealTimeFactor.value * (b.monotonicNs - a.monotonicNs) as real
         <= (b.stampNs - a.stampNs) as real
    && (b.stampNs - a.stampNs) as real
         <= c.config.thresholds.maxGazeboRealTimeFactor.value * (b.monotonicNs - a.monotonicNs) as real
  }

  // A quotient within bounds is a difference within scaled bounds.
  lemma QuotientBounds(rise: real, run: real, low: real, high: real)
    requires run > 0.0 && low <= rise / run <= high
    ensures low * run <= rise <= high * run
  {
    var q := rise / run;
    assert q * run == rise;
    assert low * run <= q * run;
    assert q * run <= high * run;
  }

  lemma RatesAdd(low: real, high: real, run1: real, run2: real)
    ensures low * (run1 + run2) == low * run1 + low * run2
    ensures high * (run1 + run2) == high * run1 + high * run2
  {
  }

  lemma AdvanceIsWithinRate(c: Startup, s: Guard, a: GazeboObservation, b: GazeboObservation)
    requires c.config.runMode == Hybrid && RateFieldsPresent(c.config.thresholds)
    requires Remembers(s, Some(a)) && ClockAdvances(c, s, b)
    ensures RateWithin(c, a, b) && b.monotonicNs > a.monotonicNs && b.stampNs > a.stampNs
  {
    QuotientBounds((b.stampNs - a.stampNs) as real, (b.monotonicNs - a.monotonicNs) as real,
                   c.config.thresholds.minGazeboRealTimeFactor.value, c.config.thresholds.maxGazeboRealTimeFactor.value);
  }

  lemma RatesCompose(c: Startup, a: GazeboObservation, b: GazeboObservation, d: GazeboObservation)
    requires RateFieldsPresent(c.config.thresholds) && RateWithin(c, a, b) && RateWithin(c, b, d)
    ensures RateWithin(c, a, d)
  {
    RatesAdd(c.config.thresholds.minGazeboRealTimeFactor.value, c.config.thresholds.maxGazeboRealTimeFactor.value,
             (b.monotonicNs - a.monotonicNs) as real, (d.monotonicNs - b.monotonicNs) as real);
  }

  lemma RateReflexive(c: Startup, a: GazeboObservation)
    requires RateFieldsPresent(c.config.thresholds)
    ensures RateWithin(c, a, a)
  {
  }

  lemma {:induction false} LastClockWithinRate(c: Startup, ops: seq<GuardOp>, i: nat)
    requires c.Valid() && c.config.runMode == Hybrid && RateFieldsPresent(c.config.thresholds)
    requires i < |ops| && ClockReceipt(c, ops, i)
    ensures ops[i].GazeboClockOp?
    ensures LastClock(c, ops).Some? && RateWithin(c, ops[i].clock, LastClock(c, ops).value)
  {
    hide Startup.Valid, ObserveGazebo, Apply, Inv, RateFieldsPresent, RateWithin, ClockAdvances, Initial, After;
    var front, op := ops[..|ops| - 1], ops[|ops| - 1];
    if i == |ops| - 1 {
      RateReflexive(c, op.clock);
    } else {
      assert front[..i] == ops[..i];
      LastClockWithinRate(c, front, i);
      if AdmitsNow(c, After(c, front), op) {
        RunInv(c, front);
        ClockIsLatestReceipt(c, front);
        ApplyClock(c, After(c, front), op);
        var last := LastClock(c, front).value;
        AdvanceIsWithinRate(c, After(c, front), last, op.clock);
        RatesCompose(c, ops[i].clock, last, op.clock);
      }
    }
  }

  lemma ClockReceiptIsLast(c: Startup, ops: seq<GuardOp>, j: nat)
    requires c.Valid() && j < |ops| && ClockReceipt(c, ops, j)
    ensures ops[j].GazeboClockOp? && LastClock(c, ops[..j + 1]) == Some(ops[j].clock)
  {
    hide Startup.Valid, ObserveGazebo, After;
    assert ops[..j + 1][..j] == ops[..j];
  }

  lemma ClockReceiptInPrefix(c: Startup, ops: seq<GuardOp>, i: nat, j: nat)
    requires c.Valid() && i < j <= |ops|
    ensures ClockReceipt(c, ops[..j], i) <==> ClockReceipt(c, ops, i)
  {
    hide Startup.Valid, AdmitsNow, After;
    assert ops[..j][..i] == ops[..i];
  }

  // In hybrid mode any two admitted Gazebo receipts of a run, however far apart
  // and whatever was rejected between them, are apart by a rate within the
  // frozen bounds.
  lemma HybridRateIsBounded(c: Startup, ops: seq<GuardOp>, i: nat, j: nat)
    requires c.Valid() && c.config.runMode == Hybrid && i < j < |ops|
    requires ClockReceipt(c, ops, i) && ClockReceipt(c, ops, j)
    ensures RateFieldsPresent(c.config.thresholds)
    ensures ops[i].GazeboClockOp? && ops[j].GazeboClockOp? && RateWithin(c, ops[i].clock, ops[j].clock)
  {
    hide *;
    ModeFacts(c);
    ClockReceiptIsLast(c, ops, i);
    ClockReceiptIsLast(c, ops, j);
    ClockReceiptInPrefix(c, ops, i, j + 1);
    LastClockWithinRate(c, ops[..j + 1], i);
  }

  // ---- station ----

  datatype Reading = Reading(monotonicNs: u64, systemWallNs: u64)

  // The station reading an operation validates, if it validates one.
  function ReadingOf(c: Startup, op: GuardOp): Option<Reading> {
    if !c.StationRequired() then None
    else
      match op
      case GazeboClockOp(o) => if c.config.runMode == Hybrid then Some(Reading(o.monotonicNs, o.systemWallNs)) else None
      case RouteOp(o) => if o.slot in Table(c) then Some(Reading(o.monotonicNs, o.systemWallNs)) else None
      case GuardPollOp(m, w) => Some(Reading(m, w))
      case FailEpochFenceOp(_) => None
      case TakeEventsOp => None
  }

  // The wall reading's error as the guard computes it.
  function ErrorOf(c: Startup, r: Reading): i64 {
    SignedDifference(r.systemWallNs, StationTime(c, r.monotonicNs))
  }

  // The reading passes the frozen limits after one with the given error.
  predicate ReadingPasses(c: Startup, lastErrorNs: i64, r: Reading) {
    && StationFieldsPresent(c.config.thresholds)
    && r.monotonicNs >= c.monotonicNs && r.monotonicNs != 0 && r.systemWallNs != 0
    && Magnitude(ErrorOf(c, r)) <= c.config.thresholds.maxStationWallErrorNs.value
    && Magnitude(ClampedDifference(ErrorOf(c, r), lastErrorNs)) <= c.config.thresholds.maxStationWallStepNs.value
  }

  ghost predicate ReadsAs(c: Startup, s: Guard, t: Guard, reading: Option<Reading>) {
    match reading
    case Some(r) => ReadStation(c, s, t, r.monotonicNs, r.systemWallNs)
    case None => t.lastWallErrorNs == s.lastWallErrorNs
  }

  lemma GazeboReads(c: Startup, s: Guard, o: GazeboObservation)
    requires c.Valid() && Inv(c, s) && c.StationRequired()
    ensures var t := ObserveGazebo(c, s, o).0;
            t.authorityState != Lost ==> ReadsAs(c, s, t, ReadingOf(c, GazeboClockOp(o)))
  {
    ModeFacts(c);
    GazeboUnread(c, s, o);
    hide Startup.Valid, Inv, Call, ClockMemory, ReadStation, ObserveGazebo, Table;
    if c.config.runMode == Hybrid { GazeboCall(c, s, o); }
  }

  lemma RouteReads(c: Startup, s: Guard, o: Observation)
    requires c.Valid() && Inv(c, s) && c.StationRequired()
    ensures var t := ObserveRoute(c, s, o).0;
            t.authorityState != Lost ==> ReadsAs(c, s, t, ReadingOf(c, RouteOp(o)))
  {
    assert s.routes.Keys == Table(c).Keys by { hide Startup.Valid, Settled; }
    hide Startup.Valid, Inv, Call, ReadStation, ObserveRoute, Table, Admitted, GazeboBacked, SameClock;
    ObserveCall(c, s, o);
  }

  lemma PollReads(c: Startup, s: Guard, monotonicNs: u64, systemWallNs: u64)
    requires c.Valid() && Inv(c, s) && c.StationRequired()
    ensures var t := Poll(c, s, monotonicNs, systemWallNs);
            t.authorityState != Lost ==> ReadsAs(c, s, t, ReadingOf(c, GuardPollOp(monotonicNs, systemWallNs)))
  {
    hide Startup.Valid, Inv, Polled, ReadStation, Poll, Table;
    PollCall(c, s, monotonicNs, systemWallNs);
  }

  lemma ApplyReading(c: Startup, s: Guard, op: GuardOp)
    requires c.Valid() && Inv(c, s) && c.StationRequired() && Apply(c, s, op).authorityState != Lost
    ensures ReadsAs(c, s, Apply(c, s, op), ReadingOf(c, op))
  {
    hide Startup.Valid, Inv, ObserveRoute, Poll, FailEpochFence, Call, Table, ObserveGazebo, ReadStation, SameClock;
    match op
    case GazeboClockOp(o) => GazeboReads(c, s, o);
    case RouteOp(o) => RouteReads(c, s, o);
    case GuardPollOp(m, w) => PollReads(c, s, m, w);
    case FailEpochFenceOp(m) => FenceCall(c, s, m);
    case TakeEventsOp =>
  }

  lemma GazeboUnread(c: Startup, s: Guard, o: GazeboObservation)
    requires c.Valid()
    ensures !c.GazeboRequired() ==> ObserveGazebo(c, s, o).0 == s
  {
    hide Startup.Valid, AdmitClock, ValidateStation, Failing;
  }

  // The wall error of a reading against the station timeline.
  function WallError(c: Startup, r: Reading): int {
    r.systemWallNs - StationTime(c, r.monotonicNs)
  }

  // The error limit is below the clamp, and with it the step limit, so the
  // clamped checks decide the true differences.
  predicate ErrorsUnclamped(c: Startup) {
    StationFieldsPresent(c.config.thresholds) && c.config.thresholds.maxStationWallErrorNs.value < I64_MAX
  }

  // The error limit is below the clamp, or no pair of readings can exceed twice
  // of it.
  predicate ErrorLimitBinds(limit: u64) { limit < I64_MAX || limit >= U64_MAX - 1 }

  // How many operations after the first `from` validate a reading.
  ghost function ReadingsFrom(c: Startup, ops: seq<GuardOp>, from: nat): nat {
    if |ops| <= from then 0
    else ReadingsFrom(c, ops[..|ops| - 1], from) + if ReadingOf(c, ops[|ops| - 1]).Some? then 1 else 0
  }

  lemma ReadingIsExact(c: Startup, s: Guard, t: Guard, r: Reading)
    requires ErrorsUnclamped(c) && ReadStation(c, s, t, r.monotonicNs, r.systemWallNs)
    requires StationPasses(c, t) && t.status.wallErrorNs == t.lastWallErrorNs
    requires c.config.thresholds.maxStationWallStepNs.value <= c.config.thresholds.maxStationWallErrorNs.value
    ensures t.lastWallErrorNs == WallError(c, r)
    ensures Magnitude(WallError(c, r)) <= c.config.thresholds.maxStationWallErrorNs.value
    ensures Magnitude(t.lastWallErrorNs - s.lastWallErrorNs) <= c.config.thresholds.maxStationWallStepNs.value
  {
    hide StationTime;
  }

  lemma StepWithinError(c: Startup)
    requires c.Valid() && c.StationRequired()
    ensures StationFieldsPresent(c.config.thresholds)
    ensures c.config.thresholds.maxStationWallStepNs.value <= c.config.thresholds.maxStationWallErrorNs.value
  {
    ModeFacts(c);
    hide ThresholdPolicyValid, RoutesValid, RouteTimingValid;
  }

  // What a run whose authority lives remembers of its last operation's reading.
  lemma LiveReading(c: Startup, ops: seq<GuardOp>, op: GuardOp)
    requires c.Valid() && c.StationRequired() && After(c, ops + [op]).authorityState != Lost
    ensures After(c, ops).authorityState != Lost
    ensures ReadsAs(c, After(c, ops), After(c, ops + [op]), ReadingOf(c, op))
    ensures StationFieldsPresent(c.config.thresholds) && StationPasses(c, After(c, ops + [op]))
    ensures After(c, ops + [op]).status.wallErrorNs == After(c, ops + [op]).lastWallErrorNs
  {
    hide Startup.Valid, After, ReadStation, StationPasses, Apply, RoutesSound, Table, LockSupported, ReadsAs,
         GazeboMemory, FrozenStatus, ReadingOf, SimulationRouteOpen, AllLost, SkewWithin, Mirrored, RoutesProgress;
    ModeFacts(c);
    RunInv(c, ops);
    RunInv(c, ops + [op]);
    RunExtends(c, ops, op);
    RunProgress(c, ops, [op]);
    ApplyReading(c, After(c, ops), op);
  }

  lemma ExactReading(c: Startup, ops: seq<GuardOp>, op: GuardOp)
    requires c.Valid() && ErrorsUnclamped(c) && c.StationRequired() && After(c, ops + [op]).authorityState != Lost
    ensures After(c, ops).authorityState != Lost
    ensures match ReadingOf(c, op)
            case None => After(c, ops + [op]).lastWallErrorNs == After(c, ops).lastWallErrorNs
            case Some(r) =>
              && After(c, ops + [op]).lastWallErrorNs == WallError(c, r)
              && Magnitude(WallError(c, r)) <= c.config.thresholds.maxStationWallErrorNs.value
              && Magnitude(WallError(c, r) - After(c, ops).lastWallErrorNs) <= c.config.thresholds.maxStationWallStepNs.value
  {
    hide Startup.Valid, After, ReadStation, StationPasses, WallError, ReadingOf;
    StepWithinError(c);
    LiveReading(c, ops, op);
    if ReadingOf(c, op).Some? {
      ReadingIsExact(c, After(c, ops), After(c, ops + [op]), ReadingOf(c, op).value);
    }
  }

  lemma OneMoreStep(n: nat, limit: nat)
    ensures (n + 1) * limit == n * limit + limit
  {
  }

  // While the authority lives, its wall error has moved since any earlier point
  // by at most one step limit for each reading in between.
  lemma {:induction false} WallErrorMovesBySteps(c: Startup, ops: seq<GuardOp>, from: nat)
    requires c.Valid() && ErrorsUnclamped(c) && c.StationRequired() && from <= |ops|
    requires After(c, ops).authorityState != Lost
    ensures Magnitude(After(c, ops).lastWallErrorNs - After(c, ops[..from]).lastWallErrorNs)
              <= ReadingsFrom(c, ops, from) * c.config.thresholds.maxStationWallStepNs.value
  {
    hide Startup.Valid, After, WallError, ReadingOf;
    if |ops| == from {
      assert ops[..from] == ops;
    } else {
      var front, op := ops[..|ops| - 1], ops[|ops| - 1];
      assert front + [op] == ops && front[..from] == ops[..from];
      ExactReading(c, front, op);
      WallErrorMovesBySteps(c, front, from);
      OneMoreStep(ReadingsFrom(c, front, from), c.config.thresholds.maxStationWallStepNs.value);
    }
  }

  // Operations i and j of a run whose authority is not lost validate readings.
  ghost predicate ReadingPair(c: Startup, ops: seq<GuardOp>, i: nat, j: nat) {
    && c.Valid() && c.StationRequired() && i < j < |ops|
    && After(c, ops).authorityState != Lost
    && ReadingOf(c, ops[i]).Some? && ReadingOf(c, ops[j]).Some?
  }

  // How far the wall moved between two readings against the station timeline.
  function Drift(c: Startup, a: Reading, b: Reading): nat {
    Magnitude((b.systemWallNs - a.systemWallNs) - (StationTime(c, b.monotonicNs) - StationTime(c, a.monotonicNs)))
  }

  ghost function DriftOf(c: Startup, ops: seq<GuardOp>, i: nat, j: nat): nat
    requires ReadingPair(c, ops, i, j)
  {
    Drift(c, ReadingOf(c, ops[i]).value, ReadingOf(c, ops[j]).value)
  }

  // Along a run whose authority is not lost, any two validated wall readings
  // drift apart from the steady clock by no more than one step limit for each
  // reading after the first, as long as the error limit is below the clamp.
  lemma StationDriftIsStepped(c: Startup, ops: seq<GuardOp>, i: nat, j: nat)
    requires ReadingPair(c, ops, i, j) && ErrorsUnclamped(c)
    ensures DriftOf(c, ops, i, j) <= ReadingsFrom(c, ops[..j + 1], i + 1) * c.config.thresholds.maxStationWallStepNs.value
    ensures ReadingsFrom(c, ops[..j + 1], i + 1) <= j - i
  {
    hide Startup.Valid, After, ReadingOf, ReadingsFrom, Table, Drift, WallError;
    var prefix := ops[..j + 1];
    assert prefix[..i + 1] == ops[..i + 1];
    ExactReadingAt(c, ops, i);
    ExactReadingAt(c, ops, j);
    AliveBefore(c, ops, j + 1);
    WallErrorMovesBySteps(c, prefix, i + 1);
    ReadingsAreFew(c, prefix, i + 1);
    DriftFromErrors(c, ReadingOf(c, ops[i]).value, ReadingOf(c, ops[j]).value);
  }

  // They drift apart by no more than twice the error limit, whenever that limit
  // binds. The steady difference is that of the station timeline, which is the
  // difference of the steady stamps as long as the timeline has not saturated.
  lemma StationDriftIsBounded(c: Startup, ops: seq<GuardOp>, i: nat, j: nat)
    requires ReadingPair(c, ops, i, j)
    ensures StationFieldsPresent(c.config.thresholds)
    ensures ErrorLimitBinds(c.config.thresholds.maxStationWallErrorNs.value) ==>
              DriftOf(c, ops, i, j) <= 2 * c.config.thresholds.maxStationWallErrorNs.value
    ensures var a, b := ReadingOf(c, ops[i]).value, ReadingOf(c, ops[j]).value;
            Unsaturated(c, a) && Unsaturated(c, b) ==>
              DriftOf(c, ops, i, j) == Magnitude((b.systemWallNs - a.systemWallNs) - (b.monotonicNs - a.monotonicNs))
  {
    hide Startup.Valid, After, ReadingOf, Drift, WallError, Table, Unsaturated;
    ModeFacts(c);
    DriftFromErrors(c, ReadingOf(c, ops[i]).value, ReadingOf(c, ops[j]).value);
    if ErrorsUnclamped(c) {
      ExactReadingAt(c, ops, i);
      ExactReadingAt(c, ops, j);
    } else {
      ReadingIsStamped(c, ops, i);
      ReadingIsStamped(c, ops, j);
    }
  }

  // No reading errs by the whole range of stamps: both clocks are nonzero.
  lemma ReadingIsStamped(c: Startup, ops: seq<GuardOp>, i: nat)
    requires c.Valid() && c.StationRequired() && i < |ops| && After(c, ops).authorityState != Lost
    requires ReadingOf(c, ops[i]).Some?
    ensures Magnitude(WallError(c, ReadingOf(c, ops[i]).value)) <= U64_MAX - 1
  {
    hide After, Table, ConfigValid, StationPasses, ReadingOf;
    AliveBefore(c, ops, i + 1);
    assert ops[..i + 1] == ops[..i] + [ops[i]];
    LiveReading(c, ops[..i], ops[i]);
  }

  lemma DriftFromErrors(c: Startup, a: Reading, b: Reading)
    ensures Drift(c, a, b) == Magnitude(WallError(c, b) - WallError(c, a))
    ensures Unsaturated(c, a) && Unsaturated(c, b) ==>
              Drift(c, a, b) == Magnitude((b.systemWallNs - a.systemWallNs) - (b.monotonicNs - a.monotonicNs))
  {
  }

  // The reading's own steady stamp is on the timeline and has not saturated it.
  predicate Unsaturated(c: Startup, r: Reading) {
    r.monotonicNs >= c.monotonicNs && c.systemWallNs + (r.monotonicNs - c.monotonicNs) <= U64_MAX
  }

  lemma {:induction false} ReadingsAreFew(c: Startup, ops: seq<GuardOp>, from: nat)
    requires from <= |ops|
    ensures ReadingsFrom(c, ops, from) <= |ops| - from
  {
    if |ops| > from { ReadingsAreFew(c, ops[..|ops| - 1], from); }
  }

  lemma AliveBefore(c: Startup, ops: seq<GuardOp>, n: nat)
    requires c.Valid() && n <= |ops| && After(c, ops).authorityState != Lost
    ensures After(c, ops[..n]).authorityState != Lost
  {
    hide Startup.Valid, After;
    assert ops[..n] + ops[n..] == ops;
    RunProgress(c, ops[..n], ops[n..]);
  }

  lemma ExactReadingAt(c: Startup, ops: seq<GuardOp>, i: nat)
    requires c.Valid() && c.StationRequired() && ErrorsUnclamped(c) && i < |ops| && After(c, ops).authorityState != Lost
    requires ReadingOf(c, ops[i]).Some?
    ensures After(c, ops[..i + 1]).lastWallErrorNs == WallError(c, ReadingOf(c, ops[i]).value)
    ensures Magnitude(WallError(c, ReadingOf(c, ops[i]).value)) <= c.config.thresholds.maxStationWallErrorNs.value
  {
    hide Startup.Valid, After, WallError, Table;
    AliveBefore(c, ops, i + 1);
    assert ops[..i + 1] == ops[..i] + [ops[i]];
    ExactReading(c, ops[..i], ops[i]);
  }
}
