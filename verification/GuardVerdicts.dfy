// What every operation does to the authority and to the routes, decided by the
// clocks and the frozen limits alone, after every run
// (src/core/session_clock_guard.cpp:180-650).
module GuardVerdicts {
  import opened Numbers
  import opened Types
  import opened Policy
  import opened MapperSpec
  import opened MapperGates
  import opened GuardSpec
  import opened GuardInvariant
  import opened GuardRuns
  import opened GuardAnswers

  // ---- the station clock ----

  function StationNow(c: Startup, monotonicNs: u64): u64
    requires monotonicNs >= c.monotonicNs
  {
    Min(c.systemWallNs + (monotonicNs - c.monotonicNs), U64_MAX)
  }

  function WallError(c: Startup, monotonicNs: u64, systemWallNs: u64): i64
    requires monotonicNs >= c.monotonicNs
  {
    Clamp(systemWallNs - StationNow(c, monotonicNs), -I64_MAX, I64_MAX)
  }

  function WallStep(c: Startup, s: Guard, monotonicNs: u64, systemWallNs: u64): i64
    requires monotonicNs >= c.monotonicNs
  {
    Clamp(WallError(c, monotonicNs, systemWallNs) - s.lastWallErrorNs, I64_MIN, I64_MAX)
  }

  predicate ReadingTaken(c: Startup, monotonicNs: u64, systemWallNs: u64) {
    c.StationRequired() && monotonicNs != 0 && systemWallNs != 0 && monotonicNs >= c.monotonicNs
  }

  // The station clock cannot be read, or is off or has stepped by more than its limits.
  predicate StationFails(c: Startup, s: Guard, monotonicNs: u64, systemWallNs: u64)
    requires c.StationRequired() ==> StationFieldsPresent(c.config.thresholds)
  {
    c.StationRequired() &&
      (|| !ReadingTaken(c, monotonicNs, systemWallNs)
       || Magnitude(WallError(c, monotonicNs, systemWallNs)) > c.config.thresholds.maxStationWallErrorNs.value
       || Magnitude(WallStep(c, s, monotonicNs, systemWallNs)) > c.config.thresholds.maxStationWallStepNs.value)
  }

  // ---- the age of the Gazebo clock ----

  predicate SteadyFails(c: Startup, s: Guard, monotonicNs: u64) {
    c.GazeboRequired() && (monotonicNs == 0 || monotonicNs < c.monotonicNs
                           || (s.haveGazeboClock && monotonicNs < s.lastGazeboMonotonicNs))
  }

  predicate NeverStarted(c: Startup, s: Guard, monotonicNs: u64) {
    c.GazeboRequired() && !s.haveGazeboClock && s.authorityState != Lost
    && monotonicNs - c.monotonicNs > c.config.thresholds.startupLockTimeoutNs
  }

  // A lost authority is not aged any more: without a station it keeps the age it
  // had, with one that age is zero.
  predicate Aged(c: Startup, s: Guard, monotonicNs: u64) {
    c.GazeboRequired() && s.haveGazeboClock &&
      if s.authorityState == Lost then !c.StationRequired() && s.status.ageNs > c.config.thresholds.maxAuthorityAgeNs
      else monotonicNs - s.lastGazeboMonotonicNs > c.config.thresholds.maxAuthorityAgeNs
  }

  // ---- verdicts ----

  predicate RateOff(c: Startup, s: Guard, o: GazeboObservation)
    requires c.config.runMode == Hybrid ==> RateFieldsPresent(c.config.thresholds)
  {
    c.config.runMode == Hybrid &&
      var rise, run := (o.stampNs - s.lastGazeboStampNs) as real, (o.monotonicNs - s.lastGazeboMonotonicNs) as real;
      rise < c.config.thresholds.minGazeboRealTimeFactor.value * run
      || rise > c.config.thresholds.maxGazeboRealTimeFactor.value * run
  }

  // The operation loses the authority at once.
  ghost predicate Breaks(c: Startup, s: Guard, op: GuardOp)
    requires c.Valid()
  {
    ModeFacts(c);
    match op
    case GazeboClockOp(o) =>
      c.GazeboRequired() &&
        (|| (c.config.runMode == Hybrid && StationFails(c, s, o.monotonicNs, o.systemWallNs))
         || o.monotonicNs == 0 || o.monotonicNs < c.monotonicNs
         || (if s.haveGazeboClock then o.monotonicNs <= s.lastGazeboMonotonicNs || o.stampNs < s.lastGazeboStampNs
             else o.monotonicNs - c.monotonicNs > c.config.thresholds.startupLockTimeoutNs))
    case RouteOp(o) => o.slot in Table(c) && BreaksAt(c, s, o.monotonicNs, o.systemWallNs)
    case GuardPollOp(m, w) => BreaksAt(c, s, m, w)
    case FailEpochFenceOp(_) => true
    case TakeEventsOp => false
  }

  predicate BreaksAt(c: Startup, s: Guard, monotonicNs: u64, systemWallNs: u64)
    requires c.StationRequired() ==> StationFieldsPresent(c.config.thresholds)
  {
    StationFails(c, s, monotonicNs, systemWallNs) || SteadyFails(c, s, monotonicNs) || NeverStarted(c, s, monotonicNs)
  }

  // The operation counts one failure.
  ghost predicate Slips(c: Startup, s: Guard, op: GuardOp)
    requires c.Valid()
  {
    ModeFacts(c);
    && !Breaks(c, s, op)
    && match op
       case GazeboClockOp(o) =>
         c.GazeboRequired() && s.haveGazeboClock && (o.stampNs == s.lastGazeboStampNs || RateOff(c, s, o))
       case RouteOp(o) => o.slot in Table(c) && Aged(c, s, o.monotonicNs)
       case GuardPollOp(m, _) => Aged(c, s, m)
       case FailEpochFenceOp(_) => false
       case TakeEventsOp => false
  }

  // The operation finds the authority usable.
  ghost predicate Opens(c: Startup, s: Guard, op: GuardOp)
    requires c.Valid()
  {
    && !Breaks(c, s, op) && !Slips(c, s, op)
    && (op.RouteOp? || op.GuardPollOp?)
    && (c.GazeboRequired() ==> s.authorityState != Lost && s.haveGazeboClock && (c.config.runMode == Hybrid ==> s.haveGazeboRate))
  }

  // A clock the guard takes; in hybrid mode only the second one vouches.
  ghost predicate Takes(c: Startup, s: Guard, op: GuardOp)
    requires c.Valid()
  {
    op.GazeboClockOp? && c.GazeboRequired() && op.clock.stampNs != 0 && !Breaks(c, s, op) && !Slips(c, s, op)
  }

  // ---- effects ----

  predicate AuthorityFails(c: Startup, s: Guard, t: Guard, immediate: bool) {
    if s.authorityState == Lost then AuthorityStays(s, t)
    else
      && t.authorityFailures == Min(s.authorityFailures + 1, U32_MAX) && t.authorityRecovery == 0
      && t.authorityState == if immediate || t.authorityFailures >= c.config.thresholds.lostAfterFailures then Lost else Degraded
  }

  predicate AuthorityStays(s: Guard, t: Guard) {
    && t.authorityState == s.authorityState
    && t.authorityFailures == s.authorityFailures && t.authorityRecovery == s.authorityRecovery
  }

  predicate AuthorityVouched(c: Startup, s: Guard, t: Guard) {
    match s.authorityState
    case Lost => AuthorityStays(s, t)
    case Locked => t.authorityState == Locked && t.authorityFailures == 0 && t.authorityRecovery == s.authorityRecovery
    case Initializing => t.authorityState == Locked && t.authorityFailures == 0 && t.authorityRecovery == 0
    case Degraded =>
      var recovered := Min(s.authorityRecovery + 1, U32_MAX);
      && t.authorityFailures == 0
      && if recovered >= c.config.thresholds.recoverLockSamples then t.authorityState == Locked && t.authorityRecovery == 0
         else t.authorityState == Degraded && t.authorityRecovery == recovered
  }

  ghost predicate RouteFails(c: Startup, s: Guard, t: Guard, slot: string, immediate: bool)
    requires slot in Table(c) && slot in s.routes && slot in t.routes
  {
    if s.routes[slot].status.state == Lost then t.routes[slot] == s.routes[slot]
    else Fails(RouteConfig(c, Table(c)[slot]), s.routes[slot], t.routes[slot], immediate)
  }

  ghost predicate RoutesFail(c: Startup, s: Guard, t: Guard, immediate: bool)
    requires s.routes.Keys == Table(c).Keys
  {
    t.routes.Keys == s.routes.Keys && forall k :: k in s.routes ==> RouteFails(c, s, t, k, immediate)
  }

  // ---- pieces of a call ----

  // A state a call has worked up that has moved nothing but its reports.
  predicate Untold(s: Guard, u: Guard) {
    && u.routes == s.routes && AuthorityStays(s, u)
    && u.haveGazeboClock == s.haveGazeboClock && u.haveGazeboRate == s.haveGazeboRate
    && u.lastGazeboStampNs == s.lastGazeboStampNs && u.lastGazeboMonotonicNs == s.lastGazeboMonotonicNs
  }

  // Every route of a run is held, in the guard's epoch.
  ghost predicate Held(c: Startup, s: Guard) {
    s.routes.Keys == Table(c).Keys && forall k :: k in s.routes ==> s.routes[k].status.epoch != 0
  }

  lemma RoutesAreHeld(c: Startup, s: Guard)
    requires c.Valid() && Inv(c, s)
    ensures Held(c, s)
  {
    hide Inv, Table;
    SoundKeys(c, s);
    forall k | k in s.routes ensures s.routes[k].status.epoch != 0 { RouteEpochIs(c, s, k); }
  }

  lemma SoundKeys(c: Startup, s: Guard)
    requires c.Valid() && Inv(c, s)
    ensures s.routes.Keys == Table(c).Keys
  {
    hide Startup.Valid, Table, Settled, RouteSound;
  }

  lemma LogKeepsMachine(c: Startup, u: Guard, before: GuardState, monotonicNs: u64)
    ensures var t := EmitTransition(c, u, before, monotonicNs); t == u.(nextSequence := t.nextSequence, pending := t.pending)
  {
    hide EmitTransition;
  }

  lemma FailureIsExact(m: MapperConfig, st: MapperState, immediate: bool)
    requires MapperConfigValid(m)
    ensures var t := Step(m, st, AuthorityFailureOp(immediate));
            if st.status.state == Lost then t == st else Fails(m, st, t, immediate)
  {
    hide ThresholdPolicyValid;
  }

  lemma FailingIs(c: Startup, s: Guard, u: Guard, immediate: bool, before: GuardState, monotonicNs: u64)
    requires c.Valid() && Held(c, s) && Untold(s, u)
    ensures var t := Failing(c, u, immediate, before, monotonicNs);
            AuthorityFails(c, s, t, immediate) && RoutesFail(c, s, t, immediate)
  {
    hide Startup.Valid, Table, RouteConfig, Step, EmitTransition, Fails, MapperConfigValid;
    var v := FailAuthority(c, u, immediate);
    LogKeepsMachine(c, v, before, monotonicNs);
    var t := Failing(c, u, immediate, before, monotonicNs);
    forall k | k in s.routes ensures RouteFails(c, s, t, k, immediate) {
      RouteConfigIsValid(c, Table(c)[k]);
      FailureIsExact(RouteConfig(c, Table(c)[k]), s.routes[k], immediate);
    }
  }

  lemma WallReading(c: Startup, s: Guard, monotonicNs: u64, systemWallNs: u64)
    requires c.StationRequired() && monotonicNs >= c.monotonicNs
    ensures SessionNow(c, s, monotonicNs) == StationNow(c, monotonicNs)
    ensures SignedDifference(systemWallNs, StationNow(c, monotonicNs)) == WallError(c, monotonicNs, systemWallNs)
    ensures ClampedDifference(WallError(c, monotonicNs, systemWallNs), s.lastWallErrorNs)
            == WallStep(c, s, monotonicNs, systemWallNs)
  {
  }

  // What a reading of the station clock reports.
  lemma ReadingReports(c: Startup, s: Guard, monotonicNs: u64, systemWallNs: u64)
    requires c.StationRequired() && monotonicNs >= c.monotonicNs
    ensures var u := StationReading(c, s, monotonicNs, systemWallNs);
            && u.lastWallErrorNs == u.status.wallErrorNs == WallError(c, monotonicNs, systemWallNs)
            && u.status.wallStepNs == WallStep(c, s, monotonicNs, systemWallNs)
            && u.status.sessionNowNs == StationNow(c, monotonicNs)
            && u.status.lastAuthorityMonotonicNs == monotonicNs && u.status.ageNs == 0
            && Untold(s, u) && u.status.lastSkewNs == s.status.lastSkewNs
            && u.status.realTimeFactor == s.status.realTimeFactor
  {
    WallReading(c, s, monotonicNs, systemWallNs);
    hide SessionNow, SignedDifference, ClampedDifference, WallError, WallStep, StationNow;
  }

  lemma RefreshTells(c: Startup, s: Guard)
    ensures var u := Refresh(c, s);
            && Untold(s, u) && u.lastWallErrorNs == s.lastWallErrorNs
            && u.status.wallErrorNs == s.status.wallErrorNs && u.status.wallStepNs == s.status.wallStepNs
            && u.status.sessionNowNs == s.status.sessionNowNs
            && u.status.lastAuthorityMonotonicNs == s.status.lastAuthorityMonotonicNs
            && u.status.ageNs == s.status.ageNs && u.status.lastSkewNs == s.status.lastSkewNs
            && u.status.realTimeFactor == s.status.realTimeFactor
  {
  }

  lemma StationScalars(c: Startup, s: Guard, monotonicNs: u64, systemWallNs: u64)
    requires c.StationRequired() && StationFieldsPresent(c.config.thresholds)
    ensures var (u, ok) := ValidateStation(c, s, monotonicNs, systemWallNs);
            && Untold(s, u) && (ok <==> !StationFails(c, s, monotonicNs, systemWallNs))
            && (ok ==> u.status.ageNs == 0)
            && u.status.lastSkewNs == s.status.lastSkewNs
  {
    hide Refresh, StationReading, WallError, WallStep;
    RefreshTells(c, s.(stationHealthy := false));
    if ReadingTaken(c, monotonicNs, systemWallNs) {
      ReadingReports(c, s, monotonicNs, systemWallNs);
      var r := StationReading(c, s, monotonicNs, systemWallNs);
      RefreshTells(c, r.(stationHealthy := StationPasses(c, r)));
    }
  }

  lemma StationVerdict(c: Startup, s: Guard, monotonicNs: u64, systemWallNs: u64)
    requires c.Valid() && Inv(c, s) && c.StationRequired() && StationFieldsPresent(c.config.thresholds)
    ensures var (u, ok) := ValidateStation(c, s, monotonicNs, systemWallNs);
            && Untold(s, u) && (ok <==> !StationFails(c, s, monotonicNs, systemWallNs))
            && (ok ==> u.status.ageNs == 0 && Inv(c, u))
            && u.status.lastSkewNs == s.status.lastSkewNs
  {
    hide Startup.Valid, Inv, Core, ValidateStation, StationFails, ReadStation, StationPasses, Untold;
    StationValidation(c, s, monotonicNs, systemWallNs);
    StationScalars(c, s, monotonicNs, systemWallNs);
  }

  lemma AgeVerdict(c: Startup, s: Guard, u: Guard, monotonicNs: u64)
    requires Untold(s, u) && c.GazeboRequired() && GazeboMemory(c, s)
    requires u.status.ageNs == if c.StationRequired() then 0 else s.status.ageNs
    ensures var (v, check) := GazeboAge(c, u, monotonicNs);
            && Untold(s, v) && v.status.healthy == u.status.healthy && v.status.lastSkewNs == u.status.lastSkewNs
            && (check == Hopeless <==> SteadyFails(c, s, monotonicNs) || NeverStarted(c, s, monotonicNs))
            && (check == Stale && DeadlineExceeded(c, v) <==>
                  !SteadyFails(c, s, monotonicNs) && !NeverStarted(c, s, monotonicNs) && Aged(c, s, monotonicNs))
            && (check == Fresh <==>
                  && !SteadyFails(c, s, monotonicNs) && !NeverStarted(c, s, monotonicNs) && !Aged(c, s, monotonicNs)
                  && s.authorityState != Lost && s.haveGazeboClock && (c.config.runMode == Hybrid ==> s.haveGazeboRate))
            && (check == Fresh ==> v.status.ageNs == monotonicNs - s.lastGazeboMonotonicNs)
  {
  }

  // A route that a poll reaches.
  ghost predicate RoutesPolled(c: Startup, s: Guard, t: Guard, monotonicNs: u64)
    requires c.Valid() && s.routes.Keys == Table(c).Keys
  {
    && t.routes.Keys == s.routes.Keys
    && forall k :: k in s.routes ==> t.routes[k] == StepSlot(c, k, s.routes[k], PollOp(monotonicNs))
  }

  // ---- polls ----

  // What a poll does past the station: nothing, a failure, or a poll of every route.
  ghost predicate PollMoves(c: Startup, s: Guard, t: Guard, monotonicNs: u64)
    requires c.Valid() && s.routes.Keys == Table(c).Keys
  {
    var hard := SteadyFails(c, s, monotonicNs) || NeverStarted(c, s, monotonicNs);
    if hard || Aged(c, s, monotonicNs) then AuthorityFails(c, s, t, hard) && RoutesFail(c, s, t, hard)
    else
      && AuthorityStays(s, t)
      && if c.GazeboRequired() ==>
              s.authorityState != Lost && s.haveGazeboClock && (c.config.runMode == Hybrid ==> s.haveGazeboRate)
         then RoutesPolled(c, s, t, monotonicNs) else t.routes == s.routes
  }

  lemma PollCompletes(c: Startup, s: Guard, u: Guard, before: GuardState, monotonicNs: u64)
    requires c.Valid() && Held(c, s) && Untold(s, u)
    ensures var t := PollCompleted(c, u, before, monotonicNs);
            AuthorityStays(s, t) && RoutesPolled(c, s, t, monotonicNs)
  {
    hide Startup.Valid, Table, StepSlot, EmitTransition, SessionNow;
    var v := u.(routes := PollRoutes(c, u.routes, monotonicNs),
                status := u.status.(sessionNowNs := SessionNow(c, u, monotonicNs)));
    LogKeepsMachine(c, v, before, monotonicNs);
  }

  lemma PollPastStation(c: Startup, s: Guard, u: Guard, before: GuardState, monotonicNs: u64)
    requires c.Valid() && Held(c, s) && GazeboMemory(c, s) && Untold(s, u)
    requires u.status.ageNs == if c.StationRequired() then 0 else s.status.ageNs
    ensures PollMoves(c, s, PollFreshness(c, u, before, monotonicNs), monotonicNs)
  {
    hide Startup.Valid, Held, RoutesFail, AuthorityFails, Failing, PollCompleted, GazeboAge, SteadyFails, NeverStarted, Aged,
         GazeboMemory, DeadlineExceeded, RoutesPolled, Table;
    var (v, check) := GazeboAge(c, u, monotonicNs);
    if c.GazeboRequired() {
      AgeVerdict(c, s, u, monotonicNs);
      FailingIs(c, s, v, true, before, monotonicNs);
      FailingIs(c, s, v, false, before, monotonicNs);
    } else {
      AgeWithoutGazebo(c, s, u, monotonicNs);
    }
    PollCompletes(c, s, v, before, monotonicNs);
  }

  lemma AgeWithoutGazebo(c: Startup, s: Guard, u: Guard, monotonicNs: u64)
    requires !c.GazeboRequired()
    ensures GazeboAge(c, u, monotonicNs) == (u, Fresh)
    ensures !SteadyFails(c, s, monotonicNs) && !NeverStarted(c, s, monotonicNs) && !Aged(c, s, monotonicNs)
  {
  }

  // After every run a poll loses the authority and every route when the station
  // fails, the steady clock runs back or Gazebo never started; counts a failure of
  // both when Gazebo's clock is too old; polls every route when the authority is
  // usable; and does nothing otherwise.
  lemma PollVerdictIsExact(c: Startup, ops: seq<GuardOp>, monotonicNs: u64, systemWallNs: u64)
    requires c.Valid()
    ensures var s, op := After(c, ops), GuardPollOp(monotonicNs, systemWallNs);
            var t := After(c, ops + [op]);
            && Held(c, s)
            && (Breaks(c, s, op) ==> AuthorityFails(c, s, t, true) && RoutesFail(c, s, t, true))
            && (Slips(c, s, op) ==> AuthorityFails(c, s, t, false) && RoutesFail(c, s, t, false))
            && (!Breaks(c, s, op) && !Slips(c, s, op) ==>
                  AuthorityStays(s, t) && if Opens(c, s, op) then RoutesPolled(c, s, t, monotonicNs) else t.routes == s.routes)
  {
    hide Startup.Valid, After, Inv, Held, RoutesFail, AuthorityFails, Failing, PollFreshness, ValidateStation, StationFails,
         SteadyFails, NeverStarted, Aged, GazeboMemory, RoutesPolled, Table, Aggregate, Untold;
    var s := After(c, ops);
    RunInv(c, ops);
    RunExtends(c, ops, GuardPollOp(monotonicNs, systemWallNs));
    RoutesAreHeld(c, s);
    Remembered(c, s);
    ModeFacts(c);
    if c.StationRequired() {
      StationVerdict(c, s, monotonicNs, systemWallNs);
      var (u, ok) := ValidateStation(c, s, monotonicNs, systemWallNs);
      if ok {
        PollPastStation(c, s, u, Aggregate(s), monotonicNs);
      } else {
        FailingIs(c, s, u, true, Aggregate(s), monotonicNs);
      }
    } else {
      assert Untold(s, s) by { ItselfUntold(s); }
      PollPastStation(c, s, s, Aggregate(s), monotonicNs);
      NoStation(c, s, monotonicNs, systemWallNs);
    }
  }

  lemma ItselfUntold(s: Guard)
    ensures Untold(s, s)
  {
  }

  lemma NoStation(c: Startup, s: Guard, monotonicNs: u64, systemWallNs: u64)
    requires c.StationRequired() ==> StationFieldsPresent(c.config.thresholds)
    ensures !c.StationRequired() ==> !StationFails(c, s, monotonicNs, systemWallNs)
  {
  }

  lemma Remembered(c: Startup, s: Guard)
    requires c.Valid() && Inv(c, s)
    ensures GazeboMemory(c, s) && (s.status.healthy <==> s.authorityState == Locked)
  {
    hide Startup.Valid, RoutesSound, GazeboMemory, LockSupported, StationWithin;
  }

  // ---- observations ----

  // The sample as its route's mapper gets it.
  function Handed(c: Startup, s: Guard, o: Observation): Observation
    requires c.StationRequired() ==> o.monotonicNs >= c.monotonicNs
    requires c.GazeboRequired() ==> o.monotonicNs >= s.lastGazeboMonotonicNs
  {
    o.(sessionNs := if c.StationRequired() then StationNow(c, o.monotonicNs) else s.lastGazeboStampNs,
       gazeboStampNs := if c.GazeboRequired() then s.lastGazeboStampNs else 0,
       authorityAgeNs := if c.GazeboRequired() then o.monotonicNs - s.lastGazeboMonotonicNs else 0,
       gazeboSkewNs := if Simulated(c, o.slot) then Skew(s, o) else 0)
  }

  function Skew(s: Guard, o: Observation): i64 {
    Clamp(o.rawNs - s.lastGazeboStampNs, -I64_MAX, I64_MAX)
  }

  predicate Simulated(c: Startup, slot: string) {
    c.GazeboRequired() && slot in Table(c) && Table(c)[slot].sourceDomain == SimulationSource
  }

  // A simulated sample too far from the latest Gazebo stamp.
  predicate Skewed(c: Startup, s: Guard, o: Observation)
    requires c.GazeboRequired() ==> c.config.thresholds.maxGazeboClockSkewNs.Some?
  {
    Simulated(c, o.slot) && Magnitude(Skew(s, o)) > c.config.thresholds.maxGazeboClockSkewNs.value
  }

  // Every route but one is as it was.
  predicate OthersStay(s: Guard, t: Guard, slot: string) {
    t.routes.Keys == s.routes.Keys && forall k :: k in s.routes && k != slot ==> t.routes[k] == s.routes[k]
  }

  // What an observation does to its route behind a usable authority, and whether it
  // is accepted and may be published.
  ghost predicate RouteMoves(c: Startup, s: Guard, t: Guard, o: Observation, e: TimestampEnvelope)
    requires c.Valid() && Known(c, s, o.slot)
  {
    ModeFacts(c);
    RouteConfigIsValid(c, Table(c)[o.slot]);
    var m := RouteConfig(c, Table(c)[o.slot]);
    && (c.StationRequired() ==> o.monotonicNs >= c.monotonicNs)
    && (c.GazeboRequired() ==> o.monotonicNs >= s.lastGazeboMonotonicNs)
    && OthersStay(s, t, o.slot) && o.slot in t.routes
    && if Skewed(c, s, o) then RouteFails(c, s, t, o.slot, false) && !e.accepted && !e.canonicalPublishAllowed
       else
         && t.routes[o.slot] == Step(m, s.routes[o.slot], ObserveOp(Handed(c, s, o)))
         && (e.accepted <==> EnvelopeOf(m, s.routes[o.slot], Handed(c, s, o)).accepted)
         && (e.canonicalPublishAllowed <==> e.accepted && SensitiveOutputAllowed(t))
  }

  lemma MapMoves(c: Startup, s: Guard, u: Guard, o: Observation, given: Observation, before: GuardState)
    requires c.Valid() && Known(c, s, o.slot) && Untold(s, u) && given.slot == o.slot
    requires c.StationRequired() ==> o.monotonicNs >= c.monotonicNs
    requires c.GazeboRequired() ==> o.monotonicNs >= s.lastGazeboMonotonicNs
    requires c.GazeboRequired() ==> c.config.thresholds.maxGazeboClockSkewNs.Some?
    requires given == Handed(c, s, o) && !Skewed(c, s, o)
    ensures var (t, e) := MapObservation(c, u, given, before); RouteMoves(c, s, t, o, e) && AuthorityStays(s, t)
  {
    hide Startup.Valid, Table, RouteConfig, Step, EmitTransition, EnvelopeOf, Handed, Skewed, MapperConfigValid;
    RouteConfigIsValid(c, Table(c)[o.slot]);
    var v := StepRoute(c, u, o.slot, ObserveOp(given));
    LogKeepsMachine(c, v, before, given.monotonicNs);
    var t := EmitTransition(c, v, before, given.monotonicNs);
    SameOutput(v, t);
  }

  lemma SameOutput(v: Guard, t: Guard)
    requires t == v.(nextSequence := t.nextSequence, pending := t.pending)
    ensures SensitiveOutputAllowed(t) == SensitiveOutputAllowed(v)
  {
  }

  lemma SkewMoves(c: Startup, s: Guard, u: Guard, o: Observation, given: Observation, before: GuardState)
    requires c.Valid() && Known(c, s, o.slot) && Untold(s, u) && given.slot == o.slot
    requires c.StationRequired() ==> o.monotonicNs >= c.monotonicNs
    requires c.GazeboRequired() ==> o.monotonicNs >= s.lastGazeboMonotonicNs
    requires c.GazeboRequired() ==> c.config.thresholds.maxGazeboClockSkewNs.Some?
    requires Skewed(c, s, o)
    ensures var (t, e) := SkewFailure(c, u, given, before); RouteMoves(c, s, t, o, e) && AuthorityStays(s, t)
  {
    hide Startup.Valid, Table, RouteConfig, Step, EmitTransition, EnvelopeOf, Handed, Skewed, MapperConfigValid, Fails;
    RouteConfigIsValid(c, Table(c)[o.slot]);
    FailureIsExact(RouteConfig(c, Table(c)[o.slot]), s.routes[o.slot], false);
    var v := StepRoute(c, u, o.slot, AuthorityFailureOp(false));
    LogKeepsMachine(c, v, before, given.monotonicNs);
  }

  lemma SkewIs(c: Startup, s: Guard, o: Observation)
    ensures SignedDifference(o.rawNs, s.lastGazeboStampNs) == Skew(s, o)
  {
  }

  // The sample past the station.
  predicate PastStation(c: Startup, o: Observation, given: Observation) {
    && given == Cleared(o).(sessionNs := given.sessionNs)
    && (c.StationRequired() ==> o.monotonicNs >= c.monotonicNs && given.sessionNs == StationNow(c, o.monotonicNs))
    && (!c.StationRequired() ==> given.sessionNs == 0)
  }

  // What the guard adds behind a usable Gazebo clock makes the sample the one its
  // mapper gets.
  lemma EnrichedIsHanded(c: Startup, s: Guard, u: Guard, o: Observation, given: Observation)
    requires Untold(s, u) && PastStation(c, o, given) && o.slot in Table(c)
    requires c.GazeboRequired() && u.status.ageNs == o.monotonicNs - s.lastGazeboMonotonicNs
    requires c.StationRequired() <==> c.config.runMode != Simulation
    requires c.config.thresholds.maxGazeboClockSkewNs.Some?
    ensures var enriched := Enriched(c, u, given);
            && (!Simulated(c, o.slot) ==> enriched == Handed(c, s, o) && !Skewed(c, s, o))
            && (Simulated(c, o.slot) ==> enriched.(gazeboSkewNs := Skew(s, o)) == Handed(c, s, o))
  {
    hide Table, StationNow, Skew;
  }

  lemma GateMoves(c: Startup, s: Guard, u: Guard, o: Observation, given: Observation, before: GuardState)
    requires c.Valid() && Known(c, s, o.slot) && Untold(s, u) && PastStation(c, o, given)
    requires c.GazeboRequired() && u.status.ageNs == o.monotonicNs - s.lastGazeboMonotonicNs
    ensures var (t, e) := GateSkew(c, u, given, before); RouteMoves(c, s, t, o, e) && AuthorityStays(s, t)
  {
    hide Startup.Valid, MapObservation, SkewFailure, Table, RouteMoves, Skew, StationNow, Handed, Enriched, GateSkew, Untold,
         WithSkew, Skewed, Simulated, AuthorityStays;
    ModeFacts(c);
    EnrichedIsHanded(c, s, u, o, given);
    var enriched := Enriched(c, u, given);
    EnrichedSlot(c, s, u, o, given, before);
    if !Simulated(c, o.slot) {
      MapMoves(c, s, u, o, enriched, before);
    } else if Skewed(c, s, o) {
      SkewMoves(c, s, WithSkew(u, Skew(s, o)), o, enriched.(gazeboSkewNs := Skew(s, o)), before);
    } else {
      MapMoves(c, s, WithSkew(u, Skew(s, o)), o, enriched.(gazeboSkewNs := Skew(s, o)), before);
    }
  }

  // The three ways past the skew.
  lemma EnrichedSlot(c: Startup, s: Guard, u: Guard, o: Observation, given: Observation, before: GuardState)
    requires c.Valid() && Known(c, s, o.slot) && Untold(s, u) && PastStation(c, o, given) && c.GazeboRequired()
    requires c.config.thresholds.maxGazeboClockSkewNs.Some?
    ensures var enriched, skew := Enriched(c, u, given), Skew(s, o);
            && enriched.slot == o.slot && Untold(s, WithSkew(u, skew)) && Known(c, u, given.slot)
            && o.monotonicNs == given.monotonicNs
            && GateSkew(c, u, given, before) ==
                 if !Simulated(c, o.slot) then MapObservation(c, u, enriched, before)
                 else if Skewed(c, s, o) then SkewFailure(c, WithSkew(u, skew), enriched.(gazeboSkewNs := skew), before)
                 else MapObservation(c, WithSkew(u, skew), enriched.(gazeboSkewNs := skew), before)
  {
    hide Startup.Valid, MapObservation, SkewFailure, Table, SignedDifference, Skew, StationNow;
    SkewIs(c, s, o);
  }

  // What an observation does past the station.
  ghost predicate ObservationMoves(c: Startup, s: Guard, t: Guard, o: Observation, e: TimestampEnvelope)
    requires c.Valid() && Held(c, s) && Known(c, s, o.slot)
    requires c.StationRequired() ==> o.monotonicNs >= c.monotonicNs
  {
    var hard := SteadyFails(c, s, o.monotonicNs) || NeverStarted(c, s, o.monotonicNs);
    if hard || Aged(c, s, o.monotonicNs)
    then AuthorityFails(c, s, t, hard) && RoutesFail(c, s, t, hard) && !e.accepted && !e.canonicalPublishAllowed
    else
      && AuthorityStays(s, t)
      && if c.GazeboRequired() ==>
              s.authorityState == Locked && s.haveGazeboClock && (c.config.runMode == Hybrid ==> s.haveGazeboRate)
         then RouteMoves(c, s, t, o, e) else t.routes == s.routes && !e.accepted && !e.canonicalPublishAllowed
  }

  lemma RefusalRefuses(c: Startup, t: Guard, o: Observation)
    requires Known(c, t, o.slot)
    ensures var e := AuthorityEnvelope(c, t, o); !e.accepted && !e.canonicalPublishAllowed
  {
    hide Table, RouteConfig;
  }

  lemma ObservationPastStation(c: Startup, s: Guard, u: Guard, o: Observation, given: Observation, before: GuardState)
    requires c.Valid() && Held(c, s) && GazeboMemory(c, s) && Untold(s, u) && Known(c, s, o.slot) && PastStation(c, o, given)
    requires u.status.ageNs == if c.StationRequired() then 0 else s.status.ageNs
    requires u.status.healthy <==> u.authorityState == Locked
    ensures var (t, e) := GateGazebo(c, u, given, before); ObservationMoves(c, s, t, o, e)
  {
    hide Startup.Valid, Held, RoutesFail, AuthorityFails, Failing, GazeboAge, SteadyFails, NeverStarted, Aged, Handed,
         GazeboMemory, DeadlineExceeded, RouteMoves, Table, AuthorityEnvelope, MapObservation, GateSkew;
    if c.GazeboRequired() {
      var (v, check) := GazeboAge(c, u, given.monotonicNs);
      AgeVerdict(c, s, u, given.monotonicNs);
      FailingIs(c, s, v, true, before, given.monotonicNs);
      FailingIs(c, s, v, false, before, given.monotonicNs);
      if check == Fresh && v.status.healthy {
        GateMoves(c, s, v, o, given, before);
      } else {
        var t := GateGazebo(c, u, given, before).0;
        RefusalRefuses(c, t, given);
      }
    } else {
      AgeWithoutGazebo(c, s, u, given.monotonicNs);
      PhysicalHanded(c, s, o, given);
      MapMoves(c, s, u, o, given, before);
    }
  }

  lemma PhysicalHanded(c: Startup, s: Guard, o: Observation, given: Observation)
    requires c.Valid() && !c.GazeboRequired() && PastStation(c, o, given)
    ensures given == Handed(c, s, o) && !Skewed(c, s, o) && c.StationRequired()
  {
    hide ThresholdPolicyValid, RoutesValid, SourceTimingValid, StationNow, Skew, Table;
  }

  // After every run an observation of a frozen route loses the authority and every
  // route when the station fails, the steady clock runs back or Gazebo never
  // started, and counts a failure of both when Gazebo's clock is too old. Otherwise
  // it moves no route but its own, and that one only behind a locked authority: a
  // simulated sample too far from Gazebo's stamp is a failure of the route, and any
  // other is judged by the route's mapper with the station's or Gazebo's Session
  // time, Gazebo's age and its own skew.
  lemma ObservationVerdictIsExact(c: Startup, ops: seq<GuardOp>, o: Observation)
    requires c.Valid() && o.slot in Table(c)
    ensures var s, op, (t, e) := After(c, ops), RouteOp(o), ObserveRoute(c, After(c, ops), o);
            && Held(c, s)
            && (Breaks(c, s, op) ==> AuthorityFails(c, s, t, true) && RoutesFail(c, s, t, true))
            && (Slips(c, s, op) ==> AuthorityFails(c, s, t, false) && RoutesFail(c, s, t, false))
            && (!Breaks(c, s, op) && !Slips(c, s, op) ==>
                  && AuthorityStays(s, t)
                  && if Asks(c, s, op) then RouteMoves(c, s, t, o, e) else t.routes == s.routes)
            && (!Asks(c, s, op) ==> !e.accepted && !e.canonicalPublishAllowed)
  {
    hide Startup.Valid, After, Inv, Held, RoutesFail, AuthorityFails, Failing, GateGazebo, ValidateStation, StationFails,
         SteadyFails, NeverStarted, Aged, GazeboMemory, RouteMoves, Table, Aggregate, AuthorityEnvelope;
    var s := After(c, ops);
    RunInv(c, ops);
    RoutesAreHeld(c, s);
    SoundKeys(c, s);
    Remembered(c, s);
    ModeFacts(c);
    if c.StationRequired() {
      StationVerdict(c, s, o.monotonicNs, o.systemWallNs);
      var (u, ok) := ValidateStation(c, s, o.monotonicNs, o.systemWallNs);
      if ok {
        Remembered(c, u);
        ReadFor(c, s, u, o);
        ObservationPastStation(c, s, u, o, Cleared(o).(sessionNs := SessionNow(c, u, o.monotonicNs)), Aggregate(s));
      } else {
        FailingIs(c, s, u, true, Aggregate(s), o.monotonicNs);
        RefusalRefuses(c, Failing(c, u, true, Aggregate(s), o.monotonicNs), Cleared(o));
      }
    } else {
      ItselfUntold(s);
      NoStation(c, s, o.monotonicNs, o.systemWallNs);
      ObservationPastStation(c, s, s, o, Cleared(o), Aggregate(s));
    }
  }

  // The operation reaches a route's own mapper, or its skew check.
  ghost predicate Asks(c: Startup, s: Guard, op: GuardOp)
    requires c.Valid()
  {
    op.RouteOp? && op.observation.slot in Table(c) && Opens(c, s, op) && (c.GazeboRequired() ==> s.authorityState == Locked)
  }

  lemma ReadFor(c: Startup, s: Guard, u: Guard, o: Observation)
    requires c.StationRequired() && StationFieldsPresent(c.config.thresholds)
    requires !StationFails(c, s, o.monotonicNs, o.systemWallNs)
    ensures PastStation(c, o, Cleared(o).(sessionNs := SessionNow(c, u, o.monotonicNs)))
  {
    hide WallError, WallStep;
  }

  // ---- clocks ----

  ghost predicate ClockTakenBy(c: Startup, s: Guard, t: Guard, o: GazeboObservation) {
    && t.haveGazeboClock && t.lastGazeboStampNs == o.stampNs && t.lastGazeboMonotonicNs == o.monotonicNs
    && t.haveGazeboRate == (c.config.runMode == Hybrid && s.haveGazeboClock)
    && t.routes == s.routes
    && if c.config.runMode == Simulation || s.haveGazeboClock then AuthorityVouched(c, s, t) else AuthorityStays(s, t)
  }

  lemma AcceptanceTakes(c: Startup, s: Guard, u: Guard, o: GazeboObservation, factor: real, haveRate: bool, before: GuardState)
    requires c.GazeboRequired() && Untold(s, u)
    requires haveRate == (c.config.runMode == Hybrid && s.haveGazeboClock)
    ensures var t := EmitTransition(c, AcceptClock(c, u, o, factor, haveRate), before, o.monotonicNs); ClockTakenBy(c, s, t, o)
  {
    hide EmitTransition, SessionNow;
    LogKeepsMachine(c, AcceptClock(c, u, o, factor, haveRate), before, o.monotonicNs);
  }

  lemma RateOffIs(c: Startup, s: Guard, u: Guard, o: GazeboObservation)
    requires Untold(s, u) && c.config.runMode == Hybrid && RateFieldsPresent(c.config.thresholds)
    requires s.haveGazeboClock && s.lastGazeboStampNs <= o.stampNs && s.lastGazeboMonotonicNs < o.monotonicNs
    ensures RateFails(c, RealTimeFactor(u, o)) <==> RateOff(c, s, o)
  {
    var rise, run := (o.stampNs - s.lastGazeboStampNs) as real, (o.monotonicNs - s.lastGazeboMonotonicNs) as real;
    QuotientCompares(rise, run, c.config.thresholds.minGazeboRealTimeFactor.value);
    QuotientCompares(rise, run, c.config.thresholds.maxGazeboRealTimeFactor.value);
  }

  lemma QuotientCompares(rise: real, run: real, limit: real)
    requires run > 0.0
    ensures rise / run < limit <==> rise < limit * run
    ensures rise / run > limit <==> rise > limit * run
  {
    var q := rise / run;
    assert q * run == rise;
    assert (q - limit) * run == rise - limit * run;
  }

  // What a clock does past the station.
  ghost predicate ClockMoves(c: Startup, s: Guard, t: Guard, o: GazeboObservation, admitted: bool)
    requires c.Valid() && Held(c, s)
  {
    ModeFacts(c);
    var hard := || o.monotonicNs == 0 || o.monotonicNs < c.monotonicNs
                || (if s.haveGazeboClock then o.monotonicNs <= s.lastGazeboMonotonicNs || o.stampNs < s.lastGazeboStampNs
                    else o.monotonicNs - c.monotonicNs > c.config.thresholds.startupLockTimeoutNs);
    var soft := !hard && s.haveGazeboClock && (o.stampNs == s.lastGazeboStampNs || RateOff(c, s, o));
    && (admitted <==> !hard && !soft && o.stampNs != 0)
    && if hard || soft then AuthorityFails(c, s, t, hard) && RoutesFail(c, s, t, hard)
       else if o.stampNs != 0 then ClockTakenBy(c, s, t, o)
       else AuthorityStays(s, t) && t.routes == s.routes
  }

  lemma ClockPastStation(c: Startup, s: Guard, u: Guard, o: GazeboObservation, before: GuardState)
    requires c.Valid() && Held(c, s) && GazeboMemory(c, s) && Untold(s, u) && c.GazeboRequired()
    ensures var (t, admitted) := AdmitClock(c, u, o, before); ClockMoves(c, s, t, o, admitted)
  {
    hide Startup.Valid, Held, RoutesFail, AuthorityFails, Failing, AcceptClock, ClockTakenBy, EmitTransition, RateFails, RateOff,
         Refresh, RealTimeFactor, Table;
    ModeFacts(c);
    FailingIs(c, s, u, true, before, o.monotonicNs);
    FailingIs(c, s, u, false, before, o.monotonicNs);
    RefreshTells(c, u);
    if !ReceiptFails(c, u, o) && o.stampNs != 0 {
      if !s.haveGazeboClock || (o.stampNs > s.lastGazeboStampNs && c.config.runMode != Hybrid) {
        AcceptanceTakes(c, s, u, o, 0.0, u.haveGazeboRate, before);
      } else if o.stampNs > s.lastGazeboStampNs {
        var factor := RealTimeFactor(u, o);
        var measured := u.(status := u.status.(realTimeFactor := factor));
        RateOffIs(c, s, u, o);
        FailingIs(c, s, measured, false, before, o.monotonicNs);
        AcceptanceTakes(c, s, measured, o, factor, true, before);
      }
    }
    RateOnlyHybrid(c, s, o);
  }

  lemma RateOnlyHybrid(c: Startup, s: Guard, o: GazeboObservation)
    ensures c.config.runMode != Hybrid ==> !RateOff(c, s, o)
  {
  }

  // After every run a Gazebo clock loses the authority and every route when the
  // station fails in hybrid mode, the steady clock does not advance, the stamp runs
  // back or the first one is overdue; counts a failure of both when the stamp
  // repeats or its rate is off; is taken otherwise, unless it is zero before the
  // first, and vouches for the authority, in hybrid mode from the second one on.
  lemma ClockVerdictIsExact(c: Startup, ops: seq<GuardOp>, o: GazeboObservation)
    requires c.Valid()
    ensures var s, op, (t, admitted) := After(c, ops), GazeboClockOp(o), ObserveGazebo(c, After(c, ops), o);
            && Held(c, s)
            && (Breaks(c, s, op) ==> AuthorityFails(c, s, t, true) && RoutesFail(c, s, t, true))
            && (Slips(c, s, op) ==> AuthorityFails(c, s, t, false) && RoutesFail(c, s, t, false))
            && (admitted <==> Takes(c, s, op))
            && (Takes(c, s, op) ==> ClockTakenBy(c, s, t, o))
            && (!Breaks(c, s, op) && !Slips(c, s, op) && !Takes(c, s, op) ==> AuthorityStays(s, t) && t.routes == s.routes)
  {
    hide Startup.Valid, After, Inv, Held, RoutesFail, AuthorityFails, Failing, AdmitClock, ValidateStation, StationFails,
         GazeboMemory, Table, Aggregate, Untold, ClockTakenBy, RateOff;
    var s := After(c, ops);
    RunInv(c, ops);
    RoutesAreHeld(c, s);
    Remembered(c, s);
    ModeFacts(c);
    if c.GazeboRequired() {
      if c.config.runMode == Hybrid {
        StationVerdict(c, s, o.monotonicNs, o.systemWallNs);
        var (u, ok) := ValidateStation(c, s, o.monotonicNs, o.systemWallNs);
        if ok {
          ClockPastStation(c, s, u, o, Aggregate(s));
        } else {
          FailingIs(c, s, u, true, Aggregate(s), o.monotonicNs);
        }
      } else {
        ItselfUntold(s);
        ClockPastStation(c, s, s, o, Aggregate(s));
      }
    }
  }

  // The epoch fence loses the authority and every route.
  lemma FenceVerdictIsExact(c: Startup, ops: seq<GuardOp>, monotonicNs: u64)
    requires c.Valid()
    ensures var s, t := After(c, ops), After(c, ops + [FailEpochFenceOp(monotonicNs)]);
            Held(c, s) && AuthorityFails(c, s, t, true) && RoutesFail(c, s, t, true)
  {
    hide Startup.Valid, After, Inv, Held, RoutesFail, AuthorityFails, Failing, Table, Aggregate;
    var s := After(c, ops);
    RunInv(c, ops);
    RoutesAreHeld(c, s);
    RunExtends(c, ops, FailEpochFenceOp(monotonicNs));
    ItselfUntold(s);
    FailingIs(c, s, s, true, Aggregate(s), monotonicNs);
  }
}
