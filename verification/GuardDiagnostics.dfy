// What every operation leaves in the authority's reported diagnostics, and in the
// answer to an observation, after every run
// (src/core/session_clock_guard.cpp:180-296, 355-650).
module GuardDiagnostics {
  import opened Numbers
  import opened Types
  import opened Policy
  import opened MapperSpec
  import opened GuardSpec
  import opened GuardInvariant
  import opened GuardRuns
  import opened GuardFeeds
  import opened GuardAnswers
  import opened GuardVerdicts

  // ---- what a report says ----

  // The wall error and the wall step: those of a new reading of the station clock,
  // or as they were.
  predicate TellsStation(c: Startup, s: Guard, t: Guard, monotonicNs: u64, systemWallNs: u64) {
    if ReadingTaken(c, monotonicNs, systemWallNs) then
      && t.status.wallErrorNs == t.lastWallErrorNs == WallError(c, monotonicNs, systemWallNs)
      && t.status.wallStepNs == WallStep(c, s, monotonicNs, systemWallNs)
    else SameWall(s, t) && t.status.wallErrorNs == s.status.wallErrorNs
  }

  // The time of the latest reading and the Session time: those of a new reading of
  // the station clock, or else the given ones.
  predicate TellsTime(c: Startup, t: Guard, monotonicNs: u64, systemWallNs: u64, latest: u64, sessionNs: u64) {
    if ReadingTaken(c, monotonicNs, systemWallNs)
    then t.status.lastAuthorityMonotonicNs == monotonicNs && t.status.sessionNowNs == StationNow(c, monotonicNs)
    else t.status.lastAuthorityMonotonicNs == latest && t.status.sessionNowNs == sessionNs
  }

  // The age of the Gazebo clock, or of the guard before the first one; zero after a
  // reading of the station alone.
  predicate TellsAge(c: Startup, s: Guard, t: Guard, monotonicNs: u64, systemWallNs: u64)
    requires c.StationRequired() ==> StationFieldsPresent(c.config.thresholds)
  {
    t.status.ageNs ==
      if c.GazeboRequired() && !StationFails(c, s, monotonicNs, systemWallNs) && !SteadyFails(c, s, monotonicNs)
         && s.authorityState != Lost
      then monotonicNs - (if s.haveGazeboClock then s.lastGazeboMonotonicNs else c.monotonicNs)
      else if ReadingTaken(c, monotonicNs, systemWallNs) then 0
      else s.status.ageNs
  }

  // Nothing reported has changed but the state and the counters.
  predicate SameReport(s: Guard, t: Guard) {
    && SameWall(s, t) && t.status.wallErrorNs == s.status.wallErrorNs
    && t.status.lastAuthorityMonotonicNs == s.status.lastAuthorityMonotonicNs
    && t.status.sessionNowNs == s.status.sessionNowNs
    && t.status.ageNs == s.status.ageNs && t.status.lastSkewNs == s.status.lastSkewNs
    && t.status.realTimeFactor == s.status.realTimeFactor
  }

  // ---- what reports nothing ----

  lemma LogTellsNothing(c: Startup, u: Guard, before: GuardState, monotonicNs: u64)
    ensures SameReport(u, EmitTransition(c, u, before, monotonicNs))
  {
    hide EmitTransition;
    LogKeepsMachine(c, u, before, monotonicNs);
  }

  lemma FailingTellsNothing(c: Startup, u: Guard, immediate: bool, before: GuardState, monotonicNs: u64)
    requires c.Valid()
    ensures SameReport(u, Failing(c, u, immediate, before, monotonicNs))
  {
    hide Startup.Valid, EmitTransition, FailRoutes;
    LogTellsNothing(c, FailAuthority(c, u, immediate), before, monotonicNs);
  }

  lemma StationTells(c: Startup, s: Guard, monotonicNs: u64, systemWallNs: u64)
    requires c.StationRequired() && StationFieldsPresent(c.config.thresholds)
    ensures var u := ValidateStation(c, s, monotonicNs, systemWallNs).0;
            && TellsStation(c, s, u, monotonicNs, systemWallNs)
            && TellsTime(c, u, monotonicNs, systemWallNs, s.status.lastAuthorityMonotonicNs, s.status.sessionNowNs)
            && u.status.ageNs == (if ReadingTaken(c, monotonicNs, systemWallNs) then 0 else s.status.ageNs)
            && u.status.lastSkewNs == s.status.lastSkewNs && u.status.realTimeFactor == s.status.realTimeFactor
  {
    hide Refresh, StationReading, WallError, WallStep, StationNow, StationPasses;
    RefreshTells(c, s.(stationHealthy := false));
    if ReadingTaken(c, monotonicNs, systemWallNs) {
      ReadingReports(c, s, monotonicNs, systemWallNs);
      var r := StationReading(c, s, monotonicNs, systemWallNs);
      RefreshTells(c, r.(stationHealthy := StationPasses(c, r)));
    }
  }

  lemma AgeTells(c: Startup, s: Guard, u: Guard, monotonicNs: u64)
    requires Untold(s, u)
    ensures var v := GazeboAge(c, u, monotonicNs).0;
            && v == u.(status := u.status.(ageNs := v.status.ageNs))
            && v.status.ageNs ==
                 if c.GazeboRequired() && !SteadyFails(c, s, monotonicNs) && s.authorityState != Lost
                 then monotonicNs - (if s.haveGazeboClock then s.lastGazeboMonotonicNs else c.monotonicNs)
                 else u.status.ageNs
  {
  }

  // ---- past the station ----

  lemma PollTells(c: Startup, s: Guard, u: Guard, before: GuardState, monotonicNs: u64)
    requires c.Valid() && Untold(s, u)
    ensures var v, t := GazeboAge(c, u, monotonicNs).0, PollFreshness(c, u, before, monotonicNs);
            SameReport(v.(status := v.status.(sessionNowNs := t.status.sessionNowNs)), t)
            && t.status.sessionNowNs == if GazeboAge(c, u, monotonicNs).1 == Fresh then SessionNow(c, v, monotonicNs)
                                        else v.status.sessionNowNs
  {
    hide Startup.Valid, Failing, GazeboAge, PollRoutes, EmitTransition, SessionNow, DeadlineExceeded, Untold;
    var (v, check) := GazeboAge(c, u, monotonicNs);
    FailingTellsNothing(c, v, true, before, monotonicNs);
    FailingTellsNothing(c, v, false, before, monotonicNs);
    var w := v.(routes := PollRoutes(c, v.routes, monotonicNs),
                status := v.status.(sessionNowNs := SessionNow(c, v, monotonicNs)));
    LogTellsNothing(c, w, before, monotonicNs);
  }

  lemma MapTells(c: Startup, u: Guard, o: Observation, before: GuardState)
    requires c.Valid() && Known(c, u, o.slot)
    ensures SameReport(u, MapObservation(c, u, o, before).0) && SameReport(u, SkewFailure(c, u, o, before).0)
  {
    hide Startup.Valid, Table, StepSlot, EnvelopeOf, EmitTransition, MakeEnvelope, SensitiveOutputAllowed;
    LogTellsNothing(c, StepRoute(c, u, o.slot, ObserveOp(o)), before, o.monotonicNs);
    LogTellsNothing(c, StepRoute(c, u, o.slot, AuthorityFailureOp(false)), before, o.monotonicNs);
  }

  // The report of v, but for the skew.
  predicate SameButSkew(v: Guard, t: Guard, skew: i64) {
    SameReport(v.(status := v.status.(lastSkewNs := skew)), t)
  }

  lemma SkewTells(c: Startup, s: Guard, u: Guard, o: Observation, given: Observation, before: GuardState)
    requires c.Valid() && Known(c, s, o.slot) && Untold(s, u) && PastStation(c, o, given) && c.GazeboRequired()
    ensures var t := GateSkew(c, u, given, before).0;
            SameButSkew(u, t, if Simulated(c, o.slot) then Skew(s, o) else u.status.lastSkewNs)
  {
    hide Startup.Valid, Table, MapObservation, SkewFailure, Enriched, GateSkew, StationNow, Skew, Skewed;
    ModeFacts(c);
    var enriched := Enriched(c, u, given);
    EnrichedSlot(c, s, u, o, given, before);
    MapTells(c, u, enriched, before);
    MapTells(c, WithSkew(u, Skew(s, o)), enriched.(gazeboSkewNs := Skew(s, o)), before);
  }

  // The gate refuses, or hands a fresh sample on.
  lemma GateRefusalTells(c: Startup, u: Guard, given: Observation, before: GuardState)
    requires c.Valid() && Known(c, u, given.slot) && c.GazeboRequired()
    ensures var (v, check), t := GazeboAge(c, u, given.monotonicNs), GateGazebo(c, u, given, before).0;
            if check == Fresh && v.status.healthy then Known(c, v, given.slot) && t == GateSkew(c, v, given, before).0
            else SameReport(v, t)
  {
    hide Startup.Valid, Table, GateSkew, Failing, AuthorityEnvelope, DeadlineExceeded, GazeboAge, SameReport;
    var v := GazeboAge(c, u, given.monotonicNs).0;
    FailingTellsNothing(c, v, true, before, given.monotonicNs);
    FailingTellsNothing(c, v, false, before, given.monotonicNs);
    AsReported(v);
  }

  lemma AsReported(v: Guard)
    ensures SameReport(v, v)
  {
  }

  lemma ReportWithItsSkew(v: Guard, t: Guard)
    requires SameReport(v, t)
    ensures SameButSkew(v, t, v.status.lastSkewNs)
  {
  }

  lemma GateTells(c: Startup, s: Guard, u: Guard, o: Observation, given: Observation, before: GuardState)
    requires c.Valid() && Known(c, s, o.slot) && Untold(s, u) && PastStation(c, o, given)
    ensures var (v, check), t := GazeboAge(c, u, o.monotonicNs), GateGazebo(c, u, given, before).0;
            SameButSkew(v, t, if check == Fresh && v.status.healthy && Simulated(c, o.slot) then Skew(s, o)
                              else u.status.lastSkewNs)
  {
    hide Startup.Valid, Table, MapObservation, GateSkew, GateGazebo, GazeboAge, StationNow, Skew, SameReport, SameButSkew;
    AgeTells(c, s, u, o.monotonicNs);
    var v := GazeboAge(c, u, o.monotonicNs).0;
    AgedUntold(s, u, v);
    var t := GateGazebo(c, u, given, before).0;
    if c.GazeboRequired() {
      GateRefusalTells(c, u, given, before);
      SkewTells(c, s, v, o, given, before);
      if SameReport(v, t) { ReportWithItsSkew(v, t); }
    } else {
      AgeWithoutGazebo(c, s, u, o.monotonicNs);
      PhysicalTells(c, u, given, before);
      ReportWithItsSkew(u, t);
    }
  }

  lemma PhysicalTells(c: Startup, u: Guard, given: Observation, before: GuardState)
    requires c.Valid() && Known(c, u, given.slot) && !c.GazeboRequired()
    ensures SameReport(u, GateGazebo(c, u, given, before).0)
  {
    hide Startup.Valid, Table, MapObservation, SameReport;
    MapTells(c, u, given, before);
  }

  lemma AgedUntold(s: Guard, u: Guard, v: Guard)
    requires Untold(s, u) && v == u.(status := u.status.(ageNs := v.status.ageNs))
    ensures Untold(s, v) && v.status.lastSkewNs == u.status.lastSkewNs
  {
  }

  // ---- after every run ----

  // A poll reports a reading of the station clock, if one is taken, the age of
  // Gazebo's clock as long as the authority is not lost, and nothing else new; an
  // unstationed guard's completed poll reports Gazebo's latest stamp as Session time.
  lemma PollDiagnosticsAreExact(c: Startup, ops: seq<GuardOp>, monotonicNs: u64, systemWallNs: u64)
    requires c.Valid()
    ensures var s, op := After(c, ops), GuardPollOp(monotonicNs, systemWallNs);
            var t := After(c, ops + [op]);
            && (c.StationRequired() ==> StationFieldsPresent(c.config.thresholds))
            && TellsStation(c, s, t, monotonicNs, systemWallNs) && TellsAge(c, s, t, monotonicNs, systemWallNs)
            && TellsTime(c, t, monotonicNs, systemWallNs, s.status.lastAuthorityMonotonicNs,
                         if !c.StationRequired() && Opens(c, s, op) then s.lastGazeboStampNs else s.status.sessionNowNs)
            && t.status.lastSkewNs == s.status.lastSkewNs && t.status.realTimeFactor == s.status.realTimeFactor
  {
    hide Startup.Valid, After, Inv, Failing, PollFreshness, ValidateStation, StationFails, GazeboAge, Opens,
         SteadyFails, NeverStarted, Aged, GazeboMemory, Table, Aggregate, Untold, WallError, WallStep, StationNow;
    var s := After(c, ops);
    RunInv(c, ops);
    RunExtends(c, ops, GuardPollOp(monotonicNs, systemWallNs));
    ModeFacts(c);
    if c.StationRequired() {
      StationTells(c, s, monotonicNs, systemWallNs);
      StationVerdict(c, s, monotonicNs, systemWallNs);
      var (u, ok) := ValidateStation(c, s, monotonicNs, systemWallNs);
      FailingTellsNothing(c, u, true, Aggregate(s), monotonicNs);
      if ok {
        PassedReading(c, s, monotonicNs, systemWallNs);
        PollTells(c, s, u, Aggregate(s), monotonicNs);
        AgeTells(c, s, u, monotonicNs);
        WallReading(c, GazeboAge(c, u, monotonicNs).0, monotonicNs, systemWallNs);
      }
    } else {
      ItselfUntold(s);
      NoStation(c, s, monotonicNs, systemWallNs);
      PollTells(c, s, s, Aggregate(s), monotonicNs);
      AgeTells(c, s, s, monotonicNs);
      UnstationedOpens(c, s, monotonicNs, systemWallNs);
    }
  }

  lemma PassedReading(c: Startup, s: Guard, monotonicNs: u64, systemWallNs: u64)
    requires c.StationRequired() && StationFieldsPresent(c.config.thresholds)
    requires !StationFails(c, s, monotonicNs, systemWallNs)
    ensures ReadingTaken(c, monotonicNs, systemWallNs)
  {
    hide WallError, WallStep;
  }

  lemma UnstationedOpens(c: Startup, s: Guard, monotonicNs: u64, systemWallNs: u64)
    requires c.Valid() && Inv(c, s) && !c.StationRequired()
    ensures GazeboAge(c, s, monotonicNs).1 == Fresh <==> Opens(c, s, GuardPollOp(monotonicNs, systemWallNs))
    ensures SessionNow(c, GazeboAge(c, s, monotonicNs).0, monotonicNs) == s.lastGazeboStampNs
  {
    hide ThresholdPolicyValid, RoutesValid, SourceTimingValid, Inv, GazeboAge, StationFails, SteadyFails, NeverStarted, Aged,
         GazeboMemory;
    ModeFacts(c);
    Remembered(c, s);
    ItselfUntold(s);
    AgeVerdict(c, s, s, monotonicNs);
    AgeTells(c, s, s, monotonicNs);
    NoStation(c, s, monotonicNs, systemWallNs);
  }

  // An observation of a frozen route reports a reading of the station clock, if one
  // is taken, the age of Gazebo's clock as long as the authority is not lost, the
  // skew of a simulated sample that gets past the authority, and nothing else new.
  lemma ObservationDiagnosticsAreExact(c: Startup, ops: seq<GuardOp>, o: Observation)
    requires c.Valid() && o.slot in Table(c)
    ensures var s, op, t := After(c, ops), RouteOp(o), ObserveRoute(c, After(c, ops), o).0;
            && (c.StationRequired() ==> StationFieldsPresent(c.config.thresholds))
            && TellsStation(c, s, t, o.monotonicNs, o.systemWallNs) && TellsAge(c, s, t, o.monotonicNs, o.systemWallNs)
            && TellsTime(c, t, o.monotonicNs, o.systemWallNs, s.status.lastAuthorityMonotonicNs, s.status.sessionNowNs)
            && t.status.lastSkewNs == (if Asks(c, s, op) && Simulated(c, o.slot) then Skew(s, o) else s.status.lastSkewNs)
            && t.status.realTimeFactor == s.status.realTimeFactor
  {
    hide Startup.Valid, After, Inv, Failing, GateGazebo, ValidateStation, StationFails, GazeboAge, Asks, AuthorityEnvelope,
         SteadyFails, NeverStarted, Aged, GazeboMemory, Table, Aggregate, Untold, WallError, WallStep, StationNow, Skew;
    var s := After(c, ops);
    RunInv(c, ops);
    SoundKeys(c, s);
    ModeFacts(c);
    AsksWhenFresh(c, s, o);
    if !StationFails(c, s, o.monotonicNs, o.systemWallNs) {
      ObservationTells(c, s, o);
    } else {
      NoStation(c, s, o.monotonicNs, o.systemWallNs);
      StationTells(c, s, o.monotonicNs, o.systemWallNs);
      StationVerdict(c, s, o.monotonicNs, o.systemWallNs);
      FailingTellsNothing(c, PastReading(c, s, o), true, Aggregate(s), o.monotonicNs);
    }
  }

  // The same, for a station that does not fail.
  lemma ObservationTells(c: Startup, s: Guard, o: Observation)
    requires c.Valid() && Inv(c, s) && Known(c, s, o.slot) && (c.StationRequired() ==> StationFieldsPresent(c.config.thresholds))
    requires !StationFails(c, s, o.monotonicNs, o.systemWallNs)
    ensures var t, (v, check) := ObserveRoute(c, s, o).0, GazeboAge(c, PastReading(c, s, o), o.monotonicNs);
            && TellsStation(c, s, t, o.monotonicNs, o.systemWallNs) && TellsAge(c, s, t, o.monotonicNs, o.systemWallNs)
            && TellsTime(c, t, o.monotonicNs, o.systemWallNs, s.status.lastAuthorityMonotonicNs, s.status.sessionNowNs)
            && t.status.lastSkewNs == (if check == Fresh && v.status.healthy && Simulated(c, o.slot) then Skew(s, o)
                                       else s.status.lastSkewNs)
            && t.status.realTimeFactor == s.status.realTimeFactor
  {
    hide Startup.Valid, Inv, Failing, GateGazebo, ValidateStation, StationFails, GazeboAge, AuthorityEnvelope,
         SteadyFails, Table, Aggregate, Untold, WallError, WallStep, StationNow, Skew, Simulated;
    ModeFacts(c);
    if c.StationRequired() {
      StationTells(c, s, o.monotonicNs, o.systemWallNs);
      StationVerdict(c, s, o.monotonicNs, o.systemWallNs);
      var u := PastReading(c, s, o);
      PassedReading(c, s, o.monotonicNs, o.systemWallNs);
      ReadFor(c, s, u, o);
      GateTells(c, s, u, o, Cleared(o).(sessionNs := SessionNow(c, u, o.monotonicNs)), Aggregate(s));
      AgeTells(c, s, u, o.monotonicNs);
    } else {
      ItselfUntold(s);
      GateTells(c, s, s, o, Cleared(o), Aggregate(s));
      AgeTells(c, s, s, o.monotonicNs);
    }
  }

  // The guard's state once the station, if there is one, has been read.
  function PastReading(c: Startup, s: Guard, o: Observation): Guard
    requires c.StationRequired() ==> StationFieldsPresent(c.config.thresholds)
  {
    if c.StationRequired() then ValidateStation(c, s, o.monotonicNs, o.systemWallNs).0 else s
  }

  lemma AsksWhenFresh(c: Startup, s: Guard, o: Observation)
    requires c.Valid() && Inv(c, s) && o.slot in Table(c)
    ensures c.StationRequired() ==> StationFieldsPresent(c.config.thresholds)
    ensures Asks(c, s, RouteOp(o)) <==>
              && !StationFails(c, s, o.monotonicNs, o.systemWallNs)
              && var (v, check) := GazeboAge(c, PastReading(c, s, o), o.monotonicNs);
                 check == Fresh && (c.GazeboRequired() ==> v.status.healthy)
  {
    hide Startup.Valid, Inv, GazeboAge, ValidateStation, StationFails, SteadyFails, NeverStarted, Aged, GazeboMemory, Table,
         DeadlineExceeded, Untold;
    ModeFacts(c);
    Remembered(c, s);
    ItselfUntold(s);
    var u := PastReading(c, s, o);
    if c.StationRequired() {
      StationVerdict(c, s, o.monotonicNs, o.systemWallNs);
    } else {
      NoStation(c, s, o.monotonicNs, o.systemWallNs);
    }
    if !StationFails(c, s, o.monotonicNs, o.systemWallNs) {
      Remembered(c, u);
      if c.GazeboRequired() {
        AgeVerdict(c, s, u, o.monotonicNs);
        SameAuthority(s, u);
      } else {
        AgeWithoutGazebo(c, s, u, o.monotonicNs);
      }
    }
  }

  lemma SameAuthority(s: Guard, u: Guard)
    requires Untold(s, u)
    ensures u.authorityState == s.authorityState
  {
  }

  // ---- clocks ----

  // The rate between the remembered clock and a later one.
  predicate TellsRate(s: Guard, t: Guard, o: GazeboObservation) {
    t.status.realTimeFactor * (o.monotonicNs - s.lastGazeboMonotonicNs) as real == (o.stampNs - s.lastGazeboStampNs) as real
  }

  lemma AcceptanceTells(c: Startup, s: Guard, u: Guard, o: GazeboObservation, factor: real, haveRate: bool, before: GuardState)
    requires Untold(s, u)
    ensures var t := EmitTransition(c, AcceptClock(c, u, o, factor, haveRate), before, o.monotonicNs);
            && SameWall(u, t) && t.status.wallErrorNs == u.status.wallErrorNs
            && t.status.lastAuthorityMonotonicNs == o.monotonicNs && t.status.ageNs == 0
            && t.status.lastSkewNs == u.status.lastSkewNs && t.status.realTimeFactor == factor
            && t.status.sessionNowNs == if c.config.runMode == Simulation then o.stampNs else SessionNow(c, t, o.monotonicNs)
  {
    hide EmitTransition;
    LogTellsNothing(c, AcceptClock(c, u, o, factor, haveRate), before, o.monotonicNs);
    LogKeepsMachine(c, AcceptClock(c, u, o, factor, haveRate), before, o.monotonicNs);
  }

  // A rate is measured, between the remembered clock and a later one.
  predicate Measures(c: Startup, s: Guard, o: GazeboObservation) {
    c.config.runMode == Hybrid && s.haveGazeboClock && o.stampNs > s.lastGazeboStampNs
    && o.monotonicNs > s.lastGazeboMonotonicNs && o.monotonicNs >= c.monotonicNs
  }

  // What a clock past the station reports.
  predicate ClockTells(c: Startup, s: Guard, u: Guard, t: Guard, o: GazeboObservation, taken: bool) {
    && SameWall(u, t) && t.status.wallErrorNs == u.status.wallErrorNs
    && t.status.lastSkewNs == u.status.lastSkewNs
    && t.status.lastAuthorityMonotonicNs == (if taken then o.monotonicNs else u.status.lastAuthorityMonotonicNs)
    && t.status.ageNs == (if taken then 0 else u.status.ageNs)
    && t.status.sessionNowNs == (if !taken then u.status.sessionNowNs
                                 else if c.config.runMode == Simulation then o.stampNs else SessionNow(c, t, o.monotonicNs))
    && if Measures(c, s, o) then TellsRate(s, t, o)
       else t.status.realTimeFactor == (if taken then 0.0 else u.status.realTimeFactor)
  }

  lemma NotTakenTells(c: Startup, s: Guard, u: Guard, t: Guard, o: GazeboObservation)
    requires SameReport(u, t) && !Measures(c, s, o)
    ensures ClockTells(c, s, u, t, o, false)
  {
    hide SessionNow;
  }

  lemma TakenTells(c: Startup, s: Guard, u: Guard, o: GazeboObservation, haveRate: bool, before: GuardState)
    requires Untold(s, u) && !Measures(c, s, o)
    ensures ClockTells(c, s, u, EmitTransition(c, AcceptClock(c, u, o, 0.0, haveRate), before, o.monotonicNs), o, true)
  {
    hide SessionNow, EmitTransition, AcceptClock, Untold;
    AcceptanceTells(c, s, u, o, 0.0, haveRate, before);
  }

  // What measuring the rate leaves.
  function Measured(u: Guard, o: GazeboObservation): Guard
    requires u.haveGazeboClock && u.lastGazeboStampNs <= o.stampNs && u.lastGazeboMonotonicNs < o.monotonicNs
  {
    u.(status := u.status.(realTimeFactor := RealTimeFactor(u, o)))
  }

  lemma MeasuredTells(c: Startup, s: Guard, u: Guard, o: GazeboObservation, before: GuardState)
    requires c.Valid() && Untold(s, u) && Measures(c, s, o)
    ensures ClockTells(c, s, u, Failing(c, Measured(u, o), false, before, o.monotonicNs), o, false)
    ensures var v := AcceptClock(c, Measured(u, o), o, RealTimeFactor(u, o), true);
            ClockTells(c, s, u, EmitTransition(c, v, before, o.monotonicNs), o, true)
  {
    hide Startup.Valid, SessionNow, EmitTransition, AcceptClock, Failing, RealTimeFactor;
    var factor := RealTimeFactor(u, o);
    assert factor * (o.monotonicNs - s.lastGazeboMonotonicNs) as real == (o.stampNs - s.lastGazeboStampNs) as real by {
      FactorTells(s, u, o);
    }
    assert Untold(s, Measured(u, o));
    FailingTellsNothing(c, Measured(u, o), false, before, o.monotonicNs);
    AcceptanceTells(c, s, Measured(u, o), o, factor, true, before);
  }

  lemma FactorTells(s: Guard, u: Guard, o: GazeboObservation)
    requires Untold(s, u) && s.haveGazeboClock && s.lastGazeboStampNs <= o.stampNs && s.lastGazeboMonotonicNs < o.monotonicNs
    ensures RealTimeFactor(u, o) * (o.monotonicNs - s.lastGazeboMonotonicNs) as real == (o.stampNs - s.lastGazeboStampNs) as real
  {
  }

  lemma ClockPastStationTells(c: Startup, s: Guard, u: Guard, o: GazeboObservation, before: GuardState)
    requires c.Valid() && GazeboMemory(c, s) && Untold(s, u) && c.GazeboRequired()
    ensures var (t, admitted) := AdmitClock(c, u, o, before); ClockTells(c, s, u, t, o, admitted)
  {
    hide Startup.Valid, Failing, AcceptClock, EmitTransition, RateFails, Refresh, RealTimeFactor, SessionNow, ClockTells,
         SameReport;
    ModeFacts(c);
    if Measures(c, s, o) {
      MeasuredTells(c, s, u, o, before);
    } else {
      FailingTellsNothing(c, u, true, before, o.monotonicNs);
      FailingTellsNothing(c, u, false, before, o.monotonicNs);
      RefreshReports(c, u);
      NotTakenTells(c, s, u, Failing(c, u, true, before, o.monotonicNs), o);
      NotTakenTells(c, s, u, Failing(c, u, false, before, o.monotonicNs), o);
      NotTakenTells(c, s, u, Refresh(c, u), o);
      TakenTells(c, s, u, o, u.haveGazeboRate, before);
    }
  }

  lemma RefreshReports(c: Startup, u: Guard)
    ensures SameReport(u, Refresh(c, u))
  {
  }

  // A Gazebo clock reports a reading of the station clock, if one is taken. One that
  // the guard takes is the latest reading, has no age, and is the Session time of an
  // unstationed guard; the rate is that of the last two clocks, even of one out of
  // its limits, and zero with the first.
  lemma ClockDiagnosticsAreExact(c: Startup, ops: seq<GuardOp>, o: GazeboObservation)
    requires c.Valid()
    ensures var s, op, t := After(c, ops), GazeboClockOp(o), ObserveGazebo(c, After(c, ops), o).0;
            var taken, read := Takes(c, s, op), c.GazeboRequired() && ReadingTaken(c, o.monotonicNs, o.systemWallNs);
            && (if read then TellsStation(c, s, t, o.monotonicNs, o.systemWallNs)
                else SameWall(s, t) && t.status.wallErrorNs == s.status.wallErrorNs)
            && t.status.lastAuthorityMonotonicNs == (if taken || read then o.monotonicNs else s.status.lastAuthorityMonotonicNs)
            && t.status.ageNs == (if taken || read then 0 else s.status.ageNs)
            && t.status.sessionNowNs == (if read then StationNow(c, o.monotonicNs) else if taken then o.stampNs
                                         else s.status.sessionNowNs)
            && t.status.lastSkewNs == s.status.lastSkewNs
            && (if c.config.runMode == Hybrid && s.haveGazeboClock && !Breaks(c, s, op) && o.stampNs != s.lastGazeboStampNs
                then TellsRate(s, t, o)
                else t.status.realTimeFactor == if taken then 0.0 else s.status.realTimeFactor)
  {
    hide Startup.Valid, After, Inv, Failing, AdmitClock, ValidateStation, StationFails, GazeboMemory, Table, Aggregate, Untold,
         RateOff, WallError, WallStep, StationNow, TellsRate;
    var s := After(c, ops);
    RunInv(c, ops);
    Remembered(c, s);
    ModeFacts(c);
    ClockVerdictIsExact(c, ops, o);
    if c.config.runMode == Hybrid {
      StationTells(c, s, o.monotonicNs, o.systemWallNs);
      StationVerdict(c, s, o.monotonicNs, o.systemWallNs);
      var (u, ok) := ValidateStation(c, s, o.monotonicNs, o.systemWallNs);
      FailingTellsNothing(c, u, true, Aggregate(s), o.monotonicNs);
      if ok {
        PassedReading(c, s, o.monotonicNs, o.systemWallNs);
        ClockPastStationTells(c, s, u, o, Aggregate(s));
        WallReading(c, AdmitClock(c, u, o, Aggregate(s)).0, o.monotonicNs, o.systemWallNs);
      }
    } else if c.GazeboRequired() {
      ItselfUntold(s);
      ClockPastStationTells(c, s, s, o, Aggregate(s));
    }
  }

  // The epoch fence reports nothing new but the loss.
  lemma FenceDiagnosticsAreExact(c: Startup, ops: seq<GuardOp>, monotonicNs: u64)
    requires c.Valid()
    ensures SameReport(After(c, ops), After(c, ops + [FailEpochFenceOp(monotonicNs)]))
  {
    hide Startup.Valid, After, Failing, Aggregate;
    RunExtends(c, ops, FailEpochFenceOp(monotonicNs));
    FailingTellsNothing(c, After(c, ops), true, Aggregate(After(c, ops)), monotonicNs);
  }

  // ---- the answer ----

  // A physical source's sample reaches its mapper exactly when the authority lets
  // it.
  lemma FedWhenAsked(c: Startup, s: Guard, o: Observation)
    requires c.Valid() && Inv(c, s) && Known(c, s, o.slot) && Table(c)[o.slot].sourceDomain == PhysicalSource
    ensures var feed := RouteFeed(c, s, o, o.slot);
            feed.Some? && feed.value.ObserveOp? <==> Asks(c, s, RouteOp(o))
  {
    hide Startup.Valid, Inv, GazeboAge, ValidateStation, StationFails, Table, Asks, DeadlineExceeded, StationTime;
    ModeFacts(c);
    AsksWhenFresh(c, s, o);
    NoStation(c, s, o.monotonicNs, o.systemWallNs);
    AgeWithoutGazeboIsFresh(c, PastReading(c, s, o), o.monotonicNs);
    if c.StationRequired() {
      StationVerdict(c, s, o.monotonicNs, o.systemWallNs);
    }
  }

  lemma AgeWithoutGazeboIsFresh(c: Startup, u: Guard, monotonicNs: u64)
    ensures !c.GazeboRequired() ==> GazeboAge(c, u, monotonicNs) == (u, Fresh)
  {
  }

  // The answer to an observation of a frozen route names that route's source and
  // canonical body and repeats the observation's slot, domain, stream and stamps,
  // under the guard's epoch. It reports offset, drift, jitter, uncertainty and state
  // as the call leaves them on that route, and a mapped stamp only if accepted. Its
  // age is the one the authority now reports; its skew the reported one too, except
  // that of a physical source that reaches its mapper, which is zero.
  lemma AnswerIsExact(c: Startup, ops: seq<GuardOp>, o: Observation, i: nat)
    requires c.Valid() && i < |c.config.routes| && c.config.routes[i].slot == o.slot
    ensures var s, (t, e), r := After(c, ops), ObserveRoute(c, After(c, ops), o), c.config.routes[i];
            && o.slot in t.routes && Names(c, r, o, e) && ReportsRoute(t.routes[o.slot], e)
            && e.authorityAgeNs == t.status.ageNs
            && e.gazeboSkewNs == if Asks(c, s, RouteOp(o)) && r.sourceDomain == PhysicalSource then 0 else t.status.lastSkewNs
  {
    hide Startup.Valid, Inv, Table, After, ObserveRoute, RouteFeed, SignedDifference, Names, ReportsRoute, Asks;
    RouteIsHeld(c, i);
    RunInv(c, ops);
    SoundKeys(c, After(c, ops));
    AnswerFollowsFeed(c, ops, o, i);
    if c.config.routes[i].sourceDomain == PhysicalSource { FedWhenAsked(c, After(c, ops), o); }
  }

  // ---- the beginning ----

  // A route that has seen nothing: its uncertainty is its source's.
  predicate FreshRoute(c: Startup, r: Route, st: MapperState) {
    && st.status.epoch == c.epoch && st.status.state == Initializing && st.epochMonotonicNs == c.monotonicNs
    && st.status.offsetNs == 0 && st.status.driftPpm == 0.0 && st.status.jitterNs == 0
    && st.status.uncertaintyNs == r.sourceUncertaintyNs
    && st.status.healthySamples == 0 && st.status.consecutiveFailures == 0 && st.recoverySamples == 0
    && !st.pose.seen && !st.twist.seen && st.samples == [] && !st.haveEstimate && st.lastCountedRawNs == 0
  }

  // A new guard's authority is locked in physical mode and initializing otherwise;
  // it has no failures, no clock and no reading but the time it was started at, and
  // every frozen route is fresh.
  lemma FreshGuardIsExact(c: Startup)
    requires c.Valid()
    ensures var s := After(c, []);
            && s.authorityState == (if c.config.runMode == Physical then Locked else Initializing)
            && s.authorityFailures == 0 && s.authorityRecovery == 0
            && !s.haveGazeboClock && !s.haveGazeboRate && s.lastWallErrorNs == 0
            && s.status.sessionNowNs == (if c.StationRequired() then c.systemWallNs else 0)
            && s.status.lastAuthorityMonotonicNs == (if c.config.runMode == Physical then c.monotonicNs else 0)
            && s.status.ageNs == 0 && s.status.lastSkewNs == 0 && s.status.wallErrorNs == 0 && s.status.wallStepNs == 0
            && s.status.realTimeFactor == 0.0 && s.status.lastGazeboStampNs == 0
            && s.routes.Keys == Table(c).Keys
            && forall k :: k in s.routes ==> FreshRoute(c, Table(c)[k], s.routes[k])
  {
    hide Startup.Valid, Table, Aggregate, EventAt, Refresh, RouteConfig;
    var r := Refresh(c, InitialAuthority(c));
    RefreshTells(c, InitialAuthority(c));
    LogIsAll(c, r);
    forall k | k in Table(c) ensures FreshRoute(c, Table(c)[k], Started(RouteConfig(c, Table(c)[k]), c.epoch, c.monotonicNs)) {
      RouteOfConfig(c, Table(c)[k]);
    }
  }

  lemma LogIsAll(c: Startup, r: Guard)
    requires r == Refresh(c, InitialAuthority(c))
    ensures Initial(c) == r.(nextSequence := Initial(c).nextSequence, pending := Initial(c).pending)
    ensures r.status.lastGazeboStampNs == InitialAuthority(c).status.lastGazeboStampNs
  {
    hide Aggregate, EventAt, InitialAuthority;
  }

  lemma RouteOfConfig(c: Startup, r: Route)
    ensures RouteConfig(c, r).route == r
  {
  }
}
