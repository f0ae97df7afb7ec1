// What every event says: the guard it was logged in, at the time of the operation
// that logged it (src/core/session_clock_guard.cpp:718-759).
module GuardEvents {
  import opened Numbers
  import opened Types
  import opened Policy
  import opened MapperSpec
  import opened GuardSpec
  import opened GuardInvariant
  import opened GuardRuns

  // The event carries the guard's epoch, clocks and diagnostics.
  predicate Says(c: Startup, t: Guard, monotonicNs: u64, e: GuardEvent) {
    && e.epoch == c.epoch && e.monotonicNs == monotonicNs
    && e.sessionNs == (if c.config.runMode == Simulation then t.lastGazeboStampNs
                       else if monotonicNs < c.monotonicNs then 0
                       else Min(c.systemWallNs + (monotonicNs - c.monotonicNs), U64_MAX))
    && e.authorityAgeNs == t.status.ageNs
    && e.gazeboStampNs == t.status.lastGazeboStampNs && e.gazeboSkewNs == t.status.lastSkewNs
    && e.wallErrorNs == t.status.wallErrorNs && e.wallStepNs == t.status.wallStepNs
    && e.realTimeFactor == t.status.realTimeFactor
  }

  // A transition event names the state the guard has reached.
  predicate Announces(t: Guard, e: GuardEvent) {
    e.state == Aggregate(t)
    && match e.state
       case Locked => e.kind == LockedEvent
       case Degraded => e.kind == DegradedEvent
       case Lost => e.kind == LostEvent
       case Initializing => false
  }

  // From s to t at most one event is added, and it tells of t.
  predicate Reported(c: Startup, s: Guard, t: Guard, monotonicNs: u64) {
    || t.pending == s.pending
    || (&& |t.pending| == |s.pending| + 1 && t.pending[..|s.pending|] == s.pending
        && Says(c, t, monotonicNs, t.pending[|s.pending|]) && Announces(t, t.pending[|s.pending|]))
  }

  // ---- emission ----

  lemma EventSaysState(c: Startup, s: Guard, kind: GuardEventKind, state: GuardState, monotonicNs: u64)
    requires c.Valid()
    ensures Says(c, Emit(c, s, kind, state, monotonicNs), monotonicNs, EventAt(c, s, kind, state, monotonicNs))
  {
    hide ThresholdPolicyValid, RoutesValid, SourceTimingValid;
  }

  lemma EmissionReports(c: Startup, u: Guard, before: GuardState, monotonicNs: u64)
    requires c.Valid()
    ensures Reported(c, u, EmitTransition(c, u, before, monotonicNs), monotonicNs)
  {
    hide Startup.Valid, Says, EventAt, Aggregate;
    var after := Aggregate(u);
    EventSaysState(c, u, LockedEvent, after, monotonicNs);
    EventSaysState(c, u, DegradedEvent, after, monotonicNs);
    EventSaysState(c, u, LostEvent, after, monotonicNs);
    EventIs(c, u, LockedEvent, after, monotonicNs);
    EventIs(c, u, DegradedEvent, after, monotonicNs);
    EventIs(c, u, LostEvent, after, monotonicNs);
  }

  lemma EventIs(c: Startup, u: Guard, kind: GuardEventKind, state: GuardState, monotonicNs: u64)
    ensures EventAt(c, u, kind, state, monotonicNs).kind == kind && EventAt(c, u, kind, state, monotonicNs).state == state
    ensures Aggregate(Emit(c, u, kind, state, monotonicNs)) == Aggregate(u)
  {
  }

  // Emission from a guard with the same log.
  lemma ReportedSince(c: Startup, s: Guard, u: Guard, before: GuardState, monotonicNs: u64)
    requires c.Valid() && u.pending == s.pending
    ensures Reported(c, s, EmitTransition(c, u, before, monotonicNs), monotonicNs)
  {
    hide Startup.Valid, EmitTransition, Says, Announces;
    EmissionReports(c, u, before, monotonicNs);
  }

  lemma FailingReports(c: Startup, s: Guard, u: Guard, immediate: bool, before: GuardState, monotonicNs: u64)
    requires c.Valid() && u.pending == s.pending
    ensures Reported(c, s, Failing(c, u, immediate, before, monotonicNs), monotonicNs)
  {
    hide Startup.Valid, EmitTransition, Reported, FailRoutes;
    ReportedSince(c, s, FailAuthority(c, u, immediate), before, monotonicNs);
  }

  lemma Quietly(c: Startup, s: Guard, t: Guard, monotonicNs: u64)
    requires t.pending == s.pending
    ensures Reported(c, s, t, monotonicNs)
  {
  }

  lemma StationLogsNothing(c: Startup, s: Guard, monotonicNs: u64, systemWallNs: u64)
    requires StationFieldsPresent(c.config.thresholds)
    ensures ValidateStation(c, s, monotonicNs, systemWallNs).0.pending == s.pending
  {
    hide SessionNow, SignedDifference, ClampedDifference;
  }

  // ---- clock observations ----

  lemma AcceptedReports(c: Startup, s: Guard, u: Guard, o: GazeboObservation, factor: real, haveRate: bool, before: GuardState)
    requires c.Valid() && u.pending == s.pending
    ensures Reported(c, s, EmitTransition(c, AcceptClock(c, u, o, factor, haveRate), before, o.monotonicNs), o.monotonicNs)
  {
    hide Startup.Valid, EmitTransition, Reported, SessionNow;
    ReportedSince(c, s, AcceptClock(c, u, o, factor, haveRate), before, o.monotonicNs);
  }

  lemma StampReports(c: Startup, s: Guard, u: Guard, o: GazeboObservation, before: GuardState)
    requires c.Valid() && u.pending == s.pending && !ReceiptFails(c, u, o)
    ensures Reported(c, s, AdmitStamp(c, u, o, before).0, o.monotonicNs)
  {
    hide Startup.Valid, Failing, AcceptClock, EmitTransition, RateFails, RealTimeFactor, Reported;
    ModeFacts(c);
    if u.haveGazeboClock {
      FailingReports(c, s, u, true, before, o.monotonicNs);
      FailingReports(c, s, u, false, before, o.monotonicNs);
      AcceptedReports(c, s, u, o, 0.0, u.haveGazeboRate, before);
      if u.lastGazeboStampNs <= o.stampNs && u.lastGazeboMonotonicNs < o.monotonicNs {
        var factor := RealTimeFactor(u, o);
        var measured := u.(status := u.status.(realTimeFactor := factor));
        FailingReports(c, s, measured, false, before, o.monotonicNs);
        AcceptedReports(c, s, measured, o, factor, true, before);
      }
    } else {
      Quietly(c, s, Refresh(c, u), o.monotonicNs);
      AcceptedReports(c, s, u, o, 0.0, u.haveGazeboRate, before);
    }
  }

  lemma ClockReports(c: Startup, s: Guard, o: GazeboObservation)
    requires c.Valid()
    ensures Reported(c, s, ObserveGazebo(c, s, o).0, o.monotonicNs)
  {
    hide Startup.Valid, Failing, AdmitStamp, ValidateStation, Reported, Aggregate, ReceiptFails;
    ModeFacts(c);
    if !c.GazeboRequired() {
      Quietly(c, s, s, o.monotonicNs);
    } else {
      var s1 := s;
      var ok := true;
      if c.config.runMode == Hybrid {
        StationLogsNothing(c, s, o.monotonicNs, o.systemWallNs);
        var r := ValidateStation(c, s, o.monotonicNs, o.systemWallNs);
        s1, ok := r.0, r.1;
      }
      FailingReports(c, s, s1, true, Aggregate(s), o.monotonicNs);
      if ok && !ReceiptFails(c, s1, o) { StampReports(c, s, s1, o, Aggregate(s)); }
    }
  }

  // ---- observations ----

  lemma MapReports(c: Startup, s: Guard, u: Guard, o: Observation, before: GuardState)
    requires c.Valid() && Known(c, u, o.slot) && u.pending == s.pending
    ensures Reported(c, s, MapObservation(c, u, o, before).0, o.monotonicNs)
    ensures Reported(c, s, SkewFailure(c, u, o, before).0, o.monotonicNs)
  {
    hide Startup.Valid, Table, StepSlot, EnvelopeOf, EmitTransition, Reported, MakeEnvelope, SensitiveOutputAllowed;
    ReportedSince(c, s, StepRoute(c, u, o.slot, ObserveOp(o)), before, o.monotonicNs);
    ReportedSince(c, s, StepRoute(c, u, o.slot, AuthorityFailureOp(false)), before, o.monotonicNs);
  }

  lemma SkewReports(c: Startup, s: Guard, u: Guard, o: Observation, before: GuardState)
    requires c.Valid() && Known(c, u, o.slot) && c.GazeboRequired() && u.pending == s.pending
    ensures Reported(c, s, GateSkew(c, u, o, before).0, o.monotonicNs)
  {
    hide Startup.Valid, Table, MapObservation, SkewFailure, SignedDifference, Magnitude, Reported;
    ModeFacts(c);
    var enriched := Enriched(c, u, o);
    var skew := SignedDifference(o.rawNs, u.lastGazeboStampNs);
    MapReports(c, s, u, enriched, before);
    MapReports(c, s, WithSkew(u, skew), enriched.(gazeboSkewNs := skew), before);
  }

  lemma AgeLogsNothing(c: Startup, s: Guard, monotonicNs: u64)
    ensures GazeboAge(c, s, monotonicNs).0.pending == s.pending
  {
  }

  lemma GateReports(c: Startup, s: Guard, u: Guard, o: Observation, before: GuardState)
    requires c.Valid() && Known(c, u, o.slot) && u.pending == s.pending
    ensures Reported(c, s, GateGazebo(c, u, o, before).0, o.monotonicNs)
  {
    hide Startup.Valid, Table, MapObservation, GateSkew, GazeboAge, Failing, AuthorityEnvelope, DeadlineExceeded, Reported;
    if !c.GazeboRequired() {
      MapReports(c, s, u, o, before);
    } else {
      AgeLogsNothing(c, u, o.monotonicNs);
      var (u1, check) := GazeboAge(c, u, o.monotonicNs);
      if check == Fresh && u1.status.healthy {
        SkewReports(c, s, u1, o, before);
      } else {
        Quietly(c, s, u1, o.monotonicNs);
        FailingReports(c, s, u1, check == Hopeless, before, o.monotonicNs);
      }
    }
  }

  lemma RouteReports(c: Startup, s: Guard, o: Observation)
    requires c.Valid()
    ensures Reported(c, s, ObserveRoute(c, s, o).0, o.monotonicNs)
  {
    hide Startup.Valid, Table, GateGazebo, ValidateStation, Failing, AuthorityEnvelope, SessionNow, Aggregate, Reported;
    ModeFacts(c);
    if !Known(c, s, o.slot) {
      Quietly(c, s, s, o.monotonicNs);
    } else if !c.StationRequired() {
      GateReports(c, s, s, Cleared(o), Aggregate(s));
    } else {
      StationLogsNothing(c, s, o.monotonicNs, o.systemWallNs);
      var s1 := ValidateStation(c, s, o.monotonicNs, o.systemWallNs).0;
      FailingReports(c, s, s1, true, Aggregate(s), o.monotonicNs);
      GateReports(c, s, s1, Cleared(o).(sessionNs := SessionNow(c, s1, o.monotonicNs)), Aggregate(s));
    }
  }

  // ---- polls ----

  lemma FreshnessReports(c: Startup, s: Guard, u: Guard, before: GuardState, monotonicNs: u64)
    requires c.Valid() && u.pending == s.pending
    ensures Reported(c, s, PollFreshness(c, u, before, monotonicNs), monotonicNs)
  {
    hide Startup.Valid, Failing, GazeboAge, EmitTransition, PollRoutes, SessionNow, DeadlineExceeded, Reported;
    AgeLogsNothing(c, u, monotonicNs);
    var (u1, check) := GazeboAge(c, u, monotonicNs);
    Quietly(c, s, u1, monotonicNs);
    FailingReports(c, s, u1, check == Hopeless, before, monotonicNs);
    ReportedSince(c, s, u1.(routes := PollRoutes(c, u1.routes, monotonicNs),
                            status := u1.status.(sessionNowNs := SessionNow(c, u1, monotonicNs))), before, monotonicNs);
  }

  lemma PollReports(c: Startup, s: Guard, monotonicNs: u64, systemWallNs: u64)
    requires c.Valid()
    ensures Reported(c, s, Poll(c, s, monotonicNs, systemWallNs), monotonicNs)
  {
    hide Startup.Valid, PollFreshness, ValidateStation, Failing, Aggregate, Reported;
    ModeFacts(c);
    if !c.StationRequired() {
      FreshnessReports(c, s, s, Aggregate(s), monotonicNs);
    } else {
      StationLogsNothing(c, s, monotonicNs, systemWallNs);
      var s1 := ValidateStation(c, s, monotonicNs, systemWallNs).0;
      FailingReports(c, s, s1, true, Aggregate(s), monotonicNs);
      FreshnessReports(c, s, s1, Aggregate(s), monotonicNs);
    }
  }

  // ---- over runs ----

  // Whatever operation adds an event to whatever run, the event names the state the
  // guard has reached and carries its epoch, its Session time at the operation, its
  // authority's age, Gazebo stamp and skew, wall error and step, and rate.
  lemma EventsTellTheGuard(c: Startup, ops: seq<GuardOp>, op: GuardOp)
    requires c.Valid() && op != TakeEventsOp
    ensures Reported(c, After(c, ops), After(c, ops + [op]), TimeOf(op))
  {
    hide Startup.Valid, After, ObserveGazebo, ObserveRoute, Poll, Failing, Reported, Aggregate;
    RunExtends(c, ops, op);
    var s := After(c, ops);
    match op
    case GazeboClockOp(o) => ClockReports(c, s, o);
    case RouteOp(o) => RouteReports(c, s, o);
    case GuardPollOp(m, w) => PollReports(c, s, m, w);
    case FailEpochFenceOp(m) => FailingReports(c, s, s, true, Aggregate(s), m);
  }

  // A fresh guard's first event announces the epoch, and a second one that it is
  // locked, if it is.
  lemma FirstEventsTellTheGuard(c: Startup)
    requires c.Valid()
    ensures var s := After(c, []);
            && |s.pending| >= 1 && s.pending[0].kind == NewEpochEvent && s.pending[0].state == Initializing
            && Says(c, s, c.monotonicNs, s.pending[0])
            && (|s.pending| == 2 <==> Aggregate(s) == Locked) && |s.pending| <= 2
            && (|s.pending| == 2 ==> Says(c, s, c.monotonicNs, s.pending[1]) && Announces(s, s.pending[1]))
  {
    hide Startup.Valid, Aggregate, Says, InitialAuthority, Refresh, EventAt;
    var r := Refresh(c, InitialAuthority(c));
    var s := Emit(c, r, NewEpochEvent, Initializing, c.monotonicNs);
    NothingPending(c);
    EventSaysState(c, r, NewEpochEvent, Initializing, c.monotonicNs);
    EventIs(c, r, NewEpochEvent, Initializing, c.monotonicNs);
    EventSaysState(c, s, LockedEvent, Locked, c.monotonicNs);
    EventIs(c, s, LockedEvent, Locked, c.monotonicNs);
    StillSays(c, s, Emit(c, s, LockedEvent, Locked, c.monotonicNs), s.pending[0]);
  }

  lemma NothingPending(c: Startup)
    ensures Refresh(c, InitialAuthority(c)).pending == []
  {
    hide Table, RouteConfig, InitialStatus;
  }

  lemma StillSays(c: Startup, s: Guard, t: Guard, e: GuardEvent)
    requires t == s.(nextSequence := t.nextSequence, pending := t.pending)
    ensures Says(c, s, c.monotonicNs, e) ==> Says(c, t, c.monotonicNs, e)
  {
  }
}
