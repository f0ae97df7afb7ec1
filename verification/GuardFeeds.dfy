// What each operation of the guard hands to each route's mapper: one mapper
// operation or none. The guard's routes are exactly what their mappers make of
// these feeds (src/core/session_clock_guard.cpp:298-650).
module GuardFeeds {
  import opened Numbers
  import opened Types
  import opened MapperSpec
  import opened GuardSpec
  import opened GuardInvariant
  import opened GuardRuns

  // ---- the feed of one operation ----

  function StampFeed(c: Startup, s: Guard, o: GazeboObservation): Option<MapperOp>
    requires c.Valid()
  {
    ModeFacts(c);
    if ReceiptFails(c, s, o) then Some(AuthorityFailureOp(true))
    else if o.stampNs == 0 then if !s.haveGazeboClock then None else Some(AuthorityFailureOp(true))
    else if !s.haveGazeboClock then None
    else if o.stampNs < s.lastGazeboStampNs then Some(AuthorityFailureOp(true))
    else if o.stampNs == s.lastGazeboStampNs then Some(AuthorityFailureOp(false))
    else if c.config.runMode == Hybrid && RateFails(c, RealTimeFactor(s, o)) then Some(AuthorityFailureOp(false))
    else None
  }

  function ClockFeed(c: Startup, s: Guard, o: GazeboObservation): Option<MapperOp>
    requires c.Valid()
  {
    ModeFacts(c);
    if !c.GazeboRequired() then None
    else if c.config.runMode != Hybrid then StampFeed(c, s, o)
    else
      var (s1, ok) := ValidateStation(c, s, o.monotonicNs, o.systemWallNs);
      if ok then StampFeed(c, s1, o) else Some(AuthorityFailureOp(true))
  }

  // An authority that is not fresh: the failure its age calls for, if any.
  function AgeFeed(c: Startup, s: Guard, check: AgeCheck): Option<MapperOp> {
    if check == Hopeless || DeadlineExceeded(c, s) then Some(AuthorityFailureOp(check == Hopeless)) else None
  }

  // What an observation's own route is fed behind a healthy Gazebo authority.
  function SkewFeed(c: Startup, s: Guard, o: Observation): MapperOp
    requires c.Valid() && Known(c, s, o.slot) && c.GazeboRequired()
  {
    ModeFacts(c);
    var enriched := Enriched(c, s, o);
    var skew := SignedDifference(o.rawNs, s.lastGazeboStampNs);
    if Table(c)[o.slot].sourceDomain != SimulationSource then ObserveOp(enriched)
    else if Magnitude(skew) > c.config.thresholds.maxGazeboClockSkewNs.value then AuthorityFailureOp(false)
    else ObserveOp(enriched.(gazeboSkewNs := skew))
  }

  function GateFeed(c: Startup, s: Guard, o: Observation, slot: string): Option<MapperOp>
    requires c.Valid() && Known(c, s, o.slot)
  {
    if !c.GazeboRequired() then if slot == o.slot then Some(ObserveOp(o)) else None
    else
      var (s1, check) := GazeboAge(c, s, o.monotonicNs);
      if check != Fresh then AgeFeed(c, s1, check)
      else if s1.status.healthy && slot == o.slot then Some(SkewFeed(c, s1, o))
      else None
  }

  function RouteFeed(c: Startup, s: Guard, o: Observation, slot: string): Option<MapperOp>
    requires c.Valid()
  {
    ModeFacts(c);
    if !Known(c, s, o.slot) then None
    else if !c.StationRequired() then GateFeed(c, s, Cleared(o), slot)
    else
      var (s1, ok) := ValidateStation(c, s, o.monotonicNs, o.systemWallNs);
      if ok then GateFeed(c, s1, Cleared(o).(sessionNs := SessionNow(c, s1, o.monotonicNs)), slot)
      else Some(AuthorityFailureOp(true))
  }

  function PollGateFeed(c: Startup, s: Guard, monotonicNs: u64): Option<MapperOp> {
    var (s1, check) := GazeboAge(c, s, monotonicNs);
    if check != Fresh then AgeFeed(c, s1, check) else Some(PollOp(monotonicNs))
  }

  function PollFeed(c: Startup, s: Guard, monotonicNs: u64, systemWallNs: u64): Option<MapperOp>
    requires c.Valid()
  {
    ModeFacts(c);
    if !c.StationRequired() then PollGateFeed(c, s, monotonicNs)
    else
      var (s1, ok) := ValidateStation(c, s, monotonicNs, systemWallNs);
      if ok then PollGateFeed(c, s1, monotonicNs) else Some(AuthorityFailureOp(true))
  }

  function Feed(c: Startup, s: Guard, op: GuardOp, slot: string): Option<MapperOp>
    requires c.Valid()
  {
    match op
    case GazeboClockOp(o) => ClockFeed(c, s, o)
    case RouteOp(o) => RouteFeed(c, s, o, slot)
    case GuardPollOp(m, w) => PollFeed(c, s, m, w)
    case FailEpochFenceOp(_) => Some(AuthorityFailureOp(true))
    case TakeEventsOp => None
  }

  // The route after its feed.
  ghost function Fed(c: Startup, slot: string, st: MapperState, feed: Option<MapperOp>): MapperState
    requires c.Valid() && slot in Table(c)
  {
    match feed
    case None => st
    case Some(op) => StepSlot(c, slot, st, op)
  }

  // ---- every route becomes what its feed makes of it ----

  // The route of t is that of s after its feed.
  ghost predicate SlotFed(c: Startup, s: Guard, t: Guard, slot: string, feed: Option<MapperOp>)
    requires c.Valid() && slot in Table(c) && slot in s.routes
  {
    slot in t.routes && t.routes[slot] == Fed(c, slot, s.routes[slot], feed)
  }

  lemma LogKeepsRoutes(c: Startup, u: Guard, before: GuardState, monotonicNs: u64)
    ensures EmitTransition(c, u, before, monotonicNs).routes == u.routes
  {
    hide EmitTransition;
    var t := EmitTransition(c, u, before, monotonicNs);
    assert t == u.(nextSequence := t.nextSequence, pending := t.pending);
  }

  lemma FailureFeeds(c: Startup, s: Guard, s1: Guard, immediate: bool, before: GuardState, monotonicNs: u64, slot: string)
    requires c.Valid() && slot in Table(c) && slot in s.routes && s1.routes == s.routes
    ensures SlotFed(c, s, Failing(c, s1, immediate, before, monotonicNs), slot, Some(AuthorityFailureOp(immediate)))
  {
    hide Startup.Valid, Table, StepSlot, Refresh, AuthorityFailed, EmitTransition;
    LogKeepsRoutes(c, FailAuthority(c, s1, immediate), before, monotonicNs);
  }

  lemma NothingFed(c: Startup, s: Guard, t: Guard, slot: string)
    requires c.Valid() && slot in Table(c) && slot in s.routes && t.routes == s.routes
    ensures SlotFed(c, s, t, slot, None)
  {
    hide Startup.Valid, Table;
  }

  lemma AcceptClockRoutes(c: Startup, s: Guard, o: GazeboObservation, factor: real, haveRate: bool, before: GuardState)
    ensures EmitTransition(c, AcceptClock(c, s, o, factor, haveRate), before, o.monotonicNs).routes == s.routes
  {
    hide EmitTransition, SessionNow;
    LogKeepsRoutes(c, AcceptClock(c, s, o, factor, haveRate), before, o.monotonicNs);
  }

  lemma RefreshRoutes(c: Startup, s: Guard)
    ensures Refresh(c, s).routes == s.routes
  {
  }

  lemma AdmitClockFeeds(c: Startup, s0: Guard, s: Guard, o: GazeboObservation, before: GuardState, slot: string)
    requires c.Valid() && slot in Table(c) && slot in s0.routes && s.routes == s0.routes
    ensures SlotFed(c, s0, AdmitClock(c, s, o, before).0, slot, StampFeed(c, s, o))
  {
    hide Startup.Valid, Table, Failing, AcceptClock, EmitTransition, RateFails, Refresh, SlotFed, ReceiptFails, RealTimeFactor;
    ModeFacts(c);
    if ReceiptFails(c, s, o) {
      FailureFeeds(c, s0, s, true, before, o.monotonicNs, slot);
    } else {
      AdmitStampFeeds(c, s0, s, o, before, slot);
    }
  }

  lemma AdmitStampFeeds(c: Startup, s0: Guard, s: Guard, o: GazeboObservation, before: GuardState, slot: string)
    requires c.Valid() && slot in Table(c) && slot in s0.routes && s.routes == s0.routes && !ReceiptFails(c, s, o)
    ensures SlotFed(c, s0, AdmitStamp(c, s, o, before).0, slot, StampFeed(c, s, o))
  {
    hide Startup.Valid, Table, Failing, AcceptClock, EmitTransition, RateFails, Refresh, SlotFed;
    ModeFacts(c);
    var t := AdmitStamp(c, s, o, before).0;
    if o.stampNs == 0 && !s.haveGazeboClock {
      RefreshRoutes(c, s);
      NothingFed(c, s0, t, slot);
    } else if s.haveGazeboClock && (o.stampNs == 0 || o.stampNs < s.lastGazeboStampNs) {
      FailureFeeds(c, s0, s, true, before, o.monotonicNs, slot);
    } else if s.haveGazeboClock && o.stampNs == s.lastGazeboStampNs {
      FailureFeeds(c, s0, s, false, before, o.monotonicNs, slot);
    } else if s.haveGazeboClock && c.config.runMode == Hybrid {
      var factor := RealTimeFactor(s, o);
      var measured := s.(status := s.status.(realTimeFactor := factor));
      if RateFails(c, factor) {
        FailureFeeds(c, s0, measured, false, before, o.monotonicNs, slot);
      } else {
        AcceptClockRoutes(c, measured, o, factor, true, before);
        NothingFed(c, s0, t, slot);
      }
    } else {
      AcceptClockRoutes(c, s, o, 0.0, s.haveGazeboRate, before);
      NothingFed(c, s0, t, slot);
    }
  }

  lemma ClockFeeds(c: Startup, s: Guard, o: GazeboObservation, slot: string)
    requires c.Valid() && slot in Table(c) && slot in s.routes
    ensures SlotFed(c, s, ObserveGazebo(c, s, o).0, slot, ClockFeed(c, s, o))
  {
    hide Startup.Valid, Table, Failing, AdmitClock, ValidateStation, SlotFed, StampFeed, Aggregate;
    ModeFacts(c);
    if !c.GazeboRequired() {
      NothingFed(c, s, s, slot);
    } else if c.config.runMode != Hybrid {
      AdmitClockFeeds(c, s, s, o, Aggregate(s), slot);
    } else {
      var (s1, ok) := ValidateStation(c, s, o.monotonicNs, o.systemWallNs);
      if ok {
        AdmitClockFeeds(c, s, s1, o, Aggregate(s), slot);
      } else {
        FailureFeeds(c, s, s1, true, Aggregate(s), o.monotonicNs, slot);
      }
    }
  }

  lemma AgeFeeds(c: Startup, s: Guard, s1: Guard, check: AgeCheck, before: GuardState, monotonicNs: u64, slot: string)
    requires c.Valid() && slot in Table(c) && slot in s.routes && s1.routes == s.routes && check != Fresh
    ensures var t := if check == Hopeless || DeadlineExceeded(c, s1) then Failing(c, s1, check == Hopeless, before, monotonicNs) else s1;
            SlotFed(c, s, t, slot, AgeFeed(c, s1, check))
  {
    hide Startup.Valid, Table, Failing, DeadlineExceeded, SlotFed;
    FailureFeeds(c, s, s1, check == Hopeless, before, monotonicNs, slot);
    NothingFed(c, s, s1, slot);
  }

  lemma PollGateFeeds(c: Startup, s: Guard, s1: Guard, before: GuardState, monotonicNs: u64, slot: string)
    requires c.Valid() && slot in Table(c) && slot in s.routes && s1.routes == s.routes
    ensures SlotFed(c, s, PollFreshness(c, s1, before, monotonicNs), slot, PollGateFeed(c, s1, monotonicNs))
  {
    hide Startup.Valid, Table, Failing, GazeboAge, SlotFed, PollCompleted, DeadlineExceeded, AgeFeed;
    var (s2, check) := GazeboAge(c, s1, monotonicNs);
    if check != Fresh {
      AgeFeeds(c, s, s2, check, before, monotonicNs, slot);
    } else {
      CompletedPollFeeds(c, s, s2, before, monotonicNs, slot);
    }
  }

  lemma CompletedPollFeeds(c: Startup, s: Guard, s1: Guard, before: GuardState, monotonicNs: u64, slot: string)
    requires c.Valid() && slot in Table(c) && slot in s.routes && s1.routes == s.routes
    ensures SlotFed(c, s, PollCompleted(c, s1, before, monotonicNs), slot, Some(PollOp(monotonicNs)))
  {
    hide Startup.Valid, Table, EmitTransition, SessionNow, StepSlot;
    var t := s1.(routes := PollRoutes(c, s1.routes, monotonicNs),
                 status := s1.status.(sessionNowNs := SessionNow(c, s1, monotonicNs)));
    LogKeepsRoutes(c, t, before, monotonicNs);
  }

  lemma PollFeeds(c: Startup, s: Guard, monotonicNs: u64, systemWallNs: u64, slot: string)
    requires c.Valid() && slot in Table(c) && slot in s.routes
    ensures SlotFed(c, s, Poll(c, s, monotonicNs, systemWallNs), slot, PollFeed(c, s, monotonicNs, systemWallNs))
  {
    hide Startup.Valid, Table, Failing, PollFreshness, ValidateStation, SlotFed, PollGateFeed, Aggregate;
    ModeFacts(c);
    if !c.StationRequired() {
      PollGateFeeds(c, s, s, Aggregate(s), monotonicNs, slot);
    } else {
      var (s1, ok) := ValidateStation(c, s, monotonicNs, systemWallNs);
      if ok {
        PollGateFeeds(c, s, s1, Aggregate(s), monotonicNs, slot);
      } else {
        FailureFeeds(c, s, s1, true, Aggregate(s), monotonicNs, slot);
      }
    }
  }

  // ---- observations ----

  // An observation's envelope is accepted exactly when its own route is fed an
  // observation and its mapper accepts that one, and then carries what the
  // mapper maps it to.
  ghost predicate Answered(c: Startup, s: Guard, slot: string, feed: Option<MapperOp>, e: TimestampEnvelope)
    requires c.Valid() && slot in Table(c) && slot in s.routes
  {
    RouteConfigIsValid(c, Table(c)[slot]);
    var m := RouteConfig(c, Table(c)[slot]);
    && (e.accepted <==> feed.Some? && feed.value.ObserveOp? && Judge(m, s.routes[slot], feed.value.observation).Accepted?)
    && (e.accepted ==> e.mappedSessionNs == EnvelopeOf(m, s.routes[slot], feed.value.observation).mappedSessionNs)
    && (e.canonicalPublishAllowed ==> e.accepted)
  }

  // What one observation does: a route gets its feed, and the envelope answers
  // for the observation's own route.
  ghost predicate ObservedFeeds(c: Startup, s: Guard, o: Observation, slot: string, r: (Guard, TimestampEnvelope),
                                feed: Option<MapperOp>, own: Option<MapperOp>)
    requires c.Valid() && Known(c, s, slot) && Known(c, s, o.slot)
  {
    SlotFed(c, s, r.0, slot, feed) && Answered(c, s, o.slot, own, r.1)
  }

  lemma Refused(c: Startup, s: Guard, o: Observation, t: Guard, o': Observation, own: Option<MapperOp>)
    requires c.Valid() && Known(c, s, o.slot) && Known(c, t, o'.slot)
    requires own.Some? ==> !own.value.ObserveOp?
    ensures Answered(c, s, o.slot, own, AuthorityEnvelope(c, t, o'))
  {
    hide Startup.Valid, Table, RouteConfig, Judge, EnvelopeOf;
  }

  lemma MapFeeds(c: Startup, s0: Guard, s: Guard, o: Observation, before: GuardState, slot: string)
    requires c.Valid() && Known(c, s0, slot) && Known(c, s0, o.slot) && s.routes == s0.routes
    ensures ObservedFeeds(c, s0, o, slot, MapObservation(c, s, o, before),
                          if slot == o.slot then Some(ObserveOp(o)) else None, Some(ObserveOp(o)))
  {
    hide Startup.Valid, Table, RouteConfig, Judge, StepSlot, EmitTransition, SensitiveOutputAllowed, MapperConfigValid, Step;
    RouteConfigIsValid(c, Table(c)[o.slot]);
    LogKeepsRoutes(c, StepRoute(c, s, o.slot, ObserveOp(o)), before, o.monotonicNs);
  }

  lemma SkewFailureFeeds(c: Startup, s0: Guard, s: Guard, o: Observation, before: GuardState, slot: string)
    requires c.Valid() && Known(c, s0, slot) && Known(c, s0, o.slot) && s.routes == s0.routes
    ensures ObservedFeeds(c, s0, o, slot, SkewFailure(c, s, o, before),
                          if slot == o.slot then Some(AuthorityFailureOp(false)) else None, Some(AuthorityFailureOp(false)))
  {
    hide Startup.Valid, Table, RouteConfig, Judge, StepSlot, EmitTransition, MapperConfigValid, EnvelopeOf;
    LogKeepsRoutes(c, StepRoute(c, s, o.slot, AuthorityFailureOp(false)), before, o.monotonicNs);
  }

  lemma SkewFeeds(c: Startup, s0: Guard, s: Guard, o: Observation, before: GuardState, slot: string)
    requires c.Valid() && Known(c, s0, slot) && Known(c, s0, o.slot) && s.routes == s0.routes && c.GazeboRequired()
    ensures ObservedFeeds(c, s0, o, slot, GateSkew(c, s, o, before),
                          if slot == o.slot then Some(SkewFeed(c, s, o)) else None, Some(SkewFeed(c, s, o)))
  {
    hide Startup.Valid, Table, MapObservation, SkewFailure, Answered, SlotFed, SignedDifference, Magnitude;
    ModeFacts(c);
    var enriched := Enriched(c, s, o);
    var skew := SignedDifference(o.rawNs, s.lastGazeboStampNs);
    var skewed := enriched.(gazeboSkewNs := skew);
    if Table(c)[o.slot].sourceDomain != SimulationSource {
      MapFeeds(c, s0, s, enriched, before, slot);
    } else if Magnitude(skew) > c.config.thresholds.maxGazeboClockSkewNs.value {
      SkewFailureFeeds(c, s0, WithSkew(s, skew), skewed, before, slot);
    } else {
      MapFeeds(c, s0, WithSkew(s, skew), skewed, before, slot);
    }
  }

  lemma GateFeeds(c: Startup, s0: Guard, s: Guard, o: Observation, before: GuardState, slot: string)
    requires c.Valid() && Known(c, s0, slot) && Known(c, s0, o.slot) && s.routes == s0.routes
    ensures ObservedFeeds(c, s0, o, slot, GateGazebo(c, s, o, before), GateFeed(c, s, o, slot), GateFeed(c, s, o, o.slot))
  {
    hide Startup.Valid, Table, MapObservation, GateSkew, Answered, SlotFed, GazeboAge, DeadlineExceeded, Failing,
         AuthorityEnvelope, SkewFeed;
    if !c.GazeboRequired() {
      MapFeeds(c, s0, s, o, before, slot);
    } else {
      var (s1, check) := GazeboAge(c, s, o.monotonicNs);
      if check != Fresh {
        StaleFeeds(c, s0, s1, o, check, before, slot);
      } else if !s1.status.healthy {
        NothingFed(c, s0, s1, slot);
        Refused(c, s0, o, s1, o, None);
      } else {
        SkewFeeds(c, s0, s1, o, before, slot);
      }
    }
  }

  lemma StaleFeeds(c: Startup, s0: Guard, s: Guard, o: Observation, check: AgeCheck, before: GuardState, slot: string)
    requires c.Valid() && Known(c, s0, slot) && Known(c, s0, o.slot) && s.routes == s0.routes && check != Fresh
    ensures var t := if check == Hopeless || DeadlineExceeded(c, s)
                     then Failing(c, s, check == Hopeless, before, o.monotonicNs) else s;
            Known(c, t, o.slot)
            && ObservedFeeds(c, s0, o, slot, (t, AuthorityEnvelope(c, t, o)), AgeFeed(c, s, check), AgeFeed(c, s, check))
  {
    hide Startup.Valid, Table, Answered, SlotFed, DeadlineExceeded, Failing, AuthorityEnvelope;
    AgeFeeds(c, s0, s, check, before, o.monotonicNs, slot);
    var t := if check == Hopeless || DeadlineExceeded(c, s)
             then Failing(c, s, check == Hopeless, before, o.monotonicNs) else s;
    FailedKnown(c, s0, t, s, check == Hopeless, before, o);
    Refused(c, s0, o, t, o, AgeFeed(c, s, check));
  }

  lemma FailedKnown(c: Startup, s0: Guard, t: Guard, s: Guard, immediate: bool, before: GuardState, o: Observation)
    requires c.Valid() && Known(c, s0, o.slot) && s.routes == s0.routes
    requires t == s || t == Failing(c, s, immediate, before, o.monotonicNs)
    ensures Known(c, t, o.slot)
  {
    hide Startup.Valid, Table, Failing;
  }

  lemma RouteFeeds(c: Startup, s: Guard, o: Observation, slot: string)
    requires c.Valid() && Known(c, s, slot) && Known(c, s, o.slot)
    ensures ObservedFeeds(c, s, o, slot, ObserveRoute(c, s, o), RouteFeed(c, s, o, slot), RouteFeed(c, s, o, o.slot))
  {
    hide Startup.Valid, Table, Answered, SlotFed, GateGazebo, GateFeed, ValidateStation, Failing, AuthorityEnvelope, SessionNow,
         Aggregate;
    ModeFacts(c);
    if !c.StationRequired() {
      GateFeeds(c, s, s, Cleared(o), Aggregate(s), slot);
    } else {
      var (s1, ok) := ValidateStation(c, s, o.monotonicNs, o.systemWallNs);
      if ok {
        GateFeeds(c, s, s1, Cleared(o).(sessionNs := SessionNow(c, s1, o.monotonicNs)), Aggregate(s), slot);
      } else {
        FailureFeeds(c, s, s1, true, Aggregate(s), o.monotonicNs, slot);
        var t := Failing(c, s1, true, Aggregate(s), o.monotonicNs);
        FailedKnown(c, s, t, s1, true, Aggregate(s), o);
        Refused(c, s, o, t, Cleared(o), Some(AuthorityFailureOp(true)));
      }
    }
  }

  // ---- any operation ----

  // Every operation leaves every route in the state its own mapper reaches by
  // the operation's feed.
  lemma ApplyFeeds(c: Startup, s: Guard, op: GuardOp, slot: string)
    requires c.Valid() && Known(c, s, slot)
    ensures SlotFed(c, s, Apply(c, s, op), slot, Feed(c, s, op, slot))
  {
    hide Startup.Valid, Table, SlotFed, ObserveGazebo, ObserveRoute, Poll, Failing, ClockFeed, RouteFeed, PollFeed, Answered,
         Aggregate;
    match op
    case GazeboClockOp(o) => ClockFeeds(c, s, o, slot);
    case RouteOp(o) =>
      if Known(c, s, o.slot) {
        RouteFeeds(c, s, o, slot);
      } else {
        UnknownFeeds(c, s, o, slot);
      }
    case GuardPollOp(m, w) => PollFeeds(c, s, m, w, slot);
    case FailEpochFenceOp(m) => FailureFeeds(c, s, s, true, Aggregate(s), m, slot);
    case TakeEventsOp => NothingFed(c, s, s.(pending := []), slot);
  }

  lemma UnknownFeeds(c: Startup, s: Guard, o: Observation, slot: string)
    requires c.Valid() && Known(c, s, slot) && !Known(c, s, o.slot)
    ensures SlotFed(c, s, ObserveRoute(c, s, o).0, slot, RouteFeed(c, s, o, slot))
  {
    hide Startup.Valid, Table, SlotFed, GateGazebo, ValidateStation, GateFeed;
    NothingFed(c, s, s, slot);
  }

  // A route is fed an observation only by an observation of that route, with
  // the same raw and steady stamps, and stamped with the station time of its
  // receipt when the station is the authority.
  predicate FeedsAs(c: Startup, op: GuardOp, slot: string, feed: MapperOp) {
    feed.ObserveOp? ==>
      && op.RouteOp? && op.observation.slot == slot
      && var o := feed.observation;
      && o == op.observation.(sessionNs := o.sessionNs, gazeboStampNs := o.gazeboStampNs,
                              authorityAgeNs := o.authorityAgeNs, gazeboSkewNs := o.gazeboSkewNs)
      && (c.StationRequired() ==> o.sessionNs == StationTime(c, o.monotonicNs))
  }

  lemma FeedSays(c: Startup, s: Guard, op: GuardOp, slot: string)
    requires c.Valid()
    ensures Feed(c, s, op, slot).Some? ==> FeedsAs(c, op, slot, Feed(c, s, op, slot).value)
  {
    hide Startup.Valid, Table, StampFeed, PollGateFeed, GazeboAge, DeadlineExceeded, ValidateStation, SignedDifference, StationTime;
    ModeFacts(c);
    match op
    case GazeboClockOp(o) => ClockSays(c, s, o);
    case RouteOp(o) => RouteSays(c, s, o, slot);
    case GuardPollOp(m, w) => PollSays(c, s, m, w);
    case FailEpochFenceOp(_) =>
    case TakeEventsOp =>
  }

  lemma ClockSays(c: Startup, s: Guard, o: GazeboObservation)
    requires c.Valid()
    ensures ClockFeed(c, s, o).Some? ==> !ClockFeed(c, s, o).value.ObserveOp?
  {
    hide Startup.Valid, ReceiptFails, RateFails, RealTimeFactor, ValidateStation;
  }

  lemma PollSays(c: Startup, s: Guard, monotonicNs: u64, systemWallNs: u64)
    requires c.Valid()
    ensures PollFeed(c, s, monotonicNs, systemWallNs).Some? ==> !PollFeed(c, s, monotonicNs, systemWallNs).value.ObserveOp?
  {
    hide Startup.Valid, GazeboAge, DeadlineExceeded, ValidateStation;
  }

  lemma RouteSays(c: Startup, s: Guard, o: Observation, slot: string)
    requires c.Valid()
    ensures RouteFeed(c, s, o, slot).Some? ==> FeedsAs(c, RouteOp(o), slot, RouteFeed(c, s, o, slot).value)
  {
    hide Startup.Valid, Table, GazeboAge, DeadlineExceeded, ValidateStation, SignedDifference, Magnitude, StationTime;
    ModeFacts(c);
  }

  // ---- runs ----

  // What the run hands to one route's mapper, in order.
  ghost function RouteOps(c: Startup, ops: seq<GuardOp>, slot: string): seq<MapperOp>
    requires c.Valid()
  {
    if ops == [] then []
    else
      var front := ops[..|ops| - 1];
      RouteOps(c, front, slot) + (match Feed(c, After(c, front), ops[|ops| - 1], slot)
                                  case None => []
                                  case Some(op) => [op])
  }

  lemma SlotsStay(c: Startup, ops: seq<GuardOp>, slot: string)
    requires c.Valid() && slot in Table(c)
    ensures Known(c, After(c, ops), slot)
  {
    hide Startup.Valid, After, Table, Settled, RouteSound;
    RunInv(c, ops);
  }

  // After every run of the guard, each route's mapper is in exactly the state it
  // reaches by the run the guard handed to it. What holds of a mapper over every
  // run therefore holds of every route of the guard, of its own operations.
  lemma {:induction false} RoutesAreMapperRuns(c: Startup, ops: seq<GuardOp>, slot: string)
    requires c.Valid() && slot in Table(c)
    ensures slot in After(c, ops).routes && MapperConfigValid(RouteConfig(c, Table(c)[slot]))
    ensures var m := RouteConfig(c, Table(c)[slot]);
            After(c, ops).routes[slot] == Run(m, Started(m, c.epoch, c.monotonicNs), RouteOps(c, ops, slot))
  {
    hide Startup.Valid, After, Table, RouteConfig, Step, Started, Feed, Apply, MapperConfigValid;
    RouteConfigIsValid(c, Table(c)[slot]);
    SlotsStay(c, ops, slot);
    if ops == [] {
      StartedRoute(c, slot);
    } else {
      var front, op := ops[..|ops| - 1], ops[|ops| - 1];
      assert front + [op] == ops;
      SlotsStay(c, front, slot);
      RoutesAreMapperRuns(c, front, slot);
      RunExtends(c, front, op);
      ApplyFeeds(c, After(c, front), op, slot);
      var feed := Feed(c, After(c, front), op, slot);
      if feed.Some? {
        var before := RouteOps(c, front, slot);
        assert RouteOps(c, ops, slot) == before + [feed.value];
        assert (before + [feed.value])[..|before|] == before;
      } else {
        assert RouteOps(c, ops, slot) == RouteOps(c, front, slot);
      }
    }
  }

  lemma StartedRoute(c: Startup, slot: string)
    requires c.Valid() && slot in Table(c)
    ensures slot in After(c, []).routes
    ensures var m := RouteConfig(c, Table(c)[slot]); After(c, []).routes[slot] == Started(m, c.epoch, c.monotonicNs)
  {
    hide Startup.Valid, Table, RouteConfig, Refresh, InitialStatus, Aggregate, EventAt, Started;
    assert Refresh(c, InitialAuthority(c)).routes == InitialAuthority(c).routes by { RefreshRoutes(c, InitialAuthority(c)); }
  }
}
