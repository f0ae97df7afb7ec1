// The Session clock guard as the node owns it: one object that owns a mapper for
// every route and updates them and its own fields in place
// (src/core/session_clock_guard.cpp:60-772). Every method is tied to its
// value-level meaning in GuardSpec, and the public ones to the run of
// operations made so far, so that every theorem about runs holds of the object.
module SessionClockGuards {
  import opened Numbers
  import opened Types
  import opened Policy
  import opened MapperSpec
  import opened ClockMappers
  import opened GuardSpec
  import GuardInvariant
  import GuardRuns

  // Building the guard fails exactly when its configuration or anchors do.
  method Create(config: FrozenConfig, epoch: u64, monotonicStartNs: u64, systemWallStartNs: u64)
    returns (r: Option<SessionClockGuard>)
    ensures r.Some? <==> Startup(config, epoch, monotonicStartNs, systemWallStartNs).Valid()
    ensures r.Some? ==>
              && fresh(r.value) && fresh(r.value.entries.Values)
              && r.value.startup == Startup(config, epoch, monotonicStartNs, systemWallStartNs)
              && r.value.Valid() && r.value.trace == []
  {
    var routesOk := ValidateRoutes(config.runMode, config.routes);
    if !ThresholdPolicyValid(config.thresholds) || !routesOk || !ModeClockPolicyValid(config) || !SourceTimingValid(config)
       || epoch == 0 || monotonicStartNs == 0 || systemWallStartNs == 0 {
      return None;
    }
    var guard := new SessionClockGuard(Startup(config, epoch, monotonicStartNs, systemWallStartNs));
    return Some(guard);
  }

  class SessionClockGuard {
    const startup: Startup
    const entries: map<string, ClockMapper>
    var stationHealthy: bool
    var gazeboHealthy: bool
    var haveGazeboClock: bool
    var haveGazeboRate: bool
    var lastGazeboStampNs: u64
    var lastGazeboMonotonicNs: u64
    var lastWallErrorNs: i64
    var authorityState: GuardState
    var authorityFailures: u32
    var authorityRecovery: u32
    var status: AuthorityStatus
    var nextSequence: u64
    var pending: seq<GuardEvent>
    // The public operations made so far.
    ghost var trace: seq<GuardOp>

    // The routes are the frozen ones, each with a mapper of its own.
    ghost predicate Whole()
      reads entries.Values
    {
      && startup.Valid()
      && entries.Keys == Table(startup).Keys
      && (forall k :: k in entries ==>
            entries[k].Valid() && entries[k].config == RouteConfig(startup, Table(startup)[k]))
      && (forall k, l :: k in entries && l in entries && k != l ==> entries[k] != entries[l])
    }

    ghost function RouteStates(): map<string, MapperState>
      reads entries.Values
      requires Whole()
    {
      map k | k in entries :: entries[k].State()
    }

    ghost function State(): Guard
      reads this, entries.Values
      requires Whole()
    {
      Guard(stationHealthy, gazeboHealthy, haveGazeboClock, haveGazeboRate, lastGazeboStampNs, lastGazeboMonotonicNs,
            lastWallErrorNs, authorityState, authorityFailures, authorityRecovery, status, nextSequence, pending,
            RouteStates())
    }

    ghost predicate Valid()
      reads this, entries.Values
    {
      Whole() && State() == After(startup, trace)
    }

    // ---- construction ----

    // One mapper for each frozen slot; a slot that is already there keeps its own.
    static method BuildMappers(s: Startup) returns (built: map<string, ClockMapper>)
      requires s.Valid()
      ensures fresh(built.Values)
      ensures built.Keys == Table(s).Keys
      ensures forall k :: k in built ==>
                built[k].Valid() && built[k].config == RouteConfig(s, Table(s)[k])
                && built[k].State() == Created(built[k].config)
      ensures forall k, l :: k in built && l in built && k != l ==> built[k] != built[l]
    {
      hide RouteTable, RouteConfig, Created;
      built := map[];
      var routes := s.config.routes;
      NoRoutes();
      for i := 0 to |routes|
        invariant forall k :: k in built ==> fresh(built[k])
        invariant built.Keys == RouteTable(routes[..i]).Keys
        invariant forall k :: k in built ==>
                    built[k].Valid() && built[k].config == RouteConfig(s, RouteTable(routes[..i])[k])
                    && built[k].State() == Created(built[k].config)
        invariant forall k, l :: k in built && l in built && k != l ==> built[k] != built[l]
      {
        RouteTableExtends(routes, i);
        if routes[i].slot !in built {
          RouteConfigIsValid(s, routes[i]);
          hide Startup.Valid;
          var mapper := new ClockMapper(RouteConfig(s, routes[i]));
          built := built[routes[i].slot := mapper];
        }
      }
      assert routes[..|routes|] == routes;
    }

    constructor (s: Startup)
      requires s.Valid()
      ensures startup == s && fresh(entries.Values)
      ensures Valid() && trace == []
    {
      hide Startup.Valid, Table, InitialStatus, RouteConfig, Started, Created, MapperConfigValid, After;
      var built := BuildMappers(s);
      startup := s;
      entries := built;
      stationHealthy := s.StationRequired();
      gazeboHealthy := false;
      haveGazeboClock := false;
      haveGazeboRate := false;
      lastGazeboStampNs := 0;
      lastGazeboMonotonicNs := 0;
      lastWallErrorNs := 0;
      authorityState := if s.config.runMode == Physical then Locked else Initializing;
      authorityFailures := 0;
      authorityRecovery := 0;
      status := InitialStatus(s);
      nextSequence := 1;
      pending := [];
      trace := [];
      new;
      CreatedRoutes();
      Begin();
    }

    // The state a guard has before its routes and its log are started.
    ghost predicate Blank()
      reads this, entries.Values
    {
      && Whole()
      && State() == InitialAuthority(startup).(routes := RouteStates())
      && forall k :: k in entries ==> RouteStates()[k] == Created(RouteConfig(startup, Table(startup)[k]))
    }

    method Begin()
      requires Blank() && trace == []
      modifies this, entries.Values
      ensures Valid() && trace == []
    {
      hide Startup.Valid, Table, Whole, RouteStates, InitialAuthority, Refresh, Emit, Aggregate, RouteConfig, Started, Created, After;
      SlotsAreFrozen();
      InitialRun(startup);
      InitialRoutes(startup);
      StartRoutes();
      assert State() == InitialAuthority(startup);
      RefreshAuthorityHealth();
      EmitEvent(NewEpochEvent, Initializing, startup.monotonicNs);
      var aggregate := AggregateState();
      if aggregate == Locked {
        EmitEvent(LockedEvent, Locked, startup.monotonicNs);
      }
    }

    lemma CreatedRoutes()
      requires Whole() && forall k :: k in entries ==> entries[k].State() == Created(entries[k].config)
      ensures forall k :: k in entries ==> RouteStates()[k] == Created(RouteConfig(startup, Table(startup)[k]))
    {
      hide Startup.Valid, Table, RouteConfig, MapperConfigValid, Created;
    }

    // Every route starts the epoch; none can refuse it.
    method StartRoutes()
      requires Whole()
      requires forall k :: k in entries ==> RouteStates()[k] == Created(RouteConfig(startup, Table(startup)[k]))
      modifies entries.Values
      ensures Whole()
      ensures RouteStates() ==
              map k | k in Table(startup) :: Started(RouteConfig(startup, Table(startup)[k]), startup.epoch, startup.monotonicNs)
    {
      hide Startup.Valid, Table, Whole, RouteStates, RouteConfig, Started, Created, StartedBut;
      SlotsAreFrozen();
      var todo := entries.Keys;
      NoneStarted(startup, RouteStates());
      while todo != {}
        invariant todo <= entries.Keys && Whole()
        invariant StartedBut(startup, RouteStates(), todo)
        decreases |todo|
      {
        var k :| k in todo;
        SlotsAreFrozen();
        OneStarted(startup, RouteStates(), todo, k);
        StartRoute(k);
        todo := todo - {k};
      }
      StartedEverywhere(startup, RouteStates());
    }

    // ---- readings ----

    function SessionNowAt(monotonicNs: u64): u64
      reads this
    {
      if startup.config.authority == GazeboSimulation then lastGazeboStampNs else StationTime(startup, monotonicNs)
    }

    method AggregateState() returns (state: GuardState)
      requires Whole()
      ensures state == Aggregate(State())
    {
      hide Startup.Valid, Table, Whole, RouteStates, Aggregate;
      SlotsAreFrozen();
      ghost var states := RouteStates();
      var initializing, degraded := false, false;
      var todo := entries.Keys;
      while todo != {}
        invariant todo <= entries.Keys
        invariant forall k :: k in states && k !in todo ==> states[k].status.state != Lost
        invariant degraded <==> exists k :: k in states && k !in todo && states[k].status.state == Degraded
        invariant initializing <==> exists k :: k in states && k !in todo && states[k].status.state == Initializing
        decreases |todo|
      {
        var k :| k in todo;
        StateOfEntry(k);
        match entries[k].status.state {
          case Lost =>
            LostScanned(State(), k);
            return Lost;
          case Degraded => degraded := true;
          case Initializing => initializing := true;
          case Locked =>
        }
        todo := todo - {k};
      }
      AggregateScanned(State(), degraded, initializing);
      if authorityState == Lost {
        return Lost;
      }
      if degraded || authorityState == Degraded {
        return Degraded;
      }
      if initializing || authorityState == Initializing || !status.healthy {
        return Initializing;
      }
      return Locked;
    }

    lemma StateOfEntry(slot: string)
      requires Whole() && slot in entries
      ensures slot in RouteStates() && entries[slot].Valid()
      ensures RouteStates()[slot] == entries[slot].State()
      ensures RouteStates()[slot].status == entries[slot].status
    {
      hide Startup.Valid, Table;
    }

    method OutputAllowed() returns (allowed: bool)
      requires Whole()
      ensures allowed <==> SensitiveOutputAllowed(State())
    {
      var aggregate := AggregateState();
      return status.healthy && aggregate == Locked;
    }

    method CountLockedRoutes() returns (count: nat)
      requires Whole()
      ensures count == LockedRouteCount(State())
    {
      hide Startup.Valid, Table, Whole, RouteStates, LockedBeyond;
      SlotsAreFrozen();
      ghost var states := RouteStates();
      count := 0;
      var todo := entries.Keys;
      NoneBeyond(states);
      while todo != {}
        invariant todo <= entries.Keys
        invariant count == |LockedBeyond(states, todo)|
        decreases |todo|
      {
        var k :| k in todo;
        StateOfEntry(k);
        OneBeyond(states, todo, k);
        if entries[k].status.state == Locked {
          count := count + 1;
        }
        todo := todo - {k};
      }
      AllBeyond(State());
    }

    // ---- events ----

    method EmitEvent(kind: GuardEventKind, state: GuardState, monotonicNs: u64)
      requires Whole()
      modifies this
      ensures Whole() && trace == old(trace)
      ensures State() == Emit(startup, old(State()), kind, state, monotonicNs)
    {
      hide Startup.Valid, Table, Whole, RouteStates;
      var event := GuardEvent(nextSequence, kind, state, startup.epoch, monotonicNs, SessionNowAt(monotonicNs),
                              status.ageNs, status.lastGazeboStampNs, status.lastSkewNs,
                              status.wallErrorNs, status.wallStepNs, status.realTimeFactor);
      nextSequence := if nextSequence == U64_MAX then 0 else nextSequence + 1;
      pending := pending + [event];
    }

    method EmitStateTransition(before: GuardState, monotonicNs: u64)
      requires Whole()
      modifies this
      ensures Whole() && trace == old(trace)
      ensures State() == EmitTransition(startup, old(State()), before, monotonicNs)
    {
      hide Startup.Valid, Table, Whole, RouteStates, Aggregate, Emit;
      var after := AggregateState();
      if after == before {
        return;
      }
      match after
      case Locked => EmitEvent(LockedEvent, after, monotonicNs);
      case Degraded => EmitEvent(DegradedEvent, after, monotonicNs);
      case Lost => EmitEvent(LostEvent, after, monotonicNs);
      case Initializing =>
    }

    // ---- the authority ----

    method RefreshAuthorityHealth()
      requires Whole()
      modifies this
      ensures Whole() && trace == old(trace)
      ensures State() == Refresh(startup, old(State()))
      ensures status.gazeboRequired == old(status.gazeboRequired)
    {
      hide Startup.Valid, Table, Whole, RouteStates;
      var ready := haveGazeboClock && (startup.config.runMode != Hybrid || haveGazeboRate);
      var healthy := authorityState == Locked
                     && (!startup.StationRequired() || stationHealthy)
                     && (!status.gazeboRequired || (gazeboHealthy && ready));
      status := status.(gazeboReady := ready,
                        state := authorityState,
                        consecutiveFailures := authorityFailures,
                        recoverySamples := authorityRecovery,
                        healthy := healthy);
    }

    method MeasureStationClock(monotonicNs: u64, systemWallNs: u64)
      requires Whole()
      modifies this
      ensures Whole() && trace == old(trace)
      ensures State() == StationReading(startup, old(State()), monotonicNs, systemWallNs)
      ensures status.gazeboRequired == old(status.gazeboRequired)
    {
      hide Startup.Valid, Table, Whole, RouteStates, StationTime, SignedDifference, ClampedDifference;
      var now := SessionNowAt(monotonicNs);
      var wallError := SignedDifference(systemWallNs, now);
      var wallStep := ClampedDifference(wallError, lastWallErrorNs);
      lastWallErrorNs := wallError;
      status := status.(sessionNowNs := now,
                        lastAuthorityMonotonicNs := monotonicNs,
                        ageNs := 0,
                        wallErrorNs := wallError,
                        wallStepNs := wallStep);
    }

    method SetStationHealth(healthy: bool)
      requires Whole()
      modifies this
      ensures Whole() && trace == old(trace)
      ensures State() == Refresh(startup, old(State()).(stationHealthy := healthy))
      ensures status.gazeboRequired == old(status.gazeboRequired)
    {
      hide Startup.Valid, Table, Whole, RouteStates, Refresh;
      stationHealthy := healthy;
      RefreshAuthorityHealth();
    }

    method ValidateStationClock(monotonicNs: u64, systemWallNs: u64) returns (ok: bool)
      requires Whole() && StationFieldsPresent(startup.config.thresholds)
      modifies this
      ensures Whole() && trace == old(trace)
      ensures (State(), ok) == ValidateStation(startup, old(State()), monotonicNs, systemWallNs)
      ensures status.gazeboRequired == old(status.gazeboRequired)
    {
      hide Startup.Valid, Table, Whole, RouteStates, Refresh, StationReading, Magnitude;
      if monotonicNs == 0 || systemWallNs == 0 || monotonicNs < startup.monotonicNs {
        SetStationHealth(false);
        return false;
      }
      MeasureStationClock(monotonicNs, systemWallNs);
      if Magnitude(status.wallErrorNs) > startup.config.thresholds.maxStationWallErrorNs.value {
        SetStationHealth(false);
        return false;
      }
      if Magnitude(status.wallStepNs) > startup.config.thresholds.maxStationWallStepNs.value {
        SetStationHealth(false);
        return false;
      }
      SetStationHealth(true);
      return true;
    }

    method ValidateGazeboAuthorityAge(monotonicNs: u64) returns (ok: bool, immediateLoss: bool)
      requires Whole() && status.gazeboRequired == startup.GazeboRequired()
      modifies this
      ensures Whole() && trace == old(trace)
      ensures var (s, check) := GazeboAge(startup, old(State()), monotonicNs);
              State() == s && (ok <==> check == Fresh) && (immediateLoss <==> check == Hopeless)
    {
      hide Startup.Valid, Table, Whole, RouteStates;
      if !status.gazeboRequired {
        return true, false;
      }
      if monotonicNs == 0 || monotonicNs < startup.monotonicNs
         || (haveGazeboClock && monotonicNs < lastGazeboMonotonicNs) {
        return false, true;
      }
      if authorityState == Lost {
        return false, false;
      }
      var reference := if haveGazeboClock then lastGazeboMonotonicNs else startup.monotonicNs;
      status := status.(ageNs := monotonicNs - reference);
      if !haveGazeboClock {
        var startupTimedOut := status.ageNs > startup.config.thresholds.startupLockTimeoutNs;
        return false, startupTimedOut;
      }
      if status.ageNs > startup.config.thresholds.maxAuthorityAgeNs {
        return false, false;
      }
      if startup.config.runMode == Hybrid && !haveGazeboRate {
        return false, false;
      }
      return true, false;
    }

    method MarkUnhealthy()
      requires Whole()
      modifies this
      ensures Whole() && trace == old(trace)
      ensures State() == MarkedUnhealthy(startup, old(State()))
    {
      hide Startup.Valid, Table, Whole, RouteStates;
      if startup.config.authority == StationWallMonotonic {
        stationHealthy := false;
      }
      if status.gazeboRequired {
        gazeboHealthy := false;
      }
    }

    method CountFailure(immediateLoss: bool)
      requires Whole()
      modifies this
      ensures Whole() && trace == old(trace)
      ensures State() == FailureCounted(startup, old(State()), immediateLoss)
    {
      hide Startup.Valid, Table, Whole, RouteStates;
      if authorityState == Lost {
        return;
      }
      var failures := if authorityFailures < U32_MAX then authorityFailures + 1 else authorityFailures;
      var lost := immediateLoss || failures >= startup.config.thresholds.lostAfterFailures;
      authorityFailures, authorityRecovery := failures, 0;
      authorityState := if lost then Lost else Degraded;
    }

    method FailAuthority(immediateLoss: bool)
      requires Whole()
      modifies this, entries.Values
      ensures Whole() && trace == old(trace)
      ensures State() == GuardSpec.FailAuthority(startup, old(State()), immediateLoss)
    {
      hide Startup.Valid, Table, Whole, RouteStates, FailRoutes, Refresh, MarkedUnhealthy, FailureCounted;
      SlotsAreFrozen();
      MarkUnhealthy();
      CountFailure(immediateLoss);
      RefreshAuthorityHealth();
      FailEveryRoute(immediateLoss);
    }

    // ---- one route ----

    method StartRoute(slot: string)
      requires Whole() && slot in entries && RouteStates()[slot] == Created(RouteConfig(startup, Table(startup)[slot]))
      modifies entries.Values
      ensures Whole()
      ensures RouteStates() ==
              old(RouteStates())[slot := Started(RouteConfig(startup, Table(startup)[slot]), startup.epoch, startup.monotonicNs)]
    {
      hide Startup.Valid, Table, RouteConfig, MapperConfigValid, Started, Created, Startup.StationRequired, EpochAcceptable;
      EpochIsAcceptable(startup, Table(startup)[slot]);
      var ok := entries[slot].InitializeEpoch(startup.epoch,
                                              if startup.StationRequired() then startup.systemWallNs else 0,
                                              startup.monotonicNs);
      assert ok;
      forall k | k in entries && k != slot
        ensures entries[k].Valid() && entries[k].State() == old(entries[k].State())
      {
        assert old(entries[k].Valid()) && entries[k] != entries[slot];
      }
    }

    method FailRoute(slot: string, immediateLoss: bool)
      requires Whole() && slot in entries && slot in Table(startup)
      modifies entries.Values
      ensures Whole()
      ensures RouteStates() == SlotStepped(startup, old(RouteStates()), slot, AuthorityFailureOp(immediateLoss))
    {
      hide Startup.Valid, Table, RouteConfig, MapperConfigValid, Step;
      entries[slot].AuthorityFailure(immediateLoss);
      forall k | k in entries && k != slot
        ensures entries[k].Valid() && entries[k].State() == old(entries[k].State())
      {
        assert old(entries[k].Valid()) && entries[k] != entries[slot];
      }
    }

    method PollRoute(slot: string, nowNs: u64)
      requires Whole() && slot in entries && slot in Table(startup)
      modifies entries.Values
      ensures Whole()
      ensures RouteStates() == SlotStepped(startup, old(RouteStates()), slot, PollOp(nowNs))
    {
      hide Startup.Valid, Table, RouteConfig, MapperConfigValid, Step;
      entries[slot].Poll(nowNs);
      forall k | k in entries && k != slot
        ensures entries[k].Valid() && entries[k].State() == old(entries[k].State())
      {
        assert old(entries[k].Valid()) && entries[k] != entries[slot];
      }
    }

    method ObserveRoute(slot: string, o: Observation) returns (e: TimestampEnvelope)
      requires Whole() && slot in entries && slot in Table(startup)
      modifies entries.Values
      ensures Whole() && MapperConfigValid(RouteConfig(startup, Table(startup)[slot]))
      ensures RouteStates() == SlotStepped(startup, old(RouteStates()), slot, ObserveOp(o))
      ensures e == EnvelopeOf(RouteConfig(startup, Table(startup)[slot]), old(RouteStates())[slot], o)
    {
      hide Startup.Valid, Table, RouteConfig, MapperConfigValid, Step, EnvelopeOf;
      RouteConfigIsValid(startup, Table(startup)[slot]);
      ghost var st := RouteStates()[slot];
      e := entries[slot].Observe(o);
      assert e == EnvelopeOf(RouteConfig(startup, Table(startup)[slot]), st, o);
      forall k | k in entries && k != slot
        ensures entries[k].Valid() && entries[k].State() == old(entries[k].State())
      {
        assert old(entries[k].Valid()) && entries[k] != entries[slot];
      }
    }

    method RejectedEnvelope(slot: string, o: Observation) returns (e: TimestampEnvelope)
      requires Whole() && slot in entries && slot in Table(startup)
      ensures e == MakeEnvelope(RouteConfig(startup, Table(startup)[slot]), RouteStates()[slot], o, false)
    {
      hide Startup.Valid, Table, RouteConfig, MapperConfigValid, MakeEnvelope;
      e := entries[slot].RejectedEnvelope(o);
    }

    lemma SlotsAreFrozen()
      requires Whole()
      ensures RouteStates().Keys == entries.Keys == Table(startup).Keys
      ensures startup.Valid()
    {
      hide Startup.Valid, Table;
    }

    // ---- every route ----

    method FailEveryRoute(immediateLoss: bool)
      requires Whole()
      modifies entries.Values
      ensures Whole()
      ensures RouteStates() == FailRoutes(startup, old(RouteStates()), immediateLoss)
    {
      hide Startup.Valid, Table, Whole, RouteStates, StepSlot, FailRoutes, SteppedBut, SlotStepped;
      SlotsAreFrozen();
      ghost var before := RouteStates();
      var todo := entries.Keys;
      NoneStepped(startup, before, AuthorityFailureOp(immediateLoss));
      while todo != {}
        invariant todo <= entries.Keys && Whole()
        invariant SteppedBut(startup, before, RouteStates(), todo, AuthorityFailureOp(immediateLoss))
        decreases |todo|
      {
        var k :| k in todo;
        SlotsAreFrozen();
        OneStepped(startup, before, RouteStates(), todo, k, AuthorityFailureOp(immediateLoss));
        FailRoute(k, immediateLoss);
        todo := todo - {k};
      }
      FailedEverywhere(startup, before, RouteStates(), immediateLoss);
    }

    method PollEveryRoute(nowNs: u64)
      requires Whole()
      modifies entries.Values
      ensures Whole()
      ensures RouteStates() == PollRoutes(startup, old(RouteStates()), nowNs)
    {
      hide Startup.Valid, Table, Whole, RouteStates, StepSlot, PollRoutes, SteppedBut, SlotStepped;
      SlotsAreFrozen();
      ghost var before := RouteStates();
      var todo := entries.Keys;
      NoneStepped(startup, before, PollOp(nowNs));
      while todo != {}
        invariant todo <= entries.Keys && Whole()
        invariant SteppedBut(startup, before, RouteStates(), todo, PollOp(nowNs))
        decreases |todo|
      {
        var k :| k in todo;
        SlotsAreFrozen();
        OneStepped(startup, before, RouteStates(), todo, k, PollOp(nowNs));
        PollRoute(k, nowNs);
        todo := todo - {k};
      }
      PolledEverywhere(startup, before, RouteStates(), nowNs);
    }

    method RecordHealthyAuthority()
      requires Whole()
      modifies this
      ensures Whole() && trace == old(trace)
      ensures State() == RecordHealthy(startup, old(State()))
    {
      hide Startup.Valid, Table, Whole, State, Refresh, Recovered;
      Recover();
      RefreshAuthorityHealth();
    }

    method Recover()
      requires Whole()
      modifies this
      ensures Whole() && trace == old(trace)
      ensures State() == Recovered(startup, old(State()))
    {
      hide Startup.Valid, Table, Whole, RouteStates;
      if authorityState == Lost {
        return;
      }
      authorityFailures := 0;
      if authorityState == Initializing {
        authorityState := Locked;
        authorityRecovery := 0;
      } else if authorityState == Degraded {
        if authorityRecovery < U32_MAX {
          authorityRecovery := authorityRecovery + 1;
        }
        if authorityRecovery >= startup.config.thresholds.recoverLockSamples {
          authorityState := Locked;
          authorityRecovery := 0;
        }
      }
    }

    // ---- the stretches of an operation ----

    method Fail(immediateLoss: bool, before: GuardState, monotonicNs: u64)
      requires Whole()
      modifies this, entries.Values
      ensures Whole() && trace == old(trace)
      ensures State() == Failing(startup, old(State()), immediateLoss, before, monotonicNs)
    {
      hide Startup.Valid, Table, Whole, State, EmitTransition, GuardSpec.FailAuthority;
      FailAuthority(immediateLoss);
      EmitStateTransition(before, monotonicNs);
    }

    method RememberGazeboClock(o: GazeboObservation)
      requires Whole()
      modifies this
      ensures Whole() && trace == old(trace)
      ensures State() == ClockRemembered(startup, old(State()), o, old(haveGazeboRate))
    {
      hide Startup.Valid, Table, Whole, RouteStates;
      haveGazeboClock := true;
      lastGazeboStampNs := o.stampNs;
      lastGazeboMonotonicNs := o.monotonicNs;
      gazeboHealthy := startup.config.runMode == Simulation || haveGazeboRate;
    }

    method ReportGazeboClock(o: GazeboObservation, factor: real)
      requires Whole()
      modifies this
      ensures Whole() && trace == old(trace)
      ensures State() == ClockReported(startup, old(State()), o, factor)
    {
      hide Startup.Valid, Table, Whole, RouteStates, StationTime;
      var now := if startup.config.runMode == Simulation then o.stampNs else SessionNowAt(o.monotonicNs);
      status := status.(lastGazeboStampNs := o.stampNs,
                        lastAuthorityMonotonicNs := o.monotonicNs,
                        ageNs := 0,
                        sessionNowNs := now,
                        realTimeFactor := factor);
    }

    method AcceptGazeboClock(o: GazeboObservation, factor: real)
      requires Whole()
      modifies this
      ensures Whole() && trace == old(trace)
      ensures State() == AcceptClock(startup, old(State()), o, factor, old(haveGazeboRate))
    {
      hide Startup.Valid, Table, Whole, RouteStates, Refresh, RecordHealthy, ClockRemembered, ClockReported;
      RememberGazeboClock(o);
      ReportGazeboClock(o, factor);
      if gazeboHealthy {
        RecordHealthyAuthority();
      } else {
        RefreshAuthorityHealth();
      }
    }

    // The hybrid rate of a clock that moved forward.
    method MeasureRate(o: GazeboObservation) returns (factor: real, ok: bool)
      requires Whole() && RateFieldsPresent(startup.config.thresholds)
      requires haveGazeboClock && lastGazeboStampNs <= o.stampNs && lastGazeboMonotonicNs < o.monotonicNs
      modifies this
      ensures Whole() && trace == old(trace)
      ensures factor == RealTimeFactor(old(State()), o)
      ensures ok <==> !RateFails(startup, factor)
      ensures var measured := old(State()).(status := old(status).(realTimeFactor := factor));
              State() == if ok then measured.(haveGazeboRate := true) else measured
    {
      hide Startup.Valid, Table, Whole, RouteStates;
      var gazeboDelta := o.stampNs - lastGazeboStampNs;
      var steadyDelta := o.monotonicNs - lastGazeboMonotonicNs;
      factor := gazeboDelta as real / steadyDelta as real;
      status := status.(realTimeFactor := factor);
      ok := !(factor < startup.config.thresholds.minGazeboRealTimeFactor.value
              || factor > startup.config.thresholds.maxGazeboRealTimeFactor.value);
      if ok {
        haveGazeboRate := true;
      }
    }

    // The stretch of a clock observation after station validation.
    method AdmitGazeboClock(o: GazeboObservation, before: GuardState) returns (admitted: bool)
      requires Whole()
      modifies this, entries.Values
      ensures Whole() && trace == old(trace)
      ensures (State(), admitted) == AdmitClock(startup, old(State()), o, before)
    {
      hide Startup.Valid, Table, Whole, RouteStates, Failing, AdmitStamp;
      SlotsAreFrozen();
      if o.monotonicNs == 0 || o.monotonicNs < startup.monotonicNs
         || (haveGazeboClock && o.monotonicNs <= lastGazeboMonotonicNs) {
        Fail(true, before, o.monotonicNs);
        return false;
      }
      if !haveGazeboClock && o.monotonicNs - startup.monotonicNs > startup.config.thresholds.startupLockTimeoutNs {
        Fail(true, before, o.monotonicNs);
        return false;
      }
      admitted := AdmitGazeboStamp(o, before);
    }

    method AdmitGazeboStamp(o: GazeboObservation, before: GuardState) returns (admitted: bool)
      requires Whole() && !ReceiptFails(startup, State(), o)
      modifies this, entries.Values
      ensures Whole() && trace == old(trace)
      ensures (State(), admitted) == AdmitStamp(startup, old(State()), o, before)
    {
      hide Startup.Valid, Table, Whole, RouteStates, Failing, AcceptClock, EmitTransition, Refresh, RateFieldsPresent, RateFails, RealTimeFactor;
      SlotsAreFrozen();
      RatePresent(startup);
      if o.stampNs == 0 {
        if !haveGazeboClock {
          RefreshAuthorityHealth();
          return false;
        }
        Fail(true, before, o.monotonicNs);
        return false;
      }
      var factor := 0.0;
      if haveGazeboClock {
        if o.stampNs < lastGazeboStampNs {
          Fail(true, before, o.monotonicNs);
          return false;
        }
        if o.stampNs == lastGazeboStampNs {
          Fail(false, before, o.monotonicNs);
          return false;
        }
        if startup.config.runMode == Hybrid {
          var ok;
          ghost var s := State();
          factor, ok := MeasureRate(o);
          if !ok {
            Fail(false, before, o.monotonicNs);
            return false;
          }
          RateIsOverwritten(startup, s.(status := s.status.(realTimeFactor := factor)), o, factor);
        }
      }
      AcceptGazeboClock(o, factor);
      EmitStateTransition(before, o.monotonicNs);
      return true;
    }

    // The route's own mapper decides.
    method MapObservation(o: Observation, before: GuardState) returns (e: TimestampEnvelope)
      requires Whole() && Known(startup, State(), o.slot)
      modifies this, entries.Values
      ensures Whole() && trace == old(trace)
      ensures (State(), e) == GuardSpec.MapObservation(startup, old(State()), o, before)
    {
      hide Startup.Valid, Table, Whole, RouteStates, RouteConfig, EnvelopeOf, StepSlot, MapperConfigValid, EmitTransition,
           SensitiveOutputAllowed;
      SlotsAreFrozen();
      e := ObserveRoute(o.slot, o);
      var allowed := OutputAllowed();
      e := e.(canonicalPublishAllowed := e.accepted && allowed);
      EmitStateTransition(before, o.monotonicNs);
    }

    method RefuseSkew(o: Observation, before: GuardState) returns (e: TimestampEnvelope)
      requires Whole() && Known(startup, State(), o.slot)
      modifies this, entries.Values
      ensures Whole() && trace == old(trace)
      ensures (State(), e) == SkewFailure(startup, old(State()), o, before)
    {
      hide Startup.Valid, Table, Whole, RouteStates, RouteConfig, MakeEnvelope, StepSlot, MapperConfigValid, EmitTransition;
      SlotsAreFrozen();
      FailRoute(o.slot, false);
      e := RejectedEnvelope(o.slot, o);
      EmitStateTransition(before, o.monotonicNs);
    }

    method RejectForAuthority(o: Observation) returns (e: TimestampEnvelope)
      requires Whole() && Known(startup, State(), o.slot)
      ensures e == AuthorityEnvelope(startup, State(), o)
    {
      hide Startup.Valid, Table, Whole, RouteStates, RouteConfig, MakeEnvelope;
      SlotsAreFrozen();
      var enriched := o.(authorityAgeNs := status.ageNs,
                         gazeboStampNs := lastGazeboStampNs,
                         gazeboSkewNs := status.lastSkewNs);
      e := RejectedEnvelope(o.slot, enriched);
    }

    // Enrichment from the Gazebo authority, and the skew of simulation-domain
    // stamps against it.
    method GateSkew(o: Observation, before: GuardState) returns (e: TimestampEnvelope)
      requires Whole() && Known(startup, State(), o.slot) && startup.GazeboRequired()
      modifies this, entries.Values
      ensures Whole() && trace == old(trace)
      ensures (State(), e) == GuardSpec.GateSkew(startup, old(State()), o, before)
    {
      hide Startup.Valid, Table, Whole, RouteStates, GuardSpec.MapObservation, SkewFailure, SignedDifference, Magnitude;
      SlotsAreFrozen();
      GuardInvariant.ModeFacts(startup);
      var enriched := o.(gazeboStampNs := lastGazeboStampNs, authorityAgeNs := status.ageNs);
      if startup.config.runMode == Simulation {
        enriched := enriched.(sessionNs := lastGazeboStampNs);
      }
      if Table(startup)[o.slot].sourceDomain == SimulationSource {
        var skew := SignedDifference(o.rawNs, lastGazeboStampNs);
        enriched := enriched.(gazeboSkewNs := skew);
        status := status.(lastSkewNs := skew);
        if Magnitude(skew) > startup.config.thresholds.maxGazeboClockSkewNs.value {
          e := RefuseSkew(enriched, before);
          return;
        }
      }
      e := MapObservation(enriched, before);
    }

    method GateGazebo(o: Observation, before: GuardState) returns (e: TimestampEnvelope)
      requires Whole() && Known(startup, State(), o.slot) && status.gazeboRequired == startup.GazeboRequired()
      modifies this, entries.Values
      ensures Whole() && trace == old(trace)
      ensures (State(), e) == GuardSpec.GateGazebo(startup, old(State()), o, before)
    {
      hide Startup.Valid, Table, Whole, RouteStates, GuardSpec.MapObservation, GuardSpec.GateSkew, GazeboAge, Failing,
           AuthorityEnvelope, Startup.GazeboRequired, DeadlineExceeded;
      SlotsAreFrozen();
      if status.gazeboRequired {
        var ok, immediateLoss := ValidateGazeboAuthorityAge(o.monotonicNs);
        if !ok {
          RejectStale(immediateLoss, before, o.monotonicNs);
          e := RejectForAuthority(o);
          return;
        }
        if !status.healthy {
          e := RejectForAuthority(o);
          return;
        }
        e := GateSkew(o, before);
        return;
      }
      e := MapObservation(o, before);
    }

    // The failure that an authority that is not fresh calls for, if any.
    method RejectStale(immediateLoss: bool, before: GuardState, monotonicNs: u64)
      requires Whole()
      modifies this, entries.Values
      ensures Whole() && trace == old(trace)
      ensures State() == if immediateLoss || DeadlineExceeded(startup, old(State()))
                         then Failing(startup, old(State()), immediateLoss, before, monotonicNs) else old(State())
    {
      hide Startup.Valid, Table, Whole, RouteStates, Failing;
      SlotsAreFrozen();
      var deadlineExceeded := haveGazeboClock && status.ageNs > startup.config.thresholds.maxAuthorityAgeNs;
      if immediateLoss || deadlineExceeded {
        Fail(immediateLoss, before, monotonicNs);
      }
    }

    method ObserveSlot(o: Observation) returns (e: TimestampEnvelope)
      requires Whole() && status.gazeboRequired == startup.GazeboRequired()
      modifies this, entries.Values
      ensures Whole() && trace == old(trace)
      ensures (State(), e) == GuardSpec.ObserveRoute(startup, old(State()), o)
    {
      hide Startup.Valid, Table, Whole, RouteStates, GuardSpec.GateGazebo, ValidateStation, Failing, AuthorityEnvelope, Aggregate, StationTime,
           UnknownSlotEnvelope;
      SlotsAreFrozen();
      if o.slot !in entries {
        e := UnknownSlotEnvelope(startup, o);
        return;
      }
      var before := AggregateState();
      var enriched := o.(sessionNs := 0, gazeboStampNs := 0, authorityAgeNs := 0, gazeboSkewNs := 0);
      if startup.config.authority == StationWallMonotonic {
        GuardInvariant.ModeFacts(startup);
        var ok := ValidateStationClock(o.monotonicNs, o.systemWallNs);
        if !ok {
          Fail(true, before, o.monotonicNs);
          e := RejectForAuthority(enriched);
          return;
        }
        enriched := enriched.(sessionNs := SessionNowAt(o.monotonicNs));
      }
      e := GateGazebo(enriched, before);
    }

    method PollState(monotonicNs: u64, systemWallNs: u64)
      requires Whole() && status.gazeboRequired == startup.GazeboRequired()
      modifies this, entries.Values
      ensures Whole() && trace == old(trace)
      ensures State() == GuardSpec.Poll(startup, old(State()), monotonicNs, systemWallNs)
    {
      hide Startup.Valid, Table, Whole, RouteStates, PollFreshness, ValidateStation, Failing, Aggregate;
      SlotsAreFrozen();
      var before := AggregateState();
      if startup.config.authority == StationWallMonotonic {
        GuardInvariant.ModeFacts(startup);
        var ok := ValidateStationClock(monotonicNs, systemWallNs);
        if !ok {
          Fail(true, before, monotonicNs);
          return;
        }
      }
      PollAuthority(before, monotonicNs);
    }

    method PollAuthority(before: GuardState, monotonicNs: u64)
      requires Whole() && status.gazeboRequired == startup.GazeboRequired()
      modifies this, entries.Values
      ensures Whole() && trace == old(trace)
      ensures State() == PollFreshness(startup, old(State()), before, monotonicNs)
    {
      hide Startup.Valid, Table, Whole, RouteStates, GazeboAge, Failing, PollCompleted, Startup.GazeboRequired, DeadlineExceeded;
      SlotsAreFrozen();
      WithoutGazebo(startup, State(), monotonicNs);
      if status.gazeboRequired {
        var ok, immediateLoss := ValidateGazeboAuthorityAge(monotonicNs);
        if !ok {
          RejectStale(immediateLoss, before, monotonicNs);
          return;
        }
      }
      CompletePoll(before, monotonicNs);
    }

    method CompletePoll(before: GuardState, monotonicNs: u64)
      requires Whole()
      modifies this, entries.Values
      ensures Whole() && trace == old(trace)
      ensures State() == PollCompleted(startup, old(State()), before, monotonicNs)
    {
      hide Startup.Valid, Table, Whole, RouteStates, EmitTransition, PollRoutes, StationTime;
      SlotsAreFrozen();
      PollEveryRoute(monotonicNs);
      status := status.(sessionNowNs := SessionNowAt(monotonicNs));
      EmitStateTransition(before, monotonicNs);
    }

    method GazeboClock(o: GazeboObservation) returns (admitted: bool)
      requires Whole() && status.gazeboRequired == startup.GazeboRequired()
      modifies this, entries.Values
      ensures Whole() && trace == old(trace)
      ensures (State(), admitted) == ObserveGazebo(startup, old(State()), o)
    {
      hide Startup.Valid, Table, Whole, RouteStates, AdmitClock, ValidateStation, Failing, Aggregate;
      SlotsAreFrozen();
      var before := AggregateState();
      if !status.gazeboRequired {
        return false;
      }
      if startup.config.runMode == Hybrid {
        GuardInvariant.ModeFacts(startup);
        var ok := ValidateStationClock(o.monotonicNs, o.systemWallNs);
        if !ok {
          Fail(true, before, o.monotonicNs);
          return false;
        }
      }
      admitted := AdmitGazeboClock(o, before);
    }

    // ---- public operations ----

    // A reachable object reports the frozen requirement, and one more operation
    // is one more step of its run.
    lemma Reachable(op: GuardOp)
      requires Valid()
      ensures startup.Valid()
      ensures status.gazeboRequired == startup.GazeboRequired()
      ensures After(startup, trace + [op]) == Apply(startup, State(), op)
    {
      hide Startup.Valid, Table, After, Apply, RouteStates, GuardInvariant.GazeboMemory, GuardInvariant.UnusedDiagnostics,
           GuardInvariant.RoutesSound, GuardInvariant.Settled;
      GuardRuns.RunInv(startup, trace);
      GuardRuns.RunExtends(startup, trace, op);
    }

    method ObserveGazeboClock(o: GazeboObservation) returns (admitted: bool)
      requires Valid()
      modifies this, entries.Values
      ensures Valid() && trace == old(trace) + [GazeboClockOp(o)]
      ensures admitted == ObserveGazebo(startup, old(State()), o).1
    {
      hide Startup.Valid, Table, After, Whole, RouteStates, ObserveGazebo, GuardSpec.ObserveRoute, GuardSpec.Poll;
      Reachable(GazeboClockOp(o));
      admitted := GazeboClock(o);
      trace := trace + [GazeboClockOp(o)];
    }

    method Observe(o: Observation) returns (e: TimestampEnvelope)
      requires Valid()
      modifies this, entries.Values
      ensures Valid() && trace == old(trace) + [RouteOp(o)]
      ensures e == GuardSpec.ObserveRoute(startup, old(State()), o).1
    {
      hide Startup.Valid, Table, After, Whole, RouteStates, ObserveGazebo, GuardSpec.ObserveRoute, GuardSpec.Poll;
      Reachable(RouteOp(o));
      e := ObserveSlot(o);
      trace := trace + [RouteOp(o)];
    }

    method Poll(monotonicNs: u64, systemWallNs: u64)
      requires Valid()
      modifies this, entries.Values
      ensures Valid() && trace == old(trace) + [GuardPollOp(monotonicNs, systemWallNs)]
    {
      hide Startup.Valid, Table, After, Whole, RouteStates, ObserveGazebo, GuardSpec.ObserveRoute, GuardSpec.Poll;
      Reachable(GuardPollOp(monotonicNs, systemWallNs));
      PollState(monotonicNs, systemWallNs);
      trace := trace + [GuardPollOp(monotonicNs, systemWallNs)];
    }

    method FailEpochFence(monotonicNs: u64)
      requires Valid()
      modifies this, entries.Values
      ensures Valid() && trace == old(trace) + [FailEpochFenceOp(monotonicNs)]
    {
      hide Startup.Valid, Table, After, Whole, RouteStates, ObserveGazebo, GuardSpec.ObserveRoute, GuardSpec.Poll, Failing,
           Aggregate;
      Reachable(FailEpochFenceOp(monotonicNs));
      var before := AggregateState();
      Fail(true, before, monotonicNs);
      trace := trace + [FailEpochFenceOp(monotonicNs)];
    }

    // Everything pending, which the guard then forgets.
    method TakeEvents() returns (events: seq<GuardEvent>)
      requires Valid()
      modifies this
      ensures Valid() && trace == old(trace) + [TakeEventsOp]
      ensures events == old(pending) && pending == []
    {
      hide Startup.Valid, Table, After, Whole, RouteStates, ObserveGazebo, GuardSpec.ObserveRoute, GuardSpec.Poll,
           GuardSpec.FailEpochFence;
      Reachable(TakeEventsOp);
      events := pending;
      pending := [];
      trace := trace + [TakeEventsOp];
    }
  }

  lemma WithoutGazebo(c: Startup, s: Guard, monotonicNs: u64)
    ensures !c.GazeboRequired() ==> GazeboAge(c, s, monotonicNs) == (s, Fresh)
  {
  }

  lemma RateIsOverwritten(c: Startup, s: Guard, o: GazeboObservation, factor: real)
    ensures AcceptClock(c, s.(haveGazeboRate := true), o, factor, true) == AcceptClock(c, s, o, factor, true)
  {
    hide RecordHealthy, Refresh, StationTime;
  }

  // The routes after one mapper operation on one of them.
  ghost function SlotStepped(c: Startup, routes: map<string, MapperState>, slot: string, op: MapperOp): map<string, MapperState>
    requires c.Valid() && slot in Table(c) && slot in routes
  {
    routes[slot := StepSlot(c, slot, routes[slot], op)]
  }

  // Every route but those still to do has made one mapper operation.
  ghost predicate SteppedBut(c: Startup, before: map<string, MapperState>, after: map<string, MapperState>,
                             todo: set<string>, op: MapperOp)
    requires c.Valid()
  {
    && before.Keys == after.Keys == Table(c).Keys
    && forall k :: k in after ==> after[k] == if k in todo then before[k] else StepSlot(c, k, before[k], op)
  }

  lemma NoneStepped(c: Startup, before: map<string, MapperState>, op: MapperOp)
    requires c.Valid() && before.Keys == Table(c).Keys
    ensures SteppedBut(c, before, before, before.Keys, op)
  {
    hide Startup.Valid, Table, StepSlot;
  }

  lemma OneStepped(c: Startup, before: map<string, MapperState>, after: map<string, MapperState>, todo: set<string>, k: string,
                   op: MapperOp)
    requires c.Valid() && SteppedBut(c, before, after, todo, op) && k in todo && k in Table(c) && k in after
    ensures SteppedBut(c, before, SlotStepped(c, after, k, op), todo - {k}, op)
  {
    hide Startup.Valid, Table, StepSlot;
  }

  // Every mapper but those still to do has begun the epoch.
  ghost predicate StartedBut(c: Startup, routes: map<string, MapperState>, todo: set<string>) {
    && routes.Keys == Table(c).Keys
    && forall k :: k in routes ==>
         routes[k] == if k in todo then Created(RouteConfig(c, Table(c)[k]))
                      else Started(RouteConfig(c, Table(c)[k]), c.epoch, c.monotonicNs)
  }

  lemma NoneStarted(c: Startup, routes: map<string, MapperState>)
    requires routes.Keys == Table(c).Keys
    requires forall k :: k in routes ==> routes[k] == Created(RouteConfig(c, Table(c)[k]))
    ensures StartedBut(c, routes, routes.Keys)
  {
    hide Table, RouteConfig, Started, Created;
  }

  lemma OneStarted(c: Startup, routes: map<string, MapperState>, todo: set<string>, k: string)
    requires StartedBut(c, routes, todo) && k in todo && k in routes && k in Table(c)
    ensures routes[k] == Created(RouteConfig(c, Table(c)[k]))
    ensures StartedBut(c, routes[k := Started(RouteConfig(c, Table(c)[k]), c.epoch, c.monotonicNs)], todo - {k})
  {
    hide Table, RouteConfig, Started, Created;
  }

  // The locked routes outside a set of slots.
  ghost function LockedBeyond(states: map<string, MapperState>, todo: set<string>): set<string> {
    set slot | slot in states && slot !in todo && states[slot].status.state == Locked
  }

  lemma NoneBeyond(states: map<string, MapperState>)
    ensures LockedBeyond(states, states.Keys) == {}
  {
  }

  lemma OneBeyond(states: map<string, MapperState>, todo: set<string>, k: string)
    requires k in todo && k in states
    ensures |LockedBeyond(states, todo - {k})|
            == |LockedBeyond(states, todo)| + if states[k].status.state == Locked then 1 else 0
  {
    if states[k].status.state == Locked {
      assert LockedBeyond(states, todo - {k}) == LockedBeyond(states, todo) + {k};
    } else {
      assert LockedBeyond(states, todo - {k}) == LockedBeyond(states, todo);
    }
  }

  lemma AllBeyond(s: Guard)
    ensures |LockedBeyond(s.routes, {})| == LockedRouteCount(s)
  {
    assert LockedBeyond(s.routes, {}) == set slot | slot in s.routes && s.routes[slot].status.state == Locked;
  }

  lemma LostScanned(s: Guard, slot: string)
    requires slot in s.routes && s.routes[slot].status.state == Lost
    ensures Aggregate(s) == Lost
  {
    assert SomeRoute(s.routes, Lost);
  }

  lemma AggregateScanned(s: Guard, degraded: bool, initializing: bool)
    requires forall k :: k in s.routes ==> s.routes[k].status.state != Lost
    requires degraded <==> exists k :: k in s.routes && s.routes[k].status.state == Degraded
    requires initializing <==> exists k :: k in s.routes && s.routes[k].status.state == Initializing
    ensures Aggregate(s) ==
            if s.authorityState == Lost then Lost
            else if degraded || s.authorityState == Degraded then Degraded
            else if initializing || s.authorityState == Initializing || !s.status.healthy then Initializing
            else Locked
  {
  }

  lemma FailedEverywhere(c: Startup, before: map<string, MapperState>, after: map<string, MapperState>, immediate: bool)
    requires c.Valid() && SteppedBut(c, before, after, {}, AuthorityFailureOp(immediate))
    ensures after == FailRoutes(c, before, immediate)
  {
    hide Startup.Valid, Table, StepSlot;
  }

  lemma StartedEverywhere(c: Startup, routes: map<string, MapperState>)
    requires StartedBut(c, routes, {})
    ensures routes == map k | k in Table(c) :: Started(RouteConfig(c, Table(c)[k]), c.epoch, c.monotonicNs)
  {
    hide Table, RouteConfig, Started;
  }

  lemma PolledEverywhere(c: Startup, before: map<string, MapperState>, after: map<string, MapperState>, nowNs: u64)
    requires c.Valid() && SteppedBut(c, before, after, {}, PollOp(nowNs))
    ensures after == PollRoutes(c, before, nowNs)
  {
    hide Startup.Valid, Table, StepSlot;
  }

  lemma RatePresent(c: Startup)
    requires c.Valid()
    ensures c.config.runMode == Hybrid ==> RateFieldsPresent(c.config.thresholds)
  {
    hide Startup.Valid;
    GuardInvariant.ModeFacts(c);
  }

  lemma InitialRun(c: Startup)
    requires c.Valid()
    ensures After(c, []) == Initial(c)
  {
    hide Startup.Valid, Initial;
  }

  lemma InitialRoutes(c: Startup)
    ensures InitialAuthority(c).routes ==
            map k | k in Table(c) :: Started(RouteConfig(c, Table(c)[k]), c.epoch, c.monotonicNs)
  {
    hide Table, RouteConfig, Started, InitialStatus;
  }

  lemma NoRoutes()
    ensures RouteTable([]) == map[]
  {
  }

  lemma RouteTableExtends(routes: seq<Route>, i: nat)
    requires i < |routes|
    ensures var a, b := RouteTable(routes[..i]), RouteTable(routes[..i + 1]);
            b == if routes[i].slot in a then a else a[routes[i].slot := routes[i]]
  {
    hide RouteTable;
    var front, longer := routes[..i], routes[..i + 1];
    assert longer == front + [routes[i]];
    TableHolds(front);
    TableHolds(longer);
    var a, b := RouteTable(front), RouteTable(longer);
    forall k ensures k in b <==> k in a || k == routes[i].slot {
      if k in a {
        var j :| 0 <= j < |front| && front[j].slot == k;
        assert longer[j].slot == k;
      }
      if k == routes[i].slot {
        assert longer[i].slot == k;
      }
    }
    forall k | k in a ensures b[k] == a[k] {
      var j := FirstHeld(front, k);
      FirstIsHeld(longer, j);
    }
    if routes[i].slot !in a {
      FirstIsHeld(longer, i);
    }
  }

  lemma FirstHeld(routes: seq<Route>, slot: string) returns (j: nat)
    requires slot in RouteTable(routes)
    ensures j < |routes| && routes[j].slot == slot && routes[j] == RouteTable(routes)[slot]
    ensures forall l :: 0 <= l < j ==> routes[l].slot != slot
  {
    TableHolds(routes);
    var i :| 0 <= i < |routes| && routes[i].slot == slot;
    j := FirstOf(routes, i);
    FirstIsHeld(routes, j);
  }

  lemma FirstIsHeld(routes: seq<Route>, j: nat)
    requires j < |routes| && forall l :: 0 <= l < j ==> routes[l].slot != routes[j].slot
    ensures routes[j].slot in RouteTable(routes) && RouteTable(routes)[routes[j].slot] == routes[j]
  {
  }

  // The table holds the first route of every slot.
  lemma TableHolds(routes: seq<Route>)
    ensures forall k :: k in RouteTable(routes) <==> exists i :: 0 <= i < |routes| && routes[i].slot == k
  {
    forall k | exists i :: 0 <= i < |routes| && routes[i].slot == k ensures k in RouteTable(routes) {
      var i :| 0 <= i < |routes| && routes[i].slot == k;
      var j := FirstOf(routes, i);
    }
  }

  lemma FirstOf(routes: seq<Route>, i: nat) returns (j: nat)
    requires i < |routes|
    ensures j <= i && routes[j].slot == routes[i].slot && forall l :: 0 <= l < j ==> routes[l].slot != routes[i].slot
  {
    if l: nat :| l < i && routes[l].slot == routes[i].slot {
      j := FirstOf(routes, l);
    } else {
      j := i;
    }
  }

  lemma EpochIsAcceptable(c: Startup, r: Route)
    requires c.Valid()
    ensures EpochAcceptable(RouteConfig(c, r), Created(RouteConfig(c, r)).status.epoch, c.epoch,
                            if c.StationRequired() then c.systemWallNs else 0, c.monotonicNs)
  {
    hide ThresholdPolicyValid, RoutesValid, SourceTimingValid;
    GuardInvariant.ModeFacts(c);
  }

}
