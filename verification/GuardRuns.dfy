// What holds of the guard over every run of public operations, in every mode
// and for every route set.
module GuardRuns {
  import opened Numbers
  import opened Types
  import opened Policy
  import opened MapperSpec
  import opened GuardSpec
  import opened GuardInvariant
  import opened GuardCalls
  import opened GuardOperations

  // ---- every reachable state is whole ----

  lemma StartedIsSound(c: Startup, slot: string)
    requires c.Valid() && slot in Table(c)
    ensures RouteSound(c, slot, Started(RouteConfig(c, Table(c)[slot]), c.epoch, c.monotonicNs))
  {
    hide Startup.Valid, Table, RouteConfig, Started, OnTimeline;
    assert ReachedBy(c, slot, Started(RouteConfig(c, Table(c)[slot]), c.epoch, c.monotonicNs), []);
  }

  lemma InitialRoutesSound(c: Startup)
    requires c.Valid()
    ensures RoutesSound(c, InitialAuthority(c).routes)
    ensures forall k :: k in InitialAuthority(c).routes ==> InitialAuthority(c).routes[k].status.state == Initializing
  {
    hide Startup.Valid, Table, RouteConfig, RouteSound;
    forall k | k in Table(c) ensures RouteSound(c, k, Started(RouteConfig(c, Table(c)[k]), c.epoch, c.monotonicNs)) {
      StartedIsSound(c, k);
    }
  }

  lemma InitialWhole(c: Startup)
    requires c.Valid()
    ensures Inv(c, Refresh(c, InitialAuthority(c)))
  {
    ModeFacts(c);
    InitialRoutesSound(c);
    hide Table, RoutesSound, ThresholdPolicyValid, RoutesValid, SourceTimingValid, SimulationRouteOpen, AllLost;
  }

  lemma LogIsFree(c: Startup, s: Guard, t: Guard)
    requires c.Valid() && Inv(c, s) && t == s.(nextSequence := t.nextSequence, pending := t.pending)
    ensures Inv(c, t)
  {
    hide Startup.Valid, RoutesSound, SimulationRouteOpen, AllLost;
  }

  lemma InitialIsRefreshed(c: Startup)
    ensures var s, t := Refresh(c, InitialAuthority(c)), Initial(c);
            t == s.(nextSequence := t.nextSequence, pending := t.pending)
  {
    hide Refresh, InitialAuthority, Aggregate, EventAt;
  }

  lemma InitialInv(c: Startup)
    requires c.Valid()
    ensures Inv(c, Initial(c))
  {
    hide Startup.Valid, Inv, Initial, InitialAuthority, Refresh;
    InitialWhole(c);
    InitialIsRefreshed(c);
    LogIsFree(c, Refresh(c, InitialAuthority(c)), Initial(c));
  }

  // Every operation but the drain is a call that ends in a whole state.
  lemma ApplyCall(c: Startup, s: Guard, op: GuardOp)
    requires c.Valid() && Inv(c, s)
    ensures Inv(c, Apply(c, s, op))
    ensures op != TakeEventsOp ==> Call(c, s, Apply(c, s, op))
    ensures op == TakeEventsOp ==> Apply(c, s, op) == s.(pending := [])
  {
    hide Startup.Valid, Inv, ObserveGazebo, ObserveRoute, Poll, FailEpochFence, Admitted, ClockMemory, RoutesProgress,
         AuthorityProgress, Logged, ReadStation, GazeboBacked, SameClock;
    match op
    case GazeboClockOp(o) => GazeboCall(c, s, o);
    case RouteOp(o) => ObserveCall(c, s, o);
    case GuardPollOp(m, w) => PollCall(c, s, m, w);
    case FailEpochFenceOp(m) => FenceCall(c, s, m);
    case TakeEventsOp => LogIsFree(c, s, s.(pending := []));
  }

  lemma {:induction false} RunInv(c: Startup, ops: seq<GuardOp>)
    requires c.Valid()
    ensures Inv(c, After(c, ops))
  {
    hide Startup.Valid, Inv, Initial, Apply;
    if ops == [] {
      InitialInv(c);
    } else {
      RunInv(c, ops[..|ops| - 1]);
      ApplyCall(c, After(c, ops[..|ops| - 1]), ops[|ops| - 1]);
    }
  }

  lemma RunExtends(c: Startup, ops: seq<GuardOp>, op: GuardOp)
    requires c.Valid()
    ensures After(c, ops + [op]) == Apply(c, After(c, ops), op)
  {
    hide Startup.Valid, Apply, Initial;
    assert (ops + [op])[..|ops + [op]| - 1] == ops;
  }

  // ---- the aggregate ----

  function Rank(state: GuardState): nat {
    match state
    case Locked => 0
    case Initializing => 1
    case Degraded => 2
    case Lost => 3
  }

  lemma AggregateRank(s: Guard)
    requires s.status.healthy <==> s.authorityState == Locked
    ensures Rank(s.authorityState) <= Rank(Aggregate(s))
    ensures forall k :: k in s.routes ==> Rank(s.routes[k].status.state) <= Rank(Aggregate(s))
    ensures Aggregate(s) == s.authorityState || exists k :: k in s.routes && s.routes[k].status.state == Aggregate(s)
  {
    forall k | k in s.routes ensures Rank(s.routes[k].status.state) <= Rank(Aggregate(s)) {
      assert SomeRoute(s.routes, s.routes[k].status.state);
    }
  }

  // After every run the authority reports itself healthy exactly when it is
  // locked, and so the aggregate is the worst of the authority's state and the
  // routes' states under Locked < Initializing < Degraded < Lost.
  lemma AggregateIsTheWorst(c: Startup, ops: seq<GuardOp>)
    requires c.Valid()
    ensures var s := After(c, ops);
            && (s.status.healthy <==> s.authorityState == Locked)
            && Rank(s.authorityState) <= Rank(Aggregate(s))
            && (forall k :: k in s.routes ==> Rank(s.routes[k].status.state) <= Rank(Aggregate(s)))
            && (Aggregate(s) == s.authorityState
                || exists k :: k in s.routes && s.routes[k].status.state == Aggregate(s))
  {
    RunInv(c, ops);
    hide Startup.Valid, Core, After, Aggregate, Rank;
    AggregateRank(After(c, ops));
  }

  // ---- no way back ----

  lemma ApplyProgress(c: Startup, s: Guard, op: GuardOp)
    requires c.Valid() && Inv(c, s)
    ensures RoutesProgress(s.routes, Apply(c, s, op).routes)
    ensures AuthorityProgress(s.authorityState, Apply(c, s, op).authorityState)
  {
    hide Startup.Valid, Inv, Apply, Logged;
    ApplyCall(c, s, op);
  }

  lemma {:induction false} RunProgress(c: Startup, ops: seq<GuardOp>, more: seq<GuardOp>)
    requires c.Valid()
    ensures RoutesProgress(After(c, ops).routes, After(c, ops + more).routes)
    ensures AuthorityProgress(After(c, ops).authorityState, After(c, ops + more).authorityState)
  {
    hide Startup.Valid, Inv, Apply, Initial;
    if more == [] {
      assert ops + more == ops;
    } else {
      var front := more[..|more| - 1];
      RunProgress(c, ops, front);
      assert (ops + more)[..|ops + more| - 1] == ops + front;
      RunInv(c, ops + front);
      ApplyProgress(c, After(c, ops + front), more[|more| - 1]);
    }
  }

  // Once locked, a guard is never initializing again, whatever happens to it.
  lemma LockedNeverInitializes(c: Startup, ops: seq<GuardOp>, more: seq<GuardOp>)
    requires c.Valid() && Aggregate(After(c, ops)) == Locked
    ensures Aggregate(After(c, ops + more)) != Initializing
  {
    hide Startup.Valid, Inv, After, Aggregate;
    RunProgress(c, ops, more);
    RunInv(c, ops);
    LockedAggregate(c, After(c, ops));
    AggregateIsTheWorst(c, ops + more);
  }

  // Lost is final for each route, for the authority and for the aggregate; a
  // lost route is frozen altogether.
  lemma LostIsFinal(c: Startup, ops: seq<GuardOp>, more: seq<GuardOp>)
    requires c.Valid()
    ensures var s, t := After(c, ops), After(c, ops + more);
            && (s.authorityState == Lost ==> t.authorityState == Lost)
            && (forall k :: k in s.routes && s.routes[k].status.state == Lost ==> k in t.routes && t.routes[k] == s.routes[k])
            && (Aggregate(s) == Lost ==> Aggregate(t) == Lost)
  {
    hide Startup.Valid, After;
    RunProgress(c, ops, more);
    assert SomeRoute(After(c, ops).routes, Lost) ==> SomeRoute(After(c, ops + more).routes, Lost);
  }

  // After the authority is lost no observation is ever accepted again, in any
  // mode.
  lemma LostAuthorityAcceptsNothing(c: Startup, ops: seq<GuardOp>, more: seq<GuardOp>, o: Observation)
    requires c.Valid() && After(c, ops).authorityState == Lost
    ensures !ObserveRoute(c, After(c, ops + more), o).1.accepted
    ensures !ObserveRoute(c, After(c, ops + more), o).1.canonicalPublishAllowed
  {
    hide Startup.Valid, Inv, After, Call, ReadStation, RouteAccepted, GazeboBacked, ObserveRoute, Aggregate, SameClock;
    RunProgress(c, ops, more);
    RunInv(c, ops + more);
    ObserveCall(c, After(c, ops + more), o);
  }

  // In physical mode the authority fails only as a whole: it is locked, or it is
  // lost together with every route.
  lemma PhysicalFailsWhole(c: Startup, ops: seq<GuardOp>)
    requires c.Valid() && c.config.runMode == Physical
    ensures var s := After(c, ops);
            s.authorityState == Locked || (s.authorityState == Lost && AllLost(s.routes))
  {
    hide Startup.Valid, After, AllLost, RoutesSound, Settled;
    RunInv(c, ops);
  }

  // The epoch fence loses the authority and every route at once.
  lemma FenceIsFinal(c: Startup, ops: seq<GuardOp>, monotonicNs: u64, more: seq<GuardOp>)
    requires c.Valid()
    ensures var t := After(c, ops + [FailEpochFenceOp(monotonicNs)] + more);
            t.authorityState == Lost && Aggregate(t) == Lost && AllLost(t.routes)
  {
    hide Startup.Valid, Inv, After, Call, SameClock, FailEpochFence;
    RunInv(c, ops);
    FenceCall(c, After(c, ops), monotonicNs);
    RunExtends(c, ops, FailEpochFenceOp(monotonicNs));
    LostIsFinal(c, ops + [FailEpochFenceOp(monotonicNs)], more);
    RunProgress(c, ops + [FailEpochFenceOp(monotonicNs)], more);
  }

  // ---- publication ----

  // Whenever an observation may be published, the authority and every route
  // are locked when the call returns, every route has seen both streams, the
  // wall and Gazebo evidence is within the frozen bounds, a simulation-domain
  // stamp is within the skew, the raw stamp is strictly above the stream's
  // previous accepted one, and in simulation mode the mapped stamp is the raw
  // one.
  lemma PublicationIsSafe(c: Startup, ops: seq<GuardOp>, o: Observation)
    requires c.Valid()
    ensures var s := After(c, ops);
            var (t, e) := ObserveRoute(c, s, o);
            e.canonicalPublishAllowed ==>
              && e.accepted
              && t.authorityState == Locked && t.status.healthy && Aggregate(t) == Locked
              && (forall k :: k in t.routes ==> t.routes[k].status.state == Locked && t.routes[k].BothSeen())
              && Known(c, s, o.slot) && Known(c, t, o.slot)
              && PublishedStation(c, s, t, o)
              && GazeboBacked(c, s, o)
              && RouteAccepted(c.config.mapping, s.routes[o.slot], t.routes[o.slot], o.stream, o.rawNs, o.monotonicNs, e)
  {
    hide Startup.Valid, After, RouteAccepted, GazeboBacked, ObserveRoute, Aggregate, SameClock, Core, Mirrored, LockSupported,
         ReadStation, StationPasses, Logged, RoutesProgress;
    RunInv(c, ops);
    ObserveCall(c, After(c, ops), o);
    var (t, e) := ObserveRoute(c, After(c, ops), o);
    ModeFacts(c);
    if e.canonicalPublishAllowed { LockedAggregate(c, t); }
  }

  // The wall reading of a published observation: this very reading, within both
  // frozen bounds.
  predicate PublishedStation(c: Startup, s: Guard, t: Guard, o: Observation) {
    c.StationRequired() ==>
      && StationFieldsPresent(c.config.thresholds)
      && ReadStation(c, s, t, o.monotonicNs, o.systemWallNs)
      && StationPasses(c, t)
  }
}
