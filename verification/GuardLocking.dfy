// Guards whose inputs are in order, in every mode: the authority's checks pass,
// and the samples of each route are in gate, on one affine relation per route
// where the route is mapped. Such a guard accepts every sample, maps it to its own
// Session time, and is locked and publishes exactly from the point at which the
// authority has its clocks and every route has seen enough
// (src/core/session_clock_guard.cpp:298-650).
module GuardLocking {
  import opened Numbers
  import opened Types
  import opened MapperSpec
  import opened LineFits
  import opened MapperLocking
  import opened GuardSpec
  import opened GuardInvariant
  import opened GuardRuns
  import opened GuardFeeds
  import opened GuardClocks
  import opened QuietRuns

  // Every route has a line its samples lie on, and all of them are in gate.
  predicate RoutesInGate(c: Startup, lines: map<string, Line>, ops: seq<GuardOp>) {
    forall slot :: slot in Table(c) ==>
      && slot in lines
      && LineAllowed(RouteConfig(c, Table(c)[slot]), lines[slot])
      && InGate(RouteConfig(c, Table(c)[slot]), c.monotonicNs, lines[slot], QuietOps(c, ops, slot))
  }

  predicate InGateRun(c: Startup, lines: map<string, Line>, ops: seq<GuardOp>) {
    QuietRun(c, ops) && RoutesInGate(c, lines, ops)
  }

  // Every route has enough samples on both streams.
  predicate AllReady(c: Startup, ops: seq<GuardOp>) {
    forall slot :: slot in Table(c) ==> Ready(RouteConfig(c, Table(c)[slot]), QuietOps(c, ops, slot))
  }

  // ---- the routes of an in-gate run ----

  // What a quiet run makes of one route.
  lemma QuietRoute(c: Startup, ops: seq<GuardOp>, slot: string)
    requires c.Valid() && QuietRun(c, ops) && slot in Table(c)
    ensures slot in After(c, ops).routes && MapperConfigValid(RouteConfig(c, Table(c)[slot])) && c.epoch != 0
    ensures var m := RouteConfig(c, Table(c)[slot]);
            After(c, ops).routes[slot] == Run(m, Started(m, c.epoch, c.monotonicNs), QuietOps(c, ops, slot))
  {
    ModeIs(c);
    hide Startup.Valid, Table, RouteConfig, QuietRun, After, RouteOps, QuietOps, MapperConfigValid, Sees;
    RoutesAreMapperRuns(c, ops, slot);
    QuietRunIs(c, ops);
  }

  lemma InGateRoute(c: Startup, lines: map<string, Line>, ops: seq<GuardOp>, slot: string)
    requires c.Valid() && InGateRun(c, lines, ops) && slot in Table(c)
    ensures slot in After(c, ops).routes && MapperConfigValid(RouteConfig(c, Table(c)[slot])) && slot in lines
    ensures var m := RouteConfig(c, Table(c)[slot]);
            && TakenIn(m, c.epoch, c.monotonicNs, After(c, ops).routes[slot], QuietOps(c, ops, slot))
            && OnRelation(m, lines[slot], After(c, ops).routes[slot], QuietOps(c, ops, slot))
  {
    hide Startup.Valid, Table, RouteConfig, QuietRun, After, QuietOps, MapperConfigValid, InGate, LineAllowed, TakenIn, OnRelation, Smooth;
    QuietRoute(c, ops, slot);
    InGateFeedLocks(RouteConfig(c, Table(c)[slot]), c.epoch, c.monotonicNs, lines[slot], QuietOps(c, ops, slot));
  }

  lemma InGateRouteState(c: Startup, lines: map<string, Line>, ops: seq<GuardOp>, slot: string)
    requires c.Valid() && InGateRun(c, lines, ops) && slot in Table(c)
    ensures slot in After(c, ops).routes
    ensures After(c, ops).routes[slot].status.state
            == if Ready(RouteConfig(c, Table(c)[slot]), QuietOps(c, ops, slot)) then Locked else Initializing
  {
    hide Startup.Valid, Table, RouteConfig, InGateRun, After, QuietOps, MapperConfigValid, Ready;
    InGateRoute(c, lines, ops, slot);
  }

  lemma QuietAuthority(c: Startup, ops: seq<GuardOp>)
    requires c.Valid() && QuietRun(c, ops)
    ensures var s := After(c, ops);
            && s.routes.Keys == Table(c).Keys && (s.status.healthy <==> s.authorityState == Locked)
            && s.authorityState == if AuthorityReady(c, ViewOf(c, ops)) then Locked else Initializing
  {
    hide Startup.Valid, Table, After, QuietRun, Inv, RouteOps, QuietOps, AuthorityReady, ViewOf;
    RunInv(c, ops);
    LockedIsHealthy(c, After(c, ops));
    QuietRunIs(c, ops);
    QuietViewIsSound(c, ops);
  }

  // After every in-gate run the guard is locked exactly when the authority has
  // its clocks and every route has seen both streams and `min_lock_samples` new raw
  // stamps; until then it is initializing, and it is never degraded or lost.
  lemma InGateGuardLocks(c: Startup, lines: map<string, Line>, ops: seq<GuardOp>)
    requires c.Valid() && InGateRun(c, lines, ops)
    ensures Aggregate(After(c, ops))
            == if AuthorityReady(c, ViewOf(c, ops)) && AllReady(c, ops) then Locked else Initializing
  {
    hide Startup.Valid, Table, RouteConfig, After, QuietRun, QuietOps, Ready, RoutesInGate, AuthorityReady, ViewOf;
    var s := After(c, ops);
    QuietAuthority(c, ops);
    forall slot | slot in Table(c)
      ensures s.routes[slot].status.state
              == if Ready(RouteConfig(c, Table(c)[slot]), QuietOps(c, ops, slot)) then Locked else Initializing
    {
      InGateRouteState(c, lines, ops, slot);
    }
    if AllReady(c, ops) {
      assert !SomeRoute(s.routes, Initializing);
    } else {
      var slot :| slot in Table(c) && !Ready(RouteConfig(c, Table(c)[slot]), QuietOps(c, ops, slot));
      assert s.routes[slot].status.state == Initializing;
    }
  }

  // ---- the answer to an in-gate observation ----

  lemma InGateFront(c: Startup, lines: map<string, Line>, ops: seq<GuardOp>, op: GuardOp)
    requires InGateRun(c, lines, ops + [op])
    ensures InGateRun(c, lines, ops) && Quiet(c, ViewOf(c, ops), op)
    ensures forall slot :: slot in Table(c) && FeedAt(c, ViewOf(c, ops), op, slot).Some? ==>
              NextInGate(RouteConfig(c, Table(c)[slot]), c.monotonicNs, lines[slot], QuietOps(c, ops, slot),
                         FeedAt(c, ViewOf(c, ops), op, slot).value)
  {
    hide Table, RouteConfig, NextInGate, LineAllowed, Quiet, FeedAt, ViewOf;
    QuietNext(c, ops, op);
    forall slot | slot in Table(c)
      ensures slot in lines && LineAllowed(RouteConfig(c, Table(c)[slot]), lines[slot])
      ensures InGate(RouteConfig(c, Table(c)[slot]), c.monotonicNs, lines[slot], QuietOps(c, ops, slot))
      ensures FeedAt(c, ViewOf(c, ops), op, slot).Some? ==>
                NextInGate(RouteConfig(c, Table(c)[slot]), c.monotonicNs, lines[slot], QuietOps(c, ops, slot),
                           FeedAt(c, ViewOf(c, ops), op, slot).value)
    {
      GateOfFront(RouteConfig(c, Table(c)[slot]), c.monotonicNs, lines[slot], QuietOps(c, ops, slot),
                  FeedAt(c, ViewOf(c, ops), op, slot));
    }
  }

  lemma GateOfFront(m: MapperConfig, startNs: u64, line: Line, ops: seq<MapperOp>, feed: Option<MapperOp>)
    requires InGate(m, startNs, line, ops + Listed(feed))
    ensures InGate(m, startNs, line, ops) && (feed.Some? ==> NextInGate(m, startNs, line, ops, feed.value))
  {
    hide NextInGate;
    match feed
    case None => assert ops + [] == ops;
    case Some(op) => assert (ops + [op])[..|ops|] == ops;
  }

  // The route's mapper accepts its next in-gate sample and maps it exactly.
  lemma RouteAcceptsNext(c: Startup, lines: map<string, Line>, ops: seq<GuardOp>, o: Observation)
    requires c.Valid() && o.slot in Table(c) && InGateRun(c, lines, ops + [RouteOp(o)])
    ensures o.slot in After(c, ops).routes && MapperConfigValid(RouteConfig(c, Table(c)[o.slot]))
    ensures var m, st, given := RouteConfig(c, Table(c)[o.slot]), After(c, ops).routes[o.slot], Given(c, ViewOf(c, ops), o);
            Judge(m, st, given).Accepted? && EnvelopeOf(m, st, given).mappedSessionNs == MappedStamp(m, given)
  {
    ModeIs(c);
    hide Startup.Valid, Table, RouteConfig, QuietRun, After, QuietOps, MapperConfigValid, TakenIn, OnRelation, LineAllowed, InGate,
         Judge, EnvelopeOf, SampleInGate, Given, ViewOf, MappedStamp, NextFit, Quiet;
    InGateFront(c, lines, ops, RouteOp(o));
    InGateRoute(c, lines, ops, o.slot);
    InGateIsAccepted(RouteConfig(c, Table(c)[o.slot]), c.epoch, c.monotonicNs, lines[o.slot], After(c, ops).routes[o.slot],
                     QuietOps(c, ops, o.slot), Given(c, ViewOf(c, ops), o));
  }

  // The Session time of an observation: its own raw stamp in simulation, the
  // station time of its receipt otherwise.
  function SessionOf(c: Startup, o: Observation): u64 {
    if c.config.runMode == Simulation then o.rawNs else StationTime(c, o.monotonicNs)
  }

  lemma GivenMaps(c: Startup, v: View, o: Observation)
    requires c.Valid() && o.slot in Table(c)
    ensures MappedStamp(RouteConfig(c, Table(c)[o.slot]), Given(c, v, o)) == SessionOf(c, o)
  {
    ModeFacts(c);
    hide Startup.Valid, Table, StationTime, SignedDifference;
  }

  lemma ObservedInGate(c: Startup, lines: map<string, Line>, ops: seq<GuardOp>, o: Observation)
    requires c.Valid() && o.slot in Table(c) && InGateRun(c, lines, ops + [RouteOp(o)])
    ensures var e := ObserveRoute(c, After(c, ops), o).1; e.accepted && e.mappedSessionNs == SessionOf(c, o)
  {
    hide Startup.Valid, Table, RouteConfig, RoutesInGate, QuietRun, After, Inv, Judge, EnvelopeOf, Given, ViewOf, MappedStamp, Quiet,
         ObserveRoute, RouteFeed, SlotFed, Sees, SessionOf, MapperConfigValid;
    var s := After(c, ops);
    InGateFront(c, lines, ops, RouteOp(o));
    RunInv(c, ops);
    QuietRunIs(c, ops);
    QuietStep(c, s, ViewOf(c, ops), RouteOp(o), o.slot);
    RouteAcceptsNext(c, lines, ops, o);
    GivenMaps(c, ViewOf(c, ops), o);
    RouteFeeds(c, s, o, o.slot);
  }

  // Every observation of an in-gate run is accepted and maps to its Session time,
  // and its canonical output may be published exactly when every route has enough
  // samples by then.
  lemma InGateObservation(c: Startup, lines: map<string, Line>, ops: seq<GuardOp>, o: Observation)
    requires c.Valid() && o.slot in Table(c) && InGateRun(c, lines, ops + [RouteOp(o)])
    ensures var e := ObserveRoute(c, After(c, ops), o).1;
            && e.accepted && e.mappedSessionNs == SessionOf(c, o)
            && (e.canonicalPublishAllowed <==> AllReady(c, ops + [RouteOp(o)]))
  {
    hide Startup.Valid, Table, RouteConfig, RoutesInGate, After, AllReady, ObserveRoute, QuietOps, Aggregate, SessionOf, AuthorityReady,
         ViewOf, Quiet, QuietRun, ViewNext;
    var s, longer := After(c, ops), ops + [RouteOp(o)];
    ObservedInGate(c, lines, ops, o);
    InGateGuardLocks(c, lines, longer);
    QuietAuthority(c, longer);
    RunExtends(c, ops, RouteOp(o));
    PublishedWhenAllowed(c, s, o);
    QuietNext(c, ops, RouteOp(o));
    QuietAuthority(c, ops);
    QuietViewIsSound(c, ops);
    BackedIsReady(c, ViewOf(c, ops), o);
  }

  lemma BackedIsReady(c: Startup, v: View, o: Observation)
    requires o.slot in Table(c) && Quiet(c, v, RouteOp(o))
    ensures AuthorityReady(c, ViewNext(c, v, RouteOp(o)))
  {
    hide Table, ReadingPasses, SkewInGate, ErrorOf;
  }
}
