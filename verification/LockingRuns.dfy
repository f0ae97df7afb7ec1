// Ordinary runs of any guard: each route reports its samples at their own Session
// time, the clocks agree, and a Gazebo clock that is required ticks along
// (src/core/session_clock_guard.cpp:352-650). Ticks are nanoseconds after the start.
module LockingRuns {
  import opened Numbers
  import opened Types
  import opened Policy
  import opened MapperSpec
  import opened LineFits
  import opened MapperLocking
  import opened Levels
  import opened GuardSpec
  import opened GuardInvariant
  import opened GuardRuns
  import opened GuardFeeds
  import opened GuardClocks
  import opened QuietRuns
  import opened GuardLocking

  // The 64-bit clocks do not run out within n nanoseconds.
  predicate Room(c: Startup, n: nat) {
    c.monotonicNs + n <= U64_MAX && c.systemWallNs + n <= U64_MAX
  }

  // ---- the operations ----

  function Sampled(c: Startup, r: Route, stream: StreamKind, k: nat): Observation
    requires Room(c, k)
  {
    Observation(r.slot, r.sourceBody, r.sourceDomain, stream, c.systemWallNs + k, c.monotonicNs + k, c.systemWallNs + k,
                0, 0, 0, 0, false)
  }

  function ClockAt(c: Startup, k: nat): GazeboObservation
    requires Room(c, k)
  {
    GazeboObservation(c.systemWallNs + k, c.monotonicNs + k, c.systemWallNs + k)
  }

  // The Gazebo clock ticks, if there is one.
  function Clock(c: Startup, k: nat): seq<GuardOp>
    requires Room(c, k)
  {
    if c.GazeboRequired() then [GazeboClockOp(ClockAt(c, k))] else []
  }

  function PollAt(c: Startup, k: nat): GuardOp
    requires Room(c, k)
  {
    GuardPollOp(c.monotonicNs + k, c.systemWallNs + k)
  }

  // The first i routes report, on both streams or on the pose stream alone.
  function Reports(c: Startup, k: nat, i: nat, both: bool): seq<GuardOp>
    requires Room(c, k) && i <= |c.config.routes|
  {
    if i == 0 then []
    else
      Reports(c, k, i - 1, both) + [RouteOp(Sampled(c, c.config.routes[i - 1], Pose, k))]
      + if both then [RouteOp(Sampled(c, c.config.routes[i - 1], Twist, k))] else []
  }

  function Beat(c: Startup, k: nat, both: bool): seq<GuardOp>
    requires Room(c, k)
  {
    Clock(c, k) + Reports(c, k, |c.config.routes|, both)
  }

  function Beats(c: Startup, first: nat, n: nat, both: bool): seq<GuardOp>
    requires Room(c, first + n)
  {
    if n == 0 then [] else Beats(c, first, n - 1, both) + Beat(c, first + n - 1, both)
  }

  // A clock to begin with, and then n beats.
  function Ordinary(c: Startup, n: nat): seq<GuardOp>
    requires Room(c, n + 1)
  {
    Clock(c, 0) + Beats(c, 1, n, true)
  }

  // ---- the authority on such a run ----

  // The authority has no error, its Gazebo clock is that of tick k, and it is
  // locked as soon as it has what it needs.
  predicate TicksAt(c: Startup, v: View, k: nat) {
    && (c.StationRequired() ==> v.errorNs == 0)
    && (c.GazeboRequired() ==>
          v.clock.Some? && v.clock.value.stampNs == c.systemWallNs + k && v.clock.value.monotonicNs == c.monotonicNs + k)
    && v.state == if AuthorityReady(c, v) then Locked else Initializing
  }

  lemma TicksAreSeen(c: Startup, s: Guard, v: View, k: nat)
    requires Sees(c, s, v)
    ensures TicksAt(c, v, k) <==> TicksAt(c, ViewSeen(s), k)
  {
  }

  lemma NoError(c: Startup, k: nat)
    requires c.Valid() && Room(c, k)
    ensures StationTime(c, c.monotonicNs + k) == c.systemWallNs + k
    ensures c.StationRequired() ==>
              var r := Reading(c.monotonicNs + k, c.systemWallNs + k); ErrorOf(c, r) == 0 && ReadingPasses(c, 0, r)
  {
    ModeIs(c);
    hide Startup.Valid;
  }

  // What a quiet operation at tick k reads from the station.
  predicate ReadsTick(c: Startup, op: GuardOp, k: nat)
    requires Room(c, k)
  {
    ReadingOf(c, op).Some? ==> ReadingOf(c, op).value == Reading(c.monotonicNs + k, c.systemWallNs + k)
  }

  lemma TickRead(c: Startup, v: View, op: GuardOp, k: nat, j: nat)
    requires c.Valid() && Room(c, k) && ReadsTick(c, op, k) && TicksAt(c, v, j)
    ensures ReadingOf(c, op).Some? ==> ReadingPasses(c, v.errorNs, ReadingOf(c, op).value)
    ensures TicksAt(c, ViewRead(c, v, op), j)
    ensures ViewRead(c, v, op) == v.(errorNs := ViewRead(c, v, op).errorNs)
  {
    hide Startup.Valid, ReadingPasses, ErrorOf, Table;
    NoError(c, k);
    StationReads(c, op);
  }

  lemma StationReads(c: Startup, op: GuardOp)
    ensures ReadingOf(c, op).Some? ==> c.StationRequired()
  {
  }

  // The clock of a later tick advances at the rate of the steady clock.
  lemma ClockTicks(c: Startup, v: View, j: nat, k: nat)
    requires c.Valid() && c.GazeboRequired() && Room(c, k) && j < k && TicksAt(c, v, j)
    ensures var op := GazeboClockOp(ClockAt(c, k));
            Quiet(c, v, op) && TicksAt(c, ViewNext(c, v, op), k) && ViewNext(c, v, op).state == Locked
  {
    hide Startup.Valid, ReadingPasses, ErrorOf, RateAllowed, ViewRead;
    ModeIs(c);
    var op := GazeboClockOp(ClockAt(c, k));
    TickRead(c, v, op, k, j);
    if c.config.runMode == Hybrid { TickRate(c, v.clock.value, j, k); }
  }

  lemma TickRate(c: Startup, p: GazeboObservation, j: nat, k: nat)
    requires c.Valid() && c.config.runMode == Hybrid && Room(c, k) && j < k
    requires p.stampNs == c.systemWallNs + j && p.monotonicNs == c.monotonicNs + j
    ensures RateAllowed(c, p, ClockAt(c, k))
  {
    hide Startup.Valid;
    RateOne(c);
    OverItself((k - j) as real);
  }

  lemma OverItself(x: real)
    requires x > 0.0
    ensures x / x == 1.0
  {
  }

  lemma RateOne(c: Startup)
    requires c.Valid()
    ensures c.config.runMode == Hybrid ==>
              && RateFieldsPresent(c.config.thresholds)
              && c.config.thresholds.minGazeboRealTimeFactor.value <= 1.0 <= c.config.thresholds.maxGazeboRealTimeFactor.value
  {
    hide ThresholdPolicyValid, RoutesValid, SourceTimingValid;
  }

  lemma FirstClockTicks(c: Startup)
    requires c.Valid() && c.GazeboRequired() && Room(c, 0)
    ensures var op := GazeboClockOp(ClockAt(c, 0));
            Quiet(c, InitialView(c), op) && TicksAt(c, ViewNext(c, InitialView(c), op), 0)
  {
    ModeIs(c);
    hide Startup.Valid;
    NoError(c, 0);
  }

  function RouteOf(c: Startup, j: nat): MapperConfig
    requires j < |c.config.routes|
  {
    RouteConfig(c, c.config.routes[j])
  }

  // A sample at the clock's own tick is quiet, and reaches its route as it is.
  lemma SampleTicks(c: Startup, v: View, i: nat, stream: StreamKind, k: nat)
    requires c.Valid() && Room(c, k) && i < |c.config.routes| && TicksAt(c, v, k) && v.state == Locked
    ensures c.config.routes[i].slot in Table(c) && Table(c)[c.config.routes[i].slot] == c.config.routes[i]
    ensures var o := Sampled(c, c.config.routes[i], stream, k);
            && Quiet(c, v, RouteOp(o)) && TicksAt(c, ViewNext(c, v, RouteOp(o)), k) && ViewNext(c, v, RouteOp(o)).state == Locked
            && Carries(RouteOf(c, i), c.systemWallNs, c.monotonicNs, ObserveOp(Given(c, v, o)), TakeMark(stream, k))
  {
    hide Startup.Valid, Table, ReadingPasses, ErrorOf, StationTime, Given, Carries, TicksAt, Backed, SkewInGate, ViewRead;
    RouteIsTabled(c, i);
    var o := Sampled(c, c.config.routes[i], stream, k);
    SampleReads(c, o, k);
    TickRead(c, v, RouteOp(o), k, k);
    TickBacks(c, v, k);
    SampleSkews(c, v, i, stream, k);
    SampleGiven(c, v, i, stream, k);
  }

  lemma SampleReads(c: Startup, o: Observation, k: nat)
    requires Room(c, k) && o.monotonicNs == c.monotonicNs + k && o.systemWallNs == c.systemWallNs + k
    ensures ReadsTick(c, RouteOp(o), k)
  {
    hide Table;
  }

  lemma TickBacks(c: Startup, v: View, k: nat)
    requires Room(c, k) && TicksAt(c, v, k) && v.state == Locked
    ensures Backed(c, v, c.monotonicNs + k)
  {
  }

  lemma SampleSkews(c: Startup, v: View, i: nat, stream: StreamKind, k: nat)
    requires c.Valid() && Room(c, k) && i < |c.config.routes| && TicksAt(c, v, k)
    requires c.config.routes[i].slot in Table(c)
    ensures SkewInGate(c, v, Sampled(c, c.config.routes[i], stream, k))
  {
    hide Startup.Valid, Table;
    ModeIs(c);
  }

  lemma RouteIsTabled(c: Startup, i: nat)
    requires c.Valid() && i < |c.config.routes|
    ensures c.config.routes[i].slot in Table(c) && Table(c)[c.config.routes[i].slot] == c.config.routes[i]
  {
    forall j | 0 <= j < i ensures c.config.routes[j].slot != c.config.routes[i].slot {
      SlotsDiffer(c, j, i);
    }
  }

  lemma SlotsDiffer(c: Startup, i: nat, j: nat)
    requires c.Valid() && i < |c.config.routes| && j < |c.config.routes|
    ensures c.config.routes[i].slot == c.config.routes[j].slot ==> i == j
  {
    hide ThresholdPolicyValid, ModeClockPolicyValid, SourceTimingValid, RouteLegal;
    if i != j {
      var a, b := if i < j then i else j, if i < j then j else i;
      assert RoutesApart(c.config.routes[a], c.config.routes[b]);
    }
  }

  lemma SampleGiven(c: Startup, v: View, i: nat, stream: StreamKind, k: nat)
    requires c.Valid() && Room(c, k) && i < |c.config.routes| && TicksAt(c, v, k)
    requires c.config.routes[i].slot in Table(c)
    ensures Carries(RouteOf(c, i), c.systemWallNs, c.monotonicNs,
                    ObserveOp(Given(c, v, Sampled(c, c.config.routes[i], stream, k))), TakeMark(stream, k))
  {
    ModeIs(c);
    NoError(c, k);
    hide Startup.Valid, Table, StationTime, SignedDifference;
  }

  lemma PollTicks(c: Startup, v: View, k: nat)
    requires c.Valid() && Room(c, k) && TicksAt(c, v, k) && v.state == Locked
    ensures var op := PollAt(c, k);
            && Quiet(c, v, op) && TicksAt(c, ViewNext(c, v, op), k) && ViewNext(c, v, op).state == Locked
            && Backed(c, v, c.monotonicNs + k)
  {
    ModeIs(c);
    hide Startup.Valid, ReadingPasses, ErrorOf;
    TickRead(c, v, PollAt(c, k), k, k);
  }

  // ---- the guard on such a run ----

  ghost predicate RouteAt(c: Startup, s: Guard, j: nat, lv: Level)
    requires c.Valid() && j < |c.config.routes|
  {
    RouteConfigIsValid(c, c.config.routes[j]);
    var slot := c.config.routes[j].slot;
    slot in s.routes && At(RouteOf(c, j), c.epoch, c.systemWallNs, c.monotonicNs, s.routes[slot], lv)
  }

  ghost predicate RoutesAt(c: Startup, ops: seq<GuardOp>, lvs: seq<Level>)
    requires c.Valid()
  {
    && |lvs| == |c.config.routes|
    && forall j :: 0 <= j < |c.config.routes| ==> RouteAt(c, After(c, ops), j, lvs[j])
  }

  // After the run the authority is at tick k and each route at its level.
  ghost predicate Going(c: Startup, ops: seq<GuardOp>, k: nat, lvs: seq<Level>)
    requires c.Valid()
  {
    TicksAt(c, ViewSeen(After(c, ops)), k) && RoutesAt(c, ops, lvs)
  }

  // The authority has all it needs.
  ghost predicate Running(c: Startup, ops: seq<GuardOp>)
    requires c.Valid()
  {
    After(c, ops).authorityState == Locked
  }

  // What a feed makes of one route.
  ghost predicate Moves(c: Startup, j: nat, lv: Level, lv': Level, feed: Option<MapperOp>)
    requires j < |c.config.routes|
  {
    match feed
    case None => lv' == lv
    case Some(op) =>
      exists mark :: Carries(RouteOf(c, j), c.systemWallNs, c.monotonicNs, op, mark) && Allowed(RouteOf(c, j), lv, mark)
                     && lv' == LevelNext(c.config.thresholds, c.config.mapping, lv, mark)
  }

  lemma RouteMoves(c: Startup, s: Guard, t: Guard, j: nat, lv: Level, lv': Level, feed: Option<MapperOp>)
    requires c.Valid() && j < |c.config.routes| && RouteAt(c, s, j, lv) && Moves(c, j, lv, lv', feed)
    requires c.config.routes[j].slot in Table(c) && Table(c)[c.config.routes[j].slot] == c.config.routes[j]
    requires SlotFed(c, s, t, c.config.routes[j].slot, feed)
    ensures RouteAt(c, t, j, lv')
  {
    ModeIs(c);
    RouteConfigIsValid(c, c.config.routes[j]);
    var slot := c.config.routes[j].slot;
    hide Startup.Valid, Table, At, Carries, Allowed, LevelNext, Step, MapperConfigValid;
    if feed.Some? {
      var mark :| Carries(RouteOf(c, j), c.systemWallNs, c.monotonicNs, feed.value, mark) && Allowed(RouteOf(c, j), lv, mark)
                  && lv' == LevelNext(c.config.thresholds, c.config.mapping, lv, mark);
      LevelSteps(RouteOf(c, j), c.epoch, c.systemWallNs, c.monotonicNs, s.routes[slot], lv, feed.value, mark);
    }
  }

  // One more quiet operation.
  lemma RoutesGoOn(c: Startup, ops: seq<GuardOp>, op: GuardOp, lvs: seq<Level>, lvs': seq<Level>)
    requires c.Valid() && RoutesAt(c, ops, lvs) && |lvs'| == |lvs| && Quiet(c, ViewSeen(After(c, ops)), op)
    requires forall j :: 0 <= j < |c.config.routes| ==>
               && c.config.routes[j].slot in Table(c)
               && Moves(c, j, lvs[j], lvs'[j], FeedAt(c, ViewSeen(After(c, ops)), op, c.config.routes[j].slot))
    ensures RoutesAt(c, ops + [op], lvs')
    ensures Sees(c, After(c, ops + [op]), ViewNext(c, ViewSeen(After(c, ops)), op))
  {
    hide Startup.Valid, Table, After, Apply, Feed, FeedAt, RouteAt, Moves, Quiet, ViewNext, Sees, Inv, SlotFed, ViewSeen;
    var s, t := After(c, ops), After(c, ops + [op]);
    RunExtends(c, ops, op);
    RunInv(c, ops);
    ViewIsSeen(c, s);
    var v := ViewSeen(s);
    QuietView(c, s, v, op);
    forall j | 0 <= j < |c.config.routes| ensures RouteAt(c, t, j, lvs'[j]) {
      var slot := c.config.routes[j].slot;
      RouteIsTabled(c, j);
      SlotsStay(c, ops, slot);
      QuietStep(c, s, v, op, slot);
      ApplyFeeds(c, s, op, slot);
      RouteMoves(c, s, t, j, lvs[j], lvs'[j], FeedAt(c, v, op, slot));
    }
  }

  lemma GoesOn(c: Startup, ops: seq<GuardOp>, op: GuardOp, k: nat, k': nat, lvs: seq<Level>, lvs': seq<Level>)
    requires c.Valid() && Going(c, ops, k, lvs) && |lvs'| == |lvs|
    requires var v := ViewSeen(After(c, ops)); Quiet(c, v, op) && TicksAt(c, ViewNext(c, v, op), k')
    requires forall j :: 0 <= j < |c.config.routes| ==>
               && c.config.routes[j].slot in Table(c)
               && Moves(c, j, lvs[j], lvs'[j], FeedAt(c, ViewSeen(After(c, ops)), op, c.config.routes[j].slot))
    ensures Going(c, ops + [op], k', lvs')
    ensures Running(c, ops + [op]) <==> ViewNext(c, ViewSeen(After(c, ops)), op).state == Locked
  {
    hide Startup.Valid, Table, After, FeedAt, RoutesAt, Moves, Quiet, ViewNext, TicksAt, ViewSeen;
    RoutesGoOn(c, ops, op, lvs, lvs');
    TicksAreSeen(c, After(c, ops + [op]), ViewNext(c, ViewSeen(After(c, ops)), op), k');
  }

  // ---- such a run stays in gate ----

  function LevelLines(c: Startup): map<string, Line> { map slot | slot in Table(c) :: LEVEL }

  // If the shorter run is in gate on the level lines, so is the longer.
  ghost predicate KeepsGate(c: Startup, ops: seq<GuardOp>, longer: seq<GuardOp>) {
    InGateRun(c, LevelLines(c), ops) ==> InGateRun(c, LevelLines(c), longer)
  }

  lemma SampleStaysInGate(m: MapperConfig, epoch: u64, wallNs: nat, startNs: u64, st: MapperState, lv: Level, before: seq<MapperOp>,
                          op: MapperOp, stream: StreamKind, k: nat)
    requires MapperConfigValid(m) && wallNs > 0 && startNs > 0 && At(m, epoch, wallNs, startNs, st, lv)
    requires TakenIn(m, epoch, startNs, st, before) && OnRelation(m, LEVEL, st, before)
    requires Carries(m, wallNs, startNs, op, TakeMark(stream, k)) && TakeAllowed(m, lv, stream, k)
    ensures NextInGate(m, startNs, LEVEL, before, op)
  {
    hide HoldsLine, WindowUpTo, LatestFrom, Records, MaxStamp, LastOffset, Misrouted, OnLine, LevelTake, LineAllowed, QualityBinds,
         ThresholdPolicyValid, Level.Top;
    LevelHolds(op.observation.rawNs);
  }

  // One more quiet operation whose samples are in gate.
  lemma StaysInGate(c: Startup, ops: seq<GuardOp>, op: GuardOp)
    requires c.Valid()
    requires InGateRun(c, LevelLines(c), ops) ==>
               && Quiet(c, ViewOf(c, ops), op)
               && forall slot :: slot in Table(c) && FeedAt(c, ViewOf(c, ops), op, slot).Some? ==>
                    NextInGate(RouteConfig(c, Table(c)[slot]), c.monotonicNs, LEVEL, QuietOps(c, ops, slot),
                               FeedAt(c, ViewOf(c, ops), op, slot).value)
    ensures KeepsGate(c, ops, ops + [op])
  {
    hide Startup.Valid, Table, RouteConfig, NextInGate, LineAllowed, Quiet, FeedAt, ViewOf, ViewNext;
    if InGateRun(c, LevelLines(c), ops) {
      QuietNext(c, ops, op);
      forall slot | slot in Table(c)
        ensures InGate(RouteConfig(c, Table(c)[slot]), c.monotonicNs, LEVEL, QuietOps(c, ops + [op], slot))
      {
        GateExtends(RouteConfig(c, Table(c)[slot]), c.monotonicNs, QuietOps(c, ops, slot), FeedAt(c, ViewOf(c, ops), op, slot));
      }
    }
  }

  lemma GateExtends(m: MapperConfig, startNs: u64, ops: seq<MapperOp>, feed: Option<MapperOp>)
    requires InGate(m, startNs, LEVEL, ops) && (feed.Some? ==> NextInGate(m, startNs, LEVEL, ops, feed.value))
    ensures InGate(m, startNs, LEVEL, ops + Listed(feed))
  {
    hide NextInGate;
    match feed
    case None => assert ops + [] == ops;
    case Some(op) => assert (ops + [op])[..|ops|] == ops;
  }

  // The view of a quiet run is at the guard's own tick.
  lemma ViewTicks(c: Startup, ops: seq<GuardOp>, k: nat)
    requires c.Valid() && QuietRun(c, ops) && TicksAt(c, ViewSeen(After(c, ops)), k)
    ensures TicksAt(c, ViewOf(c, ops), k) && ViewOf(c, ops).state == After(c, ops).authorityState
  {
    hide Startup.Valid, Table, After, QuietRun, RouteOps, QuietOps, ViewOf, TicksAt, ViewSeen;
    QuietRunIs(c, ops);
    TicksAreSeen(c, After(c, ops), ViewOf(c, ops), k);
  }

  lemma ClockStaysInGate(c: Startup, ops: seq<GuardOp>, k: nat, k': nat)
    requires c.Valid() && c.GazeboRequired() && Room(c, k') && k < k' && TicksAt(c, ViewSeen(After(c, ops)), k)
    ensures KeepsGate(c, ops, ops + [GazeboClockOp(ClockAt(c, k'))])
  {
    hide Startup.Valid, Table, After, Quiet, ViewNext, TicksAt, QuietRun, ViewSeen, RoutesInGate;
    if InGateRun(c, LevelLines(c), ops) {
      ViewTicks(c, ops, k);
      ClockTicks(c, ViewOf(c, ops), k, k');
    }
    StaysInGate(c, ops, GazeboClockOp(ClockAt(c, k')));
  }

  lemma ReportStaysInGate(c: Startup, ops: seq<GuardOp>, k: nat, lvs: seq<Level>, i: nat, stream: StreamKind)
    requires c.Valid() && Room(c, k) && Going(c, ops, k, lvs) && Running(c, ops) && i < |c.config.routes|
    requires Allowed(RouteOf(c, i), lvs[i], TakeMark(stream, k))
    ensures KeepsGate(c, ops, ops + [RouteOp(Sampled(c, c.config.routes[i], stream, k))])
  {
    hide Startup.Valid, Table, After, Quiet, ViewNext, TicksAt, QuietRun, ViewSeen, RoutesInGate, Given, Carries, NextInGate, TakeAllowed,
         QuietOps, At, TakenIn, OnRelation, MapperConfigValid, ViewOf;
    var o := Sampled(c, c.config.routes[i], stream, k);
    if InGateRun(c, LevelLines(c), ops) {
      var v := ViewOf(c, ops);
      ModeIs(c);
      ViewTicks(c, ops, k);
      SampleTicks(c, v, i, stream, k);
      InGateRoute(c, LevelLines(c), ops, o.slot);
      assert RouteAt(c, After(c, ops), i, lvs[i]);
      SampleStaysInGate(RouteOf(c, i), c.epoch, c.systemWallNs, c.monotonicNs, After(c, ops).routes[o.slot], lvs[i],
                        QuietOps(c, ops, o.slot), ObserveOp(Given(c, v, o)), stream, k);
    }
    StaysInGate(c, ops, RouteOp(o));
  }

  // ---- one operation of such a run ----

  lemma ClockGoes(c: Startup, ops: seq<GuardOp>, k: nat, k': nat, lvs: seq<Level>)
    requires c.Valid() && Room(c, k') && k < k' && Going(c, ops, k, lvs)
    ensures Going(c, ops + Clock(c, k'), k', lvs) && Running(c, ops + Clock(c, k'))
    ensures KeepsGate(c, ops, ops + Clock(c, k'))
  {
    hide Startup.Valid, Table, After, RouteAt, Quiet, ViewNext, InGateRun;
    if c.GazeboRequired() {
      ClockStaysInGate(c, ops, k, k');
      var op := GazeboClockOp(ClockAt(c, k'));
      ClockTicks(c, ViewSeen(After(c, ops)), k, k');
      forall j | 0 <= j < |c.config.routes| ensures c.config.routes[j].slot in Table(c) { RouteIsTabled(c, j); }
      GoesOn(c, ops, op, k, k', lvs, lvs);
    } else {
      assert ops + [] == ops;
    }
  }

  // A sample of route i at the clock's tick.
  lemma SampleGoes(c: Startup, ops: seq<GuardOp>, k: nat, lvs: seq<Level>, i: nat, stream: StreamKind)
    requires c.Valid() && Room(c, k) && Going(c, ops, k, lvs) && Running(c, ops) && i < |c.config.routes|
    requires Allowed(RouteOf(c, i), lvs[i], TakeMark(stream, k))
    ensures var op := RouteOp(Sampled(c, c.config.routes[i], stream, k));
            && Going(c, ops + [op], k, lvs[i := LevelTake(c.config.thresholds, c.config.mapping, lvs[i], stream, k)])
            && Running(c, ops + [op]) && KeepsGate(c, ops, ops + [op])
  {
    hide Startup.Valid, Table, After, RouteAt, Quiet, ViewNext, Carries, Allowed, LevelTake, Given, KeepsGate;
    ReportStaysInGate(c, ops, k, lvs, i, stream);
    var o := Sampled(c, c.config.routes[i], stream, k);
    var v := ViewSeen(After(c, ops));
    SampleTicks(c, v, i, stream, k);
    var lvs' := lvs[i := LevelTake(c.config.thresholds, c.config.mapping, lvs[i], stream, k)];
    forall j | 0 <= j < |c.config.routes|
      ensures c.config.routes[j].slot in Table(c)
      ensures Moves(c, j, lvs[j], lvs'[j], FeedAt(c, v, RouteOp(o), c.config.routes[j].slot))
    {
      RouteIsTabled(c, j);
      SlotsDiffer(c, i, j);
      if j == i { assert Carries(RouteOf(c, i), c.systemWallNs, c.monotonicNs, ObserveOp(Given(c, v, o)), TakeMark(stream, k)); }
    }
    GoesOn(c, ops, RouteOp(o), k, k, lvs, lvs');
  }

  function PolledLevels(c: Startup, lvs: seq<Level>, k: nat): (r: seq<Level>)
    ensures |r| == |lvs|
  {
    seq(|lvs|, j requires 0 <= j < |lvs| => LevelPoll(c.config.thresholds, lvs[j], k))
  }

  lemma PollGoes(c: Startup, ops: seq<GuardOp>, k: nat, lvs: seq<Level>)
    requires c.Valid() && Room(c, k) && Going(c, ops, k, lvs) && Running(c, ops)
    requires forall j :: 0 <= j < |lvs| ==> lvs[j].state != Lost
    ensures Going(c, ops + [PollAt(c, k)], k, PolledLevels(c, lvs, k)) && Running(c, ops + [PollAt(c, k)])
  {
    hide Startup.Valid, Table, After, RouteAt, Quiet, ViewNext, LevelPoll, Backed;
    var v, lvs' := ViewSeen(After(c, ops)), PolledLevels(c, lvs, k);
    PollTicks(c, v, k);
    forall j | 0 <= j < |c.config.routes|
      ensures c.config.routes[j].slot in Table(c)
      ensures Moves(c, j, lvs[j], lvs'[j], FeedAt(c, v, PollAt(c, k), c.config.routes[j].slot))
    {
      RouteIsTabled(c, j);
      assert Carries(RouteOf(c, j), c.systemWallNs, c.monotonicNs, PollOp(c.monotonicNs + k), PollMark(k));
    }
    GoesOn(c, ops, PollAt(c, k), k, k, lvs, lvs');
  }

  // ---- beats of every route ----

  // Every route at one level.
  function AllAt(c: Startup, lv: Level): (r: seq<Level>)
    ensures |r| == |c.config.routes|
  {
    seq(|c.config.routes|, _ => lv)
  }

  // The first i routes have moved on.
  function Front(lvs: seq<Level>, i: nat, lv: Level): (r: seq<Level>)
    ensures |r| == |lvs|
  {
    seq(|lvs|, j requires 0 <= j < |lvs| => if j < i then lv else lvs[j])
  }

  function Beaten(c: Startup, lv: Level, k: nat, both: bool): Level {
    LevelBeat(c.config.thresholds, c.config.mapping, lv, k, both)
  }

  lemma LevelIsAllowed(c: Startup, j: nat)
    requires c.Valid() && j < |c.config.routes|
    ensures MapperConfigValid(RouteOf(c, j)) && LineAllowed(RouteOf(c, j), LEVEL)
  {
    RouteConfigIsValid(c, c.config.routes[j]);
    hide RoutesValid;
    assert RouteTimingValid(c.config, c.config.routes[j]);
  }

  // The first i routes, at one level, report.
  lemma {:induction false} ReportsGo(c: Startup, ops: seq<GuardOp>, k: nat, lvs: seq<Level>, lv: Level, i: nat, both: bool)
    requires c.Valid() && Room(c, k) && i <= |c.config.routes| && lv.state != Lost && k > lv.Top()
    requires lv.BothSeen() || (both && k <= c.config.thresholds.startupLockTimeoutNs)
    requires Going(c, ops, k, lvs) && Running(c, ops) && |lvs| == |c.config.routes| && forall j :: 0 <= j < i ==> lvs[j] == lv
    ensures Going(c, ops + Reports(c, k, i, both), k, Front(lvs, i, Beaten(c, lv, k, both)))
    ensures Running(c, ops + Reports(c, k, i, both)) && KeepsGate(c, ops, ops + Reports(c, k, i, both))
  {
    hide Startup.Valid, Going, Running, KeepsGate, Beaten, Level.Top, Report;
    if i == 0 {
      assert ops + [] == ops;
      GateKept(c, ops);
      assert Front(lvs, 0, Beaten(c, lv, k, both)) == lvs;
    } else {
      var before, some := ops + Reports(c, k, i - 1, both), Front(lvs, i - 1, Beaten(c, lv, k, both));
      ReportsGo(c, ops, k, lvs, lv, i - 1, both);
      OneReports(c, before, k, some, i - 1, both);
      assert some[i - 1 := Beaten(c, lv, k, both)] == Front(lvs, i, Beaten(c, lv, k, both));
      ReportsNext(c, ops, k, i, both);
      GateCarriesOn(c, ops, before, before + Report(c, k, i - 1, both));
    }
  }

  lemma ReportsNext(c: Startup, ops: seq<GuardOp>, k: nat, i: nat, both: bool)
    requires Room(c, k) && 0 < i <= |c.config.routes|
    ensures ops + Reports(c, k, i, both) == ops + Reports(c, k, i - 1, both) + Report(c, k, i - 1, both)
  {
    hide Sampled;
  }

  lemma GateKept(c: Startup, ops: seq<GuardOp>)
    ensures KeepsGate(c, ops, ops)
  {
  }

  lemma GateCarriesOn(c: Startup, a: seq<GuardOp>, b: seq<GuardOp>, d: seq<GuardOp>)
    requires KeepsGate(c, a, b) && KeepsGate(c, b, d)
    ensures KeepsGate(c, a, d)
  {
  }

  function Report(c: Startup, k: nat, i: nat, both: bool): seq<GuardOp>
    requires Room(c, k) && i < |c.config.routes|
  {
    [RouteOp(Sampled(c, c.config.routes[i], Pose, k))]
    + if both then [RouteOp(Sampled(c, c.config.routes[i], Twist, k))] else []
  }

  lemma OneReports(c: Startup, ops: seq<GuardOp>, k: nat, lvs: seq<Level>, i: nat, both: bool)
    requires c.Valid() && Room(c, k) && i < |c.config.routes| == |lvs| && lvs[i].state != Lost && k > lvs[i].Top()
    requires lvs[i].BothSeen() || (both && k <= c.config.thresholds.startupLockTimeoutNs)
    requires Going(c, ops, k, lvs) && Running(c, ops)
    ensures Going(c, ops + Report(c, k, i, both), k, lvs[i := Beaten(c, lvs[i], k, both)])
    ensures Running(c, ops + Report(c, k, i, both)) && KeepsGate(c, ops, ops + Report(c, k, i, both))
  {
    hide Startup.Valid, Going, Running, InGateRun, Allowed, LevelTake, Level.Top, LineAllowed, Sampled, MapperConfigValid;
    var m, lv := RouteOf(c, i), lvs[i];
    var pose, twist := RouteOp(Sampled(c, c.config.routes[i], Pose, k)), RouteOp(Sampled(c, c.config.routes[i], Twist, k));
    LevelIsAllowed(c, i);
    BeatAllowed(m, lv, k, both);
    SampleGoes(c, ops, k, lvs, i, Pose);
    var lvs1 := lvs[i := LevelTake(c.config.thresholds, c.config.mapping, lv, Pose, k)];
    if both {
      SampleGoes(c, ops + [pose], k, lvs1, i, Twist);
      assert ops + Report(c, k, i, both) == ops + [pose] + [twist];
      assert lvs1[i := Beaten(c, lv, k, both)] == lvs[i := Beaten(c, lv, k, both)];
    } else {
      assert ops + Report(c, k, i, both) == ops + [pose];
    }
  }

  // All routes at one level.
  ghost predicate AllGoing(c: Startup, ops: seq<GuardOp>, k: nat, lv: Level)
    requires c.Valid()
  {
    Going(c, ops, k, AllAt(c, lv))
  }

  lemma BeatGoes(c: Startup, ops: seq<GuardOp>, j: nat, k: nat, lv: Level, both: bool)
    requires c.Valid() && Room(c, k) && j < k && AllGoing(c, ops, j, lv) && lv.state != Lost && k > lv.Top()
    requires lv.BothSeen() || (both && k <= c.config.thresholds.startupLockTimeoutNs)
    ensures AllGoing(c, ops + Beat(c, k, both), k, Beaten(c, lv, k, both)) && Running(c, ops + Beat(c, k, both))
    ensures KeepsGate(c, ops, ops + Beat(c, k, both))
  {
    hide Startup.Valid, Going, Running, InGateRun, LevelBeat, Level.Top, Clock, Reports;
    var n := |c.config.routes|;
    ClockGoes(c, ops, j, k, AllAt(c, lv));
    ReportsGo(c, ops + Clock(c, k), k, AllAt(c, lv), lv, n, both);
    assert ops + Beat(c, k, both) == ops + Clock(c, k) + Reports(c, k, n, both);
    assert Front(AllAt(c, lv), n, Beaten(c, lv, k, both)) == AllAt(c, Beaten(c, lv, k, both));
  }

  lemma StartGoes(c: Startup)
    requires c.Valid() && Room(c, 0)
    ensures AllGoing(c, Clock(c, 0), 0, FRESH)
  {
    ModeIs(c);
    hide Startup.Valid, Table, Quiet, ViewNext, RouteAt, Initial;
    var lvs := AllAt(c, FRESH);
    forall j | 0 <= j < |c.config.routes|
      ensures c.config.routes[j].slot in Table(c) && RouteAt(c, Initial(c), j, FRESH)
    {
      RouteIsTabled(c, j);
      StartRouteAt(c, j);
    }
    StartsSeen(c);
    if c.GazeboRequired() {
      FirstClockGoes(c);
    } else {
      TicksAreSeen(c, Initial(c), InitialView(c), 0);
    }
  }

  lemma StartRouteAt(c: Startup, j: nat)
    requires c.Valid() && j < |c.config.routes|
    ensures RouteAt(c, Initial(c), j, FRESH)
  {
    RouteIsTabled(c, j);
    hide Startup.Valid, Table, Initial, Started, At, MapperConfigValid;
    StartedRoute(c, c.config.routes[j].slot);
    RouteConfigIsValid(c, c.config.routes[j]);
    StartsFresh(RouteOf(c, j), c.epoch, c.systemWallNs, c.monotonicNs);
  }

  lemma FirstClockGoes(c: Startup)
    requires c.Valid() && Room(c, 0) && c.GazeboRequired()
    ensures AllGoing(c, [GazeboClockOp(ClockAt(c, 0))], 0, FRESH)
  {
    hide Startup.Valid, Table, After, Apply, Feed, FeedAt, RouteAt, Quiet, ViewNext, TicksAt, Inv, SlotFed, ViewSeen, Initial;
    var op := GazeboClockOp(ClockAt(c, 0));
    FirstClockTicks(c);
    StartsSeen(c);
    assert [] + [op] == [op];
    RunExtends(c, [], op);
    RunInv(c, []);
    var s, t, v := After(c, []), After(c, [op]), InitialView(c);
    assert s == Initial(c) by { NothingYet(c); }
    QuietView(c, s, v, op);
    TicksAreSeen(c, t, ViewNext(c, v, op), 0);
    forall j | 0 <= j < |c.config.routes| ensures RouteAt(c, t, j, FRESH) {
      var slot := c.config.routes[j].slot;
      RouteIsTabled(c, j);
      StartRouteAt(c, j);
      SlotsStay(c, [], slot);
      QuietStep(c, s, v, op, slot);
      ApplyFeeds(c, s, op, slot);
      assert FeedAt(c, v, op, slot) == None by { ClocksFeedNothing(c, v, slot); }
      RouteMoves(c, s, t, j, FRESH, FRESH, None);
    }
  }

  lemma NothingYet(c: Startup)
    requires c.Valid()
    ensures After(c, []) == Initial(c)
  {
  }

  lemma ClocksFeedNothing(c: Startup, v: View, slot: string)
    requires slot in Table(c) && Room(c, 0)
    ensures FeedAt(c, v, GazeboClockOp(ClockAt(c, 0)), slot) == None
  {
  }

  // ---- runs of beats ----

  // The route may take the samples of tick k.
  predicate MayTake(c: Startup, lv: Level, k: nat, both: bool) {
    && lv.state != Lost && k > lv.Top()
    && (lv.BothSeen() || (both && k <= c.config.thresholds.startupLockTimeoutNs))
  }

  function BeatenOn(c: Startup, lv: Level, first: nat, n: nat, both: bool): Level {
    LevelBeats(c.config.thresholds, c.config.mapping, lv, first, n, both)
  }

  lemma {:induction false} BeatsGo(c: Startup, ops: seq<GuardOp>, j: nat, lv: Level, first: nat, n: nat, both: bool)
    requires c.Valid() && Room(c, first + n) && j < first && AllGoing(c, ops, j, lv)
    requires forall i: nat :: i < n ==> MayTake(c, BeatenOn(c, lv, first, i, both), first + i, both)
    ensures AllGoing(c, ops + Beats(c, first, n, both), if n == 0 then j else first + n - 1, BeatenOn(c, lv, first, n, both))
    ensures n > 0 ==> Running(c, ops + Beats(c, first, n, both))
    ensures KeepsGate(c, ops, ops + Beats(c, first, n, both))
  {
    hide Startup.Valid, AllGoing, Running, InGateRun, LevelBeat, Level.Top, Beat;
    if n == 0 {
      assert ops + [] == ops;
    } else {
      var before := ops + Beats(c, first, n - 1, both);
      BeatsGo(c, ops, j, lv, first, n - 1, both);
      assert MayTake(c, BeatenOn(c, lv, first, n - 1, both), first + (n - 1), both);
      BeatGoes(c, before, if n == 1 then j else first + n - 2, first + n - 1, BeatenOn(c, lv, first, n - 1, both), both);
      assert ops + Beats(c, first, n, both) == before + Beat(c, first + n - 1, both);
    }
  }

  // The level of every route after n beats from the start.
  function OrdinaryLevel(c: Startup, n: nat): Level { BeatenOn(c, FRESH, 1, n, true) }

  lemma OrdinaryLevelIs(c: Startup, n: nat)
    requires c.Valid()
    ensures var t := OrdinaryLevel(c, n);
            && t.pose == (if n == 0 then None else Some(n)) && t.twist == t.pose && t.Top() == (if n == 0 then -1 else n)
            && t.state == (if n >= c.config.thresholds.minLockSamples then Locked else Initializing)
            && t.recovery == 0 && t.failures == 0
  {
    hide RoutesValid, ModeClockPolicyValid, SourceTimingValid, ThresholdPolicyValid, LevelBeats;
    FirstBeats(c.config.thresholds, c.config.mapping, n);
  }

  lemma StartupCovers(c: Startup)
    requires c.Valid()
    ensures 250000000 <= c.config.thresholds.startupLockTimeoutNs && 2 <= c.config.thresholds.minLockSamples <= 4096
    ensures 1 <= c.config.thresholds.recoverLockSamples <= 4096 && 1 <= c.config.thresholds.lostAfterFailures
    ensures c.config.thresholds.maxSampleAgeNs <= c.config.thresholds.startupLockTimeoutNs <= 120000000000
  {
  }

  lemma OrdinaryGoes(c: Startup, n: nat)
    requires c.Valid() && Room(c, n + 1)
    ensures AllGoing(c, Ordinary(c, n), n, OrdinaryLevel(c, n)) && (n > 0 ==> Running(c, Ordinary(c, n)))
    ensures InGateRun(c, LevelLines(c), Ordinary(c, n))
  {
    hide Startup.Valid, AllGoing, Running, InGateRun, Clock, Beats, LevelBeats, Level.Top;
    StartupCovers(c);
    StartGoes(c);
    StartInGate(c);
    forall i: nat | i < n ensures MayTake(c, BeatenOn(c, FRESH, 1, i, true), 1 + i, true) {
      OrdinaryLevelIs(c, i);
    }
    BeatsGo(c, Clock(c, 0), 0, FRESH, 1, n, true);
  }

  lemma StartInGate(c: Startup)
    requires c.Valid() && Room(c, 0)
    ensures InGateRun(c, LevelLines(c), Clock(c, 0))
  {
    hide Table, RouteConfig, LineAllowed, Quiet, ViewNext, Startup.Valid;
    forall slot | slot in Table(c) ensures LineAllowed(RouteConfig(c, Table(c)[slot]), LEVEL) {
      var j := PlaceInTable(c, slot);
      LevelIsAllowed(c, j);
    }
    assert InGateRun(c, LevelLines(c), []);
    if c.GazeboRequired() {
      FirstClockTicks(c);
      StaysInGate(c, [], GazeboClockOp(ClockAt(c, 0)));
      assert [] + [GazeboClockOp(ClockAt(c, 0))] == [GazeboClockOp(ClockAt(c, 0))];
    }
  }

  lemma PlaceInTable(c: Startup, slot: string) returns (j: nat)
    requires slot in Table(c)
    ensures j < |c.config.routes| && c.config.routes[j].slot == slot && c.config.routes[j] == Table(c)[slot]
  {
    j :| 0 <= j < |c.config.routes| && c.config.routes[j].slot == slot && c.config.routes[j] == Table(c)[slot];
  }

  // ---- the guard's aggregate on such a run ----

  lemma GoingRoute(c: Startup, ops: seq<GuardOp>, k: nat, lvs: seq<Level>, j: nat)
    requires c.Valid() && Going(c, ops, k, lvs) && j < |c.config.routes|
    ensures var s, slot := After(c, ops), c.config.routes[j].slot;
            && slot in s.routes && s.routes[slot].status.state == lvs[j].state && |s.routes[slot].samples| == lvs[j].held
            && Marks(s.routes[slot].pose, lvs[j].pose, c.systemWallNs, c.monotonicNs)
            && Marks(s.routes[slot].twist, lvs[j].twist, c.systemWallNs, c.monotonicNs)
  {
    hide Startup.Valid, After, HoldsLine, WindowUpTo, Marks, TicksAt;
    assert RouteAt(c, After(c, ops), j, lvs[j]);
  }

  // With the authority locked the aggregate is the worst of the levels.
  lemma GoingAggregate(c: Startup, ops: seq<GuardOp>, k: nat, lvs: seq<Level>)
    requires c.Valid() && Going(c, ops, k, lvs) && Running(c, ops)
    ensures var s := After(c, ops);
            && s.status.healthy
            && forall state :: SomeRoute(s.routes, state) <==> exists j :: 0 <= j < |lvs| && lvs[j].state == state
  {
    hide Startup.Valid, Table, After, TicksAt, Inv, RouteAt;
    RunInv(c, ops);
    LockedIsHealthy(c, After(c, ops));
    forall state ensures SomeRoute(After(c, ops).routes, state) <==> exists j :: 0 <= j < |lvs| && lvs[j].state == state {
      if SomeRoute(After(c, ops).routes, state) {
        var slot :| slot in After(c, ops).routes && After(c, ops).routes[slot].status.state == state;
        var j := PlaceInTable(c, slot);
        GoingRoute(c, ops, k, lvs, j);
      }
      if j :| 0 <= j < |lvs| && lvs[j].state == state {
        GoingRoute(c, ops, k, lvs, j);
      }
    }
  }

  lemma AllGoingAggregate(c: Startup, ops: seq<GuardOp>, k: nat, lv: Level)
    requires c.Valid() && AllGoing(c, ops, k, lv) && Running(c, ops)
    ensures Aggregate(After(c, ops)) == if c.config.routes == [] then Locked else lv.state
    ensures After(c, ops).status.healthy
  {
    hide Startup.Valid, After, Going;
    var lvs := AllAt(c, lv);
    GoingAggregate(c, ops, k, lvs);
    if c.config.routes != [] { assert lvs[0].state == lv.state; }
  }

  // ---- silence ----

  // The first tick at which every sample of tick n is too old.
  function Late(c: Startup, n: nat): nat { n + c.config.thresholds.maxSampleAgeNs + 1 }

  // After an ordinary run every stream keeps silent until a poll comes too late.
  function Broken(c: Startup, n: nat): seq<GuardOp>
    requires Room(c, Late(c, n))
  {
    Ordinary(c, n) + Clock(c, Late(c, n)) + [PollAt(c, Late(c, n))]
  }

  // And then m beats.
  function Mended(c: Startup, n: nat, m: nat, both: bool): seq<GuardOp>
    requires Room(c, Late(c, n) + 1 + m)
  {
    Broken(c, n) + Beats(c, Late(c, n) + 1, m, both)
  }

  function BrokenLevel(c: Startup, n: nat): Level {
    LevelPoll(c.config.thresholds, OrdinaryLevel(c, n), Late(c, n))
  }

  lemma BrokenLevelIs(c: Startup, n: nat)
    requires c.Valid() && n > 0 && c.config.thresholds.lostAfterFailures > 1
    ensures var t := BrokenLevel(c, n);
            && t == OrdinaryLevel(c, n).(state := Degraded, healthy := 0, recovery := 0, failures := 1)
            && t.pose == Some(n) && t.twist == Some(n) && t.Top() == n
  {
    hide Startup.Valid, LevelBeats;
    OrdinaryLevelIs(c, n);
  }

  lemma BrokenGoes(c: Startup, n: nat)
    requires c.Valid() && n > 0 && Room(c, Late(c, n))
    ensures AllGoing(c, Broken(c, n), Late(c, n), BrokenLevel(c, n)) && Running(c, Broken(c, n))
  {
    hide Startup.Valid, Going, Running, InGateRun, Ordinary, Clock, LevelBeats, LevelPoll, KeepsGate;
    var k, lv := Late(c, n), OrdinaryLevel(c, n);
    OrdinaryGoes(c, n);
    OrdinaryLevelIs(c, n);
    ClockGoes(c, Ordinary(c, n), n, k, AllAt(c, lv));
    PollGoes(c, Ordinary(c, n) + Clock(c, k), k, AllAt(c, lv));
    assert PolledLevels(c, AllAt(c, lv), k) == AllAt(c, BrokenLevel(c, n));
  }

  lemma MendedGoes(c: Startup, n: nat, m: nat, both: bool)
    requires c.Valid() && n > 0 && c.config.thresholds.lostAfterFailures > 1 && m <= c.config.thresholds.recoverLockSamples
    requires Room(c, Late(c, n) + 1 + m)
    ensures var k, t := Late(c, n) + m, BeatenOn(c, BrokenLevel(c, n), Late(c, n) + 1, m, both);
            && AllGoing(c, Mended(c, n, m, both), k, t) && (m > 0 ==> Running(c, Mended(c, n, m, both)))
            && Recovering(c.config.thresholds, c.config.mapping, BrokenLevel(c, n), Late(c, n) + 1, m, both, t)
  {
    hide Startup.Valid, AllGoing, InGateRun, Broken, Beats, LevelBeats, BrokenLevel, Recovering, Level.Top, KeepsGate;
    var broken, first := BrokenLevel(c, n), Late(c, n) + 1;
    BrokenGoes(c, n);
    BrokenLevelIs(c, n);
    forall i: nat | i < m ensures MayTake(c, BeatenOn(c, broken, first, i, both), first + i, both) {
      MendingMayTake(c, broken, first, i, both);
    }
    BeatsGo(c, Broken(c, n), Late(c, n), broken, first, m, both);
    MendingLevel(c, broken, first, m, both);
  }

  lemma MendingLevel(c: Startup, lv: Level, first: nat, i: nat, both: bool)
    requires c.Valid() && lv.state == Degraded && lv.recovery == 0 && lv.healthy == 0 && first > lv.Top() && lv.BothSeen()
    requires i <= c.config.thresholds.recoverLockSamples
    ensures Recovering(c.config.thresholds, c.config.mapping, lv, first, i, both, BeatenOn(c, lv, first, i, both))
  {
    hide RoutesValid, ModeClockPolicyValid, SourceTimingValid, ThresholdPolicyValid, LevelBeats, Recovering, Level.Top;
    RecoverBeats(c.config.thresholds, c.config.mapping, lv, first, i, both);
  }

  lemma MendingMayTake(c: Startup, lv: Level, first: nat, i: nat, both: bool)
    requires c.Valid() && lv.state == Degraded && lv.recovery == 0 && lv.healthy == 0 && first > lv.Top() && lv.BothSeen()
    requires i < c.config.thresholds.recoverLockSamples
    ensures MayTake(c, BeatenOn(c, lv, first, i, both), first + i, both)
  {
    hide Startup.Valid, LevelBeats, Level.Top;
    MendingLevel(c, lv, first, i, both);
  }

  // ---- what the guard answers ----

  lemma SampleAccepted(c: Startup, ops: seq<GuardOp>, k: nat, lvs: seq<Level>, i: nat, stream: StreamKind)
    requires c.Valid() && Room(c, k) && Going(c, ops, k, lvs) && Running(c, ops) && i < |c.config.routes|
    requires Allowed(RouteOf(c, i), lvs[i], TakeMark(stream, k))
    ensures ObserveRoute(c, After(c, ops), Sampled(c, c.config.routes[i], stream, k)).1.accepted
  {
    hide Startup.Valid, Table, After, Quiet, ViewNext, Carries, Allowed, LevelNext, Given, At, Judge, EnvelopeOf, Inv, ObserveRoute,
         RouteFeed, SlotFed, TicksAt, Sees, MapperConfigValid;
    var s, v, o := After(c, ops), ViewSeen(After(c, ops)), Sampled(c, c.config.routes[i], stream, k);
    ModeIs(c);
    RouteConfigIsValid(c, c.config.routes[i]);
    SampleTicks(c, v, i, stream, k);
    RunInv(c, ops);
    ViewIsSeen(c, s);
    SlotsStay(c, ops, o.slot);
    QuietStep(c, s, v, RouteOp(o), o.slot);
    RouteFeeds(c, s, o, o.slot);
    assert RouteAt(c, s, i, lvs[i]);
    LevelSteps(RouteOf(c, i), c.epoch, c.systemWallNs, c.monotonicNs, s.routes[o.slot], lvs[i], ObserveOp(Given(c, v, o)),
               TakeMark(stream, k));
  }

  // A sample that leaves the guard locked is published.
  lemma SamplePublished(c: Startup, ops: seq<GuardOp>, k: nat, lvs: seq<Level>, i: nat, stream: StreamKind)
    requires c.Valid() && Room(c, k) && Going(c, ops, k, lvs) && Running(c, ops) && i < |c.config.routes|
    requires Allowed(RouteOf(c, i), lvs[i], TakeMark(stream, k))
    requires Aggregate(After(c, ops + [RouteOp(Sampled(c, c.config.routes[i], stream, k))])) == Locked
    ensures ObserveRoute(c, After(c, ops), Sampled(c, c.config.routes[i], stream, k)).1.canonicalPublishAllowed
  {
    hide Startup.Valid, After, Going, Running, Allowed, ObserveRoute, Aggregate, Inv;
    var o := Sampled(c, c.config.routes[i], stream, k);
    SampleAccepted(c, ops, k, lvs, i, stream);
    PublishedWhenAllowed(c, After(c, ops), o);
    RunExtends(c, ops, RouteOp(o));
    RouteIsApplied(c, After(c, ops), o);
    LockedIsAllowed(c, ops + [RouteOp(o)]);
  }

  lemma RouteIsApplied(c: Startup, s: Guard, o: Observation)
    requires c.Valid()
    ensures Apply(c, s, RouteOp(o)) == ObserveRoute(c, s, o).0
  {
    hide Startup.Valid, ObserveRoute;
  }

  lemma LockedIsAllowed(c: Startup, ops: seq<GuardOp>)
    requires c.Valid() && Aggregate(After(c, ops)) == Locked
    ensures SensitiveOutputAllowed(After(c, ops))
  {
    hide Startup.Valid, After;
  }

  // The next pose sample of the first route of a locked guard is published,
  // however long the other streams have been silent.
  lemma NextSamplePublished(c: Startup, ops: seq<GuardOp>, j: nat, k: nat, lv: Level)
    requires c.Valid() && Room(c, k) && j < k && AllGoing(c, ops, j, lv) && c.config.routes != []
    requires lv.state == Locked && lv.BothSeen() && k > lv.Top()
    ensures var before, o := ops + Clock(c, k), Sampled(c, c.config.routes[0], Pose, k);
            && Going(c, before + [RouteOp(o)], k,
                     AllAt(c, lv)[0 := LevelTake(c.config.thresholds, c.config.mapping, lv, Pose, k)])
            && Aggregate(After(c, before + [RouteOp(o)])) == Locked
            && ObserveRoute(c, After(c, before), o).1.canonicalPublishAllowed
  {
    hide Startup.Valid, After, Going, Running, Allowed, ObserveRoute, Aggregate, Level.Top, KeepsGate, Clock, LineAllowed;
    var lvs, before, o := AllAt(c, lv), ops + Clock(c, k), Sampled(c, c.config.routes[0], Pose, k);
    ClockGoes(c, ops, j, k, lvs);
    LevelIsAllowed(c, 0);
    BeatAllowed(RouteOf(c, 0), lv, k, false);
    SampleGoes(c, before, k, lvs, 0, Pose);
    StillLocked(c, before + [RouteOp(o)], k, lv, k);
    SamplePublished(c, before, k, lvs, 0, Pose);
  }

  lemma StillLocked(c: Startup, ops: seq<GuardOp>, j: nat, lv: Level, k: nat)
    requires c.Valid() && Running(c, ops) && c.config.routes != [] && lv.state == Locked
    requires Going(c, ops, j, AllAt(c, lv)[0 := LevelTake(c.config.thresholds, c.config.mapping, lv, Pose, k)])
    ensures Aggregate(After(c, ops)) == Locked
  {
    hide Startup.Valid, After, Going, Level.Top;
    GoingAggregate(c, ops, j, AllAt(c, lv)[0 := LevelTake(c.config.thresholds, c.config.mapping, lv, Pose, k)]);
  }

  // Every valid guard, in every mode, has an ordinary in-gate run of n samples on
  // each stream of each route, for any n its 64-bit clocks have room for; and it is
  // locked at the end exactly when n reaches `min_lock_samples` or there is no
  // route to wait for.
  lemma OrdinaryRunLocks(c: Startup, n: nat)
    requires c.Valid() && n > 0 && Room(c, n + 1)
    ensures InGateRun(c, LevelLines(c), Ordinary(c, n))
    ensures Aggregate(After(c, Ordinary(c, n)))
            == if n >= c.config.thresholds.minLockSamples || c.config.routes == [] then Locked else Initializing
  {
    hide Startup.Valid, After, Aggregate, Going, InGateRun, Ordinary, LevelBeats, Level.Top;
    OrdinaryGoes(c, n);
    OrdinaryLevelIs(c, n);
    AllGoingAggregate(c, Ordinary(c, n), n, OrdinaryLevel(c, n));
  }
}
