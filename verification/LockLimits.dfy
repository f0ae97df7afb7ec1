// Exactly which lock counts make a locked guard one whose every route holds
// `min_lock_samples`, in each affine mode. Only such a window is gated by offset
// step, drift, jitter and uncertainty (src/core/clock_mapper.cpp:397-421).
module LockLimits {
  import opened Types
  import opened Policy
  import opened MapperSpec
  import opened Levels
  import opened ShortLocks
  import opened GuardSpec
  import opened GuardInvariant
  import opened GuardRuns
  import opened GuardFeeds
  import opened GuardClocks
  import opened QuietRuns
  import opened LockingRuns

  // The route holds a window the quality limits bind.
  ghost predicate HoldsFull(c: Startup, s: Guard, slot: string) {
    slot in s.routes && |s.routes[slot].samples| >= c.config.thresholds.minLockSamples
  }

  // Whenever a guard under the policy is locked, all of its routes are full.
  ghost predicate GuardLocksAreFull(config: FrozenConfig) {
    forall c: Startup, ops, slot :: c.Valid() && c.config == config && slot in Table(c) && Aggregate(After(c, ops)) == Locked
                           ==> HoldsFull(c, After(c, ops), slot)
  }

  // Whenever a route of it is locked, that route is full.
  ghost predicate RouteLocksAreFull(config: FrozenConfig) {
    forall c: Startup, ops, slot :: c.Valid() && c.config == config && slot in Table(c) && slot in After(c, ops).routes
                           && After(c, ops).routes[slot].status.state == Locked
                           ==> HoldsFull(c, After(c, ops), slot)
  }

  // ---- what the counts give ----

  // A physical guard never fails a route softly for its authority.
  lemma PhysicalFeedsAreHard(c: Startup, s: Guard, op: GuardOp, slot: string)
    requires c.Valid() && c.config.runMode == Physical
    ensures Feed(c, s, op, slot) != Some(AuthorityFailureOp(false))
  {
    hide Startup.Valid, Table, ValidateStation, StationTime;
    ModeIs(c);
  }

  lemma {:induction false} PhysicalRunsAreHard(c: Startup, ops: seq<GuardOp>, slot: string)
    requires c.Valid() && c.config.runMode == Physical
    ensures HardOnly(RouteOps(c, ops, slot))
  {
    hide Startup.Valid, After, Feed;
    if ops != [] {
      var front, op := ops[..|ops| - 1], ops[|ops| - 1];
      assert front + [op] == ops;
      PhysicalRunsAreHard(c, front, slot);
      PhysicalFeedsAreHard(c, After(c, front), op, slot);
      RouteOpsNext(c, front, op, slot);
    }
  }

  // The recovery samples a locked route may lack.
  function Spare(mode: RunMode): nat { if mode == Physical then 1 else 0 }

  predicate CountsCover(config: FrozenConfig) {
    || Spare(config.runMode) + config.thresholds.recoverLockSamples >= config.thresholds.minLockSamples
    || config.thresholds.lostAfterFailures == 1
  }

  lemma RouteIsFull(c: Startup, ops: seq<GuardOp>, slot: string)
    requires c.Valid() && c.config.mapping == AffineToSession && CountsCover(c.config) && slot in Table(c)
    ensures slot in After(c, ops).routes
    ensures After(c, ops).routes[slot].status.state == Locked ==> HoldsFull(c, After(c, ops), slot)
  {
    hide Startup.Valid, Table, After, RouteOps, Run, MapperConfigValid, HardOnly;
    RoutesAreMapperRuns(c, ops, slot);
    if c.config.runMode == Physical { PhysicalRunsAreHard(c, ops, slot); }
    FullByCounts(RouteConfig(c, Table(c)[slot]), c.epoch, c.monotonicNs, RouteOps(c, ops, slot), Spare(c.config.runMode));
  }

  lemma LockedRoutes(c: Startup, ops: seq<GuardOp>, slot: string)
    requires c.Valid() && slot in Table(c) && Aggregate(After(c, ops)) == Locked
    ensures slot in After(c, ops).routes && After(c, ops).routes[slot].status.state == Locked
  {
    hide Startup.Valid, Table, After;
    SlotsStay(c, ops, slot);
    var s := After(c, ops);
    var state := s.routes[slot].status.state;
    assert SomeRoute(s.routes, state);
  }

  lemma CountsSuffice(config: FrozenConfig)
    requires config.mapping == AffineToSession && CountsCover(config)
    ensures GuardLocksAreFull(config) && RouteLocksAreFull(config)
  {
    hide Startup.Valid, Table, After, Aggregate, CountsCover, HoldsFull;
    forall c: Startup, ops, slot | c.Valid() && c.config == config && slot in Table(c) && Aggregate(After(c, ops)) == Locked
      ensures HoldsFull(c, After(c, ops), slot)
    {
      LockedRoutes(c, ops, slot);
      RouteIsFull(c, ops, slot);
    }
    forall c: Startup, ops, slot | c.Valid() && c.config == config && slot in Table(c) && slot in After(c, ops).routes
                          && After(c, ops).routes[slot].status.state == Locked
      ensures HoldsFull(c, After(c, ops), slot)
    {
      RouteIsFull(c, ops, slot);
    }
  }

  // ---- a physical guard that locks on one sample and its recovery ----

  lemma ShortLock(c: Startup, ops: seq<GuardOp>, k: nat, lv: Level)
    requires c.Valid() && c.config.routes != [] && AllGoing(c, ops, k, lv) && Running(c, ops) && lv.state == Locked
    requires lv.held < c.config.thresholds.minLockSamples
    ensures Aggregate(After(c, ops)) == Locked
    ensures c.config.routes[0].slot in Table(c) && !HoldsFull(c, After(c, ops), c.config.routes[0].slot)
  {
    hide Startup.Valid, Table, After, Aggregate, Going, Running;
    AllGoingAggregate(c, ops, k, lv);
    GoingRoute(c, ops, k, AllAt(c, lv), 0);
    RouteIsTabled(c, 0);
  }

  // One sample on each stream, silence until a poll, and then the recovery
  // samples.
  lemma PhysicalShortLock(c: Startup)
    requires c.Valid() && c.config.mapping == AffineToSession && c.config.routes != []
    requires c.config.thresholds.lostAfterFailures > 1
    requires c.config.thresholds.recoverLockSamples + 1 < c.config.thresholds.minLockSamples
    requires Room(c, Late(c, 1) + 1 + c.config.thresholds.recoverLockSamples)
    ensures var ops := Mended(c, 1, c.config.thresholds.recoverLockSamples, true);
            && Aggregate(After(c, ops)) == Locked
            && c.config.routes[0].slot in Table(c) && !HoldsFull(c, After(c, ops), c.config.routes[0].slot)
  {
    hide Startup.Valid, Table, After, Aggregate, AllGoing, Running, Mended, LevelBeats, Level.Top;
    var recover, first := c.config.thresholds.recoverLockSamples, Late(c, 1) + 1;
    StartupCovers(c);
    MendedGoes(c, 1, recover, true);
    BrokenLevelIs(c, 1);
    OneHeld(c);
    ShortLock(c, Mended(c, 1, recover, true), Late(c, 1) + recover, BeatenOn(c, BrokenLevel(c, 1), first, recover, true));
  }

  lemma OneHeld(c: Startup)
    requires c.Valid()
    ensures OrdinaryLevel(c, 1).held <= 1
  {
    hide RoutesValid, ModeClockPolicyValid, SourceTimingValid, ThresholdPolicyValid, LevelBeats;
    FirstBeats(c.config.thresholds, c.config.mapping, 1);
  }

  // ---- a hybrid guard that locks on its recovery samples alone ----

  // The Gazebo clock repeats its stamp one tick on.
  function StallAt(c: Startup): GazeboObservation
    requires Room(c, 1)
  {
    GazeboObservation(c.systemWallNs, c.monotonicNs + 1, c.systemWallNs + 1)
  }

  // A stalled clock, the clocks the authority recovers on, and the samples the
  // routes recover on.
  function StalledRun(c: Startup, n: nat): seq<GuardOp>
    requires Room(c, n + 2)
  {
    if n == 0 then [GazeboClockOp(ClockAt(c, 0)), GazeboClockOp(StallAt(c))]
    else StalledRun(c, n - 1) + [GazeboClockOp(ClockAt(c, n + 1))]
  }

  function StallRun(c: Startup): seq<GuardOp>
    requires Room(c, 2 * c.config.thresholds.recoverLockSamples + 3)
  {
    var recover := c.config.thresholds.recoverLockSamples;
    StalledRun(c, recover) + Beats(c, recover + 2, recover, true)
  }

  const STALLED := FRESH.(state := Degraded, failures := 1)

  // The clock is that of tick k, there is no error, and the degraded authority
  // has i clocks of its recovery.
  predicate Recovers(c: Startup, v: View, k: nat, i: nat) {
    && v.errorNs == 0 && v.clock.Some?
    && v.clock.value.stampNs == c.systemWallNs + k && v.clock.value.monotonicNs == c.monotonicNs + k
    && v.state == Degraded && v.recovery == i
  }

  lemma StallFails(c: Startup, s: Guard, v: View)
    requires c.Valid() && c.config.runMode == Hybrid && Room(c, 1) && Sees(c, s, v) && TicksAt(c, v, 0)
    requires v.failures == 0 && v.state != Lost && c.config.thresholds.lostAfterFailures > 1
    ensures Recovers(c, ViewSeen(ObserveGazebo(c, s, StallAt(c)).0), 0, 0)
    ensures ClockFeed(c, s, StallAt(c)) == Some(AuthorityFailureOp(false))
  {
    hide Startup.Valid, Table, EmitTransition, FailRoutes, ReadingPasses, ErrorOf, ValidateStation, Aggregate, Refresh, StampFeed;
    ModeIs(c);
    NoError(c, 1);
    var o := StallAt(c);
    ReadingSeen(c, s, v, Reading(o.monotonicNs, o.systemWallNs));
    var s1 := ValidateStation(c, s, o.monotonicNs, o.systemWallNs).0;
    StallStamp(c, s1, o);
    var t := FailAuthority(c, s1, false);
    var u := EmitTransition(c, t, Aggregate(s), o.monotonicNs);
    assert u == t.(nextSequence := u.nextSequence, pending := u.pending);
    SoftFailureSeen(c, s1);
  }

  lemma StallStamp(c: Startup, s: Guard, o: GazeboObservation)
    requires c.Valid() && s.haveGazeboClock && o.stampNs == s.lastGazeboStampNs != 0
    requires o.monotonicNs > s.lastGazeboMonotonicNs && o.monotonicNs >= c.monotonicNs
    ensures StampFeed(c, s, o) == Some(AuthorityFailureOp(false))
    ensures forall before :: AdmitClock(c, s, o, before) == (Failing(c, s, false, before, o.monotonicNs), false)
  {
    hide Startup.Valid, Failing, AcceptClock, EmitTransition, RateFails, RealTimeFactor, Refresh;
    ModeIs(c);
  }

  lemma SoftFailureSeen(c: Startup, s: Guard)
    requires c.Valid() && s.authorityFailures == 0 && s.authorityState != Lost && c.config.thresholds.lostAfterFailures > 1
    ensures var t := FailAuthority(c, s, false);
            && t.authorityState == Degraded && t.authorityRecovery == 0 && t.lastWallErrorNs == s.lastWallErrorNs
            && t.haveGazeboClock == s.haveGazeboClock && t.lastGazeboStampNs == s.lastGazeboStampNs
            && t.lastGazeboMonotonicNs == s.lastGazeboMonotonicNs
  {
    hide Startup.Valid, FailRoutes;
  }

  // After the run the authority recovers and every route waits in its failure.
  ghost predicate Stalled(c: Startup, ops: seq<GuardOp>, k: nat, i: nat)
    requires c.Valid()
  {
    Recovers(c, ViewSeen(After(c, ops)), k, i) && RoutesAt(c, ops, AllAt(c, STALLED))
  }

  lemma FirstClockSeen(c: Startup)
    requires c.Valid() && c.config.runMode == Hybrid && Room(c, 0)
    ensures var s, v := After(c, [GazeboClockOp(ClockAt(c, 0))]), ViewNext(c, InitialView(c), GazeboClockOp(ClockAt(c, 0)));
            Sees(c, s, v) && TicksAt(c, v, 0) && v.failures == 0 && v.state == Initializing
  {
    hide Startup.Valid, After, Initial, Quiet, Apply, Inv;
    ModeIs(c);
    var op := GazeboClockOp(ClockAt(c, 0));
    FirstClockTicks(c);
    StartsSeen(c);
    NothingYet(c);
    assert [] + [op] == [op];
    RunExtends(c, [], op);
    RunInv(c, []);
    QuietView(c, Initial(c), InitialView(c), op);
  }

  lemma StalledRoute(c: Startup, s: Guard, t: Guard, j: nat)
    requires c.Valid() && j < |c.config.routes| && RouteAt(c, s, j, FRESH) && c.config.thresholds.lostAfterFailures > 1
    requires c.config.routes[j].slot in Table(c) && Table(c)[c.config.routes[j].slot] == c.config.routes[j]
    requires SlotFed(c, s, t, c.config.routes[j].slot, Some(AuthorityFailureOp(false)))
    ensures RouteAt(c, t, j, STALLED)
  {
    hide Startup.Valid, Table, RouteAt, SlotFed;
    assert Carries(RouteOf(c, j), c.systemWallNs, c.monotonicNs, AuthorityFailureOp(false), FailMark(false));
    assert Moves(c, j, FRESH, STALLED, Some(AuthorityFailureOp(false)));
    RouteMoves(c, s, t, j, FRESH, STALLED, Some(AuthorityFailureOp(false)));
  }

  lemma StallGoes(c: Startup)
    requires c.Valid() && c.config.runMode == Hybrid && Room(c, 2) && c.config.thresholds.lostAfterFailures > 1
    ensures Stalled(c, StalledRun(c, 0), 0, 0)
  {
    hide Startup.Valid, Table, After, Apply, ObserveGazebo, ClockFeed, RouteAt, ViewNext, TicksAt, Sees, SlotFed, Recovers, ViewSeen;
    var first, stall := [GazeboClockOp(ClockAt(c, 0))], GazeboClockOp(StallAt(c));
    assert first + [stall] == StalledRun(c, 0);
    ModeIs(c);
    FirstClockGoes(c);
    FirstClockSeen(c);
    RunExtends(c, first, stall);
    var s, t := After(c, first), After(c, StalledRun(c, 0));
    StallFails(c, s, ViewNext(c, InitialView(c), GazeboClockOp(ClockAt(c, 0))));
    ClockIsApplied(c, s, StallAt(c));
    forall j | 0 <= j < |c.config.routes| ensures RouteAt(c, t, j, STALLED) {
      var slot := c.config.routes[j].slot;
      RouteIsTabled(c, j);
      SlotsStay(c, first, slot);
      ApplyFeeds(c, s, stall, slot);
      assert RouteAt(c, s, j, AllAt(c, FRESH)[j]);
      StalledRoute(c, s, t, j);
    }
  }

  lemma ClockIsApplied(c: Startup, s: Guard, o: GazeboObservation)
    requires c.Valid()
    ensures Apply(c, s, GazeboClockOp(o)) == ObserveGazebo(c, s, o).0
    ensures forall slot :: Feed(c, s, GazeboClockOp(o), slot) == ClockFeed(c, s, o)
  {
    hide Startup.Valid, ObserveGazebo, ClockFeed;
  }

  // The clock of a later tick brings the authority one step closer to its lock.
  lemma RecoveryTicks(c: Startup, v: View, j: nat, k: nat, i: nat)
    requires c.Valid() && c.config.runMode == Hybrid && Room(c, k) && j < k && Recovers(c, v, j, i)
    requires i < c.config.thresholds.recoverLockSamples
    ensures var op := GazeboClockOp(ClockAt(c, k)); var t := ViewNext(c, v, op);
            && Quiet(c, v, op)
            && (i + 1 < c.config.thresholds.recoverLockSamples ==> Recovers(c, t, k, i + 1))
            && (i + 1 == c.config.thresholds.recoverLockSamples ==> TicksAt(c, t, k) && t.state == Locked)
  {
    hide Startup.Valid, ReadingPasses, ErrorOf, RateAllowed;
    StartupCovers(c);
    ModeIs(c);
    NoError(c, k);
    TickRate(c, v.clock.value, j, k);
  }

  lemma RecoversIsSeen(c: Startup, s: Guard, v: View, k: nat, i: nat)
    requires c.StationRequired() && Sees(c, s, v) && Recovers(c, v, k, i)
    ensures Recovers(c, ViewSeen(s), k, i)
  {
  }

  lemma RecoveryGoes(c: Startup, ops: seq<GuardOp>, j: nat, k: nat, i: nat)
    requires c.Valid() && c.config.runMode == Hybrid && Room(c, k) && j < k && Stalled(c, ops, j, i)
    requires i < c.config.thresholds.recoverLockSamples
    ensures var longer := ops + [GazeboClockOp(ClockAt(c, k))];
            && (i + 1 < c.config.thresholds.recoverLockSamples ==> Stalled(c, longer, k, i + 1))
            && (i + 1 == c.config.thresholds.recoverLockSamples ==> AllGoing(c, longer, k, STALLED) && Running(c, longer))
  {
    hide Startup.Valid, Table, After, RoutesAt, Quiet, ViewNext, Recovers, TicksAt, ViewSeen, Moves;
    var op, v, lvs := GazeboClockOp(ClockAt(c, k)), ViewSeen(After(c, ops)), AllAt(c, STALLED);
    ModeIs(c);
    RecoveryTicks(c, v, j, k, i);
    forall r | 0 <= r < |c.config.routes|
      ensures c.config.routes[r].slot in Table(c)
      ensures Moves(c, r, lvs[r], lvs[r], FeedAt(c, v, op, c.config.routes[r].slot))
    {
      RouteIsTabled(c, r);
      StaysPut(c, r, lvs[r], v, ClockAt(c, k));
    }
    RoutesGoOn(c, ops, op, lvs, lvs);
    var t := After(c, ops + [op]);
    if i + 1 < c.config.thresholds.recoverLockSamples {
      RecoversIsSeen(c, t, ViewNext(c, v, op), k, i + 1);
    } else {
      TicksAreSeen(c, t, ViewNext(c, v, op), k);
      StateIsSeen(c, t, ViewNext(c, v, op));
    }
  }

  lemma StateIsSeen(c: Startup, s: Guard, v: View)
    requires Sees(c, s, v)
    ensures s.authorityState == v.state
  {
  }

  lemma StaysPut(c: Startup, j: nat, lv: Level, v: View, o: GazeboObservation)
    requires j < |c.config.routes| && c.config.routes[j].slot in Table(c)
    ensures Moves(c, j, lv, lv, FeedAt(c, v, GazeboClockOp(o), c.config.routes[j].slot))
  {
  }

  lemma {:induction false} StalledGoes(c: Startup, n: nat)
    requires c.Valid() && c.config.runMode == Hybrid && Room(c, n + 2) && c.config.thresholds.lostAfterFailures > 1
    requires n <= c.config.thresholds.recoverLockSamples
    ensures n < c.config.thresholds.recoverLockSamples ==> Stalled(c, StalledRun(c, n), if n == 0 then 0 else n + 1, n)
    ensures n == c.config.thresholds.recoverLockSamples ==>
              AllGoing(c, StalledRun(c, n), n + 1, STALLED) && Running(c, StalledRun(c, n))
  {
    hide Startup.Valid, Stalled, AllGoing, Running, ClockAt;
    StartupCovers(c);
    if n == 0 {
      StallGoes(c);
    } else {
      StalledGoes(c, n - 1);
      RecoveryGoes(c, StalledRun(c, n - 1), if n == 1 then 0 else n, n + 1, n - 1);
    }
  }

  lemma HybridShortLock(c: Startup)
    requires c.Valid() && c.config.runMode == Hybrid && c.config.thresholds.lostAfterFailures > 1
    requires c.config.thresholds.recoverLockSamples < c.config.thresholds.minLockSamples
    requires Room(c, 2 * c.config.thresholds.recoverLockSamples + 3)
    ensures c.config.routes != [] && Aggregate(After(c, StallRun(c))) == Locked
    ensures c.config.routes[0].slot in Table(c) && !HoldsFull(c, After(c, StallRun(c)), c.config.routes[0].slot)
  {
    hide Startup.Valid, Table, After, Aggregate, AllGoing, Running, StalledRun, LevelBeats, Level.Top, Beats, Recovering, KeepsGate;
    var recover: nat := c.config.thresholds.recoverLockSamples;
    var first := recover + 2;
    StartupCovers(c);
    HybridHasRoutes(c);
    StalledGoes(c, recover);
    forall i: nat | i < recover ensures MayTake(c, BeatenOn(c, STALLED, first, i, true), first + i, true) {
      StalledMayTake(c, first, i);
    }
    BeatsGo(c, StalledRun(c, recover), recover + 1, STALLED, first, recover, true);
    StalledLevel(c, first, recover);
    ShortLock(c, StallRun(c), first + recover - 1, BeatenOn(c, STALLED, first, recover, true));
  }

  lemma HybridHasRoutes(c: Startup)
    requires c.Valid() && c.config.runMode == Hybrid
    ensures c.config.routes != []
  {
    hide ThresholdPolicyValid, ModeClockPolicyValid, SourceTimingValid, RouteLegal, RoutesApart;
  }

  lemma StalledLevel(c: Startup, first: nat, i: nat)
    requires c.Valid() && i <= c.config.thresholds.recoverLockSamples
    ensures var t := BeatenOn(c, STALLED, first, i, true);
            && t.Top() == (if i == 0 then -1 else first + i - 1) && t.held <= i
            && t.state == (if i == c.config.thresholds.recoverLockSamples then Locked else Degraded)
  {
    hide RoutesValid, ModeClockPolicyValid, SourceTimingValid, ThresholdPolicyValid, LevelBeats;
    RecoverBeats(c.config.thresholds, c.config.mapping, STALLED, first, i, true);
  }

  lemma StalledMayTake(c: Startup, first: nat, i: nat)
    requires c.Valid() && i < c.config.thresholds.recoverLockSamples && first == c.config.thresholds.recoverLockSamples + 2
    ensures MayTake(c, BeatenOn(c, STALLED, first, i, true), first + i, true)
  {
    hide Startup.Valid, LevelBeats, Level.Top;
    StartupCovers(c);
    StalledLevel(c, first, i);
  }

  // ---- the exact conditions ----

  // A guard under this policy with the smallest anchors.
  function Anchored(config: FrozenConfig): Startup { Startup(config, 1, 1, 1) }

  lemma CoverIsNecessary(config: FrozenConfig)
    requires ConfigValid(config) && config.mapping == AffineToSession && config.routes != [] && !CountsCover(config)
    ensures !GuardLocksAreFull(config) && !RouteLocksAreFull(config)
  {
    hide ConfigValid, Table, After, Aggregate, HoldsFull, Mended, StallRun;
    var c := Anchored(config);
    assert c.Valid();
    hide Startup.Valid;
    StartupCovers(c);
    ModeFacts(c);
    var ops := if config.runMode == Physical then Mended(c, 1, config.thresholds.recoverLockSamples, true) else StallRun(c);
    if config.runMode == Physical {
      PhysicalShortLock(c);
    } else {
      HybridShortLock(c);
    }
    var slot := config.routes[0].slot;
    LockedRoutes(c, ops, slot);
    assert slot in Table(c) && !HoldsFull(c, After(c, ops), slot);
  }

  // In a physical or hybrid guard a lock means a full window on every route
  // exactly when the recovery count makes up for the lock count, a first failure
  // is final, or there is no route. A physical route holds one sample before
  // anything can degrade it, so there the recovery count may be one less.
  lemma GuardFullLocksAreExact(config: FrozenConfig)
    requires ConfigValid(config) && config.mapping == AffineToSession
    ensures GuardLocksAreFull(config) <==> CountsCover(config) || config.routes == []
    ensures RouteLocksAreFull(config) <==> CountsCover(config) || config.routes == []
  {
    hide ConfigValid, CountsCover, GuardLocksAreFull, RouteLocksAreFull;
    if CountsCover(config) {
      CountsSuffice(config);
    } else if config.routes == [] {
      WithoutRoutes(config);
    } else {
      CoverIsNecessary(config);
    }
  }

  lemma WithoutRoutes(config: FrozenConfig)
    requires config.routes == []
    ensures GuardLocksAreFull(config) && RouteLocksAreFull(config)
  {
    hide Startup.Valid, After, Aggregate, HoldsFull;
  }
}
