// When `locked` means that every stream is fresh. The program ages streams at
// polls only (src/core/clock_mapper.cpp:135-162), and a live stream locks a
// degraded route alone (src/core/clock_mapper.cpp:454-476), so between polls a
// guard may be locked, and publish, while a stream is silent.
module StaleLocks {
  import opened Numbers
  import opened Types
  import opened Policy
  import opened Levels
  import opened GuardSpec
  import opened GuardRuns
  import opened GuardHistory
  import opened GuardLocking
  import opened LockingRuns
  import opened LockLimits

  // ---- silence, seen on the receipts ----

  // A stream whose latest sample is older than the sample age has no fresh
  // receipt.
  lemma OldIsStale(c: Startup, ops: seq<GuardOp>, slot: string, stream: StreamKind, nowNs: u64)
    requires c.Valid() && slot in Table(c) && slot in After(c, ops).routes
    requires nowNs - After(c, ops).routes[slot].TimelineOf(stream).monotonicNs > c.config.thresholds.maxSampleAgeNs
    ensures !HasFreshReceipt(c, ops, slot, stream, nowNs)
  {
    hide Startup.Valid, Table, After, RouteRemembers, ReceiptOn;
    MemoryIsReceipts(c, ops, slot);
    forall i | 0 <= i < |ops| ensures !FreshReceipt(c, ops, i, slot, stream, nowNs) {
      if ReceiptOn(c, ops, i, slot, stream) { TimelineDominates(c, ops, slot, stream, i); }
    }
  }

  // The first route's twist stream has been silent since tick t.
  lemma TwistIsStale(c: Startup, ops: seq<GuardOp>, j: nat, lvs: seq<Level>, t: nat, nowNs: u64)
    requires c.Valid() && Going(c, ops, j, lvs) && c.config.routes != [] && lvs[0].twist == Some(t)
    requires nowNs - (c.monotonicNs + t) > c.config.thresholds.maxSampleAgeNs
    ensures c.config.routes[0].slot in Table(c)
    ensures !HasFreshReceipt(c, ops, c.config.routes[0].slot, Twist, nowNs)
  {
    hide Startup.Valid, Table, After, Going, HasFreshReceipt;
    RouteIsTabled(c, 0);
    GoingRoute(c, ops, j, lvs, 0);
    OldIsStale(c, ops, c.config.routes[0].slot, Twist, nowNs);
  }

  // ---- two runs ----

  // A locked guard stays locked and publishes on a pose sample although the
  // twist stream has been silent past the sample age.
  lemma SilenceKeepsLock(c: Startup, n: nat)
    requires c.Valid() && c.config.routes != [] && n >= c.config.thresholds.minLockSamples && Room(c, Late(c, n))
    ensures var k := Late(c, n);
            var before, o := Ordinary(c, n) + Clock(c, k), Sampled(c, c.config.routes[0], Pose, k);
            && Aggregate(After(c, before + [RouteOp(o)])) == Locked
            && ObserveRoute(c, After(c, before), o).1.canonicalPublishAllowed
            && c.config.routes[0].slot in Table(c)
            && !HasFreshReceipt(c, before + [RouteOp(o)], c.config.routes[0].slot, Twist, o.monotonicNs)
  {
    hide Startup.Valid, Table, After, Aggregate, Going, InGateRun, Ordinary, Clock, LevelBeats, ObserveRoute, HasFreshReceipt;
    var k, lv := Late(c, n), OrdinaryLevel(c, n);
    StartupCovers(c);
    OrdinaryGoes(c, n);
    OrdinaryLevelIs(c, n);
    NextSamplePublished(c, Ordinary(c, n), n, k, lv);
    var run := Ordinary(c, n) + Clock(c, k) + [RouteOp(Sampled(c, c.config.routes[0], Pose, k))];
    var lvs := AllAt(c, lv)[0 := LevelTake(c.config.thresholds, c.config.mapping, lv, Pose, k)];
    TwistIsStale(c, run, k, lvs, n, c.monotonicNs + k);
  }

  lemma BrokenIsDegraded(c: Startup, n: nat)
    requires c.Valid() && c.config.routes != [] && n > 0 && c.config.thresholds.lostAfterFailures > 1 && Room(c, Late(c, n))
    ensures Aggregate(After(c, Broken(c, n))) == Degraded
  {
    hide Startup.Valid, After, Aggregate, Going, Broken, LevelBeats, BrokenLevel, OrdinaryLevel, Level.Top;
    BrokenGoes(c, n);
    BrokenLevelIs(c, n);
    AllGoingAggregate(c, Broken(c, n), Late(c, n), BrokenLevel(c, n));
  }

  // What the recovery on pose samples alone leaves.
  function Overlooking(c: Startup, n: nat): Level {
    BeatenOn(c, BrokenLevel(c, n), Late(c, n) + 1, c.config.thresholds.recoverLockSamples, false)
  }

  lemma OverlookingIs(c: Startup, n: nat)
    requires c.Valid() && n > 0 && c.config.thresholds.lostAfterFailures > 1 && Room(c, OverlookedTick(c, n))
    ensures var recover, t := c.config.thresholds.recoverLockSamples, Overlooking(c, n);
            && AllGoing(c, Mended(c, n, recover, false), Late(c, n) + recover, t) && Running(c, Mended(c, n, recover, false))
            && t.state == Locked && t.twist == Some(n) && t.BothSeen() && t.Top() == Late(c, n) + recover
  {
    hide Startup.Valid, AllGoing, Running, Mended, LevelBeats, BrokenLevel, OrdinaryLevel, Level.Top;
    StartupCovers(c);
    BrokenLevelIs(c, n);
    MendedGoes(c, n, c.config.thresholds.recoverLockSamples, false);
  }

  // The tick of the pose sample after the recovery.
  function OverlookedTick(c: Startup, n: nat): nat { Late(c, n) + 1 + c.config.thresholds.recoverLockSamples }

  function Recovered(c: Startup, n: nat): seq<GuardOp>
    requires Room(c, OverlookedTick(c, n))
  {
    Mended(c, n, c.config.thresholds.recoverLockSamples, false)
  }

  function BeforeOverlooked(c: Startup, n: nat): seq<GuardOp>
    requires Room(c, OverlookedTick(c, n))
  {
    Recovered(c, n) + Clock(c, OverlookedTick(c, n))
  }

  function OverlookedSample(c: Startup, n: nat): Observation
    requires c.config.routes != [] && Room(c, OverlookedTick(c, n))
  {
    Sampled(c, c.config.routes[0], Pose, OverlookedTick(c, n))
  }

  // A poll degrades the guard for its silence, `recover_lock_samples` pose samples
  // lock it again, and it publishes, with the twist stream silent all along.
  lemma SilenceIsOverlooked(c: Startup, n: nat)
    requires c.Valid() && c.config.routes != [] && n > 0 && c.config.thresholds.lostAfterFailures > 1
    requires Room(c, OverlookedTick(c, n)) && c.config.routes[0].slot in Table(c)
    ensures Aggregate(After(c, Broken(c, n))) == Degraded && Aggregate(After(c, Recovered(c, n))) == Locked
    ensures var before, o := BeforeOverlooked(c, n), OverlookedSample(c, n);
            && Aggregate(After(c, before + [RouteOp(o)])) == Locked
            && ObserveRoute(c, After(c, before), o).1.canonicalPublishAllowed
            && !HasFreshReceipt(c, before + [RouteOp(o)], c.config.routes[0].slot, Twist, o.monotonicNs)
  {
    hide Startup.Valid, Table, After, Aggregate, Going, Running, Broken, Mended, Clock, Overlooking, ObserveRoute, HasFreshReceipt,
         Level.Top;
    var recover: nat := c.config.thresholds.recoverLockSamples;
    var k, lv, mended := OverlookedTick(c, n), Overlooking(c, n), Recovered(c, n);
    BrokenIsDegraded(c, n);
    OverlookingIs(c, n);
    AllGoingAggregate(c, mended, Late(c, n) + recover, lv);
    NextSamplePublished(c, mended, Late(c, n) + recover, k, lv);
    var lvs := AllAt(c, lv)[0 := LevelTake(c.config.thresholds, c.config.mapping, lv, Pose, k)];
    TwistIsStale(c, BeforeOverlooked(c, n) + [RouteOp(OverlookedSample(c, n))], k, lvs, n, c.monotonicNs + k);
  }

  // ---- the exact condition ----

  // The operations that carry a steady time.
  datatype OpKind = ClockKind | RouteKind | PollKind | FenceKind

  predicate IsKind(op: GuardOp, kind: OpKind) {
    match op
    case GazeboClockOp(_) => kind == ClockKind
    case RouteOp(_) => kind == RouteKind
    case GuardPollOp(_, _) => kind == PollKind
    case FailEpochFenceOp(_) => kind == FenceKind
    case TakeEventsOp => false
  }

  // A guard under the policy that is locked after an operation of this kind has
  // a fresh receipt on every stream at that time.
  ghost predicate FreshWhenLocked(config: FrozenConfig, kind: OpKind) {
    forall c: Startup, ops, op, slot, stream ::
      c.Valid() && c.config == config && slot in Table(c) && IsKind(op, kind) && Aggregate(After(c, ops + [op])) == Locked
      ==> HasFreshReceipt(c, ops + [op], slot, stream, TimeOf(op))
  }

  lemma PollsAreFresh(config: FrozenConfig)
    ensures FreshWhenLocked(config, PollKind)
  {
    hide Startup.Valid, Table, After, Aggregate, HasFreshReceipt;
    forall c: Startup, ops, op, slot, stream | c.Valid() && c.config == config && slot in Table(c) && IsKind(op, PollKind)
                                               && Aggregate(After(c, ops + [op])) == Locked
      ensures HasFreshReceipt(c, ops + [op], slot, stream, TimeOf(op))
    {
      LockedPollIsFresh(c, ops, op.monotonicNs, op.systemWallNs);
    }
  }

  lemma FencesNeverLock(config: FrozenConfig)
    ensures FreshWhenLocked(config, FenceKind)
  {
    hide Startup.Valid, Table, After, Aggregate, HasFreshReceipt;
    forall c: Startup, ops, op | c.Valid() && IsKind(op, FenceKind) ensures Aggregate(After(c, ops + [op])) == Lost {
      FenceIsFinal(c, ops, op.monotonicNs, []);
      assert ops + [op] + [] == ops + [op];
    }
  }

  // The Gazebo clock goes on, or is ignored where there is none, while every stream
  // is silent.
  lemma ClockKeepsLock(c: Startup, n: nat)
    requires c.Valid() && c.config.routes != [] && n >= c.config.thresholds.minLockSamples && Room(c, Late(c, n))
    ensures var run := Ordinary(c, n) + [GazeboClockOp(ClockAt(c, Late(c, n)))];
            && Aggregate(After(c, run)) == Locked && c.config.routes[0].slot in Table(c)
            && !HasFreshReceipt(c, run, c.config.routes[0].slot, Twist, c.monotonicNs + Late(c, n))
  {
    hide Startup.Valid, Table, After, Aggregate, Going, InGateRun, Ordinary, LevelBeats, HasFreshReceipt, KeepsGate;
    var k, lv := Late(c, n), OrdinaryLevel(c, n);
    var run := Ordinary(c, n) + [GazeboClockOp(ClockAt(c, k))];
    StartupCovers(c);
    OrdinaryGoes(c, n);
    OrdinaryLevelIs(c, n);
    ClockOrNothing(c, Ordinary(c, n), n, k, AllAt(c, lv));
    AllGoingAggregate(c, run, k, lv);
    TwistIsStale(c, run, k, AllAt(c, lv), n, c.monotonicNs + k);
  }

  lemma ClockOrNothing(c: Startup, ops: seq<GuardOp>, j: nat, k: nat, lvs: seq<Level>)
    requires c.Valid() && Room(c, k) && j < k && Going(c, ops, j, lvs) && Running(c, ops)
    ensures var run := ops + [GazeboClockOp(ClockAt(c, k))]; Going(c, run, k, lvs) && Running(c, run)
  {
    hide Startup.Valid, After, RouteAt, KeepsGate;
    ClockGoes(c, ops, j, k, lvs);
    if !c.GazeboRequired() {
      RunExtends(c, ops, GazeboClockOp(ClockAt(c, k)));
      assert ops + [] == ops;
    }
  }

  lemma ClocksAndSamplesAreStale(config: FrozenConfig)
    requires ConfigValid(config) && config.routes != []
    ensures !FreshWhenLocked(config, ClockKind) && !FreshWhenLocked(config, RouteKind)
  {
    hide ConfigValid, Table, After, Aggregate, HasFreshReceipt, Ordinary, Clock, ObserveRoute;
    var c := Anchored(config);
    assert c.Valid();
    hide Startup.Valid;
    StartupCovers(c);
    var n: nat := config.thresholds.minLockSamples;
    var k := Late(c, n);
    SilenceKeepsLock(c, n);
    ClockKeepsLock(c, n);
    var sample, clock := RouteOp(Sampled(c, config.routes[0], Pose, k)), GazeboClockOp(ClockAt(c, k));
    assert IsKind(sample, RouteKind) && TimeOf(sample) == c.monotonicNs + k;
    assert IsKind(clock, ClockKind) && TimeOf(clock) == c.monotonicNs + k;
  }

  // Under a policy with routes a lock after an operation means that every stream
  // is fresh exactly when the operation is a poll, or an epoch-fence failure, after
  // which no guard is locked.
  lemma FreshnessIsExact(config: FrozenConfig, kind: OpKind)
    requires ConfigValid(config) && config.routes != []
    ensures FreshWhenLocked(config, kind) <==> kind == PollKind || kind == FenceKind
  {
    hide ConfigValid, FreshWhenLocked;
    match kind
    case PollKind => PollsAreFresh(config);
    case FenceKind => FencesNeverLock(config);
    case _ => ClocksAndSamplesAreStale(config);
  }
}
