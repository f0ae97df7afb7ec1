// What a silent stream costs its route. Every completed poll that finds a stream
// silent fails the route (src/core/clock_mapper.cpp:135-162), and the frozen
// failure count loses it, unless an accepted sample of the other stream starts the
// count anew (src/core/clock_mapper.cpp:450).
module SilentStreams {
  import opened Numbers
  import opened Types
  import opened Policy
  import opened MapperSpec
  import opened MapperRuns
  import opened Levels
  import opened GuardSpec
  import opened GuardInvariant
  import opened GuardRuns
  import opened GuardFeeds
  import opened GuardReceipts
  import opened GuardHistory
  import opened QuietRuns
  import opened LockingRuns
  import opened LockLimits
  import opened StaleLocks

  ghost predicate HasReceipt(c: Startup, ops: seq<GuardOp>, slot: string, stream: StreamKind)
    requires c.Valid()
  {
    exists i :: 0 <= i < |ops| && ReceiptOn(c, ops, i, slot, stream)
  }

  // After these operations the poll reaches the route, and the stream, which has
  // spoken before, has no fresh receipt for it.
  ghost predicate FindsSilence(c: Startup, ops: seq<GuardOp>, op: GuardOp, slot: string, stream: StreamKind)
    requires c.Valid()
  {
    && op.GuardPollOp? && Feed(c, After(c, ops), op, slot) == Some(PollOp(op.monotonicNs))
    && HasReceipt(c, ops, slot, stream) && !HasFreshReceipt(c, ops, slot, stream, op.monotonicNs)
  }

  ghost predicate SilentPoll(c: Startup, ops: seq<GuardOp>, op: GuardOp, slot: string)
    requires c.Valid()
  {
    FindsSilence(c, ops, op, slot, Pose) || FindsSilence(c, ops, op, slot, Twist)
  }

  // How many operations from the given one on are polls that find a stream of the
  // route silent.
  ghost function SilentPolls(c: Startup, ops: seq<GuardOp>, from: nat, slot: string): nat
    requires c.Valid()
  {
    if |ops| <= from then 0
    else
      var front := ops[..|ops| - 1];
      SilentPolls(c, front, from, slot) + if SilentPoll(c, front, ops[|ops| - 1], slot) then 1 else 0
  }

  // ---- one silent poll ----

  // The stream's timeline is too old, or even ahead of the poll.
  lemma SilenceIsSeen(c: Startup, ops: seq<GuardOp>, slot: string, stream: StreamKind, nowNs: u64)
    requires c.Valid() && slot in Table(c) && HasReceipt(c, ops, slot, stream) && !HasFreshReceipt(c, ops, slot, stream, nowNs)
    ensures slot in After(c, ops).routes
    ensures var t := After(c, ops).routes[slot].TimelineOf(stream);
            t.seen && !(0 <= nowNs - t.monotonicNs <= c.config.thresholds.maxSampleAgeNs)
  {
    hide Startup.Valid, Table, After, RouteRemembers, ReceiptOn, RememberedAt;
    MemoryIsReceipts(c, ops, slot);
    var i :| 0 <= i < |ops| && ReceiptOn(c, ops, i, slot, stream);
    TimelineDominates(c, ops, slot, stream, i);
    var k := EarlierReceipt(c, ops, slot, stream);
    RememberedIsReceipt(c, ops, k, slot, stream, After(c, ops).routes[slot].TimelineOf(stream));
    assert !FreshReceipt(c, ops, k, slot, stream, nowNs);
  }

  lemma OldTimelineFails(c: MapperConfig, st: MapperState, stream: StreamKind, nowNs: u64)
    requires st.status.epoch != 0 && st.status.state != Lost
    requires st.TimelineOf(stream).seen
    requires !(0 <= nowNs - st.TimelineOf(stream).monotonicNs <= c.policy.maxSampleAgeNs)
    ensures PollVerdict(c, st, nowNs).Failed?
  {
  }

  lemma SilentPollVerdict(c: Startup, ops: seq<GuardOp>, op: GuardOp, slot: string)
    requires c.Valid() && slot in Table(c) && SilentPoll(c, ops, op, slot)
    ensures slot in After(c, ops).routes
    ensures var m, st := RouteConfig(c, Table(c)[slot]), After(c, ops).routes[slot];
            st.status.epoch != 0 && st.status.state != Lost ==> PollVerdict(m, st, op.monotonicNs).Failed?
  {
    hide Startup.Valid, Table, RouteConfig, After, HasReceipt, HasFreshReceipt, Feed, PollVerdict;
    SlotsStay(c, ops, slot);
    var stream := if FindsSilence(c, ops, op, slot, Pose) then Pose else Twist;
    SilenceIsSeen(c, ops, slot, stream, op.monotonicNs);
    var st := After(c, ops).routes[slot];
    PolicyOf(c, slot);
    if st.status.epoch != 0 && st.status.state != Lost {
      OldTimelineFails(RouteConfig(c, Table(c)[slot]), st, stream, op.monotonicNs);
    }
  }

  lemma PolicyOf(c: Startup, slot: string)
    requires slot in Table(c)
    ensures RouteConfig(c, Table(c)[slot]).policy == c.config.thresholds
  {
    hide Table;
  }

  // ---- the failure count of a route that accepts nothing ----

  // What the counters of a route are after any run.
  lemma RouteCounters(c: Startup, ops: seq<GuardOp>, slot: string)
    requires c.Valid() && slot in Table(c)
    ensures slot in After(c, ops).routes
    ensures var st := After(c, ops).routes[slot];
            && st.status.epoch == c.epoch != 0
            && (st.status.state != Lost ==> st.status.consecutiveFailures < c.config.thresholds.lostAfterFailures)
  {
    hide Startup.Valid, Table, After, RouteOps, Run, MapperConfigValid, LossOccurred, FailureRun, RecordsSinceFailure, MaxRaw, Verdicts;
    ModeIs(c);
    RoutesAreMapperRuns(c, ops, slot);
    PolicyOf(c, slot);
    hide RouteConfig;
    CountersAreExact(RouteConfig(c, Table(c)[slot]), c.epoch, c.monotonicNs, RouteOps(c, ops, slot));
    RouteEpoch(c, ops, slot);
  }

  lemma RouteEpoch(c: Startup, ops: seq<GuardOp>, slot: string)
    requires c.Valid() && slot in Table(c)
    ensures slot in After(c, ops).routes && After(c, ops).routes[slot].status.epoch == c.epoch
  {
    hide Startup.Valid, Table, RouteConfig, After, RouteOps, Run, MapperConfigValid, Verdicts, CountersTrack, WindowTracks, LatestOf,
         LockGuarded, Started;
    RoutesAreMapperRuns(c, ops, slot);
    RunTracks(RouteConfig(c, Table(c)[slot]), c.epoch, c.monotonicNs, RouteOps(c, ops, slot));
  }

  // The route is lost or has failed at least so often in a row.
  predicate FailedOften(st: MapperState, n: nat) {
    st.status.state == Lost || st.status.consecutiveFailures >= n
  }

  lemma UnacceptedKeeps(c: MapperConfig, st: MapperState, op: MapperOp, n: nat)
    requires MapperConfigValid(c) && FailedOften(st, n) && !Decide(c, st, op).Accepted?
    requires st.status.state != Lost ==> st.status.consecutiveFailures < c.policy.lostAfterFailures
    ensures FailedOften(Step(c, st, op), n)
    ensures Decide(c, st, op).Failed? ==> FailedOften(Step(c, st, op), n + 1)
  {
    hide Decide;
  }

  // An operation without a receipt of the route leaves its mapper unconvinced.
  lemma NoReceiptNoAcceptance(c: Startup, s: Guard, op: GuardOp, slot: string)
    requires c.Valid() && Known(c, s, slot) && !AcceptsNow(c, s, op, slot)
    ensures MapperConfigValid(RouteConfig(c, Table(c)[slot]))
    ensures Feed(c, s, op, slot).Some? ==>
              !Decide(RouteConfig(c, Table(c)[slot]), s.routes[slot], Feed(c, s, op, slot).value).Accepted?
  {
    hide Startup.Valid, Table, RouteConfig, Feed, AcceptsNow, Judge, PollVerdict, MapperConfigValid;
    RouteConfigIsValid(c, Table(c)[slot]);
    AcceptsWhenFed(c, s, op, slot);
    forall nowNs: u64 ensures !PollVerdict(RouteConfig(c, Table(c)[slot]), s.routes[slot], nowNs).Accepted? {
      PollsAreNotAccepted(RouteConfig(c, Table(c)[slot]), s.routes[slot], nowNs);
    }
  }

  lemma PollsAreNotAccepted(c: MapperConfig, st: MapperState, nowNs: u64)
    ensures !PollVerdict(c, st, nowNs).Accepted?
  {
  }

  lemma OneMoreUnaccepted(c: Startup, ops: seq<GuardOp>, op: GuardOp, slot: string, n: nat)
    requires c.Valid() && slot in Table(c) && slot in After(c, ops).routes && FailedOften(After(c, ops).routes[slot], n)
    requires !AcceptsNow(c, After(c, ops), op, slot)
    ensures slot in After(c, ops + [op]).routes
    ensures FailedOften(After(c, ops + [op]).routes[slot], n + if SilentPoll(c, ops, op, slot) then 1 else 0)
  {
    hide Startup.Valid, Table, RouteConfig, After, Feed, AcceptsNow, FailedOften, Step, Decide, MapperConfigValid, FindsSilence, Apply;
    var s := After(c, ops);
    RunExtends(c, ops, op);
    SlotsStay(c, ops, slot);
    ApplyFeeds(c, s, op, slot);
    RouteCounters(c, ops, slot);
    PolicyOf(c, slot);
    NoReceiptNoAcceptance(c, s, op, slot);
    var feed := Feed(c, s, op, slot);
    if feed.Some? { UnacceptedKeeps(RouteConfig(c, Table(c)[slot]), s.routes[slot], feed.value, n); }
    if SilentPoll(c, ops, op, slot) {
      SilentFeed(c, ops, op, slot);
      SilentPollVerdict(c, ops, op, slot);
      if s.routes[slot].status.state == Lost { LostIsOften(c, s.routes[slot], slot, feed.value, n); }
      else { FailedPoll(c, s.routes[slot], slot, op.monotonicNs); }
    }
  }

  lemma SilentFeed(c: Startup, ops: seq<GuardOp>, op: GuardOp, slot: string)
    requires c.Valid() && SilentPoll(c, ops, op, slot)
    ensures op.GuardPollOp? && Feed(c, After(c, ops), op, slot) == Some(PollOp(op.monotonicNs))
  {
    hide Startup.Valid, After, Feed, HasReceipt, HasFreshReceipt;
  }

  lemma FailedPoll(c: Startup, st: MapperState, slot: string, nowNs: u64)
    requires c.Valid() && slot in Table(c) && MapperConfigValid(RouteConfig(c, Table(c)[slot]))
    requires PollVerdict(RouteConfig(c, Table(c)[slot]), st, nowNs).Failed?
    ensures Decide(RouteConfig(c, Table(c)[slot]), st, PollOp(nowNs)).Failed?
  {
  }

  lemma LostIsOften(c: Startup, st: MapperState, slot: string, op: MapperOp, n: nat)
    requires c.Valid() && slot in Table(c) && MapperConfigValid(RouteConfig(c, Table(c)[slot]))
    requires st.status.state == Lost && !Decide(RouteConfig(c, Table(c)[slot]), st, op).Accepted?
    ensures FailedOften(Step(RouteConfig(c, Table(c)[slot]), st, op), n + 1)
  {
    hide Startup.Valid, Table, RouteConfig, Decide, MapperConfigValid;
  }

  // While a route accepts nothing, each poll that finds it silent counts.
  lemma {:induction false} SilenceCounts(c: Startup, ops: seq<GuardOp>, from: nat, slot: string)
    requires c.Valid() && slot in Table(c) && from <= |ops|
    requires forall i :: from <= i < |ops| ==> !Receipt(c, ops, i, slot)
    ensures slot in After(c, ops).routes && FailedOften(After(c, ops).routes[slot], SilentPolls(c, ops, from, slot))
  {
    hide Startup.Valid, Table, After, AcceptsNow, SilentPoll;
    SlotsStay(c, ops, slot);
    if |ops| > from {
      var front, op := ops[..|ops| - 1], ops[|ops| - 1];
      assert front + [op] == ops;
      forall i | from <= i < |front| ensures !Receipt(c, front, i, slot) {
        assert ops[..i] == front[..i];
        assert !Receipt(c, ops, i, slot);
      }
      SilenceCounts(c, front, from, slot);
      assert !Receipt(c, ops, |front|, slot);
      OneMoreUnaccepted(c, front, op, slot, SilentPolls(c, front, from, slot));
    }
  }

  // A route that accepts nothing while `lost_after_failures` completed polls find
  // a stream of it silent is lost, and the guard with it.
  lemma SilenceLosesRoute(c: Startup, ops: seq<GuardOp>, from: nat, slot: string)
    requires c.Valid() && slot in Table(c) && from <= |ops|
    requires forall i :: from <= i < |ops| ==> !Receipt(c, ops, i, slot)
    requires SilentPolls(c, ops, from, slot) >= c.config.thresholds.lostAfterFailures
    ensures slot in After(c, ops).routes && After(c, ops).routes[slot].status.state == Lost
    ensures Aggregate(After(c, ops)) == Lost
  {
    hide Startup.Valid, Table, After, Receipt, SilentPolls;
    SilenceCounts(c, ops, from, slot);
    RouteCounters(c, ops, slot);
    assert SomeRoute(After(c, ops).routes, Lost);
  }

  // Every completed poll that finds a stream silent leaves the route degraded or
  // lost, and so closes the guard's output.
  lemma SilentPollCloses(c: Startup, ops: seq<GuardOp>, op: GuardOp, slot: string)
    requires c.Valid() && slot in Table(c) && SilentPoll(c, ops, op, slot)
    ensures slot in After(c, ops + [op]).routes
    ensures After(c, ops + [op]).routes[slot].status.state in {Degraded, Lost}
    ensures Aggregate(After(c, ops + [op])) in {Degraded, Lost}
  {
    hide Startup.Valid, Table, RouteConfig, After, Feed, FindsSilence, Apply, PollVerdict, MapperConfigValid;
    var s, t := After(c, ops), After(c, ops + [op]);
    RunExtends(c, ops, op);
    SlotsStay(c, ops, slot);
    ApplyFeeds(c, s, op, slot);
    SilentFeed(c, ops, op, slot);
    SilentPollVerdict(c, ops, op, slot);
    RouteCounters(c, ops, slot);
    RouteConfigIsValid(c, Table(c)[slot]);
    var state := t.routes[slot].status.state;
    assert SomeRoute(t.routes, state);
  }

  // ---- a live stream keeps a silent one from ever losing the route ----

  // Each cycle is a poll and, one tick later, a pose sample of every route.
  function CycleTick(c: Startup, n: nat): nat { Late(c, 1) + 2 * n }

  function Cycle(c: Startup, k: nat): seq<GuardOp>
    requires Room(c, k + 1)
  {
    Clock(c, k) + [PollAt(c, k)] + Beat(c, k + 1, false)
  }

  function CycleLevel(c: Startup, lv: Level, k: nat): Level {
    Beaten(c, LevelPoll(c.config.thresholds, lv, k), k + 1, false)
  }

  function Cycles(c: Startup, n: nat): seq<GuardOp>
    requires Room(c, CycleTick(c, n))
  {
    if n == 0 then Ordinary(c, 1)
    else Cycles(c, n - 1) + Cycle(c, CycleTick(c, n - 1))
  }

  // The level of every route after n cycles.
  ghost predicate Survives(c: Startup, lv: Level, n: nat) {
    && lv.twist == Some(1) && lv.state != Lost && lv.failures == 0
    && lv.pose == Some(if n == 0 then 1 else CycleTick(c, n) - 1)
    && lv.Top() == (if n == 0 then 1 else CycleTick(c, n) - 1)
    && lv.healthy <= 1 && lv.recovery <= 1
  }

  lemma CycleSurvives(c: Startup, lv: Level, n: nat)
    requires c.Valid() && c.config.thresholds.lostAfterFailures > 1 && Survives(c, lv, n)
    ensures var k := CycleTick(c, n); var broken := LevelPoll(c.config.thresholds, lv, k);
            && broken.state == Degraded && broken.BothSeen() && k + 1 > broken.Top()
            && Survives(c, Beaten(c, broken, k + 1, false), n + 1)
  {
    hide RoutesValid, ModeClockPolicyValid, SourceTimingValid, LevelBeat, ThresholdPolicyValid;
    SampleAgePositive(c);
    StartupCovers(c);
    var k := CycleTick(c, n);
    var broken := LevelPoll(c.config.thresholds, lv, k);
    assert broken == lv.(state := Degraded, failures := 1, healthy := 0, recovery := 0);
    BeatIs(c.config.thresholds, c.config.mapping, broken, k + 1, false);
  }

  lemma SampleAgePositive(c: Startup)
    requires c.Valid()
    ensures 1 <= c.config.thresholds.maxSampleAgeNs
  {
  }

  lemma FirstSurvives(c: Startup)
    requires c.Valid()
    ensures Survives(c, OrdinaryLevel(c, 1), 0)
  {
    hide RoutesValid, ModeClockPolicyValid, SourceTimingValid, ThresholdPolicyValid, LevelBeats;
    FirstBeats(c.config.thresholds, c.config.mapping, 1);
  }

  // A poll at the clock's tick reaches every route.
  lemma TickPollFeeds(c: Startup, ops: seq<GuardOp>, k: nat, lvs: seq<Level>, slot: string)
    requires c.Valid() && Room(c, k) && Going(c, ops, k, lvs) && Running(c, ops) && slot in Table(c)
    ensures Feed(c, After(c, ops), PollAt(c, k), slot) == Some(PollOp(c.monotonicNs + k))
  {
    hide Startup.Valid, Table, After, Feed, TicksAt, Quiet, Inv, Sees, RoutesAt, ViewNext, Backed;
    var v := ViewSeen(After(c, ops));
    PollTicks(c, v, k);
    RunInv(c, ops);
    ViewIsSeen(c, After(c, ops));
    QuietStep(c, After(c, ops), v, PollAt(c, k), slot);
  }

  lemma SeenHasReceipt(c: Startup, ops: seq<GuardOp>, slot: string, stream: StreamKind)
    requires c.Valid() && slot in Table(c) && slot in After(c, ops).routes && After(c, ops).routes[slot].TimelineOf(stream).seen
    ensures HasReceipt(c, ops, slot, stream)
  {
    hide Startup.Valid, Table, After, ReceiptOn, RouteRemembers, RememberedAt;
    MemoryIsReceipts(c, ops, slot);
    var i := EarlierReceipt(c, ops, slot, stream);
    RememberedIsReceipt(c, ops, i, slot, stream, After(c, ops).routes[slot].TimelineOf(stream));
  }

  // The poll of a cycle finds the first route's twist stream silent.
  lemma CyclePollIsSilent(c: Startup, ops: seq<GuardOp>, k: nat, lv: Level, slot: string)
    requires c.Valid() && c.config.routes != [] && Room(c, k) && AllGoing(c, ops, k, lv) && Running(c, ops)
    requires lv.twist == Some(1) && k > 1 + c.config.thresholds.maxSampleAgeNs
    requires slot == c.config.routes[0].slot && slot in Table(c)
    ensures SilentPoll(c, ops, PollAt(c, k), slot)
  {
    hide Startup.Valid, Table, After, Feed, HasReceipt, HasFreshReceipt, Going, Running;
    var lvs := AllAt(c, lv);
    TickPollFeeds(c, ops, k, lvs, slot);
    TwistIsStale(c, ops, k, lvs, 1, c.monotonicNs + k);
    GoingRoute(c, ops, k, lvs, 0);
    SeenHasReceipt(c, ops, slot, Twist);
    assert FindsSilence(c, ops, PollAt(c, k), slot, Twist);
  }

  lemma SilentPollsNext(c: Startup, ops: seq<GuardOp>, op: GuardOp, slot: string)
    requires c.Valid()
    ensures SilentPolls(c, ops + [op], 0, slot) == SilentPolls(c, ops, 0, slot) + if SilentPoll(c, ops, op, slot) then 1 else 0
  {
    hide Startup.Valid, SilentPoll;
    assert (ops + [op])[..|ops|] == ops;
  }

  lemma {:induction false} SilentPollsGrow(c: Startup, ops: seq<GuardOp>, more: seq<GuardOp>, slot: string)
    requires c.Valid()
    ensures SilentPolls(c, ops + more, 0, slot) >= SilentPolls(c, ops, 0, slot)
  {
    hide Startup.Valid, SilentPoll;
    if more == [] {
      assert ops + more == ops;
    } else {
      var front := more[..|more| - 1];
      SilentPollsGrow(c, ops, front, slot);
      SilentPollsNext(c, ops + front, more[|more| - 1], slot);
      assert ops + more == ops + front + [more[|more| - 1]];
    }
  }

  // One cycle.
  lemma CycleGoes(c: Startup, ops: seq<GuardOp>, j: nat, k: nat, lv: Level, n: nat, slot: string)
    requires c.Valid() && c.config.routes != [] && c.config.thresholds.lostAfterFailures > 1
    requires Room(c, k + 1) && j < k == CycleTick(c, n) && AllGoing(c, ops, j, lv) && Survives(c, lv, n)
    requires slot == c.config.routes[0].slot && slot in Table(c)
    ensures AllGoing(c, ops + Cycle(c, k), k + 1, CycleLevel(c, lv, k)) && Running(c, ops + Cycle(c, k))
    ensures Survives(c, CycleLevel(c, lv, k), n + 1)
    ensures SilentPolls(c, ops + Cycle(c, k), 0, slot) >= SilentPolls(c, ops, 0, slot) + 1
  {
    hide Startup.Valid, Table, Going, Running, Clock, Beat, LevelPoll, LevelBeat, SilentPoll, SilentPolls, KeepsGate, Level.Top, Survives;
    var lvs, broken := AllAt(c, lv), LevelPoll(c.config.thresholds, lv, k);
    var clocked, polled := ops + Clock(c, k), ops + Clock(c, k) + [PollAt(c, k)];
    SurvivorIs(c, lv, n);
    CycleSurvives(c, lv, n);
    ClockGoes(c, ops, j, k, lvs);
    CyclePollIsSilent(c, clocked, k, lv, slot);
    PollGoes(c, clocked, k, lvs);
    assert PolledLevels(c, lvs, k) == AllAt(c, broken);
    BeatGoes(c, polled, k, k + 1, broken, false);
    SilentPollsGrow(c, ops, Clock(c, k), slot);
    SilentPollsNext(c, clocked, PollAt(c, k), slot);
    SilentPollsGrow(c, polled, Beat(c, k + 1, false), slot);
    assert ops + Cycle(c, k) == polled + Beat(c, k + 1, false);
  }

  lemma SurvivorIs(c: Startup, lv: Level, n: nat)
    requires Survives(c, lv, n)
    ensures lv.twist == Some(1) && lv.state != Lost && CycleTick(c, n) > 1 + c.config.thresholds.maxSampleAgeNs
  {
  }

  lemma {:induction false} CyclesGo(c: Startup, n: nat) returns (lv: Level)
    requires c.Valid() && c.config.routes != [] && c.config.thresholds.lostAfterFailures > 1 && Room(c, CycleTick(c, n))
    ensures AllGoing(c, Cycles(c, n), if n == 0 then 1 else CycleTick(c, n) - 1, lv) && Survives(c, lv, n)
    ensures Running(c, Cycles(c, n))
    ensures c.config.routes[0].slot in Table(c) && SilentPolls(c, Cycles(c, n), 0, c.config.routes[0].slot) >= n
  {
    hide Startup.Valid, Table, AllGoing, Running, Cycle, CycleLevel, SilentPolls, Survives, Ordinary, OrdinaryLevel;
    RouteIsTabled(c, 0);
    if n == 0 {
      lv := OrdinaryLevel(c, 1);
      OrdinaryGoes(c, 1);
      FirstSurvives(c);
    } else {
      var k := CycleTick(c, n - 1);
      var before := CyclesGo(c, n - 1);
      CycleGoes(c, Cycles(c, n - 1), if n == 1 then 1 else k - 1, k, before, n - 1, c.config.routes[0].slot);
      lv := CycleLevel(c, before, k);
    }
  }

  // ---- the exact condition ----

  // Whenever `lost_after_failures` polls of a run have found a stream of a route
  // silent, the route is lost.
  ghost predicate SilenceAlwaysLoses(config: FrozenConfig) {
    forall c: Startup, ops, slot ::
      c.Valid() && c.config == config && slot in Table(c)
      && SilentPolls(c, ops, 0, slot) >= config.thresholds.lostAfterFailures
      ==> slot in After(c, ops).routes && After(c, ops).routes[slot].status.state == Lost
  }

  // With one failure to lose on, the first such poll is enough.
  lemma {:induction false} FirstSilenceLoses(c: Startup, ops: seq<GuardOp>, slot: string)
    requires c.Valid() && slot in Table(c) && c.config.thresholds.lostAfterFailures == 1
    requires SilentPolls(c, ops, 0, slot) >= 1
    ensures slot in After(c, ops).routes && After(c, ops).routes[slot].status.state == Lost
  {
    hide Startup.Valid, Table, After, SilentPoll, Apply, Receipt, AcceptsNow;
    SlotsStay(c, ops, slot);
    var front, op := ops[..|ops| - 1], ops[|ops| - 1];
    assert front + [op] == ops;
    if SilentPolls(c, front, 0, slot) >= 1 {
      FirstSilenceLoses(c, front, slot);
      LostIsFinal(c, front, [op]);
    } else {
      PollsAcceptNothing(c, ops, slot);
      SilentPollsFromLast(c, front, op, slot);
      SilenceLosesRoute(c, ops, |front|, slot);
    }
  }

  lemma PollsAcceptNothing(c: Startup, ops: seq<GuardOp>, slot: string)
    requires c.Valid() && ops != [] && SilentPoll(c, ops[..|ops| - 1], ops[|ops| - 1], slot)
    ensures !Receipt(c, ops, |ops| - 1, slot)
  {
    hide Startup.Valid, After, Feed, HasReceipt, HasFreshReceipt, ObserveRoute;
  }

  lemma SilentPollsFromLast(c: Startup, ops: seq<GuardOp>, op: GuardOp, slot: string)
    requires c.Valid() && SilentPoll(c, ops, op, slot)
    ensures SilentPolls(c, ops + [op], |ops|, slot) == 1
  {
    hide Startup.Valid, SilentPoll;
    assert (ops + [op])[..|ops|] == ops;
  }

  // The frozen failure count turns silence into loss, whatever else arrives,
  // exactly when the first failure is already the last, or there is no route.
  lemma SilenceLossIsExact(config: FrozenConfig)
    requires ConfigValid(config)
    ensures SilenceAlwaysLoses(config) <==> config.thresholds.lostAfterFailures == 1 || config.routes == []
  {
    hide ConfigValid, Table, After, SilentPolls, Cycles;
    var c := Anchored(config);
    assert c.Valid();
    hide Startup.Valid;
    if config.thresholds.lostAfterFailures == 1 {
      forall d: Startup, ops, slot | d.Valid() && d.config == config && slot in Table(d) && SilentPolls(d, ops, 0, slot) >= 1
        ensures slot in After(d, ops).routes && After(d, ops).routes[slot].status.state == Lost
      {
        FirstSilenceLoses(d, ops, slot);
      }
    } else if config.routes == [] {
      NoSlots(config);
    } else {
      StartupCovers(c);
      SilenceIsOutlived(c, config.thresholds.lostAfterFailures);
    }
  }

  lemma NoSlots(config: FrozenConfig)
    requires config.routes == []
    ensures forall c: Startup, slot :: c.config == config ==> slot !in Table(c)
  {
  }

  // However many polls find a stream silent, a live stream may keep the route
  // from being lost, and the guard with it.
  lemma SilenceIsOutlived(c: Startup, n: nat)
    requires c.Valid() && c.config.routes != [] && c.config.thresholds.lostAfterFailures > 1 && Room(c, CycleTick(c, n))
    ensures c.config.routes[0].slot in Table(c) && SilentPolls(c, Cycles(c, n), 0, c.config.routes[0].slot) >= n
    ensures Aggregate(After(c, Cycles(c, n))) != Lost
    ensures c.config.routes[0].slot in After(c, Cycles(c, n)).routes
            && After(c, Cycles(c, n)).routes[c.config.routes[0].slot].status.state != Lost
  {
    hide Startup.Valid, Table, After, Going, Running, SilentPolls, Cycles, Aggregate;
    var lv := CyclesGo(c, n);
    var k := if n == 0 then 1 else CycleTick(c, n) - 1;
    AllGoingAggregate(c, Cycles(c, n), k, lv);
    GoingRoute(c, Cycles(c, n), k, AllAt(c, lv), 0);
  }
}
