// A degraded guard may fall back to initializing without an event: the transition
// to initializing has none (src/core/session_clock_guard.cpp:718-738).
module Fallbacks {
  import opened Types
  import opened Policy
  import opened LineFits
  import opened Levels
  import opened GuardSpec
  import opened GuardInvariant
  import opened GuardRuns
  import opened GuardLog
  import opened LockingRuns

  // All routes but the last report once, and one tick later the last one does.
  function Staggered(c: Startup): seq<GuardOp>
    requires c.config.routes != [] && Room(c, 2)
  {
    var others := |c.config.routes| - 1;
    Clock(c, 0) + Clock(c, 1) + Reports(c, 1, others, true) + Clock(c, 2) + Report(c, 2, others, true)
  }

  // A poll one sample age after that finds the first ones silent.
  function Overdue(c: Startup): nat { c.config.thresholds.maxSampleAgeNs + 2 }

  function Uneven(c: Startup): seq<GuardOp>
    requires c.config.routes != [] && Room(c, Overdue(c))
  {
    Staggered(c) + Clock(c, Overdue(c)) + [PollAt(c, Overdue(c))]
  }

  // The first ones recover over n ticks.
  function Catching(c: Startup, n: nat): seq<GuardOp>
    requires c.config.routes != [] && Room(c, Overdue(c) + n)
  {
    if n == 0 then Uneven(c)
    else
      var k := Overdue(c) + n;
      Catching(c, n - 1) + Clock(c, k) + Reports(c, k, |c.config.routes| - 1, true)
  }

  // All but one of them have recovered.
  function NearlyCaught(c: Startup): seq<GuardOp>
    requires |c.config.routes| >= 2 && c.config.thresholds.recoverLockSamples > 0
    requires Room(c, Overdue(c) + c.config.thresholds.recoverLockSamples)
  {
    var recover: nat := c.config.thresholds.recoverLockSamples;
    var k := Overdue(c) + recover;
    Catching(c, recover - 1) + Clock(c, k) + Reports(c, k, |c.config.routes| - 2, true)
  }

  // The sample that brings the last of them back.
  function LastSample(c: Startup): GuardOp
    requires |c.config.routes| >= 2 && Room(c, Overdue(c) + c.config.thresholds.recoverLockSamples)
  {
    RouteOp(Sampled(c, c.config.routes[|c.config.routes| - 2], Pose, Overdue(c) + c.config.thresholds.recoverLockSamples))
  }

  // ---- levels ----

  function Once(c: Startup, k: nat): Level { Beaten(c, FRESH, k, true) }

  function Overdued(c: Startup): Level { LevelPoll(c.config.thresholds, Once(c, 1), Overdue(c)) }

  function Caught(c: Startup, n: nat): Level { BeatenOn(c, Overdued(c), Overdue(c) + 1, n, true) }

  // The first ones at one level, the last one waiting.
  function Split(c: Startup, lv: Level): (r: seq<Level>)
    requires c.config.routes != []
    ensures |r| == |c.config.routes|
  {
    AllAt(c, lv)[|c.config.routes| - 1 := Once(c, 2)]
  }

  lemma OnceIs(c: Startup, k: nat)
    requires c.Valid()
    ensures var t := Once(c, k);
            t.pose == Some(k) && t.twist == Some(k) && t.Top() == k && t.state == Initializing && t.recovery == 0 && t.failures == 0
            && t.healthy == 1
  {
    hide Startup.Valid, LevelBeat;
    StartupCovers(c);
    BeatIs(c.config.thresholds, c.config.mapping, FRESH, k, true);
  }

  lemma OverduedIs(c: Startup)
    requires c.Valid() && c.config.thresholds.lostAfterFailures > 1
    ensures var t := Overdued(c);
            t.state == Degraded && t.recovery == 0 && t.healthy == 0 && t.Top() == 1 && t.BothSeen()
    ensures LevelPoll(c.config.thresholds, Once(c, 2), Overdue(c)) == Once(c, 2)
  {
    hide Startup.Valid, Once;
    OnceIs(c, 1);
    OnceIs(c, 2);
  }

  lemma CaughtIs(c: Startup, n: nat)
    requires c.Valid() && c.config.thresholds.lostAfterFailures > 1 && n < c.config.thresholds.recoverLockSamples
    ensures var t := Caught(c, n);
            t.state == Degraded && t.BothSeen() && Overdue(c) + 1 + n > t.Top()
    ensures LevelTake(c.config.thresholds, c.config.mapping, Caught(c, c.config.thresholds.recoverLockSamples - 1), Pose,
                      Overdue(c) + c.config.thresholds.recoverLockSamples).state == Locked
    ensures Beaten(c, Caught(c, c.config.thresholds.recoverLockSamples - 1),
                   Overdue(c) + c.config.thresholds.recoverLockSamples, true).state == Locked
  {
    hide RoutesValid, ModeClockPolicyValid, SourceTimingValid, ThresholdPolicyValid, LevelBeats, Overdued;
    OverduedIs(c);
    StartupCovers(c);
    var recover: nat := c.config.thresholds.recoverLockSamples;
    RecoverBeats(c.config.thresholds, c.config.mapping, Overdued(c), Overdue(c) + 1, n, true);
    RecoverBeats(c.config.thresholds, c.config.mapping, Overdued(c), Overdue(c) + 1, recover - 1, true);
    BeatIs(c.config.thresholds, c.config.mapping, Caught(c, recover - 1), Overdue(c) + recover, true);
    BeatIs(c.config.thresholds, c.config.mapping, Caught(c, recover - 1), Overdue(c) + recover, false);
  }

  // ---- the run ----

  lemma StaggeredGoes(c: Startup)
    requires c.Valid() && c.config.routes != [] && Room(c, 2)
    ensures Going(c, Staggered(c), 2, Split(c, Once(c, 1))) && Running(c, Staggered(c))
  {
    hide Startup.Valid, Going, Running, Clock, Reports, Report, LevelBeat, KeepsGate, Level.Top;
    var others := |c.config.routes| - 1;
    var unseen := AllAt(c, FRESH);
    var one := Front(unseen, others, Once(c, 1));
    assert FRESH.Top() == -1 by { FreshTop(); }
    StartupCovers(c);
    StartGoes(c);
    ClockGoes(c, Clock(c, 0), 0, 1, unseen);
    ReportsGo(c, Clock(c, 0) + Clock(c, 1), 1, unseen, FRESH, others, true);
    var first := Clock(c, 0) + Clock(c, 1) + Reports(c, 1, others, true);
    ClockGoes(c, first, 1, 2, one);
    OneReports(c, first + Clock(c, 2), 2, one, others, true);
    assert one[others := Once(c, 2)] == Split(c, Once(c, 1));
  }

  lemma FreshTop()
    ensures FRESH.Top() == -1
  {
  }

  lemma UnevenGoes(c: Startup)
    requires c.Valid() && c.config.routes != [] && Room(c, Overdue(c)) && c.config.thresholds.lostAfterFailures > 1
    ensures Going(c, Uneven(c), Overdue(c), Split(c, Overdued(c))) && Running(c, Uneven(c))
  {
    hide Startup.Valid, Going, Running, Clock, Staggered, Once, KeepsGate, LevelPoll;
    var k, lvs := Overdue(c), Split(c, Once(c, 1));
    SampleAgeIsPositive(c);
    StaggeredGoes(c);
    OnceIs(c, 1);
    OnceIs(c, 2);
    OverduedIs(c);
    ClockGoes(c, Staggered(c), 2, k, lvs);
    PollGoes(c, Staggered(c) + Clock(c, k), k, lvs);
    assert PolledLevels(c, lvs, k) == Split(c, Overdued(c));
  }

  lemma SampleAgeIsPositive(c: Startup)
    requires c.Valid()
    ensures c.config.thresholds.maxSampleAgeNs >= 1
  {
  }

  lemma {:induction false} CatchingGoes(c: Startup, n: nat)
    requires c.Valid() && c.config.routes != [] && Room(c, Overdue(c) + n) && c.config.thresholds.lostAfterFailures > 1
    requires n < c.config.thresholds.recoverLockSamples
    ensures Going(c, Catching(c, n), Overdue(c) + n, Split(c, Caught(c, n))) && Running(c, Catching(c, n))
  {
    hide Startup.Valid, Going, Running, Clock, Uneven, Once, KeepsGate, Overdued, LevelBeat, Reports, Level.Top;
    if n == 0 {
      UnevenGoes(c);
    } else {
      var k, others, lvs := Overdue(c) + n, |c.config.routes| - 1, Split(c, Caught(c, n - 1));
      CatchingGoes(c, n - 1);
      CaughtIs(c, n - 1);
      ClockGoes(c, Catching(c, n - 1), Overdue(c) + n - 1, k, lvs);
      ReportsGo(c, Catching(c, n - 1) + Clock(c, k), k, lvs, Caught(c, n - 1), others, true);
      assert Front(lvs, others, Beaten(c, Caught(c, n - 1), k, true)) == Split(c, Caught(c, n));
    }
  }

  // The levels just before the last sample.
  function Nearly(c: Startup): (r: seq<Level>)
    requires |c.config.routes| >= 2 && c.config.thresholds.recoverLockSamples > 0
    ensures |r| == |c.config.routes|
  {
    var recover: nat := c.config.thresholds.recoverLockSamples;
    Front(Split(c, Caught(c, recover - 1)), |c.config.routes| - 2,
          Beaten(c, Caught(c, recover - 1), Overdue(c) + recover, true))
  }

  lemma NearlyGoes(c: Startup)
    requires c.Valid() && |c.config.routes| >= 2 && c.config.thresholds.lostAfterFailures > 1
    requires c.config.thresholds.recoverLockSamples > 0 && Room(c, Overdue(c) + c.config.thresholds.recoverLockSamples)
    ensures var k := Overdue(c) + c.config.thresholds.recoverLockSamples;
            Going(c, NearlyCaught(c), k, Nearly(c)) && Running(c, NearlyCaught(c))
  {
    hide Startup.Valid, Going, Running, Clock, Catching, Once, KeepsGate, Caught, LevelBeat, Reports, Level.Top;
    var recover: nat := c.config.thresholds.recoverLockSamples;
    var k, lvs := Overdue(c) + recover, Split(c, Caught(c, recover - 1));
    CatchingGoes(c, recover - 1);
    CaughtIs(c, recover - 1);
    ClockGoes(c, Catching(c, recover - 1), k - 1, k, lvs);
    ReportsGo(c, Catching(c, recover - 1) + Clock(c, k), k, lvs, Caught(c, recover - 1), |c.config.routes| - 2, true);
  }

  // Every guard with two routes that does not lose on its first failure can fall
  // back from degraded to initializing, and then logs nothing.
  lemma FallsBackSilently(c: Startup)
    requires c.Valid() && |c.config.routes| >= 2 && c.config.thresholds.lostAfterFailures > 1
    requires Room(c, Overdue(c) + c.config.thresholds.recoverLockSamples)
    ensures c.config.thresholds.recoverLockSamples > 0
    ensures Aggregate(After(c, NearlyCaught(c))) == Degraded
    ensures Aggregate(After(c, NearlyCaught(c) + [LastSample(c)])) == Initializing
    ensures After(c, NearlyCaught(c) + [LastSample(c)]).pending == After(c, NearlyCaught(c)).pending
  {
    hide Startup.Valid, After, Aggregate, Going, Running, NearlyCaught, Once, Caught, LevelTake, Beaten, Level.Top, Allowed, LineAllowed,
         KeepsGate, Inv;
    StartupCovers(c);
    var recover: nat := c.config.thresholds.recoverLockSamples;
    var k, i, lvs := Overdue(c) + recover, |c.config.routes| - 2, Nearly(c);
    NearlyGoes(c);
    NearlyIs(c);
    LevelIsAllowed(c, i);
    BeatAllowed(RouteOf(c, i), lvs[i], k, true);
    SampleGoes(c, NearlyCaught(c), k, lvs, i, Pose);
    var back := lvs[i := LevelTake(c.config.thresholds, c.config.mapping, lvs[i], Pose, k)];
    SplitAggregate(c, NearlyCaught(c), k, lvs);
    SplitAggregate(c, NearlyCaught(c) + [LastSample(c)], k, back);
    NothingLogged(c, NearlyCaught(c), LastSample(c));
  }

  lemma NearlyIs(c: Startup)
    requires c.Valid() && |c.config.routes| >= 2 && c.config.thresholds.lostAfterFailures > 1
    requires c.config.thresholds.recoverLockSamples > 0
    ensures var lvs, n := Nearly(c), |c.config.routes|; var k := Overdue(c) + c.config.thresholds.recoverLockSamples;
            && (forall j :: 0 <= j < n - 2 ==> lvs[j].state == Locked)
            && lvs[n - 2].state == Degraded && lvs[n - 2].BothSeen() && k > lvs[n - 2].Top()
            && LevelTake(c.config.thresholds, c.config.mapping, lvs[n - 2], Pose, k).state == Locked
            && lvs[n - 1].state == Initializing
  {
    hide Startup.Valid, Once, Caught, LevelTake, Beaten, Level.Top;
    CaughtIs(c, c.config.thresholds.recoverLockSamples - 1);
    OnceIs(c, 2);
  }

  // The aggregate of routes of which none is lost and the last one initializing.
  lemma SplitAggregate(c: Startup, ops: seq<GuardOp>, k: nat, lvs: seq<Level>)
    requires c.Valid() && |c.config.routes| >= 2 && Going(c, ops, k, lvs) && Running(c, ops) && |lvs| == |c.config.routes|
    requires forall j :: 0 <= j < |lvs| - 2 ==> lvs[j].state == Locked
    requires lvs[|lvs| - 2].state in {Locked, Degraded} && lvs[|lvs| - 1].state == Initializing
    ensures Aggregate(After(c, ops)) == if lvs[|lvs| - 2].state == Degraded then Degraded else Initializing
  {
    hide Startup.Valid, After, Going;
    GoingAggregate(c, ops, k, lvs);
  }

  lemma NothingLogged(c: Startup, ops: seq<GuardOp>, op: GuardOp)
    requires c.Valid() && op != TakeEventsOp && Aggregate(After(c, ops + [op])) == Initializing
    ensures After(c, ops + [op]).pending == After(c, ops).pending
  {
    hide Startup.Valid, After, Aggregate, Inv, Apply, Logged, Call;
    RunInv(c, ops);
    RunExtends(c, ops, op);
    ApplyCall(c, After(c, ops), op);
    CallIsLogged(c, After(c, ops), After(c, ops + [op]));
    LoggedMovesLog(After(c, ops), After(c, ops + [op]), []);
    assert [] + After(c, ops).pending == After(c, ops).pending;
    assert [] + After(c, ops + [op]).pending == After(c, ops + [op]).pending;
  }
}
