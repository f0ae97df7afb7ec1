// Exactly which frozen wall limits bound the drift of the station clock over
// every run. The checks compare differences clamped to the signed 64-bit range
// (src/core/session_clock_guard.cpp:21-44, 193-223), so limits from 2^63-1 on
// let readings through that a true difference would not.
module GuardDriftLimits {
  import opened Numbers
  import opened Types
  import opened Policy
  import opened GuardSpec
  import opened GuardInvariant
  import opened GuardRuns
  import opened GuardClocks
  import opened QuietRuns
  import opened ExamplePolicies

  // A station guard without routes under the two limits.
  function Limited(error: u64, step: u64): Startup {
    var c := ExampleConfig(Physical);
    Startup(c.(routes := [],
               thresholds := c.thresholds.(maxStationWallErrorNs := Some(error), maxStationWallStepNs := Some(step))),
            1, 1, 1)
  }

  lemma LimitedIsValid(error: u64, step: u64)
    requires 0 < step <= error
    ensures Limited(error, step).Valid() && Limited(error, step).StationRequired()
    ensures StationFieldsPresent(Limited(error, step).config.thresholds)
  {
  }

  // ---- polls of a routeless station guard ----

  // The next poll of a run whose authority is locked keeps it locked.
  lemma NextPoll(c: Startup, ops: seq<GuardOp>, monotonicNs: u64, systemWallNs: u64)
    requires c.Valid() && c.config.runMode == Physical && After(c, ops).authorityState == Locked
    requires ReadingPasses(c, After(c, ops).lastWallErrorNs, Reading(monotonicNs, systemWallNs))
    ensures var longer := ops + [GuardPollOp(monotonicNs, systemWallNs)];
            && After(c, longer).authorityState == Locked
            && After(c, longer).lastWallErrorNs == SignedDifference(systemWallNs, StationTime(c, monotonicNs))
  {
    hide Startup.Valid, After, ReadingPasses, StationTime, SignedDifference, Apply, Inv;
    var op, v := GuardPollOp(monotonicNs, systemWallNs), ViewSeen(After(c, ops));
    RunExtends(c, ops, op);
    RunInv(c, ops);
    ModeIs(c);
    ViewIsSeen(c, After(c, ops));
    QuietView(c, After(c, ops), v, op);
  }

  lemma LimitedStartsLocked(error: u64, step: u64)
    requires 0 < step <= error
    ensures var c := Limited(error, step);
            && c.Valid() && After(c, []).authorityState == Locked && After(c, []).lastWallErrorNs == 0
  {
    LimitedIsValid(error, step);
    hide Startup.Valid, Initial;
    StartsSeen(Limited(error, step));
  }

  // The station timeline of these guards is the steady clock itself.
  lemma TimelineIsSteady(error: u64, step: u64, monotonicNs: u64)
    requires monotonicNs >= 1
    ensures StationTime(Limited(error, step), monotonicNs) == monotonicNs
  {
  }

  // ---- the error limit ----

  // Two readings at the ends of the range, a true reading between them.
  function EndToEnd(): seq<GuardOp> {
    [GuardPollOp(1, U64_MAX), GuardPollOp(1, 1), GuardPollOp(U64_MAX, 1)]
  }

  lemma EndToEndPasses(limit: u64)
    requires limit >= I64_MAX
    ensures var c := Limited(limit, limit);
            ReadingPair(c, EndToEnd(), 0, 2) && DriftOf(c, EndToEnd(), 0, 2) == 2 * (U64_MAX - 1)
  {
    hide Startup.Valid, After, Table;
    var c := Limited(limit, limit);
    LimitedIsValid(limit, limit);
    LimitedStartsLocked(limit, limit);
    TimelineIsSteady(limit, limit, 1);
    TimelineIsSteady(limit, limit, U64_MAX);
    var one, two := [GuardPollOp(1, U64_MAX)], [GuardPollOp(1, U64_MAX), GuardPollOp(1, 1)];
    assert [] + [GuardPollOp(1, U64_MAX)] == one && one + [GuardPollOp(1, 1)] == two;
    assert two + [GuardPollOp(U64_MAX, 1)] == EndToEnd();
    hide StationTime;
    LimitsOf(limit, limit);
    hide Limited;
    NextPoll(c, [], 1, U64_MAX);
    NextPoll(c, one, 1, 1);
    NextPoll(c, two, U64_MAX, 1);
  }

  lemma LimitsOf(error: u64, step: u64)
    ensures var c := Limited(error, step);
            && c.config.runMode == Physical && c.monotonicNs == 1
            && c.config.thresholds.maxStationWallErrorNs == Some(error)
            && c.config.thresholds.maxStationWallStepNs == Some(step)
  {
  }

  // The error limit bounds the drift of every pair of readings of every run by
  // twice itself exactly when it is below the clamp or no two readings can be
  // further apart.
  lemma ErrorBoundIsExact(limit: u64)
    requires limit > 0
    ensures ErrorLimitBinds(limit) <==>
              forall c, ops, i: nat, j: nat ::
                ReadingPair(c, ops, i, j) && c.config.thresholds.maxStationWallErrorNs == Some(limit)
                ==> DriftOf(c, ops, i, j) <= 2 * limit
  {
    hide ReadingPair, DriftOf, EndToEnd;
    if ErrorLimitBinds(limit) {
      forall c, ops, i: nat, j: nat | ReadingPair(c, ops, i, j) && c.config.thresholds.maxStationWallErrorNs == Some(limit)
        ensures DriftOf(c, ops, i, j) <= 2 * limit
      {
        StationDriftIsBounded(c, ops, i, j);
      }
    } else {
      EndToEndPasses(limit);
      LimitsOf(limit, limit);
    }
  }

  // ---- the step limit ----

  // Readings of one instant whose error climbs by the step limit up to the
  // clamp.
  function Climb(step: u64, n: nat): seq<GuardOp> {
    if n == 0 then [] else Climb(step, n - 1) + [GuardPollOp(1, 1 + Min(n * step, I64_MAX))]
  }

  lemma ClimbStep(step: u64, n: nat)
    requires step > 0
    ensures 0 <= Min((n + 1) * step, I64_MAX) - Min(n * step, I64_MAX) <= step
    ensures 0 <= Min(n * step, I64_MAX) <= I64_MAX
  {
    assert (n + 1) * step == n * step + step;
  }

  lemma {:induction false} ClimbState(error: u64, step: u64, n: nat)
    requires 0 < step <= error && error >= I64_MAX
    ensures var c := Limited(error, step);
            && c.Valid() && |Climb(step, n)| == n
            && After(c, Climb(step, n)).authorityState == Locked
            && After(c, Climb(step, n)).lastWallErrorNs == Min(n * step, I64_MAX)
  {
    hide Startup.Valid, After, Limited, StationTime;
    var c := Limited(error, step);
    LimitedIsValid(error, step);
    if n == 0 {
      LimitedStartsLocked(error, step);
    } else {
      ClimbState(error, step, n - 1);
      LimitsOf(error, step);
      TimelineIsSteady(error, step, 1);
      ClimbStep(step, n - 1);
      ClimbStep(step, n);
      NextPoll(c, Climb(step, n - 1), 1, 1 + Min(n * step, I64_MAX));
    }
  }

  // One more reading beyond the clamp looks like no step at all.
  function Overrun(step: u64): seq<GuardOp>
    requires step < I64_MAX
  {
    Climb(step, I64_MAX) + [GuardPollOp(1, I64_MAX + step + 2)]
  }

  lemma ClimbReachesClamp(step: u64)
    requires step > 0
    ensures Min(I64_MAX * step, I64_MAX) == I64_MAX
  {
    assert I64_MAX * step >= I64_MAX * 1;
  }

  lemma ReadingsOfLast(c: Startup, ops: seq<GuardOp>, op: GuardOp)
    ensures ReadingsFrom(c, ops + [op], |ops|) <= 1
  {
    assert (ops + [op])[..|ops|] == ops;
  }

  lemma OverrunPasses(error: u64, step: u64)
    requires 0 < step < I64_MAX <= error
    ensures var c, ops := Limited(error, step), Overrun(step);
            && |ops| == I64_MAX + 1 && ReadingPair(c, ops, I64_MAX - 1, I64_MAX)
            && DriftOf(c, ops, I64_MAX - 1, I64_MAX) == step + 1
            && ReadingsFrom(c, ops[..I64_MAX + 1], I64_MAX) <= 1
  {
    hide Startup.Valid, After, StationTime, Climb;
    var c, climb := Limited(error, step), Climb(step, I64_MAX);
    var last := GuardPollOp(1, I64_MAX + step + 2);
    LimitedIsValid(error, step);
    LimitsOf(error, step);
    hide Limited;
    TimelineIsSteady(error, step, 1);
    ClimbState(error, step, I64_MAX);
    ClimbReachesClamp(step);
    ClimbEnds(step);
    NextPoll(c, climb, 1, I64_MAX + step + 2);
    ReadingsOfLast(c, climb, last);
    assert (climb + [last])[..I64_MAX + 1] == climb + [last];
  }

  lemma ClimbEnds(step: u64)
    requires step > 0 && |Climb(step, I64_MAX)| == I64_MAX
    ensures Climb(step, I64_MAX)[I64_MAX - 1] == GuardPollOp(1, 1 + I64_MAX)
  {
    ClimbReachesClamp(step);
  }

  // Two readings that a step limit from the clamp on lets through.
  function Jump(step: u64): seq<GuardOp> {
    if step == I64_MAX then [GuardPollOp(1, 1), GuardPollOp(1, U64_MAX)]
    else [GuardPollOp(1, U64_MAX), GuardPollOp(U64_MAX, 1)]
  }

  lemma JumpPasses(error: u64, step: u64)
    requires I64_MAX <= step <= error
    ensures var c, ops := Limited(error, step), Jump(step);
            && ReadingPair(c, ops, 0, 1) && DriftOf(c, ops, 0, 1) > step
            && ReadingsFrom(c, ops[..2], 1) <= 1
  {
    hide Startup.Valid, After, Table, StationTime, ReadingsFrom;
    var c, ops := Limited(error, step), Jump(step);
    LimitedIsValid(error, step);
    LimitedStartsLocked(error, step);
    LimitsOf(error, step);
    hide Limited;
    TimelineIsSteady(error, step, 1);
    TimelineIsSteady(error, step, U64_MAX);
    assert [] + [ops[0]] == [ops[0]] && [ops[0]] + [ops[1]] == ops && ops[..2] == ops;
    ReadingsOfLast(c, [ops[0]], ops[1]);
    if step == I64_MAX {
      NextPoll(c, [], 1, 1);
      NextPoll(c, [ops[0]], 1, U64_MAX);
    } else {
      NextPoll(c, [], 1, U64_MAX);
      NextPoll(c, [ops[0]], U64_MAX, 1);
    }
  }

  // The drift of the pair is within one step for each reading after the first.
  ghost predicate DriftIsStepped(c: Startup, ops: seq<GuardOp>, i: nat, j: nat, step: u64)
    requires ReadingPair(c, ops, i, j)
  {
    DriftOf(c, ops, i, j) <= ReadingsFrom(c, ops[..j + 1], i + 1) * step
  }

  lemma OverrunIsUnstepped(error: u64, step: u64)
    requires 0 < step < I64_MAX <= error
    ensures var c, ops := Limited(error, step), Overrun(step);
            ReadingPair(c, ops, I64_MAX - 1, I64_MAX) && !DriftIsStepped(c, ops, I64_MAX - 1, I64_MAX, step)
  {
    hide ReadingPair, DriftOf, ReadingsFrom, Overrun, Limited;
    OverrunPasses(error, step);
    OneStepAtMost(ReadingsFrom(Limited(error, step), Overrun(step)[..I64_MAX + 1], I64_MAX), step);
  }

  lemma JumpIsUnstepped(error: u64, step: u64)
    requires I64_MAX <= step <= error
    ensures var c, ops := Limited(error, step), Jump(step);
            ReadingPair(c, ops, 0, 1) && !DriftIsStepped(c, ops, 0, 1, step)
  {
    hide ReadingPair, DriftOf, ReadingsFrom, Limited;
    JumpPasses(error, step);
    OneStepAtMost(ReadingsFrom(Limited(error, step), Jump(step)[..2], 1), step);
  }

  lemma OneStepAtMost(n: nat, step: u64)
    ensures n <= 1 ==> n * step <= step
  {
  }

  // The step limit bounds the drift of every pair of readings of every run by
  // one step for each reading after the first exactly when the error limit is
  // below the clamp.
  lemma StepBoundIsExact(error: u64, step: u64)
    requires 0 < step <= error
    ensures error < I64_MAX <==>
              forall c, ops, i: nat, j: nat ::
                ReadingPair(c, ops, i, j) && c.config.thresholds.maxStationWallErrorNs == Some(error)
                && c.config.thresholds.maxStationWallStepNs == Some(step)
                ==> DriftIsStepped(c, ops, i, j, step)
  {
    hide ReadingPair, DriftIsStepped, Jump, Overrun;
    if error < I64_MAX {
      forall c, ops, i: nat, j: nat | ReadingPair(c, ops, i, j) && c.config.thresholds.maxStationWallErrorNs == Some(error)
                                      && c.config.thresholds.maxStationWallStepNs == Some(step)
        ensures DriftIsStepped(c, ops, i, j, step)
      {
        SteppedBelowClamp(c, ops, i, j, error, step);
      }
    } else {
      LimitsOf(error, step);
      hide Limited;
      if step < I64_MAX {
        OverrunIsUnstepped(error, step);
      } else {
        JumpIsUnstepped(error, step);
      }
    }
  }

  lemma SteppedBelowClamp(c: Startup, ops: seq<GuardOp>, i: nat, j: nat, error: u64, step: u64)
    requires ReadingPair(c, ops, i, j) && error < I64_MAX
    requires c.config.thresholds.maxStationWallErrorNs == Some(error) && c.config.thresholds.maxStationWallStepNs == Some(step)
    ensures DriftIsStepped(c, ops, i, j, step)
  {
    hide ReadingPair, DriftOf, ReadingsFrom;
    StationDriftIsStepped(c, ops, i, j);
  }
}
