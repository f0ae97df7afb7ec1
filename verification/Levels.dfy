// A route on a level clock: every sample's raw stamp is its Session time, and
// both advance with the steady clock. Then all that matters of the mapper is a
// handful of counters (src/core/clock_mapper.cpp:135-162, 225-246, 294-476).
module Levels {
  import opened Numbers
  import opened Types
  import opened Estimator
  import opened Policy
  import opened MapperSpec
  import opened LineFits

  const LEVEL := Line(0.0, 0.0)

  // The tick of each stream's latest sample, and the route's counters.
  datatype Level = Level(
    pose: Option<nat>,
    twist: Option<nat>,
    state: GuardState,
    healthy: nat,
    recovery: nat,
    failures: nat,
    held: nat)
  {
    function TickOf(stream: StreamKind): Option<nat> {
      match stream
      case Pose => pose
      case Twist => twist
    }
    predicate BothSeen() { pose.Some? && twist.Some? }
    // The latest tick, -1 when there is none.
    function Top(): int {
      var p, t := if pose.Some? then pose.value else -1, if twist.Some? then twist.value else -1;
      if p >= t then p else t
    }
  }

  const FRESH := Level(None, None, Initializing, 0, 0, 0, 0)

  predicate Marks(t: Timeline, tick: Option<nat>, wallNs: nat, startNs: nat) {
    match tick
    case None => t == UNSEEN
    case Some(k) => t.seen && t.rawNs == wallNs + k && t.sessionNs == wallNs + k && t.monotonicNs == startNs + k
  }

  // The mapper's state is this level, ticks counted from wallNs and startNs.
  ghost predicate At(c: MapperConfig, epoch: u64, wallNs: nat, startNs: nat, st: MapperState, lv: Level)
    requires MapperConfigValid(c)
  {
    && st.status.epoch == epoch && st.epochMonotonicNs == startNs
    && Marks(st.pose, lv.pose, wallNs, startNs) && Marks(st.twist, lv.twist, wallNs, startNs)
    && st.lastCountedRawNs == (if lv.Top() < 0 then 0 else wallNs + lv.Top())
    && st.status.state == lv.state && st.status.healthySamples == lv.healthy && st.recoverySamples == lv.recovery
    && st.status.consecutiveFailures == lv.failures
    && HoldsLine(c, LEVEL, st.samples) && |st.samples| == lv.held
    && (c.mapping == AffineToSession && st.haveEstimate ==> st.status.offsetNs == 0)
    && WindowUpTo(c, st.samples, wallNs, lv.Top())
  }

  // No window sample is later than the latest tick, which is among them.
  predicate WindowUpTo(c: MapperConfig, samples: seq<Sample>, wallNs: nat, top: int) {
    && (top < 0 || c.mapping == Identity ==> samples == [])
    && (top >= 0 && c.mapping == AffineToSession ==>
          (exists i :: 0 <= i < |samples| && samples[i].rawNs == wallNs + top)
          && forall i :: 0 <= i < |samples| ==> samples[i].rawNs <= wallNs + top)
  }

  // ---- how levels move ----

  datatype Mark = TakeMark(stream: StreamKind, tick: nat) | PollMark(tick: nat) | FailMark(immediate: bool)

  function LevelTake(p: ThresholdPolicy, mapping: ClockMapping, lv: Level, stream: StreamKind, k: nat): Level {
    var record := k > lv.Top();
    var healthy := if record then Min(lv.healthy + 1, U32_MAX) else lv.healthy;
    var recovery := if record && lv.state == Degraded then Min(lv.recovery + 1, U32_MAX) else lv.recovery;
    var held := if record && mapping == AffineToSession && p.estimatorWindow.Some?
                then Min(lv.held + 1, p.estimatorWindow.value) else lv.held;
    var pose := if stream == Pose then Some(k) else lv.pose;
    var twist := if stream == Twist then Some(k) else lv.twist;
    var both := pose.Some? && twist.Some?;
    if lv.state == Initializing && both && healthy >= p.minLockSamples then
      Level(pose, twist, Locked, healthy, recovery, 0, held)
    else if lv.state == Degraded && both && recovery >= p.recoverLockSamples then
      Level(pose, twist, Locked, healthy, 0, 0, held)
    else Level(pose, twist, lv.state, healthy, recovery, 0, held)
  }

  function LevelFail(p: ThresholdPolicy, lv: Level, immediate: bool): Level {
    if lv.state == Lost then lv
    else
      var failures := Min(lv.failures + 1, U32_MAX);
      lv.(failures := failures, healthy := 0, recovery := 0,
          state := if immediate || failures >= p.lostAfterFailures then Lost else Degraded)
  }

  // Whether a poll at tick k finds the stream failing, and how hard.
  function StreamPoll(p: ThresholdPolicy, tick: Option<nat>, k: nat): Option<bool> {
    match tick
    case None => if k > p.startupLockTimeoutNs then Some(true) else None
    case Some(t) => if k < t then Some(true) else if k - t > p.maxSampleAgeNs then Some(false) else None
  }

  function LevelPoll(p: ThresholdPolicy, lv: Level, k: nat): Level {
    match StreamPoll(p, lv.pose, k)
    case Some(immediate) => LevelFail(p, lv, immediate)
    case None =>
      match StreamPoll(p, lv.twist, k)
      case Some(immediate) => LevelFail(p, lv, immediate)
      case None => lv
  }

  function LevelNext(p: ThresholdPolicy, mapping: ClockMapping, lv: Level, mark: Mark): Level {
    match mark
    case TakeMark(stream, k) => LevelTake(p, mapping, lv, stream, k)
    case PollMark(k) => LevelPoll(p, lv, k)
    case FailMark(immediate) => LevelFail(p, lv, immediate)
  }

  // The operation is what the mark says.
  predicate Carries(c: MapperConfig, wallNs: nat, startNs: nat, op: MapperOp, mark: Mark) {
    match mark
    case TakeMark(stream, k) =>
      && op.ObserveOp? && !Misrouted(c, op.observation) && !op.observation.fallbackSource && op.observation.stream == stream
      && op.observation.rawNs == wallNs + k && op.observation.sessionNs == wallNs + k && op.observation.monotonicNs == startNs + k
    case PollMark(k) => op.PollOp? && op.nowNs == startNs + k
    case FailMark(immediate) => op == AuthorityFailureOp(immediate)
  }

  predicate QualityBinds(c: MapperConfig, lv: Level) {
    c.mapping == AffineToSession ==> lv.held >= c.policy.minLockSamples
  }

  // A sample comes no earlier than any before it and later than its stream's
  // latest, and in time while a stream is missing; the quality limits allow it
  // where they bind.
  predicate TakeAllowed(c: MapperConfig, lv: Level, stream: StreamKind, k: nat) {
    && k >= lv.Top() && (lv.TickOf(stream).Some? ==> k > lv.TickOf(stream).value)
    && (lv.BothSeen() || k <= c.policy.startupLockTimeoutNs)
    && (QualityBinds(c, LevelTake(c.policy, c.mapping, lv, stream, k)) ==> LineAllowed(c, LEVEL))
  }

  predicate Allowed(c: MapperConfig, lv: Level, mark: Mark) {
    lv.state != Lost && (mark.TakeMark? ==> TakeAllowed(c, lv, mark.stream, mark.tick))
  }

  // ---- the mapper moves as its level ----

  lemma StartsFresh(c: MapperConfig, epoch: u64, wallNs: nat, startNs: u64)
    requires MapperConfigValid(c)
    ensures At(c, epoch, wallNs, startNs, Started(c, epoch, startNs), FRESH)
  {
  }

  lemma LevelFails(c: MapperConfig, epoch: u64, wallNs: nat, startNs: nat, st: MapperState, lv: Level, immediate: bool)
    requires MapperConfigValid(c) && At(c, epoch, wallNs, startNs, st, lv)
    ensures At(c, epoch, wallNs, startNs, RecordFailure(c, st, immediate), LevelFail(c.policy, lv, immediate))
  {
    hide HoldsLine, WindowUpTo;
  }

  lemma LevelPolls(c: MapperConfig, epoch: u64, wallNs: nat, startNs: nat, st: MapperState, lv: Level, nowNs: u64, k: nat)
    requires MapperConfigValid(c) && epoch != 0 && At(c, epoch, wallNs, startNs, st, lv) && lv.state != Lost
    requires nowNs == startNs + k
    ensures At(c, epoch, wallNs, startNs, Step(c, st, PollOp(nowNs)), LevelPoll(c.policy, lv, k))
    ensures PollVerdict(c, st, nowNs).Failed? <==>
              StreamPoll(c.policy, lv.pose, k).Some? || StreamPoll(c.policy, lv.twist, k).Some?
  {
    hide HoldsLine, WindowUpTo, RecordFailure, LevelFail;
    match PollVerdict(c, st, nowNs)
    case Failed(immediate) => LevelFails(c, epoch, wallNs, startNs, st, lv, immediate);
    case _ =>
  }

  lemma LevelHolds(stampNs: u64)
    ensures OnLine(LEVEL, stampNs, stampNs)
  {
  }

  // The window takes in a later sample, and finds the latest one there.
  lemma WindowNext(c: MapperConfig, samples: seq<Sample>, o: Observation, wallNs: nat, top: int, k: nat)
    requires MapperConfigValid(c) && HoldsLine(c, LEVEL, samples) && WindowUpTo(c, samples, wallNs, top) && k >= top
    requires o.rawNs == wallNs + k && o.sessionNs == o.rawNs
    ensures var w := Candidate(c, samples, o);
            && WindowUpTo(c, w, wallNs, k)
            && |w| == if k > top && c.mapping == AffineToSession then Min(|samples| + 1, c.policy.estimatorWindow.value)
                      else |samples|
  {
    hide WindowOnLine;
    if c.mapping == AffineToSession {
      if k > top {
        assert !RawFitted(samples, o.rawNs);
        var w := Candidate(c, samples, o);
        assert w[|w| - 1].rawNs == wallNs + k;
      } else {
        assert RawFitted(samples, o.rawNs);
      }
    }
  }

  lemma LevelStepAllowed(c: MapperConfig, st: MapperState, o: Observation)
    requires MapperConfigValid(c) && o.sessionNs == o.rawNs
    requires c.mapping == AffineToSession && st.haveEstimate ==> st.status.offsetNs == 0
    ensures StepAllowed(c, st, o)
  {
    hide RoundedUnsigned;
    RoundingIntegers(0);
  }

  lemma LevelInOrder(c: MapperConfig, epoch: u64, wallNs: nat, startNs: nat, st: MapperState, lv: Level, op: MapperOp,
                     stream: StreamKind, k: nat)
    requires MapperConfigValid(c) && epoch != 0 && wallNs > 0 && startNs > 0 && lv.state != Lost
    requires At(c, epoch, wallNs, startNs, st, lv) && Carries(c, wallNs, startNs, op, TakeMark(stream, k))
    requires TakeAllowed(c, lv, stream, k)
    ensures InOrder(c, st, op.observation)
  {
    hide HoldsLine, WindowUpTo, Misrouted, LevelTake, LineAllowed;
  }

  lemma TopNext(p: ThresholdPolicy, mapping: ClockMapping, lv: Level, stream: StreamKind, k: nat)
    requires k >= lv.Top()
    ensures var t := LevelTake(p, mapping, lv, stream, k);
            && t.Top() == k
            && t.pose == (if stream == Pose then Some(k) else lv.pose)
            && t.twist == if stream == Twist then Some(k) else lv.twist
  {
  }

  lemma TimelinesNext(c: MapperConfig, st: MapperState, o: Observation, fit: Estimate)
    requires MapperConfigValid(c)
    ensures var t := Advance(c, st, Accepted(o, fit));
            && t.status.epoch == st.status.epoch && t.epochMonotonicNs == st.epochMonotonicNs
            && t.pose == (if o.stream == Pose then Timeline(true, o.rawNs, o.sessionNs, o.monotonicNs) else st.pose)
            && t.twist == (if o.stream == Twist then Timeline(true, o.rawNs, o.sessionNs, o.monotonicNs) else st.twist)
  {
    hide Candidate;
  }

  lemma CountedNext(c: MapperConfig, st: MapperState, o: Observation, fit: Estimate)
    requires MapperConfigValid(c)
    ensures var u, record := Counted(Committed(c, st, o, fit), o.rawNs), o.rawNs > st.lastCountedRawNs;
            && u.pose.seen == (o.stream == Pose || st.pose.seen) && u.twist.seen == (o.stream == Twist || st.twist.seen)
            && u.lastCountedRawNs == (if record then o.rawNs else st.lastCountedRawNs)
            && u.status.state == st.status.state && u.status.consecutiveFailures == 0
            && u.status.healthySamples == (if record then SaturatingIncrement(st.status.healthySamples) else st.status.healthySamples)
            && u.recoverySamples == if record && st.status.state == Degraded then SaturatingIncrement(st.recoverySamples)
                                    else st.recoverySamples
  {
    hide Candidate;
  }

  lemma RelockedNext(c: MapperConfig, u: MapperState)
    ensures var t, both := Relocked(c, u), u.pose.seen && u.twist.seen;
            && t.lastCountedRawNs == u.lastCountedRawNs && t.status.healthySamples == u.status.healthySamples
            && t.status.consecutiveFailures == u.status.consecutiveFailures
            && t.status.state ==
                 (if u.status.state == Initializing && both && u.status.healthySamples >= c.policy.minLockSamples then Locked
                  else if u.status.state == Degraded && both && u.recoverySamples >= c.policy.recoverLockSamples then Locked
                  else u.status.state)
            && t.recoverySamples == if u.status.state == Degraded && t.status.state == Locked then 0 else u.recoverySamples
  {
  }

  // What a taken sample does to the counters.
  lemma CountersNext(c: MapperConfig, st: MapperState, lv: Level, o: Observation, fit: Estimate, k: nat)
    requires MapperConfigValid(c)
    requires st.pose.seen == lv.pose.Some? && st.twist.seen == lv.twist.Some?
    requires o.rawNs > st.lastCountedRawNs <==> k > lv.Top()
    requires st.status.state == lv.state && st.status.healthySamples == lv.healthy && st.recoverySamples == lv.recovery
    ensures var t, lv' := Advance(c, st, Accepted(o, fit)), LevelTake(c.policy, c.mapping, lv, o.stream, k);
            && t.lastCountedRawNs == (if k > lv.Top() then o.rawNs else st.lastCountedRawNs)
            && t.status.state == lv'.state && t.status.healthySamples == lv'.healthy && t.recoverySamples == lv'.recovery
            && t.status.consecutiveFailures == lv'.failures
  {
    hide Candidate, Level.Top, Relocked, Counted, Committed, ThresholdPolicyValid;
    CountedNext(c, st, o, fit);
    RelockedNext(c, Counted(Committed(c, st, o, fit), o.rawNs));
  }

  lemma LevelCounts(c: MapperConfig, epoch: u64, wallNs: nat, startNs: nat, st: MapperState, lv: Level, o: Observation,
                    fit: Estimate, stream: StreamKind, k: nat)
    requires MapperConfigValid(c) && wallNs > 0 && At(c, epoch, wallNs, startNs, st, lv) && k >= lv.Top()
    requires o.stream == stream && o.rawNs == wallNs + k && o.sessionNs == wallNs + k && o.monotonicNs == startNs + k
    ensures var t, lv' := Advance(c, st, Accepted(o, fit)), LevelTake(c.policy, c.mapping, lv, stream, k);
            && t.status.epoch == epoch && t.epochMonotonicNs == startNs
            && Marks(t.pose, lv'.pose, wallNs, startNs) && Marks(t.twist, lv'.twist, wallNs, startNs)
            && lv'.Top() == k && t.lastCountedRawNs == wallNs + k
            && t.status.state == lv'.state && t.status.healthySamples == lv'.healthy && t.recoverySamples == lv'.recovery
            && t.status.consecutiveFailures == lv'.failures
  {
    hide HoldsLine, WindowUpTo, Candidate, Advance, LevelTake, Level.Top;
    TopNext(c.policy, c.mapping, lv, stream, k);
    TimelinesNext(c, st, o, fit);
    CountersNext(c, st, lv, o, fit, k);
  }

  lemma LevelTakes(c: MapperConfig, epoch: u64, wallNs: nat, startNs: nat, st: MapperState, lv: Level, op: MapperOp,
                   stream: StreamKind, k: nat)
    requires MapperConfigValid(c) && epoch != 0 && wallNs > 0 && startNs > 0 && lv.state != Lost
    requires At(c, epoch, wallNs, startNs, st, lv) && Carries(c, wallNs, startNs, op, TakeMark(stream, k))
    requires TakeAllowed(c, lv, stream, k)
    ensures Judge(c, st, op.observation).Accepted?
    ensures At(c, epoch, wallNs, startNs, Step(c, st, op), LevelTake(c.policy, c.mapping, lv, stream, k))
  {
    hide HoldsLine, WindowUpTo, Misrouted, LineAllowed, Judge, Candidate, NextFit, StepAllowed, InOrder, Marks, Advance, OnLine,
         Level.Top;
    var o := op.observation;
    LevelInOrder(c, epoch, wallNs, startNs, st, lv, op, stream, k);
    LevelHolds(o.rawNs);
    LevelStepAllowed(c, st, o);
    WindowNext(c, st.samples, o, wallNs, lv.Top(), k);
    AcceptedOnLine(c, LEVEL, st, o);
    LineHeld(c, LEVEL, st, o);
    LevelCounts(c, epoch, wallNs, startNs, st, lv, o, NextFit(c, st.samples, o), stream, k);
  }

  // One operation moves the level as its mark says, and a sample is accepted.
  lemma LevelSteps(c: MapperConfig, epoch: u64, wallNs: nat, startNs: nat, st: MapperState, lv: Level, op: MapperOp, mark: Mark)
    requires MapperConfigValid(c) && epoch != 0 && wallNs > 0 && startNs > 0
    requires At(c, epoch, wallNs, startNs, st, lv) && Carries(c, wallNs, startNs, op, mark) && Allowed(c, lv, mark)
    ensures At(c, epoch, wallNs, startNs, Step(c, st, op), LevelNext(c.policy, c.mapping, lv, mark))
    ensures mark.TakeMark? ==> Judge(c, st, op.observation).Accepted?
  {
    hide At, Judge, PollVerdict, LevelTake, LevelPoll, LevelFail, TakeAllowed, Misrouted;
    match mark
    case TakeMark(stream, k) => LevelTakes(c, epoch, wallNs, startNs, st, lv, op, stream, k);
    case PollMark(k) => LevelPolls(c, epoch, wallNs, startNs, st, lv, op.nowNs, k);
    case FailMark(immediate) => LevelFails(c, epoch, wallNs, startNs, st, lv, immediate);
  }

  // ---- beats ----

  // At one tick a sample on both streams, or on the pose stream alone.
  function LevelBeat(p: ThresholdPolicy, mapping: ClockMapping, lv: Level, k: nat, both: bool): Level {
    var pose := LevelTake(p, mapping, lv, Pose, k);
    if both then LevelTake(p, mapping, pose, Twist, k) else pose
  }

  // Beats at n ticks in a row.
  function LevelBeats(p: ThresholdPolicy, mapping: ClockMapping, lv: Level, first: nat, n: nat, both: bool): Level {
    if n == 0 then lv else LevelBeat(p, mapping, LevelBeats(p, mapping, lv, first, n - 1, both), first + n - 1, both)
  }

  function Grown(p: ThresholdPolicy, mapping: ClockMapping, held: nat, n: nat): nat {
    if mapping == AffineToSession && p.estimatorWindow.Some? && n > 0 then Min(held + n, p.estimatorWindow.value) else held
  }

  // A later sample on a route that is not lost.
  lemma BeatIs(p: ThresholdPolicy, mapping: ClockMapping, lv: Level, k: nat, both: bool)
    requires k > lv.Top() && (both || lv.twist.Some?) && lv.state != Lost
    requires lv.healthy <= U32_MAX && lv.recovery < U32_MAX && 2 <= p.minLockSamples && 1 <= p.recoverLockSamples
    requires lv.state == Initializing ==> lv.healthy < p.minLockSamples || !lv.BothSeen()
    ensures var t, h := LevelBeat(p, mapping, lv, k, both), Min(lv.healthy + 1, U32_MAX);
            && t.pose == Some(k) && t.twist == (if both then Some(k) else lv.twist) && t.Top() == k
            && t.healthy == h && t.failures == 0 && t.held == Grown(p, mapping, lv.held, 1)
            && t.state == (match lv.state
                           case Locked => Locked
                           case Degraded => if lv.recovery + 1 >= p.recoverLockSamples then Locked else Degraded
                           case _ => if h >= p.minLockSamples then Locked else Initializing)
            && t.recovery == (if lv.state == Degraded then (if t.state == Locked then 0 else lv.recovery + 1) else lv.recovery)
  {
    var a := LevelTake(p, mapping, lv, Pose, k);
    assert a.Top() == k;
  }

  lemma {:induction false} FirstBeats(p: ThresholdPolicy, mapping: ClockMapping, n: nat)
    requires ThresholdPolicyValid(p)
    ensures var t := LevelBeats(p, mapping, FRESH, 1, n, true);
            && t.pose == (if n == 0 then None else Some(n)) && t.twist == t.pose && t.Top() == (if n == 0 then -1 else n)
            && t.state == (if n >= p.minLockSamples then Locked else Initializing)
            && t.healthy == Min(n, U32_MAX) && t.recovery == 0 && t.failures == 0 && t.held == Grown(p, mapping, 0, n)
  {
    hide ThresholdPolicyValid, LevelBeat;
    LockCountsBounded(p);
    if n > 0 {
      FirstBeats(p, mapping, n - 1);
      BeatIs(p, mapping, LevelBeats(p, mapping, FRESH, 1, n - 1, true), n, true);
    }
  }

  // The level after n later ticks of a degraded route.
  predicate Recovering(p: ThresholdPolicy, mapping: ClockMapping, lv: Level, first: nat, n: nat, both: bool, t: Level) {
    && t.Top() == (if n == 0 then lv.Top() else first + n - 1)
    && t.pose == (if n == 0 then lv.pose else Some(first + n - 1))
    && t.twist == (if n == 0 || !both then lv.twist else Some(first + n - 1))
    && t.state == (if n == p.recoverLockSamples then Locked else Degraded)
    && t.healthy == n && t.recovery == (if n == p.recoverLockSamples then 0 else n)
    && t.failures == (if n == 0 then lv.failures else 0) && t.held == Grown(p, mapping, lv.held, n)
  }

  lemma RecoveringNext(p: ThresholdPolicy, mapping: ClockMapping, lv: Level, first: nat, n: nat, both: bool, t: Level)
    requires 2 <= p.minLockSamples && 1 <= p.recoverLockSamples <= 4096 && n < p.recoverLockSamples
    requires first > lv.Top() && (both || lv.BothSeen()) && Recovering(p, mapping, lv, first, n, both, t)
    ensures Recovering(p, mapping, lv, first, n + 1, both, LevelBeat(p, mapping, t, first + n, both))
  {
    hide LevelBeat, Level.Top;
    BeatIs(p, mapping, t, first + n, both);
  }

  // A degraded route is locked again after `recover_lock_samples` later ticks.
  lemma {:induction false} RecoverBeats(p: ThresholdPolicy, mapping: ClockMapping, lv: Level, first: nat, n: nat, both: bool)
    requires ThresholdPolicyValid(p) && n <= p.recoverLockSamples
    requires lv.state == Degraded && lv.recovery == 0 && lv.healthy == 0 && first > lv.Top() && (both || lv.BothSeen())
    ensures Recovering(p, mapping, lv, first, n, both, LevelBeats(p, mapping, lv, first, n, both))
  {
    hide ThresholdPolicyValid, LevelBeat, Recovering, Level.Top;
    LockCountsBounded(p);
    if n == 0 {
      NothingRecovered(p, mapping, lv, first, both);
    } else {
      RecoverBeats(p, mapping, lv, first, n - 1, both);
      RecoveringNext(p, mapping, lv, first, n - 1, both, LevelBeats(p, mapping, lv, first, n - 1, both));
    }
  }

  lemma LockCountsBounded(p: ThresholdPolicy)
    requires ThresholdPolicyValid(p)
    ensures 2 <= p.minLockSamples <= 4096 && 1 <= p.recoverLockSamples <= 4096
  {
  }

  lemma NothingRecovered(p: ThresholdPolicy, mapping: ClockMapping, lv: Level, first: nat, both: bool)
    requires lv.state == Degraded && lv.recovery == 0 && lv.healthy == 0 && p.recoverLockSamples >= 1
    ensures Recovering(p, mapping, lv, first, 0, both, lv)
  {
  }

  // The samples of a beat are allowed where the quality limits do not bind or the
  // level line keeps them.
  lemma BeatAllowed(c: MapperConfig, lv: Level, k: nat, both: bool)
    requires MapperConfigValid(c) && lv.state != Lost && k > lv.Top()
    requires lv.BothSeen() || k <= c.policy.startupLockTimeoutNs
    requires LineAllowed(c, LEVEL) || !QualityBinds(c, LevelBeat(c.policy, c.mapping, lv, k, both))
    ensures Allowed(c, lv, TakeMark(Pose, k))
    ensures both ==> Allowed(c, LevelTake(c.policy, c.mapping, lv, Pose, k), TakeMark(Twist, k))
  {
    hide LineAllowed;
    var a := LevelTake(c.policy, c.mapping, lv, Pose, k);
    assert a.Top() == k;
    assert a.state != Lost;
  }
}
