// Exactly which lock counts make `locked` mean a window of `min_lock_samples`.
// The offset step, drift, jitter and uncertainty limits bind from that window on
// (src/core/clock_mapper.cpp:397-421), while a degraded route locks on
// `recover_lock_samples` alone (src/core/clock_mapper.cpp:463-476).
module ShortLocks {
  import opened Numbers
  import opened Types
  import opened Estimator
  import opened Policy
  import opened MapperSpec
  import opened MapperRuns
  import opened LineFits
  import opened Levels

  // A locked route holds a window the quality limits bind.
  predicate LockIsFull(c: MapperConfig, st: MapperState) {
    st.status.state == Locked ==> |st.samples| >= c.policy.minLockSamples
  }

  ghost predicate LocksAreFull(c: MapperConfig)
    requires MapperConfigValid(c)
  {
    forall epoch, startNs, ops :: LockIsFull(c, Run(c, Started(c, epoch, startNs), ops))
  }

  // No failure of the authority is a soft one.
  predicate HardOnly(ops: seq<MapperOp>) {
    forall i :: 0 <= i < |ops| ==> ops[i] != AuthorityFailureOp(false)
  }

  ghost predicate HardLocksAreFull(c: MapperConfig)
    requires MapperConfigValid(c)
  {
    forall epoch, startNs, ops :: HardOnly(ops) ==> LockIsFull(c, Run(c, Started(c, epoch, startNs), ops))
  }

  // ---- what every run keeps ----

  // The window is one whose latest raw stamp is the last counted.
  ghost predicate Bounded(c: MapperConfig, st: MapperState)
    requires MapperConfigValid(c) && c.mapping == AffineToSession
  {
    && DistinctRaws(st.samples) && |st.samples| <= c.policy.estimatorWindow.value
    && forall i :: 0 <= i < |st.samples| ==> st.samples[i].rawNs <= st.lastCountedRawNs
  }

  // A degraded route holds its recovery samples on top of `spare` ones, and a
  // locked one got there by either lock count.
  predicate Spared(c: MapperConfig, st: MapperState, spare: nat)
    requires MapperConfigValid(c) && c.mapping == AffineToSession
  {
    var n, w, p := |st.samples|, c.policy.estimatorWindow.value, c.policy;
    && (st.pose.seen || st.twist.seen ==> n >= 1)
    && (st.status.state == Initializing ==> n >= Min(st.status.healthySamples, w))
    && (st.status.state == Degraded ==> n >= Min(spare + st.recoverySamples, w))
    && (st.status.state == Locked ==> n >= Min(p.minLockSamples, spare + p.recoverLockSamples))
  }

  // A soft failure finds at least one sample held.
  predicate SoftNeedsSample(st: MapperState, v: Verdict) {
    v.Failed? && !v.immediate ==> |st.samples| >= 1
  }

  lemma SparedFailure(c: MapperConfig, st: MapperState, immediate: bool, spare: nat)
    requires MapperConfigValid(c) && c.mapping == AffineToSession
    requires Spared(c, st, spare) && (immediate || |st.samples| >= spare)
    ensures Spared(c, RecordFailure(c, st, immediate), spare)
  {
  }

  lemma SparedAcceptance(c: MapperConfig, st: MapperState, o: Observation, fit: Estimate, spare: nat)
    requires MapperConfigValid(c) && c.mapping == AffineToSession && Bounded(c, st) && Spared(c, st, spare)
    ensures Spared(c, Advance(c, st, Accepted(o, fit)), spare)
  {
    WindowCoversLockCounts(c);
    hide ThresholdPolicyValid, Candidate, Relocked, Counted, DistinctRaws;
    CandidateShape(c, st.samples, o, st.lastCountedRawNs);
    CandidateNotEmpty(c, st.samples, o);
    CountedNext(c, st, o, fit);
    RelockedNext(c, Counted(Committed(c, st, o, fit), o.rawNs));
    WindowKept(c, st, o, fit);
  }

  lemma CandidateNotEmpty(c: MapperConfig, samples: seq<Sample>, o: Observation)
    requires MapperConfigValid(c) && c.mapping == AffineToSession
    ensures |Candidate(c, samples, o)| >= 1
  {
  }

  lemma WindowKept(c: MapperConfig, st: MapperState, o: Observation, fit: Estimate)
    requires MapperConfigValid(c)
    ensures var u := Counted(Committed(c, st, o, fit), o.rawNs);
            && Relocked(c, u).samples == u.samples == Candidate(c, st.samples, o)
            && Relocked(c, u).pose == u.pose && Relocked(c, u).twist == u.twist
  {
    hide Candidate;
  }

  lemma SparedNext(c: MapperConfig, st: MapperState, v: Verdict, spare: nat)
    requires MapperConfigValid(c) && c.mapping == AffineToSession && Bounded(c, st) && Spared(c, st, spare)
    requires spare <= 1 && (spare == 1 ==> SoftNeedsSample(st, v))
    ensures Spared(c, Advance(c, st, v), spare)
  {
    hide ThresholdPolicyValid, Candidate, Relocked, Counted, Committed, Spared, Bounded, RecordFailure;
    match v
    case Ignored =>
    case Failed(immediate) => SparedFailure(c, st, immediate, spare);
    case Accepted(o, fit) => SparedAcceptance(c, st, o, fit, spare);
  }

  lemma RunIsBounded(c: MapperConfig, epoch: u64, startNs: u64, ops: seq<MapperOp>)
    requires MapperConfigValid(c) && c.mapping == AffineToSession
    ensures Bounded(c, Run(c, Started(c, epoch, startNs), ops))
  {
    hide Run, Verdicts, Started, CountersTrack, LatestOf, LockGuarded, DistinctRaws, PushedSamples;
    RunTracks(c, epoch, startNs, ops);
    LastNIsBounded(PushedSamples(c, Verdicts(c, Started(c, epoch, startNs), ops)), c.policy.estimatorWindow.value);
  }

  lemma {:induction false} RunIsSpared(c: MapperConfig, epoch: u64, startNs: u64, ops: seq<MapperOp>, spare: nat)
    requires MapperConfigValid(c) && c.mapping == AffineToSession && spare <= 1
    requires spare == 1 ==> HardOnly(ops) && epoch != 0
    ensures Spared(c, Run(c, Started(c, epoch, startNs), ops), spare)
  {
    hide ThresholdPolicyValid, Spared, Bounded, Decide, Advance;
    var st0 := Started(c, epoch, startNs);
    if ops == [] {
      StartIsSpared(c, epoch, startNs, spare);
    } else {
      var front, op := ops[..|ops| - 1], ops[|ops| - 1];
      var st := Run(c, st0, front);
      RunIsSpared(c, epoch, startNs, front, spare);
      RunIsBounded(c, epoch, startNs, front);
      if spare == 1 {
        EpochIsKept(c, epoch, startNs, front);
        SeenHolds(c, st, spare);
        SoftFailureHolds(c, st, op);
      }
      SparedNext(c, st, Decide(c, st, op), spare);
    }
  }

  lemma StartIsSpared(c: MapperConfig, epoch: u64, startNs: u64, spare: nat)
    requires MapperConfigValid(c) && c.mapping == AffineToSession
    ensures Spared(c, Started(c, epoch, startNs), spare)
  {
  }

  lemma EpochIsKept(c: MapperConfig, epoch: u64, startNs: u64, ops: seq<MapperOp>)
    requires MapperConfigValid(c)
    ensures Run(c, Started(c, epoch, startNs), ops).status.epoch == epoch
  {
    hide Run, Verdicts, Started, CountersTrack, LatestOf, LockGuarded, WindowTracks;
    RunTracks(c, epoch, startNs, ops);
  }

  lemma SeenHolds(c: MapperConfig, st: MapperState, spare: nat)
    requires MapperConfigValid(c) && c.mapping == AffineToSession && Spared(c, st, spare)
    ensures st.pose.seen || st.twist.seen ==> |st.samples| >= 1
  {
  }

  // Nothing but the authority fails a route softly before it holds a sample: a
  // single sample is its own fit, and silence needs a stream that has spoken.
  lemma SoftFailureHolds(c: MapperConfig, st: MapperState, op: MapperOp)
    requires MapperConfigValid(c) && c.mapping == AffineToSession && st.status.epoch != 0
    requires op != AuthorityFailureOp(false)
    requires st.pose.seen || st.twist.seen ==> |st.samples| >= 1
    ensures SoftNeedsSample(st, Decide(c, st, op))
  {
    hide ThresholdPolicyValid, Judge, Candidate;
    if op.ObserveOp? && st.samples == [] { FirstSampleIsFitted(c, st, op.observation); }
  }

  lemma FirstSampleIsFitted(c: MapperConfig, st: MapperState, o: Observation)
    requires MapperConfigValid(c) && c.mapping == AffineToSession && st.status.epoch != 0
    requires st.samples == []
    ensures Judge(c, st, o) != Failed(false)
  {
    hide ThresholdPolicyValid, Misrouted, StartupExpired, PredictionImplausible, QualityViolated, Candidate, NextFit;
    if o.sessionNs != 0 { FirstSampleIsUsable(c, st, o); }
  }

  lemma FirstSampleIsUsable(c: MapperConfig, st: MapperState, o: Observation)
    requires MapperConfigValid(c) && c.mapping == AffineToSession && st.samples == [] && o.sessionNs != 0
    ensures !PredictionImplausible(c, st, o) && !QualityViolated(c, st, Candidate(c, [], o), NextFit(c, [], o))
  {
    hide ThresholdPolicyValid, AffineEstimate;
    LockCountsBounded(c.policy);
    WindowCoversLockCounts(c);
    assert Candidate(c, [], o) == [Sample(o.rawNs, o.sessionNs)];
    SingleSampleFits(Sample(o.rawNs, o.sessionNs), c.route.sourceUncertaintyNs);
  }

  // With one failure to lose on, no run degrades a route.
  lemma {:induction false} NeverDegraded(c: MapperConfig, epoch: u64, startNs: u64, ops: seq<MapperOp>)
    requires MapperConfigValid(c) && c.mapping == AffineToSession && c.policy.lostAfterFailures == 1
    ensures var st := Run(c, Started(c, epoch, startNs), ops);
            st.status.state != Degraded && (st.status.state == Locked ==> |st.samples| >= c.policy.minLockSamples)
  {
    hide ThresholdPolicyValid, Decide, Advance;
    var st0 := Started(c, epoch, startNs);
    if ops != [] {
      var front, op := ops[..|ops| - 1], ops[|ops| - 1];
      NeverDegraded(c, epoch, startNs, front);
      RunIsSpared(c, epoch, startNs, ops, 0);
      FullOnFirstLock(c, epoch, startNs, front, op);
    }
  }

  lemma FullOnFirstLock(c: MapperConfig, epoch: u64, startNs: u64, ops: seq<MapperOp>, op: MapperOp)
    requires MapperConfigValid(c) && c.mapping == AffineToSession && c.policy.lostAfterFailures == 1
    requires Run(c, Started(c, epoch, startNs), ops).status.state != Degraded
    requires Run(c, Started(c, epoch, startNs), ops).status.state == Locked ==>
               |Run(c, Started(c, epoch, startNs), ops).samples| >= c.policy.minLockSamples
    ensures var t := Step(c, Run(c, Started(c, epoch, startNs), ops), op);
            t.status.state != Degraded && (t.status.state == Locked ==> |t.samples| >= c.policy.minLockSamples)
  {
    hide ThresholdPolicyValid, Decide, Candidate, Run;
    var st := Run(c, Started(c, epoch, startNs), ops);
    LockingNeedsSamples(c, epoch, startNs, ops, op);
    OneFailureLoses(c, st, Decide(c, st, op));
  }

  lemma OneFailureLoses(c: MapperConfig, st: MapperState, v: Verdict)
    requires MapperConfigValid(c) && c.policy.lostAfterFailures == 1 && st.status.state != Degraded
    ensures Advance(c, st, v).status.state != Degraded
    ensures Advance(c, st, v).status.state == Locked ==> st.status.state == Locked || st.status.state == Initializing
  {
    hide Candidate;
  }

  // ---- the failing runs ----

  // A sample of the route k nanoseconds after the epoch began at 1.
  function LevelSample(c: MapperConfig, stream: StreamKind, k: nat): MapperOp
    requires k < U64_MAX
  {
    ObserveOp(Observation(c.route.slot, c.route.sourceBody, c.route.sourceDomain, stream, 1 + k, 1 + k, 0, 1 + k, 0, 0, 0, false))
  }

  // Samples on both streams at n ticks in a row.
  function LevelSamples(c: MapperConfig, first: nat, n: nat): seq<MapperOp>
    requires first + n < U64_MAX
  {
    if n == 0 then []
    else LevelSamples(c, first, n - 1) + [LevelSample(c, Pose, first + n - 1)] + [LevelSample(c, Twist, first + n - 1)]
  }

  // A soft failure of the authority, and then the recovery samples.
  function ShortRun(c: MapperConfig): seq<MapperOp> {
    [AuthorityFailureOp(false)] + LevelSamples(c, 0, c.policy.recoverLockSamples)
  }

  // One sample, silence until a poll, and then the recovery samples.
  function SilentRun(c: MapperConfig): seq<MapperOp>
    requires c.policy.maxSampleAgeNs + c.policy.recoverLockSamples + 2 < U64_MAX
  {
    var late := c.policy.maxSampleAgeNs + 1;
    LevelSamples(c, 0, 1) + [PollOp(1 + late)] + LevelSamples(c, late + 1, c.policy.recoverLockSamples)
  }

  ghost predicate Arrives(c: MapperConfig, ops: seq<MapperOp>, lv: Level)
    requires MapperConfigValid(c)
  {
    At(c, 1, 1, 1, Run(c, Started(c, 1, 1), ops), lv)
  }

  lemma ArrivesNext(c: MapperConfig, ops: seq<MapperOp>, lv: Level, op: MapperOp, mark: Mark)
    requires MapperConfigValid(c) && Arrives(c, ops, lv) && Carries(c, 1, 1, op, mark) && Allowed(c, lv, mark)
    ensures Arrives(c, ops + [op], LevelNext(c.policy, c.mapping, lv, mark))
  {
    hide At, Step, Carries, Allowed, LevelNext;
    assert (ops + [op])[..|ops|] == ops;
    LevelSteps(c, 1, 1, 1, Run(c, Started(c, 1, 1), ops), lv, op, mark);
  }

  lemma BeatArrives(c: MapperConfig, ops: seq<MapperOp>, lv: Level, k: nat)
    requires MapperConfigValid(c) && Arrives(c, ops, lv) && k < U64_MAX && k > lv.Top() && lv.state != Lost
    requires lv.BothSeen() || k <= c.policy.startupLockTimeoutNs
    requires !QualityBinds(c, LevelBeat(c.policy, c.mapping, lv, k, true))
    ensures Arrives(c, ops + [LevelSample(c, Pose, k)] + [LevelSample(c, Twist, k)], LevelBeat(c.policy, c.mapping, lv, k, true))
  {
    hide ThresholdPolicyValid, Arrives, Allowed, LevelTake, Level.Top, QualityBinds, LevelSample;
    BeatAllowed(c, lv, k, true);
    SampleCarries(c, Pose, k);
    SampleCarries(c, Twist, k);
    ArrivesNext(c, ops, lv, LevelSample(c, Pose, k), TakeMark(Pose, k));
    ArrivesNext(c, ops + [LevelSample(c, Pose, k)], LevelTake(c.policy, c.mapping, lv, Pose, k),
                LevelSample(c, Twist, k), TakeMark(Twist, k));
  }

  lemma SampleCarries(c: MapperConfig, stream: StreamKind, k: nat)
    requires k < U64_MAX
    ensures Carries(c, 1, 1, LevelSample(c, stream, k), TakeMark(stream, k))
  {
  }

  lemma {:induction false} RecoveryArrives(c: MapperConfig, ops: seq<MapperOp>, lv: Level, first: nat, n: nat)
    requires MapperConfigValid(c) && c.mapping == AffineToSession && Arrives(c, ops, lv)
    requires lv.state == Degraded && lv.recovery == 0 && lv.healthy == 0 && first > lv.Top()
    requires n <= c.policy.recoverLockSamples && lv.held + n < c.policy.minLockSamples && first + n < U64_MAX
    requires lv.BothSeen() || first == 0
    ensures Arrives(c, ops + LevelSamples(c, first, n), LevelBeats(c.policy, c.mapping, lv, first, n, true))
  {
    hide ThresholdPolicyValid, Arrives, LevelBeat, LevelSample, Level.Top;
    if n == 0 {
      assert ops + [] == ops;
    } else {
      var before := LevelBeats(c.policy, c.mapping, lv, first, n - 1, true);
      RecoveryArrives(c, ops, lv, first, n - 1);
      BeatInTime(c, lv, first, n);
      BeatArrives(c, ops + LevelSamples(c, first, n - 1), before, first + n - 1);
      var pose, twist := LevelSample(c, Pose, first + n - 1), LevelSample(c, Twist, first + n - 1);
      assert ops + LevelSamples(c, first, n) == ops + LevelSamples(c, first, n - 1) + [pose] + [twist];
    }
  }

  lemma BeatInTime(c: MapperConfig, lv: Level, first: nat, n: nat)
    requires MapperConfigValid(c) && c.mapping == AffineToSession && lv.state == Degraded && lv.recovery == 0 && lv.healthy == 0
    requires first > lv.Top() && 0 < n <= c.policy.recoverLockSamples && lv.held + n < c.policy.minLockSamples
    requires lv.BothSeen() || first == 0
    ensures var before := LevelBeats(c.policy, c.mapping, lv, first, n - 1, true);
            && before.state != Lost && first + n - 1 > before.Top()
            && (before.BothSeen() || first + n - 1 <= c.policy.startupLockTimeoutNs)
            && !QualityBinds(c, LevelBeat(c.policy, c.mapping, before, first + n - 1, true))
  {
    hide ThresholdPolicyValid, LevelBeat, Level.Top;
    LockCountsBounded(c.policy);
    RecoverBeats(c.policy, c.mapping, lv, first, n - 1, true);
    RecoverBeats(c.policy, c.mapping, lv, first, n, true);
  }

  // ---- the exact conditions ----

  lemma ShortRunLocks(c: MapperConfig)
    requires MapperConfigValid(c) && c.mapping == AffineToSession
    requires c.policy.recoverLockSamples < c.policy.minLockSamples && c.policy.lostAfterFailures > 1
    ensures var st := Run(c, Started(c, 1, 1), ShortRun(c));
            st.status.state == Locked && |st.samples| == c.policy.recoverLockSamples
  {
    hide ThresholdPolicyValid, At, LevelBeats, LevelSamples, Started;
    LockCountsBounded(c.policy);
    WindowCoversLockCounts(c);
    var failed := LevelFail(c.policy, FRESH, false);
    assert Arrives(c, [], FRESH) by { StartsFresh(c, 1, 1, 1); }
    ArrivesNext(c, [], FRESH, AuthorityFailureOp(false), FailMark(false));
    assert [] + [AuthorityFailureOp(false)] == [AuthorityFailureOp(false)];
    RecoveryArrives(c, [AuthorityFailureOp(false)], failed, 0, c.policy.recoverLockSamples);
    RecoverBeats(c.policy, c.mapping, failed, 0, c.policy.recoverLockSamples, true);
    ArrivedState(c, ShortRun(c), LevelBeats(c.policy, c.mapping, failed, 0, c.policy.recoverLockSamples, true));
  }

  lemma ArrivedState(c: MapperConfig, ops: seq<MapperOp>, lv: Level)
    requires MapperConfigValid(c) && Arrives(c, ops, lv)
    ensures var st := Run(c, Started(c, 1, 1), ops); st.status.state == lv.state && |st.samples| == lv.held
  {
    hide Run, HoldsLine, WindowUpTo;
  }

  // The level of a route that has spoken once on each stream and then kept
  // silent past the sample age.
  function Silenced(c: MapperConfig): Level {
    LevelPoll(c.policy, LevelBeat(c.policy, c.mapping, FRESH, 0, true), c.policy.maxSampleAgeNs + 1)
  }

  lemma SilencedIs(c: MapperConfig)
    requires MapperConfigValid(c) && c.mapping == AffineToSession && c.policy.lostAfterFailures > 1
    ensures var heard, silent := LevelBeat(c.policy, c.mapping, FRESH, 0, true), Silenced(c);
            && heard.state == Initializing && heard.held == 1
            && silent.state == Degraded && silent.recovery == 0 && silent.healthy == 0 && silent.held == 1
            && silent.Top() == 0 && silent.BothSeen()
  {
    WindowCoversLockCounts(c);
    LockCountsBounded(c.policy);
    hide ThresholdPolicyValid, LevelBeat;
    BeatIs(c.policy, c.mapping, FRESH, 0, true);
  }

  lemma FirstArrives(c: MapperConfig)
    requires MapperConfigValid(c) && c.mapping == AffineToSession && c.policy.lostAfterFailures > 1
    ensures Arrives(c, LevelSamples(c, 0, 1), LevelBeat(c.policy, c.mapping, FRESH, 0, true))
  {
    hide ThresholdPolicyValid, At, Started, LevelSample, LevelBeat;
    LockCountsBounded(c.policy);
    SilencedIs(c);
    StartsFresh(c, 1, 1, 1);
    assert Arrives(c, [], FRESH);
    hide Arrives;
    BeatArrives(c, [], FRESH, 0);
    assert LevelSamples(c, 0, 0) == [];
    assert LevelSamples(c, 0, 1) == [] + [LevelSample(c, Pose, 0)] + [LevelSample(c, Twist, 0)];
  }

  lemma SilenceArrives(c: MapperConfig)
    requires MapperConfigValid(c) && c.mapping == AffineToSession && c.policy.lostAfterFailures > 1
    requires c.policy.maxSampleAgeNs + 2 < U64_MAX
    ensures Arrives(c, LevelSamples(c, 0, 1) + [PollOp(2 + c.policy.maxSampleAgeNs)], Silenced(c))
  {
    hide ThresholdPolicyValid, Arrives, LevelSamples, LevelBeat, LevelPoll, Level.Top;
    SilencedIs(c);
    FirstArrives(c);
    ArrivesNext(c, LevelSamples(c, 0, 1), LevelBeat(c.policy, c.mapping, FRESH, 0, true),
                PollOp(2 + c.policy.maxSampleAgeNs), PollMark(c.policy.maxSampleAgeNs + 1));
  }

  lemma SilentRunLocks(c: MapperConfig)
    requires MapperConfigValid(c) && c.mapping == AffineToSession
    requires c.policy.recoverLockSamples + 1 < c.policy.minLockSamples && c.policy.lostAfterFailures > 1
    ensures c.policy.maxSampleAgeNs + c.policy.recoverLockSamples + 2 < U64_MAX && HardOnly(SilentRun(c))
    ensures var st := Run(c, Started(c, 1, 1), SilentRun(c));
            st.status.state == Locked && |st.samples| == c.policy.recoverLockSamples + 1
  {
    hide ThresholdPolicyValid, Arrives, Started, LevelBeats, LevelSamples, Silenced, Level.Top, HardOnly, Run;
    LockCountsBounded(c.policy);
    WindowCoversLockCounts(c);
    SilenceFits(c.policy);
    var late, recover := c.policy.maxSampleAgeNs + 1, c.policy.recoverLockSamples;
    var before := LevelSamples(c, 0, 1) + [PollOp(1 + late)];
    SilencedIs(c);
    SilenceArrives(c);
    RecoveryArrives(c, before, Silenced(c), late + 1, recover);
    RecoverBeats(c.policy, c.mapping, Silenced(c), late + 1, recover, true);
    ArrivedState(c, SilentRun(c), LevelBeats(c.policy, c.mapping, Silenced(c), late + 1, recover, true));
    SilentRunIsHard(c);
  }

  lemma SilentRunIsHard(c: MapperConfig)
    requires c.policy.maxSampleAgeNs + c.policy.recoverLockSamples + 2 < U64_MAX
    ensures HardOnly(SilentRun(c))
  {
    hide LevelSamples;
    SamplesAreHard(c, 0, 1);
    SamplesAreHard(c, c.policy.maxSampleAgeNs + 2, c.policy.recoverLockSamples);
  }

  lemma SilenceFits(p: ThresholdPolicy)
    requires ThresholdPolicyValid(p)
    ensures p.maxSampleAgeNs <= p.startupLockTimeoutNs <= 120000000000
  {
  }

  lemma {:induction false} SamplesAreHard(c: MapperConfig, first: nat, n: nat)
    requires first + n < U64_MAX
    ensures HardOnly(LevelSamples(c, first, n))
  {
    if n > 0 { SamplesAreHard(c, first, n - 1); }
  }

  // Every lock of every run of an affine route is a full one exactly when the
  // recovery count is no smaller than the lock count or the first failure is
  // already the last.
  lemma FullLocksAreExact(c: MapperConfig)
    requires MapperConfigValid(c) && c.mapping == AffineToSession
    ensures LocksAreFull(c) <==>
              c.policy.recoverLockSamples >= c.policy.minLockSamples || c.policy.lostAfterFailures == 1
  {
    FailuresPositive(c);
    hide ThresholdPolicyValid, Run, Started, ShortRun;
    if c.policy.recoverLockSamples >= c.policy.minLockSamples || c.policy.lostAfterFailures == 1 {
      forall epoch, startNs, ops ensures LockIsFull(c, Run(c, Started(c, epoch, startNs), ops)) {
        FullByCounts(c, epoch, startNs, ops, 0);
      }
    } else {
      ShortRunLocks(c);
      assert !LockIsFull(c, Run(c, Started(c, 1, 1), ShortRun(c)));
    }
  }

  lemma FailuresPositive(c: MapperConfig)
    requires MapperConfigValid(c)
    ensures c.policy.lostAfterFailures >= 1
  {
  }

  lemma FullByCounts(c: MapperConfig, epoch: u64, startNs: u64, ops: seq<MapperOp>, spare: nat)
    requires MapperConfigValid(c) && c.mapping == AffineToSession && spare <= 1
    requires spare + c.policy.recoverLockSamples >= c.policy.minLockSamples || c.policy.lostAfterFailures == 1
    requires spare == 1 ==> HardOnly(ops)
    ensures LockIsFull(c, Run(c, Started(c, epoch, startNs), ops))
  {
    hide ThresholdPolicyValid, Run, Started;
    if c.policy.lostAfterFailures == 1 {
      NeverDegraded(c, epoch, startNs, ops);
    } else if epoch == 0 {
      NoEpochNoLock(c, startNs, ops);
    } else {
      RunIsSpared(c, epoch, startNs, ops, spare);
    }
  }

  lemma {:induction false} NoEpochNoLock(c: MapperConfig, startNs: u64, ops: seq<MapperOp>)
    requires MapperConfigValid(c)
    ensures Run(c, Started(c, 0, startNs), ops).status.state != Locked
  {
    if ops != [] {
      var front := ops[..|ops| - 1];
      NoEpochNoLock(c, startNs, front);
      hide Run, Started, ThresholdPolicyValid;
      EpochIsKept(c, 0, startNs, front);
      WithoutEpoch(c, Run(c, Started(c, 0, startNs), front), ops[|ops| - 1]);
    }
  }

  lemma WithoutEpoch(c: MapperConfig, st: MapperState, op: MapperOp)
    requires MapperConfigValid(c) && st.status.epoch == 0 && st.status.state != Locked
    ensures Step(c, st, op).status.state != Locked
  {
    hide ThresholdPolicyValid, Misrouted, NextFit, PredictionImplausible, QualityViolated, Candidate;
  }

  // Without soft failures of the authority one recovery sample fewer is enough,
  // because such a route holds a sample before it can degrade.
  lemma HardFullLocksAreExact(c: MapperConfig)
    requires MapperConfigValid(c) && c.mapping == AffineToSession
    ensures HardLocksAreFull(c) <==>
              c.policy.recoverLockSamples + 1 >= c.policy.minLockSamples || c.policy.lostAfterFailures == 1
  {
    FailuresPositive(c);
    hide ThresholdPolicyValid, Run, Started, SilentRun, HardOnly;
    if c.policy.recoverLockSamples + 1 >= c.policy.minLockSamples || c.policy.lostAfterFailures == 1 {
      forall epoch, startNs, ops | HardOnly(ops) ensures LockIsFull(c, Run(c, Started(c, epoch, startNs), ops)) {
        FullByCounts(c, epoch, startNs, ops, 1);
      }
    } else {
      SilentRunLocks(c);
      assert !LockIsFull(c, Run(c, Started(c, 1, 1), SilentRun(c)));
    }
  }
}
