// What holds of a clock mapper over every run of operations, in terms of the
// verdicts of that run.
module MapperRuns {
  import opened Numbers
  import opened Types
  import opened Estimator
  import opened LeastSquares
  import opened Policy
  import opened MapperSpec

  // ---- readings of a verdict history ----

  // The greatest accepted raw stamp, zero when there is none.
  ghost function MaxRaw(h: seq<Verdict>): u64 {
    if h == [] then 0
    else
      var front, last := MaxRaw(h[..|h| - 1]), h[|h| - 1];
      if last.Accepted? && last.observation.rawNs > front then last.observation.rawNs else front
  }

  // How many accepted samples since the last failure set a new raw maximum.
  ghost function RecordsSinceFailure(h: seq<Verdict>): nat {
    if h == [] then 0
    else
      var front := h[..|h| - 1];
      match h[|h| - 1]
      case Ignored => RecordsSinceFailure(front)
      case Failed(_) => 0
      case Accepted(o, _) => RecordsSinceFailure(front) + if o.rawNs > MaxRaw(front) then 1 else 0
  }

  // How many failures since the last acceptance.
  ghost function FailureRun(h: seq<Verdict>): nat {
    if h == [] then 0
    else
      var front := h[..|h| - 1];
      match h[|h| - 1]
      case Ignored => FailureRun(front)
      case Failed(_) => FailureRun(front) + 1
      case Accepted(_, _) => 0
  }

  // At some point of the history an immediate failure occurred, or a failure
  // run without an acceptance reached its full length.
  ghost predicate LossOccurred(c: MapperConfig, h: seq<Verdict>) {
    exists n :: 0 < n <= |h| && LossAt(c, h, n)
  }

  ghost predicate LossAt(c: MapperConfig, h: seq<Verdict>, n: nat)
    requires 0 < n <= |h|
  {
    h[n - 1].Failed? && (h[n - 1].immediate || FailureRun(h[..n]) >= c.policy.lostAfterFailures)
  }

  // Every sample ever pushed: an accepted raw stamp is pushed unless one of the
  // latest `estimator_window` pushed samples already carries it.
  ghost function PushedSamples(c: MapperConfig, h: seq<Verdict>): seq<Sample>
    requires MapperConfigValid(c)
  {
    if h == [] || c.mapping == Identity then []
    else
      var front, last := PushedSamples(c, h[..|h| - 1]), h[|h| - 1];
      if last.Accepted? && !RawFitted(LastN(front, c.policy.estimatorWindow.value), last.observation.rawNs)
      then front + [Sample(last.observation.rawNs, last.observation.sessionNs)]
      else front
  }

  // The latest accepted observation of a stream, as a timeline.
  ghost function LatestOf(h: seq<Verdict>, stream: StreamKind): Timeline {
    if h == [] then UNSEEN
    else
      var last := h[|h| - 1];
      if last.Accepted? && last.observation.stream == stream
      then Timeline(true, last.observation.rawNs, last.observation.sessionNs, last.observation.monotonicNs)
      else LatestOf(h[..|h| - 1], stream)
  }

  // ---- the state as a function of the history ----

  ghost predicate Tracks(c: MapperConfig, epoch: u64, startNs: u64, st: MapperState, h: seq<Verdict>)
    requires MapperConfigValid(c)
  {
    && st.status.epoch == epoch && st.epochMonotonicNs == startNs
    && CountersTrack(c, st, h)
    && WindowTracks(c, st, h)
    && (forall stream :: st.TimelineOf(stream) == LatestOf(h, stream))
    && LockGuarded(c, st)
  }

  ghost predicate CountersTrack(c: MapperConfig, st: MapperState, h: seq<Verdict>) {
    && (st.status.state == Lost <==> LossOccurred(c, h))
    && (st.status.state != Lost ==> st.status.consecutiveFailures == FailureRun(h) < c.policy.lostAfterFailures)
    && st.status.healthySamples == Min(RecordsSinceFailure(h), U32_MAX)
    && (st.status.state == Degraded ==> st.recoverySamples == st.status.healthySamples)
    && (st.status.state == Initializing ==> FailureRun(h) == 0)
    && (st.status.state == Lost ==> RecordsSinceFailure(h) == 0)
    && st.lastCountedRawNs == MaxRaw(h)
  }

  ghost predicate WindowTracks(c: MapperConfig, st: MapperState, h: seq<Verdict>)
    requires MapperConfigValid(c)
  {
    && (c.mapping == Identity ==> st.samples == [])
    && (c.mapping == AffineToSession ==>
          && st.samples == LastN(PushedSamples(c, h), c.policy.estimatorWindow.value)
          && |st.samples| >= Min(st.status.healthySamples, c.policy.estimatorWindow.value))
    && DistinctRaws(st.samples)
    && (forall i :: 0 <= i < |st.samples| ==> st.samples[i].rawNs <= st.lastCountedRawNs)
  }

  ghost predicate DistinctRaws(samples: seq<Sample>) {
    forall i, j :: 0 <= i < j < |samples| ==> samples[i].rawNs != samples[j].rawNs
  }

  // A locked route has seen both streams, has no failure pending, and an affine
  // one holds at least the smaller of the two lock counts.
  ghost predicate LockGuarded(c: MapperConfig, st: MapperState) {
    st.status.state == Locked ==>
      && st.BothSeen()
      && st.status.consecutiveFailures == 0
      && (c.mapping == AffineToSession ==>
            |st.samples| >= Min(c.policy.minLockSamples, c.policy.recoverLockSamples))
  }

  lemma LossExtends(c: MapperConfig, h: seq<Verdict>, v: Verdict)
    ensures LossOccurred(c, h + [v]) <==>
            LossOccurred(c, h) || (v.Failed? && (v.immediate || FailureRun(h) + 1 >= c.policy.lostAfterFailures))
  {
    var g := h + [v];
    assert g[..|h|] == h && g[..|g|] == g;
    assert forall n :: 0 < n <= |h| ==> g[..n] == h[..n];
    if LossOccurred(c, h) {
      var n :| 0 < n <= |h| && LossAt(c, h, n);
      assert LossAt(c, g, n);
    }
    if LossOccurred(c, g) {
      var n :| 0 < n <= |g| && LossAt(c, g, n);
      if n <= |h| {
        assert LossAt(c, h, n);
      }
    }
    if v.Failed? && (v.immediate || FailureRun(h) + 1 >= c.policy.lostAfterFailures) {
      assert LossAt(c, g, |g|);
    }
  }

  lemma CountersStep(c: MapperConfig, st: MapperState, h: seq<Verdict>, v: Verdict)
    requires MapperConfigValid(c)
    requires CountersTrack(c, st, h)
    requires v.Accepted? ==> st.status.state != Lost
    ensures CountersTrack(c, Advance(c, st, v), h + [v])
  {
    hide LossOccurred, Candidate, FailureRun, RecordsSinceFailure, MaxRaw;
    LossExtends(c, h, v);
    CountsExtend(h, v);
  }

  lemma CountsExtend(h: seq<Verdict>, v: Verdict)
    ensures MaxRaw(h + [v]) == if v.Accepted? && v.observation.rawNs > MaxRaw(h) then v.observation.rawNs else MaxRaw(h)
    ensures FailureRun(h + [v]) == match v case Ignored => FailureRun(h) case Failed(_) => FailureRun(h) + 1 case Accepted(_, _) => 0
    ensures RecordsSinceFailure(h + [v]) ==
              match v
              case Ignored => RecordsSinceFailure(h)
              case Failed(_) => 0
              case Accepted(o, _) => RecordsSinceFailure(h) + if o.rawNs > MaxRaw(h) then 1 else 0
  {
    assert (h + [v])[..|h|] == h;
  }

  // LastN after an append drops at most the oldest sample.
  lemma LastNOfAppend<T>(s: seq<T>, x: T, n: nat)
    requires n > 0
    ensures LastN(s + [x], n) == LastN(LastN(s, n) + [x], n)
    ensures |LastN(s + [x], n)| == Min(|LastN(s, n)| + 1, n)
  {
  }

  lemma LastNTwice<T>(s: seq<T>, n: nat)
    ensures LastN(LastN(s, n), n) == LastN(s, n)
  {
  }

  // How the fitted window changes: it keeps distinct raw stamps, never shrinks,
  // and a raw stamp above every fitted one makes it grow until it is full.
  lemma CandidateShape(c: MapperConfig, samples: seq<Sample>, o: Observation, bound: u64)
    requires MapperConfigValid(c) && c.mapping == AffineToSession
    requires DistinctRaws(samples) && |samples| <= c.policy.estimatorWindow.value
    requires forall i :: 0 <= i < |samples| ==> samples[i].rawNs <= bound
    ensures var w := Candidate(c, samples, o);
            && DistinctRaws(w)
            && |samples| <= |w| <= c.policy.estimatorWindow.value
            && (o.rawNs > bound ==> |w| == Min(|samples| + 1, c.policy.estimatorWindow.value))
            && forall i :: 0 <= i < |w| ==> w[i].rawNs <= bound || w[i].rawNs <= o.rawNs
  {
  }

  lemma PushedStep(c: MapperConfig, samples: seq<Sample>, h: seq<Verdict>, v: Verdict)
    requires MapperConfigValid(c) && c.mapping == AffineToSession && v.Accepted?
    requires samples == LastN(PushedSamples(c, h), c.policy.estimatorWindow.value)
    ensures Candidate(c, samples, v.observation) == LastN(PushedSamples(c, h + [v]), c.policy.estimatorWindow.value)
  {
    assert (h + [v])[..|h|] == h;
    var w := c.policy.estimatorWindow.value;
    LastNOfAppend(PushedSamples(c, h), Sample(v.observation.rawNs, v.observation.sessionNs), w);
    LastNTwice(PushedSamples(c, h), w);
  }

  lemma PushedUnchanged(c: MapperConfig, h: seq<Verdict>, v: Verdict)
    requires MapperConfigValid(c) && !v.Accepted?
    ensures PushedSamples(c, h + [v]) == PushedSamples(c, h)
  {
    assert (h + [v])[..|h|] == h;
  }

  lemma WindowStep(c: MapperConfig, st: MapperState, h: seq<Verdict>, v: Verdict)
    requires MapperConfigValid(c)
    requires WindowTracks(c, st, h)
    ensures WindowTracks(c, Advance(c, st, v), h + [v])
    ensures |Advance(c, st, v).samples| >= |st.samples|
  {
    hide PushedSamples, Candidate, LastN, DistinctRaws;
    if v.Accepted? {
      if c.mapping == AffineToSession {
        LastNIsBounded(PushedSamples(c, h), c.policy.estimatorWindow.value);
        CandidateShape(c, st.samples, v.observation, st.lastCountedRawNs);
        PushedStep(c, st.samples, h, v);
      } else {
        assert Candidate(c, st.samples, v.observation) == st.samples by { IdentityCandidate(c, st.samples, v.observation); }
      }
    } else {
      PushedUnchanged(c, h, v);
    }
  }

  lemma IdentityCandidate(c: MapperConfig, samples: seq<Sample>, o: Observation)
    requires MapperConfigValid(c) && c.mapping == Identity
    ensures Candidate(c, samples, o) == samples
  {
  }

  lemma LastNIsBounded<T>(s: seq<T>, n: nat)
    ensures |LastN(s, n)| == Min(|s|, n)
  {
  }

  lemma TimelineStep(c: MapperConfig, st: MapperState, h: seq<Verdict>, v: Verdict, stream: StreamKind)
    requires MapperConfigValid(c)
    requires st.TimelineOf(stream) == LatestOf(h, stream)
    ensures Advance(c, st, v).TimelineOf(stream) == LatestOf(h + [v], stream)
  {
    hide Candidate;
    assert (h + [v])[..|h|] == h;
  }

  lemma LockStep(c: MapperConfig, st: MapperState, v: Verdict)
    requires MapperConfigValid(c)
    requires LockGuarded(c, st)
    requires st.status.state == Degraded ==> st.recoverySamples == st.status.healthySamples
    requires v.Accepted? ==> st.status.state != Lost
    requires c.mapping == AffineToSession ==>
               |Advance(c, st, v).samples| >=
                 Min(Advance(c, st, v).status.healthySamples, c.policy.estimatorWindow.value)
    requires |Advance(c, st, v).samples| >= |st.samples|
    ensures LockGuarded(c, Advance(c, st, v))
  {
    hide Candidate, ThresholdPolicyValid;
    assert c.mapping == AffineToSession ==>
             c.policy.minLockSamples <= c.policy.estimatorWindow.value
             && c.policy.recoverLockSamples <= c.policy.estimatorWindow.value by {
      if c.mapping == AffineToSession { WindowCoversLockCounts(c); }
    }
  }

  lemma WindowCoversLockCounts(c: MapperConfig)
    requires MapperConfigValid(c) && c.mapping == AffineToSession
    ensures 0 < c.policy.minLockSamples <= c.policy.estimatorWindow.value
    ensures 0 < c.policy.recoverLockSamples <= c.policy.estimatorWindow.value
  {
  }

  lemma OnlyLiveRoutesAccept(c: MapperConfig, st: MapperState, op: MapperOp)
    requires MapperConfigValid(c)
    ensures Decide(c, st, op).Accepted? ==> st.status.state != Lost
  {
    hide PredictionImplausible, QualityViolated, NextFit, Candidate;
  }

  lemma AdvanceKeepsEpoch(c: MapperConfig, st: MapperState, v: Verdict)
    requires MapperConfigValid(c)
    ensures Advance(c, st, v).status.epoch == st.status.epoch
    ensures Advance(c, st, v).epochMonotonicNs == st.epochMonotonicNs
  {
    hide Candidate;
  }

  lemma RecoveryCount(c: MapperConfig, st: MapperState, h: seq<Verdict>)
    requires CountersTrack(c, st, h)
    ensures st.status.state == Degraded ==> st.recoverySamples == st.status.healthySamples
  {
  }

  lemma WindowCoversHealthy(c: MapperConfig, st: MapperState, h: seq<Verdict>)
    requires MapperConfigValid(c) && WindowTracks(c, st, h)
    ensures c.mapping == AffineToSession ==>
              |st.samples| >= Min(st.status.healthySamples, c.policy.estimatorWindow.value)
  {
  }

  lemma TracksStep(c: MapperConfig, epoch: u64, startNs: u64, st: MapperState, h: seq<Verdict>, op: MapperOp)
    requires MapperConfigValid(c)
    requires Tracks(c, epoch, startNs, st, h)
    ensures Tracks(c, epoch, startNs, Step(c, st, op), h + [Decide(c, st, op)])
  {
    hide Decide, Advance, CountersTrack, WindowTracks, LatestOf, LockGuarded;
    var v := Decide(c, st, op);
    OnlyLiveRoutesAccept(c, st, op);
    AdvanceKeepsEpoch(c, st, v);
    CountersStep(c, st, h, v);
    WindowStep(c, st, h, v);
    TimelineStep(c, st, h, v, Pose);
    TimelineStep(c, st, h, v, Twist);
    LockStep(c, st, v) by { RecoveryCount(c, st, h); WindowCoversHealthy(c, Advance(c, st, v), h + [v]); }
  }

  // In every run, the whole bookkeeping of a route is the one its verdict
  // history dictates.
  lemma {:induction false} RunTracks(c: MapperConfig, epoch: u64, startNs: u64, ops: seq<MapperOp>)
    requires MapperConfigValid(c)
    ensures var st0 := Started(c, epoch, startNs);
            Tracks(c, epoch, startNs, Run(c, st0, ops), Verdicts(c, st0, ops))
  {
    var st0 := Started(c, epoch, startNs);
    if ops == [] {
    } else {
      var front := ops[..|ops| - 1];
      RunTracks(c, epoch, startNs, front);
      TracksStep(c, epoch, startNs, Run(c, st0, front), Verdicts(c, st0, front), ops[|ops| - 1]);
    }
  }

  // ---- consequences ----

  // Lost is exactly "an immediate failure or a full uninterrupted failure run
  // has occurred"; before that the failure counter is the current run, the
  // healthy counter is the number of new raw maxima since the last failure,
  // and the recovery counter of a degraded route is that same number.
  lemma CountersAreExact(c: MapperConfig, epoch: u64, startNs: u64, ops: seq<MapperOp>)
    requires MapperConfigValid(c)
    ensures var st0 := Started(c, epoch, startNs);
            var st, h := Run(c, st0, ops), Verdicts(c, st0, ops);
            && (st.status.state == Lost <==> LossOccurred(c, h))
            && (st.status.state != Lost ==>
                  st.status.consecutiveFailures == FailureRun(h) < c.policy.lostAfterFailures)
            && st.status.healthySamples == Min(RecordsSinceFailure(h), U32_MAX)
            && (st.status.state == Degraded ==> st.recoverySamples == st.status.healthySamples)
            && st.lastCountedRawNs == MaxRaw(h)
  {
    hide LossOccurred, WindowTracks, LockGuarded, LatestOf, Started;
    RunTracks(c, epoch, startNs, ops);
  }

  // The fitted window of an affine route is always the latest pushed samples,
  // with pairwise distinct raw stamps; two of them already give the regression
  // a variance.
  lemma WindowIsLatestPushes(c: MapperConfig, epoch: u64, startNs: u64, ops: seq<MapperOp>)
    requires MapperConfigValid(c) && c.mapping == AffineToSession
    ensures var st0 := Started(c, epoch, startNs);
            var st, h, w := Run(c, st0, ops), Verdicts(c, st0, ops), c.policy.estimatorWindow.value;
            && st.samples == LastN(PushedSamples(c, h), w)
            && |st.samples| == Min(|PushedSamples(c, h)|, w)
            && |st.samples| >= Min(st.status.healthySamples, w)
            && DistinctRaws(st.samples)
            && (|st.samples| >= 2 ==> Variance(Points(st.samples, st.samples[0].rawNs as real)) > 0.0)
  {
    hide CountersTrack, LockGuarded, LatestOf, Started, PushedSamples;
    RunTracks(c, epoch, startNs, ops);
    var st := Run(c, Started(c, epoch, startNs), ops);
    if |st.samples| >= 2 {
      DistinctAbscissasGiveVariance(Points(st.samples, st.samples[0].rawNs as real), 0, 1);
    }
  }

  // A window only ever grows, and a route locks only on enough samples: on
  // `min_lock_samples` of them from its initial state, and in any case on the
  // smaller of the two lock counts.
  lemma LockingNeedsSamples(c: MapperConfig, epoch: u64, startNs: u64, ops: seq<MapperOp>, op: MapperOp)
    requires MapperConfigValid(c) && c.mapping == AffineToSession
    ensures var st := Run(c, Started(c, epoch, startNs), ops);
            var st' := Step(c, st, op);
            && |st'.samples| >= |st.samples|
            && (st'.status.state == Locked ==>
                  |st'.samples| >= Min(c.policy.minLockSamples, c.policy.recoverLockSamples))
            && (st.status.state == Initializing && st'.status.state == Locked ==>
                  |st'.samples| >= c.policy.minLockSamples)
  {
    var st0 := Started(c, epoch, startNs);
    var st, h, v := Run(c, st0, ops), Verdicts(c, st0, ops), Decide(c, Run(c, st0, ops), op);
    RunTracks(c, epoch, startNs, ops);
    TracksStep(c, epoch, startNs, st, h, op);
    WindowStep(c, st, h, v);
    WindowCoversLockCounts(c);
    LockedFromInitial(c, st, v);
  }

  lemma LockedFromInitial(c: MapperConfig, st: MapperState, v: Verdict)
    requires MapperConfigValid(c)
    ensures st.status.state == Initializing && Advance(c, st, v).status.state == Locked ==>
              Advance(c, st, v).status.healthySamples >= c.policy.minLockSamples
  {
    hide Candidate;
  }

  // ---- streams ----

  ghost predicate OnStream(v: Verdict, stream: StreamKind) {
    v.Accepted? && v.observation.stream == stream
  }

  lemma {:induction false} LatestDominates(h: seq<Verdict>, stream: StreamKind, i: nat)
    requires StreamIncreases(h, stream)
    requires i < |h| && OnStream(h[i], stream)
    ensures LatestOf(h, stream).seen
    ensures h[i].observation.rawNs <= LatestOf(h, stream).rawNs
    ensures h[i].observation.monotonicNs <= LatestOf(h, stream).monotonicNs
  {
    var front := h[..|h| - 1];
    if !OnStream(h[|h| - 1], stream) {
      LatestDominates(front, stream, i);
    }
  }

  ghost predicate StreamIncreases(h: seq<Verdict>, stream: StreamKind) {
    forall i, j :: 0 <= i < j < |h| && OnStream(h[i], stream) && OnStream(h[j], stream) ==>
      && h[i].observation.rawNs < h[j].observation.rawNs
      && h[i].observation.monotonicNs < h[j].observation.monotonicNs
  }

  lemma AcceptanceAdvances(c: MapperConfig, st: MapperState, op: MapperOp)
    requires MapperConfigValid(c)
    ensures var v := Decide(c, st, op);
            v.Accepted? ==>
              && op == ObserveOp(v.observation)
              && !StartupExpired(c, st, v.observation.monotonicNs)
              && v.observation.monotonicNs >= st.epochMonotonicNs
              && (st.TimelineOf(v.observation.stream).seen ==>
                    && st.TimelineOf(v.observation.stream).rawNs < v.observation.rawNs
                    && st.TimelineOf(v.observation.stream).monotonicNs < v.observation.monotonicNs)
  {
    hide PredictionImplausible, QualityViolated, NextFit, Candidate, ThresholdPolicyValid;
  }

  // What the next acceptance of a run looks like against its history.
  lemma NextAcceptance(c: MapperConfig, epoch: u64, startNs: u64, ops: seq<MapperOp>, op: MapperOp)
    requires MapperConfigValid(c)
    ensures var st0 := Started(c, epoch, startNs);
            var h, v := Verdicts(c, st0, ops), Decide(c, Run(c, st0, ops), op);
            v.Accepted? ==>
              && var o := v.observation;
              && o.monotonicNs >= startNs
              && (LatestOf(h, o.stream).seen ==>
                    && LatestOf(h, o.stream).rawNs < o.rawNs
                    && LatestOf(h, o.stream).monotonicNs < o.monotonicNs)
              && (forall s :: !LatestOf(h, s).seen ==> o.monotonicNs - startNs <= c.policy.startupLockTimeoutNs)
  {
    RunTracks(c, epoch, startNs, ops);
    hide Decide, LatestOf, CountersTrack, WindowTracks, LockGuarded, Started, Run, Verdicts, ThresholdPolicyValid;
    var st := Run(c, Started(c, epoch, startNs), ops);
    AcceptanceAdvances(c, st, op);
  }

  lemma StreamExtends(h: seq<Verdict>, v: Verdict, stream: StreamKind)
    requires StreamIncreases(h, stream)
    requires OnStream(v, stream) && LatestOf(h, stream).seen ==>
               && LatestOf(h, stream).rawNs < v.observation.rawNs
               && LatestOf(h, stream).monotonicNs < v.observation.monotonicNs
    ensures StreamIncreases(h + [v], stream)
  {
    forall i | 0 <= i < |h| && OnStream(h[i], stream) && OnStream(v, stream)
      ensures h[i].observation.rawNs < v.observation.rawNs
      ensures h[i].observation.monotonicNs < v.observation.monotonicNs
    {
      LatestDominates(h, stream, i);
    }
  }

  // On each stream of every run, accepted raw stamps and their steady receipts
  // strictly increase.
  lemma {:induction false} AcceptedStreamsIncrease(c: MapperConfig, epoch: u64, startNs: u64, ops: seq<MapperOp>, stream: StreamKind)
    requires MapperConfigValid(c)
    ensures StreamIncreases(Verdicts(c, Started(c, epoch, startNs), ops), stream)
  {
    hide LatestOf, Decide, Run, Started, ThresholdPolicyValid;
    if ops != [] {
      var front, op := ops[..|ops| - 1], ops[|ops| - 1];
      var st0 := Started(c, epoch, startNs);
      var h, v := Verdicts(c, st0, front), Decide(c, Run(c, st0, front), op);
      AcceptedStreamsIncrease(c, epoch, startNs, front, stream);
      NextAcceptance(c, epoch, startNs, front, op);
      StreamExtends(h, v, stream);
    }
  }

  lemma {:induction false} LatestIsUnseen(h: seq<Verdict>, stream: StreamKind)
    requires forall i :: 0 <= i < |h| ==> !OnStream(h[i], stream)
    ensures LatestOf(h, stream) == UNSEEN
  {
    if h != [] {
      assert !OnStream(h[|h| - 1], stream);
      LatestIsUnseen(h[..|h| - 1], stream);
    }
  }

  lemma {:induction false} VerdictsOfPrefix(c: MapperConfig, st: MapperState, ops: seq<MapperOp>, j: nat)
    requires MapperConfigValid(c) && j < |ops|
    ensures Verdicts(c, st, ops)[..j] == Verdicts(c, st, ops[..j])
    ensures Verdicts(c, st, ops)[j] == Decide(c, Run(c, st, ops[..j]), ops[j])
  {
    hide Decide, Run, ThresholdPolicyValid;
    var front := ops[..|ops| - 1];
    if j < |ops| - 1 {
      VerdictsOfPrefix(c, st, front, j);
      assert front[..j] == ops[..j];
    }
  }

  // Nothing is accepted on a route after the startup allowance while one of
  // its streams is still missing; in particular the first acceptance on either
  // stream falls within the allowance.
  lemma StartupBoundsFirstAcceptance(c: MapperConfig, epoch: u64, startNs: u64, ops: seq<MapperOp>,
                                     j: nat, stream: StreamKind)
    requires MapperConfigValid(c)
    requires j < |ops| && Verdicts(c, Started(c, epoch, startNs), ops)[j].Accepted?
    requires forall i :: 0 <= i < j ==> !OnStream(Verdicts(c, Started(c, epoch, startNs), ops)[i], stream)
    ensures var o := Verdicts(c, Started(c, epoch, startNs), ops)[j].observation;
            0 <= o.monotonicNs - startNs <= c.policy.startupLockTimeoutNs
  {
    hide LatestOf, Decide, Run, Verdicts, Started, OnStream, ThresholdPolicyValid;
    var st0 := Started(c, epoch, startNs);
    VerdictsOfPrefix(c, st0, ops, j);
    var h := Verdicts(c, st0, ops[..j]);
    forall i | 0 <= i < |h| ensures !OnStream(h[i], stream) {
      assert h[i] == Verdicts(c, st0, ops)[i];
    }
    LatestIsUnseen(h, stream);
    NextAcceptance(c, epoch, startNs, ops[..j], ops[j]);
    assert !LatestOf(h, stream).seen;
  }

  // ---- mapping accuracy ----

  lemma CandidateHoldsCurrentRaw(c: MapperConfig, samples: seq<Sample>, o: Observation) returns (i: nat)
    requires MapperConfigValid(c) && c.mapping == AffineToSession
    requires |samples| <= c.policy.estimatorWindow.value
    ensures var w := Candidate(c, samples, o);
            && i < |w| && w[i].rawNs == o.rawNs
            && (w[i] in samples || (w[i].sessionNs == o.sessionNs && !RawFitted(samples, o.rawNs)))
  {
    var w := Candidate(c, samples, o);
    if RawFitted(samples, o.rawNs) {
      i :| 0 <= i < |samples| && samples[i].rawNs == o.rawNs;
    } else {
      i := |w| - 1;
    }
  }

  // Once an affine window is full enough to be gated, every accepted sample's
  // mapped stamp lies within the frozen jitter bound of the Session time at
  // which that raw stamp was fitted: its own receipt, or the receipt that
  // first brought the stamp into the window.
  lemma MappingIsAccurate(c: MapperConfig, st: MapperState, o: Observation)
    requires MapperConfigValid(c) && c.mapping == AffineToSession
    requires |st.samples| <= c.policy.estimatorWindow.value
    requires Judge(c, st, o).Accepted?
    requires |Candidate(c, st.samples, o)| >= c.policy.minLockSamples
    ensures var mapped := Step(c, st, ObserveOp(o)).status.lastSessionNs;
            exists s: Sample ::
              && s in Step(c, st, ObserveOp(o)).samples && s.rawNs == o.rawNs
              && (s in st.samples || (s.sessionNs == o.sessionNs && !RawFitted(st.samples, o.rawNs)))
              && Magnitude(mapped - s.sessionNs) <= c.policy.maxJitterNs.value
  {
    hide Candidate, AffineEstimate, PredictionImplausible, ThresholdPolicyValid;
    var w := Candidate(c, st.samples, o);
    var i := CandidateHoldsCurrentRaw(c, st.samples, o);
    WindowMapsWithinJitter(w, i, c.route.sourceUncertaintyNs);
    var st' := Step(c, st, ObserveOp(o));
    assert st'.samples == w && w[i] in st'.samples;
    assert st'.status.lastSessionNs == AffineEstimate(w, o.rawNs, c.route.sourceUncertaintyNs).mappedSessionNs;
  }

  // Lost is final for a route.
  lemma {:induction false} LostRouteStaysLost(c: MapperConfig, st: MapperState, ops: seq<MapperOp>)
    requires MapperConfigValid(c)
    requires st.status.state == Lost && st.status.epoch != 0
    ensures Run(c, st, ops) == st
    ensures forall i :: 0 <= i < |ops| ==> !Verdicts(c, st, ops)[i].Accepted?
  {
    if ops != [] {
      var front := ops[..|ops| - 1];
      LostRouteStaysLost(c, st, front);
      hide PredictionImplausible, QualityViolated, NextFit, Candidate, ThresholdPolicyValid;
      OnlyLiveRoutesAccept(c, st, ops[|ops| - 1]);
    }
  }
}
