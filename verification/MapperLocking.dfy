// When a route locks: the safety facts about locked routes are not kept by
// never locking. A route fed samples of one affine source-to-Session relation
// within the frozen limits accepts each of them and is locked once it has seen
// enough of them (src/core/clock_mapper.cpp:294-476).
module MapperLocking {
  import opened Numbers
  import opened Types
  import opened MapperSpec
  import opened LineFits

  // ---- what a run brings, read from its operations alone ----

  // The latest sample of a stream, as a timeline.
  function LatestFrom(ops: seq<MapperOp>, stream: StreamKind): Timeline {
    if ops == [] then UNSEEN
    else
      var last := ops[|ops| - 1];
      if last.ObserveOp? && last.observation.stream == stream
      then Timeline(true, last.observation.rawNs, last.observation.sessionNs, last.observation.monotonicNs)
      else LatestFrom(ops[..|ops| - 1], stream)
  }

  predicate BothFrom(ops: seq<MapperOp>) { LatestFrom(ops, Pose).seen && LatestFrom(ops, Twist).seen }

  // The greatest raw stamp.
  function MaxStamp(ops: seq<MapperOp>): u64 {
    if ops == [] then 0
    else
      var front, last := MaxStamp(ops[..|ops| - 1]), ops[|ops| - 1];
      if last.ObserveOp? && last.observation.rawNs > front then last.observation.rawNs else front
  }

  // How many samples carry a raw stamp above all before them.
  function Records(ops: seq<MapperOp>): nat {
    if ops == [] then 0
    else
      var front, last := ops[..|ops| - 1], ops[|ops| - 1];
      Records(front) + if last.ObserveOp? && last.observation.rawNs > MaxStamp(front) then 1 else 0
  }

  // The offset of the latest sample.
  function LastOffset(ops: seq<MapperOp>): Option<int> {
    if ops == [] then None
    else
      var last := ops[|ops| - 1];
      if last.ObserveOp? then Some(OffsetOf(last.observation)) else LastOffset(ops[..|ops| - 1])
  }

  // Enough samples, and some on both streams.
  predicate Ready(c: MapperConfig, ops: seq<MapperOp>) {
    BothFrom(ops) && Records(ops) >= c.policy.minLockSamples
  }

  lemma LatestNext(ops: seq<MapperOp>, op: MapperOp, stream: StreamKind)
    ensures LatestFrom(ops + [op], stream) ==
              if op.ObserveOp? && op.observation.stream == stream
              then Timeline(true, op.observation.rawNs, op.observation.sessionNs, op.observation.monotonicNs)
              else LatestFrom(ops, stream)
  {
    assert (ops + [op])[..|ops|] == ops;
  }

  lemma CountsNext(ops: seq<MapperOp>, op: MapperOp)
    ensures MaxStamp(ops + [op]) == if op.ObserveOp? && op.observation.rawNs > MaxStamp(ops) then op.observation.rawNs else MaxStamp(ops)
    ensures Records(ops + [op]) == Records(ops) + if op.ObserveOp? && op.observation.rawNs > MaxStamp(ops) then 1 else 0
    ensures LastOffset(ops + [op]) == if op.ObserveOp? then Some(OffsetOf(op.observation)) else LastOffset(ops)
  {
    assert (ops + [op])[..|ops|] == ops;
  }

  // ---- a route that takes every sample ----

  // The state of a route that has taken in every sample of its run.
  ghost predicate TakenIn(c: MapperConfig, epoch: u64, startNs: u64, st: MapperState, ops: seq<MapperOp>) {
    && st.status.epoch == epoch && st.epochMonotonicNs == startNs
    && st.pose == LatestFrom(ops, Pose) && st.twist == LatestFrom(ops, Twist)
    && st.lastCountedRawNs == MaxStamp(ops)
    && st.status.healthySamples == Min(Records(ops), U32_MAX)
    && st.status.state == (if Ready(c, ops) then Locked else Initializing)
  }

  // Samples are accepted and polls find nothing wrong.
  predicate Smooth(op: MapperOp, v: Verdict) {
    if op.ObserveOp? then v.Accepted? && v.observation == op.observation else v.Ignored?
  }

  lemma TakenInNext(c: MapperConfig, epoch: u64, startNs: u64, st: MapperState, ops: seq<MapperOp>, op: MapperOp, v: Verdict)
    requires MapperConfigValid(c) && TakenIn(c, epoch, startNs, st, ops) && Smooth(op, v)
    ensures TakenIn(c, epoch, startNs, Advance(c, st, v), ops + [op])
  {
    hide Candidate, LatestFrom, MaxStamp, Records, LastOffset;
    LatestNext(ops, op, Pose);
    LatestNext(ops, op, Twist);
    CountsNext(ops, op);
  }

  // A route that accepts every sample of its run is locked exactly when both
  // streams have come and `min_lock_samples` of them carried new raw stamps.
  lemma {:induction false} SmoothRouteLocks(c: MapperConfig, epoch: u64, startNs: u64, ops: seq<MapperOp>)
    requires MapperConfigValid(c)
    requires forall i :: 0 <= i < |ops| ==> Smooth(ops[i], Verdicts(c, Started(c, epoch, startNs), ops)[i])
    ensures TakenIn(c, epoch, startNs, Run(c, Started(c, epoch, startNs), ops), ops)
  {
    hide Decide, Advance, TakenIn, Smooth;
    var st0 := Started(c, epoch, startNs);
    if ops == [] {
      StartsEmpty(c, epoch, startNs);
    } else {
      var front, op := ops[..|ops| - 1], ops[|ops| - 1];
      var v := Decide(c, Run(c, st0, front), op);
      assert Verdicts(c, st0, ops) == Verdicts(c, st0, front) + [v];
      forall i | 0 <= i < |front| ensures Smooth(front[i], Verdicts(c, st0, front)[i]) {
        assert Verdicts(c, st0, front)[i] == Verdicts(c, st0, ops)[i] && front[i] == ops[i];
      }
      SmoothRouteLocks(c, epoch, startNs, front);
      assert Smooth(op, Verdicts(c, st0, ops)[|front|]);
      TakenInNext(c, epoch, startNs, Run(c, st0, front), front, op, v);
      assert front + [op] == ops;
    }
  }

  lemma StartsEmpty(c: MapperConfig, epoch: u64, startNs: u64)
    requires MapperConfigValid(c)
    ensures TakenIn(c, epoch, startNs, Started(c, epoch, startNs), [])
  {
  }

  // ---- one affine relation within the limits ----

  // The sample is the route's own and stamped, comes after its stream's latest
  // and in time, lies on the line, and its offset is within one step of the
  // latest one.
  predicate SampleInGate(c: MapperConfig, startNs: u64, line: Line, before: seq<MapperOp>, o: Observation) {
    var latest := LatestFrom(before, o.stream);
    && !Misrouted(c, o) && !o.fallbackSource
    && o.monotonicNs != 0 && o.monotonicNs >= startNs
    && (BothFrom(before) || o.monotonicNs - startNs <= c.policy.startupLockTimeoutNs)
    && o.rawNs != 0 && o.sessionNs != 0
    && (latest.seen ==> o.rawNs > latest.rawNs && o.monotonicNs > latest.monotonicNs)
    && SampleOnLine(c, line, o)
    && (c.mapping == AffineToSession && LastOffset(before).Some? ==>
          c.policy.maxOffsetStepNs.Some?
          && Magnitude(OffsetOf(o) - LastOffset(before).value) <= c.policy.maxOffsetStepNs.value)
  }

  // The poll comes after the latest sample of each stream and within its age,
  // or within the startup allowance of a stream that has none.
  predicate PollInGate(c: MapperConfig, startNs: u64, before: seq<MapperOp>, nowNs: u64) {
    && nowNs >= startNs
    && forall stream ::
         var latest := LatestFrom(before, stream);
         if latest.seen then 0 <= nowNs - latest.monotonicNs <= c.policy.maxSampleAgeNs
         else nowNs - startNs <= c.policy.startupLockTimeoutNs
  }

  predicate NextInGate(c: MapperConfig, startNs: u64, line: Line, before: seq<MapperOp>, op: MapperOp) {
    match op
    case ObserveOp(o) => SampleInGate(c, startNs, line, before, o)
    case PollOp(now) => PollInGate(c, startNs, before, now)
    case AuthorityFailureOp(_) => false
  }

  predicate InGate(c: MapperConfig, startNs: u64, line: Line, ops: seq<MapperOp>) {
    ops == []
    || (InGate(c, startNs, line, ops[..|ops| - 1]) && NextInGate(c, startNs, line, ops[..|ops| - 1], ops[|ops| - 1]))
  }

  // ---- every in-gate sample is accepted ----

  // What the estimator holds of samples on the line.
  ghost predicate OnRelation(c: MapperConfig, line: Line, st: MapperState, ops: seq<MapperOp>)
    requires MapperConfigValid(c)
  {
    && HoldsLine(c, line, st.samples)
    && (st.haveEstimate <==> LastOffset(ops).Some?)
    && (c.mapping == AffineToSession && st.haveEstimate ==>
          st.status.offsetNs == Clamp(LastOffset(ops).value, I64_MIN, I64_MAX))
  }

  lemma InGateStepAllowed(c: MapperConfig, startNs: u64, line: Line, st: MapperState, ops: seq<MapperOp>, o: Observation)
    requires MapperConfigValid(c) && OnRelation(c, line, st, ops) && SampleInGate(c, startNs, line, ops, o)
    ensures StepAllowed(c, st, o)
  {
    hide HoldsLine, LatestFrom, LastOffset, Misrouted, OnLine, RoundedUnsigned;
    if c.mapping == AffineToSession && st.haveEstimate {
      var next := Clamp(OffsetOf(o), I64_MIN, I64_MAX);
      StepWithin(next, st.status.offsetNs, OffsetOf(o), LastOffset(ops).value, c.policy.maxOffsetStepNs.value);
    }
  }

  // The next in-gate sample is accepted, and maps to its own Session stamp.
  lemma InGateIsAccepted(c: MapperConfig, epoch: u64, startNs: u64, line: Line, st: MapperState, ops: seq<MapperOp>, o: Observation)
    requires MapperConfigValid(c) && LineAllowed(c, line) && epoch != 0
    requires TakenIn(c, epoch, startNs, st, ops) && OnRelation(c, line, st, ops)
    requires SampleInGate(c, startNs, line, ops, o)
    ensures Judge(c, st, o) == Accepted(o, NextFit(c, st.samples, o))
    ensures EnvelopeOf(c, st, o).mappedSessionNs == MappedStamp(c, o)
  {
    hide Candidate, NextFit, HoldsLine, SampleOnLine, StepAllowed, Misrouted, LatestFrom, Records, MaxStamp, QualityReady,
         Judge, LastOffset, LineAllowed, EnvelopeOf, MappedStamp;
    InGateStepAllowed(c, startNs, line, st, ops, o);
    AcceptedOnLine(c, line, st, o);
  }

  lemma RelationNext(c: MapperConfig, line: Line, st: MapperState, ops: seq<MapperOp>, o: Observation)
    requires MapperConfigValid(c)
    requires OnRelation(c, line, st, ops) && SampleOnLine(c, line, o)
    ensures OnRelation(c, line, Advance(c, st, Accepted(o, NextFit(c, st.samples, o))), ops + [ObserveOp(o)])
  {
    hide Candidate, NextFit, HoldsLine, SampleOnLine, LastOffset, Advance;
    LineHeld(c, line, st, o);
    CountsNext(ops, ObserveOp(o));
  }

  lemma InGatePollIsIgnored(c: MapperConfig, epoch: u64, startNs: u64, st: MapperState, ops: seq<MapperOp>, nowNs: u64)
    requires MapperConfigValid(c) && TakenIn(c, epoch, startNs, st, ops) && PollInGate(c, startNs, ops, nowNs)
    ensures PollVerdict(c, st, nowNs) == Ignored
  {
    hide LatestFrom, Records, MaxStamp, BothFrom;
    assert st.pose == LatestFrom(ops, Pose) && st.twist == LatestFrom(ops, Twist);
  }

  // One more in-gate operation.
  lemma InGateStep(c: MapperConfig, epoch: u64, startNs: u64, line: Line, st: MapperState, ops: seq<MapperOp>, op: MapperOp)
    requires MapperConfigValid(c) && LineAllowed(c, line) && epoch != 0
    requires TakenIn(c, epoch, startNs, st, ops) && OnRelation(c, line, st, ops)
    requires NextInGate(c, startNs, line, ops, op)
    ensures Smooth(op, Decide(c, st, op))
    ensures TakenIn(c, epoch, startNs, Step(c, st, op), ops + [op]) && OnRelation(c, line, Step(c, st, op), ops + [op])
  {
    hide Judge, PollVerdict, NextFit, OnRelation, TakenIn, Advance, PollInGate;
    match op
    case ObserveOp(o) =>
      InGateIsAccepted(c, epoch, startNs, line, st, ops, o);
      TakenInNext(c, epoch, startNs, st, ops, op, Judge(c, st, o));
      RelationNext(c, line, st, ops, o);
    case PollOp(now) =>
      InGatePollIsIgnored(c, epoch, startNs, st, ops, now);
      TakenInNext(c, epoch, startNs, st, ops, op, Ignored);
      RelationKept(c, line, st, ops, op);
  }

  lemma RelationKept(c: MapperConfig, line: Line, st: MapperState, ops: seq<MapperOp>, op: MapperOp)
    requires MapperConfigValid(c) && OnRelation(c, line, st, ops) && !op.ObserveOp?
    ensures OnRelation(c, line, st, ops + [op])
    ensures Advance(c, st, Ignored) == st
  {
    hide HoldsLine, LastOffset;
    CountsNext(ops, op);
  }

  // A route fed samples in gate, which lie on one affine relation within the
  // frozen limits unless its stamps are Session time already, accepts
  // every one of them, keeps quiet at every timely poll, and is locked exactly
  // when both streams have come and `min_lock_samples` of the samples carried new
  // raw stamps.
  lemma {:induction false} InGateFeedLocks(c: MapperConfig, epoch: u64, startNs: u64, line: Line, ops: seq<MapperOp>)
    requires MapperConfigValid(c) && LineAllowed(c, line) && epoch != 0
    requires InGate(c, startNs, line, ops)
    ensures var st0 := Started(c, epoch, startNs);
            && (forall i :: 0 <= i < |ops| ==> Smooth(ops[i], Verdicts(c, st0, ops)[i]))
            && TakenIn(c, epoch, startNs, Run(c, st0, ops), ops)
            && OnRelation(c, line, Run(c, st0, ops), ops)
  {
    hide Decide, Step, TakenIn, Smooth, OnRelation, NextInGate, LineAllowed;
    var st0 := Started(c, epoch, startNs);
    if ops == [] {
      StartsEmpty(c, epoch, startNs);
      StartsOnRelation(c, epoch, startNs, line);
    } else {
      var front, op := ops[..|ops| - 1], ops[|ops| - 1];
      InGateFeedLocks(c, epoch, startNs, line, front);
      InGateStep(c, epoch, startNs, line, Run(c, st0, front), front, op);
      assert front + [op] == ops;
      assert forall i :: 0 <= i < |front| ==> front[i] == ops[i];
    }
  }

  lemma StartsOnRelation(c: MapperConfig, epoch: u64, startNs: u64, line: Line)
    requires MapperConfigValid(c)
    ensures OnRelation(c, line, Started(c, epoch, startNs), [])
  {
  }
}
