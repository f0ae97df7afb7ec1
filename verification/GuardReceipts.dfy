// Where a guard's route memory comes from: every stream's timeline and every
// fitted sample is a receipt the guard accepted on that route, whatever else
// happened in the run.
module GuardReceipts {
  import opened Numbers
  import opened Types
  import opened Policy
  import opened Estimator
  import opened MapperSpec
  import opened MapperRuns
  import opened GuardSpec
  import opened GuardInvariant
  import opened GuardCalls
  import opened GuardFeeds

  // ---- one mapper step ----

  // The route remembers the same receipts and the same window.
  predicate Kept(a: MapperState, b: MapperState) {
    b.pose == a.pose && b.twist == a.twist && b.samples == a.samples
  }

  function OtherStream(stream: StreamKind): StreamKind {
    if stream == Pose then Twist else Pose
  }

  // The route took in one accepted receipt: above the stream's last one, within
  // the startup allowance while a stream is missing, and the only thing that
  // is new in its timelines and its window.
  predicate Took(c: Startup, a: MapperState, b: MapperState, o: Observation, sessionNs: u64) {
    && b.TimelineOf(o.stream) == Timeline(true, o.rawNs, sessionNs, o.monotonicNs)
    && b.TimelineOf(OtherStream(o.stream)) == a.TimelineOf(OtherStream(o.stream))
    && (a.TimelineOf(o.stream).seen ==>
          o.rawNs > a.TimelineOf(o.stream).rawNs && o.monotonicNs > a.TimelineOf(o.stream).monotonicNs)
    && (!a.BothSeen() ==> 0 <= o.monotonicNs - c.monotonicNs <= c.config.thresholds.startupLockTimeoutNs)
    && (forall x :: x in b.samples ==> x in a.samples || x == Sample(o.rawNs, sessionNs))
  }

  // The mapped stamp lies within the frozen jitter bound of the Session time at
  // which its raw stamp was fitted.
  predicate MappedAccurately(c: Startup, b: MapperState, rawNs: u64, mappedNs: u64) {
    c.config.mapping == AffineToSession && |b.samples| >= c.config.thresholds.minLockSamples ==>
      && c.config.thresholds.maxJitterNs.Some?
      && exists x :: x in b.samples && x.rawNs == rawNs
                     && Magnitude(mappedNs - x.sessionNs) <= c.config.thresholds.maxJitterNs.value
  }

  lemma OthersKeep(m: MapperConfig, st: MapperState, op: MapperOp)
    requires MapperConfigValid(m) && !op.ObserveOp?
    ensures Kept(st, Step(m, st, op))
  {
  }

  lemma RefusalKeeps(m: MapperConfig, st: MapperState, o: Observation)
    requires MapperConfigValid(m)
    ensures EnvelopeOf(m, st, o).accepted <==> Judge(m, st, o).Accepted?
    ensures !EnvelopeOf(m, st, o).accepted ==> Kept(st, Step(m, st, ObserveOp(o)))
  {
    hide Judge, ThresholdPolicyValid;
  }

  lemma AcceptanceTakes(c: Startup, m: MapperConfig, st: MapperState, o: Observation)
    requires MapperConfigValid(m) && m.policy == c.config.thresholds && m.mapping == c.config.mapping
    requires st.epochMonotonicNs == c.monotonicNs && Judge(m, st, o).Accepted?
    ensures Took(c, st, Step(m, st, ObserveOp(o)), o, o.sessionNs)
  {
    AcceptanceAdvances(m, st, ObserveOp(o));
    AcceptedFit(m, st, o);
    assert forall x :: x in Candidate(m, st.samples, o) ==> x in st.samples || x == Sample(o.rawNs, o.sessionNs);
    hide Judge, Candidate, ThresholdPolicyValid, NextFit;
  }

  lemma AcceptedFit(m: MapperConfig, st: MapperState, o: Observation)
    requires MapperConfigValid(m) && Judge(m, st, o).Accepted?
    ensures Judge(m, st, o) == Accepted(o, NextFit(m, st.samples, o))
  {
    hide NextFit, PredictionImplausible, QualityViolated, Candidate, ThresholdPolicyValid;
  }

  lemma AcceptanceIsAccurate(c: Startup, m: MapperConfig, st: MapperState, o: Observation)
    requires MapperConfigValid(m) && m.policy == c.config.thresholds && m.mapping == c.config.mapping
    requires m.mapping == AffineToSession ==> |st.samples| <= m.policy.estimatorWindow.value
    requires Judge(m, st, o).Accepted?
    ensures MappedAccurately(c, Step(m, st, ObserveOp(o)), o.rawNs, EnvelopeOf(m, st, o).mappedSessionNs)
  {
    var st' := Step(m, st, ObserveOp(o));
    AcceptedFit(m, st, o);
    assert m.mapping == AffineToSession ==> st'.samples == Candidate(m, st.samples, o);
    hide Judge, Candidate, ThresholdPolicyValid, NextFit, Step;
    if m.mapping == AffineToSession && |st'.samples| >= m.policy.minLockSamples {
      MappingIsAccurate(m, st, o);
    }
  }

  // ---- one route of the guard ----

  lemma SoundWindow(c: Startup, slot: string, st: MapperState)
    requires c.Valid() && slot in Table(c) && RouteSound(c, slot, st)
    ensures c.config.mapping == AffineToSession ==>
              c.config.thresholds.estimatorWindow.Some? && |st.samples| <= c.config.thresholds.estimatorWindow.value
  {
    ModeFacts(c);
    hide CountersTrack, LatestOf, Table, Started, MapperSpec.Run, OnTimeline, PushedSamples, ThresholdPolicyValid, Verdicts;
    var ops :| ReachedBy(c, slot, st, ops);
    RouteConfigIsValid(c, Table(c)[slot]);
    RunTracks(RouteConfig(c, Table(c)[slot]), c.epoch, c.monotonicNs, ops);
  }

  lemma SlotKeeps(c: Startup, slot: string, st: MapperState, op: MapperOp)
    requires c.Valid() && slot in Table(c) && !op.ObserveOp?
    ensures Kept(st, StepSlot(c, slot, st, op))
  {
    RouteConfigIsValid(c, Table(c)[slot]);
    hide Step, Table, Kept, ThresholdPolicyValid, RoutesValid, ModeClockPolicyValid, SourceTimingValid;
    OthersKeep(RouteConfig(c, Table(c)[slot]), st, op);
  }

  // ---- one call of the guard ----

  predicate AllKept(a: map<string, MapperState>, b: map<string, MapperState>) {
    b.Keys == a.Keys && forall k :: k in a ==> Kept(a[k], b[k])
  }

  // The Session time the guard gave a receipt, as far as the receipt decides it.
  predicate StampedBy(c: Startup, o: Observation, sessionNs: u64) {
    c.StationRequired() ==> sessionNs == StationTime(c, o.monotonicNs)
  }

  // An observation moves its own route's memory, on acceptance only, and no
  // other route's.
  ghost predicate Moved(c: Startup, a: map<string, MapperState>, b: map<string, MapperState>, o: Observation, e: TimestampEnvelope) {
    if e.accepted then
      && o.slot in a && b.Keys == a.Keys
      && (forall k :: k in a && k != o.slot ==> Kept(a[k], b[k]))
      && OwnMoved(c, a[o.slot], b[o.slot], o, e)
    else AllKept(a, b)
  }

  // A route that is fed no observation keeps its memory.
  lemma FedKeeps(c: Startup, slot: string, st: MapperState, feed: Option<MapperOp>)
    requires c.Valid() && slot in Table(c) && (feed.Some? ==> !feed.value.ObserveOp?)
    ensures Kept(st, Fed(c, slot, st, feed))
  {
    hide Startup.Valid, Table, StepSlot;
    if feed.Some? { SlotKeeps(c, slot, st, feed.value); }
  }

  // A route that is fed an observation takes it in exactly when its mapper
  // accepts it.
  lemma FedObserves(c: Startup, slot: string, st: MapperState, o: Observation)
    requires c.Valid() && slot in Table(c) && RouteSound(c, slot, st)
    ensures RouteConfigValidAt(c, slot)
    ensures var m := RouteConfig(c, Table(c)[slot]); var t := StepSlot(c, slot, st, ObserveOp(o));
            if Judge(m, st, o).Accepted?
            then Took(c, st, t, o, o.sessionNs) && MappedAccurately(c, t, o.rawNs, EnvelopeOf(m, st, o).mappedSessionNs)
            else Kept(st, t)
  {
    hide RouteSound, Step, EnvelopeOf, Table, Took, Kept, MappedAccurately, Judge, Startup.Valid, AffineFieldsPresent,
         ThresholdPolicyValid;
    RouteConfigIsValid(c, Table(c)[slot]);
    SoundRouteFacts(c, slot, st);
    SoundWindow(c, slot, st);
    var m := RouteConfig(c, Table(c)[slot]);
    RefusalKeeps(m, st, o);
    if Judge(m, st, o).Accepted? {
      AcceptanceTakes(c, m, st, o);
      AcceptanceIsAccurate(c, m, st, o);
    }
  }

  // What an observation does to its own route, read off its feed.
  lemma OwnRouteMoves(c: Startup, s: Guard, o: Observation)
    requires c.Valid() && RoutesSound(c, s.routes) && Known(c, s, o.slot)
    ensures var (t, e) := ObserveRoute(c, s, o);
            o.slot in t.routes && OwnMoved(c, s.routes[o.slot], t.routes[o.slot], o, e)
  {
    hide Startup.Valid, Table, RouteSound, ObserveRoute, RouteFeed, Took, Kept, MappedAccurately, StepSlot, EnvelopeOf,
         RouteConfig, StationTime, Judge, MapperConfigValid;
    var slot := o.slot;
    var st, feed := s.routes[slot], RouteFeed(c, s, o, slot);
    RouteFeeds(c, s, o, slot);
    RouteSays(c, s, o, slot);
    if feed.Some? && feed.value.ObserveOp? {
      var o' := feed.value.observation;
      FedObserves(c, slot, st, o');
      TookAs(c, st, StepSlot(c, slot, st, ObserveOp(o')), o, o', o'.sessionNs);
    } else {
      FedKeeps(c, slot, st, feed);
    }
  }

  // The move of an observation's own route.
  ghost predicate OwnMoved(c: Startup, a: MapperState, b: MapperState, o: Observation, e: TimestampEnvelope) {
    if e.accepted then
      && (exists sessionNs: u64 :: StampedBy(c, o, sessionNs) && Took(c, a, b, o, sessionNs))
      && MappedAccurately(c, b, o.rawNs, e.mappedSessionNs)
    else Kept(a, b)
  }

  // Only the fields an observation arrives with matter for what is taken in.
  lemma TookAs(c: Startup, a: MapperState, b: MapperState, o: Observation, o': Observation, sessionNs: u64)
    requires o'.stream == o.stream && o'.rawNs == o.rawNs && o'.monotonicNs == o.monotonicNs
    ensures Took(c, a, b, o', sessionNs) ==> Took(c, a, b, o, sessionNs)
  {
  }

  lemma OtherRouteKeeps(c: Startup, s: Guard, o: Observation, slot: string)
    requires c.Valid() && RoutesSound(c, s.routes) && Known(c, s, o.slot) && slot in s.routes && slot != o.slot
    ensures slot in ObserveRoute(c, s, o).0.routes && Kept(s.routes[slot], ObserveRoute(c, s, o).0.routes[slot])
  {
    hide Startup.Valid, Table, RouteSound, ObserveRoute, RouteFeed, Kept, StepSlot, Answered;
    RouteFeeds(c, s, o, slot);
    RouteSays(c, s, o, slot);
    FedKeeps(c, slot, s.routes[slot], RouteFeed(c, s, o, slot));
  }

  // An observation moves its own route's memory, on acceptance only, and no
  // other route's.
  lemma ObserveMoves(c: Startup, s: Guard, o: Observation)
    requires c.Valid() && RoutesSound(c, s.routes)
    ensures var (t, e) := ObserveRoute(c, s, o); Moved(c, s.routes, t.routes, o, e)
  {
    hide Startup.Valid, Table, RouteSound, ObserveRoute, Took, Kept, MappedAccurately, StationTime;
    var (t, e) := ObserveRoute(c, s, o);
    if Known(c, s, o.slot) {
      OwnRouteMoves(c, s, o);
      forall k | k in s.routes && k != o.slot ensures k in t.routes && Kept(s.routes[k], t.routes[k]) {
        OtherRouteKeeps(c, s, o, k);
      }
      SlotsKept(c, s, o);
    } else {
      UnknownMoves(c, s, o);
    }
  }

  lemma MapKeepsSlots(c: Startup, s: Guard, o: Observation, before: GuardState)
    requires c.Valid() && Known(c, s, o.slot)
    ensures MapObservation(c, s, o, before).0.routes.Keys == s.routes.Keys
    ensures SkewFailure(c, s, o, before).0.routes.Keys == s.routes.Keys
  {
    hide Startup.Valid, Table, EnvelopeOf, MakeEnvelope, SensitiveOutputAllowed, StepSlot, RouteConfig, EmitTransition;
    LogKeepsRoutes(c, StepRoute(c, s, o.slot, ObserveOp(o)), before, o.monotonicNs);
    LogKeepsRoutes(c, StepRoute(c, s, o.slot, AuthorityFailureOp(false)), before, o.monotonicNs);
  }

  lemma SkewKeepsSlots(c: Startup, s: Guard, o: Observation, before: GuardState)
    requires c.Valid() && Known(c, s, o.slot) && c.GazeboRequired()
    ensures GateSkew(c, s, o, before).0.routes.Keys == s.routes.Keys
  {
    hide Startup.Valid, Table, MapObservation, SkewFailure, SignedDifference, Magnitude;
    ModeFacts(c);
    var skew := SignedDifference(o.rawNs, s.lastGazeboStampNs);
    var skewed := Enriched(c, s, o).(gazeboSkewNs := skew);
    MapKeepsSlots(c, s, Enriched(c, s, o), before);
    MapKeepsSlots(c, WithSkew(s, skew), skewed, before);
  }

  lemma GateKeepsSlots(c: Startup, s: Guard, o: Observation, before: GuardState)
    requires c.Valid() && s.routes.Keys == Table(c).Keys && Known(c, s, o.slot)
    ensures GateGazebo(c, s, o, before).0.routes.Keys == s.routes.Keys
  {
    hide Startup.Valid, Table, EnvelopeOf, AuthorityEnvelope, SensitiveOutputAllowed, StepSlot, RouteConfig, EmitTransition,
         GazeboAge, DeadlineExceeded, Failing, GateSkew, MapObservation;
    var s1 := GazeboAge(c, s, o.monotonicNs).0;
    if c.GazeboRequired() {
      SkewKeepsSlots(c, s1, o, before);
    } else {
      MapKeepsSlots(c, s, o, before);
    }
  }

  lemma SlotsKept(c: Startup, s: Guard, o: Observation)
    requires c.Valid() && s.routes.Keys == Table(c).Keys && Known(c, s, o.slot)
    ensures ObserveRoute(c, s, o).0.routes.Keys == s.routes.Keys
  {
    hide Startup.Valid, Table, Failing, ValidateStation, Aggregate, AuthorityEnvelope, GateGazebo;
    ModeFacts(c);
    if !c.StationRequired() {
      GateKeepsSlots(c, s, Cleared(o), Aggregate(s));
    } else {
      var s1 := ValidateStation(c, s, o.monotonicNs, o.systemWallNs).0;
      GateKeepsSlots(c, s1, Cleared(o).(sessionNs := SessionNow(c, s1, o.monotonicNs)), Aggregate(s));
    }
  }

  lemma UnknownMoves(c: Startup, s: Guard, o: Observation)
    requires c.Valid() && !Known(c, s, o.slot)
    ensures Moved(c, s.routes, ObserveRoute(c, s, o).0.routes, o, ObserveRoute(c, s, o).1)
  {
    hide Startup.Valid, Table, Took, MappedAccurately, GateGazebo, ValidateStation;
  }

  // ---- runs ----

  // The operation is an observation the guard accepts in state s on this route
  // and stream.
  ghost predicate AcceptsNow(c: Startup, s: Guard, op: GuardOp, slot: string)
    requires c.Valid()
  {
    op.RouteOp? && op.observation.slot == slot && ObserveRoute(c, s, op.observation).1.accepted
  }

  // Operation i of the run is an accepted receipt of this route.
  ghost predicate Receipt(c: Startup, ops: seq<GuardOp>, i: nat, slot: string)
    requires c.Valid() && i < |ops|
  {
    AcceptsNow(c, After(c, ops[..i]), ops[i], slot)
  }

  // One operation moves the memory of one route.
  ghost predicate RouteMoved(c: Startup, s: Guard, op: GuardOp, slot: string, a: MapperState, b: MapperState)
    requires c.Valid()
  {
    if AcceptsNow(c, s, op, slot)
    then exists sessionNs: u64 :: StampedBy(c, op.observation, sessionNs) && Took(c, a, b, op.observation, sessionNs)
    else Kept(a, b)
  }

  // An observation is accepted exactly when the route is fed it and its mapper
  // accepts it.
  lemma AcceptsWhenFed(c: Startup, s: Guard, op: GuardOp, slot: string)
    requires c.Valid() && Known(c, s, slot)
    ensures var feed := Feed(c, s, op, slot);
            RouteConfigValidAt(c, slot) &&
            (AcceptsNow(c, s, op, slot) <==>
               feed.Some? && feed.value.ObserveOp?
               && Judge(RouteConfig(c, Table(c)[slot]), s.routes[slot], feed.value.observation).Accepted?)
  {
    hide Startup.Valid, Table, ObserveRoute, ClockFeed, RouteFeed, PollFeed, Judge, RouteConfig, MapperConfigValid, EnvelopeOf;
    RouteConfigIsValid(c, Table(c)[slot]);
    FeedSays(c, s, op, slot);
    if op.RouteOp? && op.observation.slot == slot {
      RouteFeeds(c, s, op.observation, slot);
    }
  }

  // Any operation changes a route's timelines and window only by an accepted
  // receipt of that route.
  lemma ApplyMoves(c: Startup, s: Guard, op: GuardOp, slot: string)
    requires c.Valid() && RoutesSound(c, s.routes) && slot in s.routes
    ensures var t := Apply(c, s, op);
            slot in t.routes && RouteMoved(c, s, op, slot, s.routes[slot], t.routes[slot])
  {
    hide Startup.Valid, Table, RouteSound, Apply, Feed, Took, Kept, MappedAccurately, StationTime, StepSlot, Judge, RouteConfig,
         EnvelopeOf, AcceptsNow, MapperConfigValid;
    var st, feed := s.routes[slot], Feed(c, s, op, slot);
    ApplyFeeds(c, s, op, slot);
    FeedSays(c, s, op, slot);
    AcceptsWhenFed(c, s, op, slot);
    if feed.Some? && feed.value.ObserveOp? {
      var o' := feed.value.observation;
      FedObserves(c, slot, st, o');
      TookAs(c, st, StepSlot(c, slot, st, ObserveOp(o')), op.observation, o', o'.sessionNs);
    } else {
      FedKeeps(c, slot, st, feed);
    }
  }
}
