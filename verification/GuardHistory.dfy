// The receipts a run accepts: what the guard remembers of them, how they are
// ordered, when the first ones arrive, how accurately they are mapped, and how
// fresh they are after a poll.
module GuardHistory {
  import opened Numbers
  import opened Types
  import opened Policy
  import opened Estimator
  import opened MapperSpec
  import opened GuardSpec
  import opened GuardInvariant
  import opened GuardOperations
  import opened GuardRuns
  import opened GuardReceipts
  import opened GuardClocks

  ghost predicate ReceiptOn(c: Startup, ops: seq<GuardOp>, i: nat, slot: string, stream: StreamKind)
    requires c.Valid() && i < |ops|
  {
    Receipt(c, ops, i, slot) && ops[i].observation.stream == stream
  }

  // Operation i is the receipt a timeline or a sample remembers.
  ghost predicate RememberedAt(c: Startup, ops: seq<GuardOp>, i: nat, slot: string, stream: StreamKind, t: Timeline)
    requires c.Valid() && i < |ops|
  {
    && ReceiptOn(c, ops, i, slot, stream)
    && ops[i].observation.rawNs == t.rawNs && ops[i].observation.monotonicNs == t.monotonicNs
    && StampedBy(c, ops[i].observation, t.sessionNs)
  }

  ghost predicate SampledAt(c: Startup, ops: seq<GuardOp>, i: nat, slot: string, x: Sample)
    requires c.Valid() && i < |ops|
  {
    Receipt(c, ops, i, slot) && ops[i].observation.rawNs == x.rawNs && StampedBy(c, ops[i].observation, x.sessionNs)
  }

  // A timeline is seen exactly when its stream has an accepted receipt, and it
  // remembers one that none exceeds.
  ghost predicate TimelineRemembers(c: Startup, ops: seq<GuardOp>, slot: string, stream: StreamKind, t: Timeline)
    requires c.Valid()
  {
    && (t.seen ==> exists i :: 0 <= i < |ops| && RememberedAt(c, ops, i, slot, stream, t))
    && (forall i :: 0 <= i < |ops| ==> NotAbove(c, ops, i, slot, stream, t))
  }

  // Operation i is no receipt on this stream, or one the timeline covers.
  ghost predicate NotAbove(c: Startup, ops: seq<GuardOp>, i: nat, slot: string, stream: StreamKind, t: Timeline)
    requires c.Valid() && i < |ops|
  {
    ReceiptOn(c, ops, i, slot, stream) ==>
      t.seen && ops[i].observation.rawNs <= t.rawNs && ops[i].observation.monotonicNs <= t.monotonicNs
  }

  ghost predicate WindowRemembers(c: Startup, ops: seq<GuardOp>, slot: string, samples: seq<Sample>)
    requires c.Valid()
  {
    forall x :: x in samples ==> exists i :: 0 <= i < |ops| && SampledAt(c, ops, i, slot, x)
  }

  lemma ReceiptInLonger(c: Startup, ops: seq<GuardOp>, op: GuardOp, i: nat, slot: string)
    requires c.Valid() && i < |ops|
    ensures Receipt(c, ops + [op], i, slot) <==> Receipt(c, ops, i, slot)
  {
    hide Startup.Valid, AcceptsNow, After;
    assert (ops + [op])[..i] == ops[..i];
  }

  lemma LastReceipt(c: Startup, ops: seq<GuardOp>, op: GuardOp, slot: string)
    requires c.Valid()
    ensures Receipt(c, ops + [op], |ops|, slot) <==> AcceptsNow(c, After(c, ops), op, slot)
  {
    hide Startup.Valid, AcceptsNow, After;
    assert (ops + [op])[..|ops|] == ops;
  }

  lemma RememberedInLonger(c: Startup, ops: seq<GuardOp>, op: GuardOp, i: nat, slot: string, stream: StreamKind, t: Timeline)
    requires c.Valid() && i < |ops|
    ensures RememberedAt(c, ops, i, slot, stream, t) ==> RememberedAt(c, ops + [op], i, slot, stream, t)
    ensures NotAbove(c, ops, i, slot, stream, t) ==> NotAbove(c, ops + [op], i, slot, stream, t)
  {
    hide Startup.Valid, ObserveRoute, After, StampedBy;
    ReceiptInLonger(c, ops, op, i, slot);
    assert (ops + [op])[i] == ops[i];
  }

  lemma NotTaken(c: Startup, ops: seq<GuardOp>, op: GuardOp, slot: string, stream: StreamKind, t: Timeline)
    requires c.Valid() && (!AcceptsNow(c, After(c, ops), op, slot) || op.observation.stream != stream)
    ensures NotAbove(c, ops + [op], |ops|, slot, stream, t)
  {
    hide Startup.Valid, AcceptsNow, After;
    LastReceipt(c, ops, op, slot);
    hide Receipt;
    assert (ops + [op])[|ops|] == op;
  }

  lemma Taken(c: Startup, ops: seq<GuardOp>, op: GuardOp, slot: string, sessionNs: u64)
    requires c.Valid() && AcceptsNow(c, After(c, ops), op, slot) && op.RouteOp?
    requires StampedBy(c, op.observation, sessionNs)
    ensures var t := Timeline(true, op.observation.rawNs, sessionNs, op.observation.monotonicNs);
            && RememberedAt(c, ops + [op], |ops|, slot, op.observation.stream, t)
            && NotAbove(c, ops + [op], |ops|, slot, op.observation.stream, t)
  {
    hide Startup.Valid, AcceptsNow, After, StampedBy;
    LastReceipt(c, ops, op, slot);
    hide Receipt;
    assert (ops + [op])[|ops|] == op;
  }

  lemma TimelineKept(c: Startup, ops: seq<GuardOp>, op: GuardOp, slot: string, stream: StreamKind, t: Timeline)
    requires c.Valid() && TimelineRemembers(c, ops, slot, stream, t)
    requires !AcceptsNow(c, After(c, ops), op, slot) || op.observation.stream != stream
    ensures TimelineRemembers(c, ops + [op], slot, stream, t)
  {
    hide Startup.Valid, AcceptsNow, After, RememberedAt, NotAbove;
    NotTaken(c, ops, op, slot, stream, t);
    forall i | 0 <= i < |ops|
      ensures NotAbove(c, ops + [op], i, slot, stream, t)
      ensures RememberedAt(c, ops, i, slot, stream, t) ==> RememberedAt(c, ops + [op], i, slot, stream, t)
    {
      RememberedInLonger(c, ops, op, i, slot, stream, t);
    }
  }

  lemma CoveredByLater(c: Startup, ops: seq<GuardOp>, i: nat, slot: string, stream: StreamKind, t: Timeline, t': Timeline)
    requires c.Valid() && i < |ops| && NotAbove(c, ops, i, slot, stream, t)
    requires t'.seen && (t.seen ==> t'.rawNs > t.rawNs && t'.monotonicNs > t.monotonicNs)
    ensures NotAbove(c, ops, i, slot, stream, t')
  {
    hide Startup.Valid, After, ObserveRoute;
  }

  lemma CoveredInLonger(c: Startup, ops: seq<GuardOp>, op: GuardOp, slot: string, stream: StreamKind, t: Timeline, t': Timeline)
    requires c.Valid() && TimelineRemembers(c, ops, slot, stream, t)
    requires t'.seen && (t.seen ==> t'.rawNs > t.rawNs && t'.monotonicNs > t.monotonicNs)
    ensures forall i :: 0 <= i < |ops| ==> NotAbove(c, ops + [op], i, slot, stream, t')
  {
    hide Startup.Valid, After, RememberedAt, NotAbove;
    forall i | 0 <= i < |ops| ensures NotAbove(c, ops + [op], i, slot, stream, t') {
      CoveredByLater(c, ops, i, slot, stream, t, t');
      RememberedInLonger(c, ops, op, i, slot, stream, t');
    }
  }

  lemma TimelineTaken(c: Startup, ops: seq<GuardOp>, op: GuardOp, slot: string, t: Timeline, sessionNs: u64)
    requires c.Valid() && AcceptsNow(c, After(c, ops), op, slot) && op.RouteOp?
    requires TimelineRemembers(c, ops, slot, op.observation.stream, t)
    requires t.seen ==> op.observation.rawNs > t.rawNs && op.observation.monotonicNs > t.monotonicNs
    requires StampedBy(c, op.observation, sessionNs)
    ensures TimelineRemembers(c, ops + [op], slot, op.observation.stream,
                              Timeline(true, op.observation.rawNs, sessionNs, op.observation.monotonicNs))
  {
    hide Startup.Valid, AcceptsNow, After, RememberedAt, NotAbove, StampedBy, TimelineRemembers;
    var stream := op.observation.stream;
    var t' := Timeline(true, op.observation.rawNs, sessionNs, op.observation.monotonicNs);
    Taken(c, ops, op, slot, sessionNs);
    CoveredInLonger(c, ops, op, slot, stream, t, t');
    RemembersLast(c, ops, op, slot, stream, t');
  }

  lemma RemembersLast(c: Startup, ops: seq<GuardOp>, op: GuardOp, slot: string, stream: StreamKind, t: Timeline)
    requires c.Valid() && RememberedAt(c, ops + [op], |ops|, slot, stream, t)
    requires forall i :: 0 <= i <= |ops| ==> NotAbove(c, ops + [op], i, slot, stream, t)
    ensures TimelineRemembers(c, ops + [op], slot, stream, t)
  {
    hide Startup.Valid, RememberedAt, NotAbove;
  }

  lemma WindowExtends(c: Startup, ops: seq<GuardOp>, op: GuardOp, slot: string, samples: seq<Sample>, samples': seq<Sample>)
    requires c.Valid() && WindowRemembers(c, ops, slot, samples)
    requires forall x :: x in samples' ==> x in samples || SampledAt(c, ops + [op], |ops|, slot, x)
    ensures WindowRemembers(c, ops + [op], slot, samples')
  {
    hide Startup.Valid, AcceptsNow, After, Receipt, StampedBy;
    forall x | x in samples' ensures exists i :: 0 <= i < |ops + [op]| && SampledAt(c, ops + [op], i, slot, x) {
      if x in samples {
        var i :| 0 <= i < |ops| && SampledAt(c, ops, i, slot, x);
        ReceiptInLonger(c, ops, op, i, slot);
        assert SampledAt(c, ops + [op], i, slot, x);
      }
    }
  }

  ghost predicate RouteRemembers(c: Startup, ops: seq<GuardOp>, slot: string, st: MapperState)
    requires c.Valid()
  {
    && TimelineRemembers(c, ops, slot, Pose, st.pose)
    && TimelineRemembers(c, ops, slot, Twist, st.twist)
    && WindowRemembers(c, ops, slot, st.samples)
  }

  lemma RouteRemembersMore(c: Startup, ops: seq<GuardOp>, op: GuardOp, slot: string, a: MapperState, b: MapperState)
    requires c.Valid() && RouteRemembers(c, ops, slot, a)
    requires RouteMoved(c, After(c, ops), op, slot, a, b)
    ensures RouteRemembers(c, ops + [op], slot, b)
  {
    hide Startup.Valid, AcceptsNow, After, Receipt, TimelineRemembers, WindowRemembers;
    if AcceptsNow(c, After(c, ops), op, slot) {
      IsRouteOp(c, After(c, ops), op, slot);
      var sessionNs: u64 :| StampedBy(c, op.observation, sessionNs) && Took(c, a, b, op.observation, sessionNs);
      TimelineTaken(c, ops, op, slot, a.TimelineOf(op.observation.stream), sessionNs);
      var other := OtherStream(op.observation.stream);
      TimelineKept(c, ops, op, slot, other, a.TimelineOf(other));
      LastReceipt(c, ops, op, slot);
      assert SampledAt(c, ops + [op], |ops|, slot, Sample(op.observation.rawNs, sessionNs));
    } else {
      TimelineKept(c, ops, op, slot, Pose, a.pose);
      TimelineKept(c, ops, op, slot, Twist, a.twist);
    }
    WindowExtends(c, ops, op, slot, a.samples, b.samples);
  }

  lemma IsRouteOp(c: Startup, s: Guard, op: GuardOp, slot: string)
    requires c.Valid() && AcceptsNow(c, s, op, slot)
    ensures op.RouteOp? && op.observation.slot == slot
  {
    hide ObserveRoute;
  }

  lemma SlotsPersist(c: Startup, ops: seq<GuardOp>)
    requires c.Valid()
    ensures After(c, ops).routes.Keys == Table(c).Keys && RoutesSound(c, After(c, ops).routes)
  {
    RunInv(c, ops);
    hide Startup.Valid, After, Table, Settled, RouteSound;
  }

  // After every run, each stream's timeline is its latest accepted receipt, and
  // every sample in the window is an accepted receipt of the same raw stamp,
  // stamped with the station time of its arrival.
  lemma {:induction false} MemoryIsReceipts(c: Startup, ops: seq<GuardOp>, slot: string)
    requires c.Valid() && slot in Table(c)
    ensures slot in After(c, ops).routes && RouteRemembers(c, ops, slot, After(c, ops).routes[slot])
  {
    hide Startup.Valid, Table, RoutesSound, Receipt, RouteRemembers, RouteMoved, Apply, After;
    SlotsPersist(c, ops);
    if ops == [] {
      NothingRemembered(c, slot);
    } else {
      var front, op := ops[..|ops| - 1], ops[|ops| - 1];
      assert ops == front + [op];
      SlotsPersist(c, front);
      RunExtends(c, front, op);
      MemoryIsReceipts(c, front, slot);
      ApplyMoves(c, After(c, front), op, slot);
      RouteRemembersMore(c, front, op, slot, After(c, front).routes[slot], After(c, ops).routes[slot]);
    }
  }

  lemma NothingRemembered(c: Startup, slot: string)
    requires c.Valid() && slot in Table(c)
    ensures slot in After(c, []).routes && RouteRemembers(c, [], slot, After(c, []).routes[slot])
  {
    InitialKeepsRoutes(c);
    hide Startup.Valid, Table, RouteConfig, Initial, Receipt, InitialStatus;
  }

  lemma InitialKeepsRoutes(c: Startup)
    ensures Initial(c).routes == InitialAuthority(c).routes
  {
    hide InitialAuthority, Aggregate, EventAt, InitialStatus;
  }

  // ---- order and timeliness ----

  lemma ReceiptMoves(c: Startup, ops: seq<GuardOp>, i: nat, slot: string)
    requires c.Valid() && slot in Table(c) && i < |ops| && Receipt(c, ops, i, slot)
    ensures ops[i].RouteOp?
    ensures slot in After(c, ops[..i]).routes
    ensures var a := After(c, ops[..i]).routes[slot]; var o := ops[i].observation;
            && (a.TimelineOf(o.stream).seen ==>
                  o.rawNs > a.TimelineOf(o.stream).rawNs && o.monotonicNs > a.TimelineOf(o.stream).monotonicNs)
            && (!a.BothSeen() ==> 0 <= o.monotonicNs - c.monotonicNs <= c.config.thresholds.startupLockTimeoutNs)
  {
    var front, op := ops[..i], ops[i];
    SlotsPersist(c, front);
    hide Startup.Valid, Table, RoutesSound, After, Apply, AcceptsNow;
    IsRouteOp(c, After(c, front), op, slot);
    ApplyMoves(c, After(c, front), op, slot);
  }

  lemma TimelineDominates(c: Startup, ops: seq<GuardOp>, slot: string, stream: StreamKind, i: nat)
    requires c.Valid() && slot in After(c, ops).routes && RouteRemembers(c, ops, slot, After(c, ops).routes[slot])
    requires i < |ops| && ReceiptOn(c, ops, i, slot, stream)
    ensures var t := After(c, ops).routes[slot].TimelineOf(stream);
            t.seen && ops[i].RouteOp? && ops[i].observation.rawNs <= t.rawNs && ops[i].observation.monotonicNs <= t.monotonicNs
  {
    hide Startup.Valid, After, ObserveRoute, RememberedAt, WindowRemembers;
    var t := After(c, ops).routes[slot].TimelineOf(stream);
    assert TimelineRemembers(c, ops, slot, stream, t);
    assert NotAbove(c, ops, i, slot, stream, t);
  }

  // On every stream of every route, accepted raw stamps and steady receipts
  // strictly increase over the whole run, whatever lies between them.
  lemma ReceiptsIncrease(c: Startup, ops: seq<GuardOp>, i: nat, j: nat, slot: string, stream: StreamKind)
    requires c.Valid() && slot in Table(c) && i < j < |ops|
    requires ReceiptOn(c, ops, i, slot, stream) && ReceiptOn(c, ops, j, slot, stream)
    ensures ops[i].observation.rawNs < ops[j].observation.rawNs
    ensures ops[i].observation.monotonicNs < ops[j].observation.monotonicNs
  {
    hide Startup.Valid, Table, After, ReceiptOn, RouteRemembers, Receipt;
    PrefixReceipt(c, ops, j, i, slot, stream);
    ReceiptOnIs(c, ops, j, slot, stream);
    MemoryIsReceipts(c, ops[..j], slot);
    TimelineDominates(c, ops[..j], slot, stream, i);
    ReceiptMoves(c, ops, j, slot);
  }

  lemma ReceiptOnIs(c: Startup, ops: seq<GuardOp>, j: nat, slot: string, stream: StreamKind)
    requires c.Valid() && j < |ops| && ReceiptOn(c, ops, j, slot, stream)
    ensures Receipt(c, ops, j, slot) && ops[j].RouteOp? && ops[j].observation.stream == stream
  {
    hide Startup.Valid, After, ObserveRoute;
  }

  lemma EarlierReceipt(c: Startup, ops: seq<GuardOp>, slot: string, stream: StreamKind) returns (i: nat)
    requires c.Valid() && slot in After(c, ops).routes && RouteRemembers(c, ops, slot, After(c, ops).routes[slot])
    requires After(c, ops).routes[slot].TimelineOf(stream).seen
    ensures i < |ops| && RememberedAt(c, ops, i, slot, stream, After(c, ops).routes[slot].TimelineOf(stream))
  {
    hide Startup.Valid, After, RememberedAt, NotAbove, WindowRemembers;
    var t := After(c, ops).routes[slot].TimelineOf(stream);
    assert TimelineRemembers(c, ops, slot, stream, t);
    i :| 0 <= i < |ops| && RememberedAt(c, ops, i, slot, stream, t);
  }

  lemma RememberedIsReceipt(c: Startup, ops: seq<GuardOp>, i: nat, slot: string, stream: StreamKind, t: Timeline)
    requires c.Valid() && i < |ops| && RememberedAt(c, ops, i, slot, stream, t)
    ensures ReceiptOn(c, ops, i, slot, stream)
    ensures ops[i].RouteOp? && ops[i].observation.monotonicNs == t.monotonicNs
  {
    hide Startup.Valid, After, ObserveRoute;
  }

  lemma PrefixReceipt(c: Startup, ops: seq<GuardOp>, j: nat, i: nat, slot: string, stream: StreamKind)
    requires c.Valid() && i < j <= |ops|
    ensures ReceiptOn(c, ops[..j], i, slot, stream) <==> ReceiptOn(c, ops, i, slot, stream)
  {
    hide Startup.Valid, After, ObserveRoute;
    assert ops[..j][..i] == ops[..i];
  }

  // The first receipt a stream ever accepts arrives within the startup
  // allowance, counted from the epoch's steady anchor.
  lemma FirstReceiptIsTimely(c: Startup, ops: seq<GuardOp>, j: nat, slot: string, stream: StreamKind)
    requires c.Valid() && slot in Table(c) && j < |ops|
    requires ReceiptOn(c, ops, j, slot, stream)
    requires forall i :: 0 <= i < j ==> !ReceiptOn(c, ops, i, slot, stream)
    ensures 0 <= ops[j].observation.monotonicNs - c.monotonicNs <= c.config.thresholds.startupLockTimeoutNs
  {
    hide Startup.Valid, Table, After, ReceiptOn, RouteRemembers, Receipt;
    ReceiptOnIs(c, ops, j, slot, stream);
    var front := ops[..j];
    MemoryIsReceipts(c, front, slot);
    ReceiptMoves(c, ops, j, slot);
    if After(c, front).routes[slot].TimelineOf(stream).seen {
      var i := EarlierReceipt(c, front, slot, stream);
      RememberedIsReceipt(c, front, i, slot, stream, After(c, front).routes[slot].TimelineOf(stream));
      PrefixReceipt(c, ops, j, i, slot, stream);
    }
  }

  // ---- accuracy ----

  // The mapped stamp is within the frozen jitter bound of the station time at
  // which operation i, an accepted receipt of the same raw stamp, arrived.
  ghost predicate MappedAt(c: Startup, ops: seq<GuardOp>, i: nat, o: Observation, mappedNs: u64)
    requires c.Valid() && i < |ops| && c.config.thresholds.maxJitterNs.Some?
  {
    && Receipt(c, ops, i, o.slot)
    && ops[i].observation.rawNs == o.rawNs
    && Magnitude(mappedNs - StationTime(c, ops[i].observation.monotonicNs)) <= c.config.thresholds.maxJitterNs.value
  }

  lemma SampleIsAccurate(c: Startup, ops: seq<GuardOp>, i: nat, o: Observation, x: Sample, mappedNs: u64)
    requires c.Valid() && i < |ops| && c.config.thresholds.maxJitterNs.Some? && c.StationRequired()
    requires SampledAt(c, ops, i, o.slot, x) && x.rawNs == o.rawNs
    requires Magnitude(mappedNs - x.sessionNs) <= c.config.thresholds.maxJitterNs.value
    ensures MappedAt(c, ops, i, o, mappedNs)
  {
    hide Startup.Valid, ObserveRoute, After, StationTime;
  }

  lemma AcceptedIsAccurate(c: Startup, s: Guard, o: Observation)
    requires c.Valid() && RoutesSound(c, s.routes) && c.config.mapping == AffineToSession
    requires ObserveRoute(c, s, o).1.accepted
    ensures var (t, e) := ObserveRoute(c, s, o);
            && o.slot in t.routes && MappedAccurately(c, t.routes[o.slot], o.rawNs, e.mappedSessionNs)
  {
    hide Startup.Valid, ObserveRoute, RoutesSound, Took, Kept, MappedAccurately, StationTime;
    ObserveMoves(c, s, o);
  }

  // In the affine modes, once the window holds `min_lock_samples`, every
  // accepted observation is mapped to within the frozen jitter bound of the
  // station time W0 + (m - M0) of an accepted receipt of that very raw stamp:
  // its own, or the earlier one that brought the stamp into the window.
  lemma StampsAreAccurate(c: Startup, ops: seq<GuardOp>, o: Observation)
    requires c.Valid() && c.config.mapping == AffineToSession
    requires ObserveRoute(c, After(c, ops), o).1.accepted
    ensures c.config.thresholds.maxJitterNs.Some?
    ensures var (t, e) := ObserveRoute(c, After(c, ops), o);
            o.slot in t.routes && |t.routes[o.slot].samples| >= c.config.thresholds.minLockSamples ==>
              exists i :: 0 <= i <= |ops| && MappedAt(c, ops + [RouteOp(o)], i, o, e.mappedSessionNs)
  {
    hide Startup.Valid, ObserveRoute, After, Table, RoutesSound, TimelineRemembers, AffineFieldsPresent, MappedAt, SampledAt;
    ModeFacts(c);
    JitterPresent(c);
    var longer, slot := ops + [RouteOp(o)], o.slot;
    var (t, e) := ObserveRoute(c, After(c, ops), o);
    SlotsPersist(c, ops);
    SlotsPersist(c, longer);
    RunExtends(c, ops, RouteOp(o));
    AcceptedIsAccurate(c, After(c, ops), o);
    if slot in t.routes && |t.routes[slot].samples| >= c.config.thresholds.minLockSamples {
      MemoryIsReceipts(c, longer, slot);
      var x :| x in t.routes[slot].samples && x.rawNs == o.rawNs
               && Magnitude(e.mappedSessionNs - x.sessionNs) <= c.config.thresholds.maxJitterNs.value;
      var i :| 0 <= i < |longer| && SampledAt(c, longer, i, slot, x);
      SampleIsAccurate(c, longer, i, o, x, e.mappedSessionNs);
    }
  }

  lemma JitterPresent(c: Startup)
    requires AffineFieldsPresent(c.config.thresholds)
    ensures c.config.thresholds.maxJitterNs.Some?
  {
  }

  // ---- freshness ----

  // Operation i is an accepted receipt on the stream, no older than the frozen
  // sample age at nowNs.
  ghost predicate FreshReceipt(c: Startup, ops: seq<GuardOp>, i: nat, slot: string, stream: StreamKind, nowNs: u64)
    requires c.Valid() && i < |ops|
  {
    && ReceiptOn(c, ops, i, slot, stream)
    && 0 <= nowNs - ops[i].observation.monotonicNs <= c.config.thresholds.maxSampleAgeNs
  }

  ghost predicate HasFreshReceipt(c: Startup, ops: seq<GuardOp>, slot: string, stream: StreamKind, nowNs: u64)
    requires c.Valid()
  {
    exists i :: 0 <= i < |ops| && FreshReceipt(c, ops, i, slot, stream, nowNs)
  }

  ghost predicate FreshClock(c: Startup, ops: seq<GuardOp>, i: nat, nowNs: u64)
    requires c.Valid() && i < |ops|
  {
    && ClockReceipt(c, ops, i)
    && 0 <= nowNs - ops[i].clock.monotonicNs <= c.config.thresholds.maxAuthorityAgeNs
  }

  lemma {:induction false} LastClockIsReceipt(c: Startup, ops: seq<GuardOp>) returns (i: nat)
    requires c.Valid() && LastClock(c, ops).Some?
    ensures i < |ops| && ClockReceipt(c, ops, i) && ops[i].GazeboClockOp? && ops[i].clock == LastClock(c, ops).value
  {
    hide Startup.Valid, ObserveGazebo, After;
    var front, op := ops[..|ops| - 1], ops[|ops| - 1];
    if AdmitsNow(c, After(c, front), op) {
      i := |ops| - 1;
    } else {
      i := LastClockIsReceipt(c, front);
      assert front[..i] == ops[..i];
    }
  }

  lemma PolledLocked(c: Startup, s: Guard, monotonicNs: u64, systemWallNs: u64)
    requires c.Valid() && Inv(c, s) && Aggregate(Poll(c, s, monotonicNs, systemWallNs)) == Locked
    ensures AllFresh(c, Poll(c, s, monotonicNs, systemWallNs), monotonicNs)
  {
    hide Startup.Valid, Inv, Poll, Call, AllFresh, ReadStation, Aggregate;
    PollCall(c, s, monotonicNs, systemWallNs);
  }

  lemma StreamIsFresh(c: Startup, ops: seq<GuardOp>, slot: string, stream: StreamKind, nowNs: u64) returns (i: nat)
    requires c.Valid() && slot in Table(c)
    requires slot in After(c, ops).routes && StreamsFresh(c, After(c, ops).routes[slot], nowNs)
    ensures i < |ops| && FreshReceipt(c, ops, i, slot, stream, nowNs)
  {
    hide Startup.Valid, After, Table, RouteRemembers, RememberedAt, ReceiptOn;
    MemoryIsReceipts(c, ops, slot);
    i := EarlierReceipt(c, ops, slot, stream);
    RememberedIsReceipt(c, ops, i, slot, stream, After(c, ops).routes[slot].TimelineOf(stream));
  }

  // When the guard is locked right after a poll at nowNs, every stream of every
  // route has an accepted receipt no older than the frozen sample age, and a
  // required Gazebo clock an admitted one no older than the frozen authority
  // age.
  lemma LockedPollIsFresh(c: Startup, ops: seq<GuardOp>, nowNs: u64, systemWallNs: u64)
    requires c.Valid()
    requires Aggregate(After(c, ops + [GuardPollOp(nowNs, systemWallNs)])) == Locked
    ensures var run := ops + [GuardPollOp(nowNs, systemWallNs)];
            && (forall slot, stream :: slot in Table(c) ==> HasFreshReceipt(c, run, slot, stream, nowNs))
            && (c.GazeboRequired() ==> exists i :: 0 <= i < |run| && FreshClock(c, run, i, nowNs))
  {
    hide Startup.Valid, After, Table, Aggregate, Inv, StreamsFresh, FreshReceipt, FreshClock, LastClock, ClockReceipt, Poll,
         RoutesSound, Startup.GazeboRequired;
    var run := ops + [GuardPollOp(nowNs, systemWallNs)];
    RunInv(c, ops);
    RunExtends(c, ops, GuardPollOp(nowNs, systemWallNs));
    PolledLocked(c, After(c, ops), nowNs, systemWallNs);
    SlotsPersist(c, run);
    forall slot, stream | slot in Table(c) ensures HasFreshReceipt(c, run, slot, stream, nowNs) {
      var i := StreamIsFresh(c, run, slot, stream, nowNs);
    }
    if c.GazeboRequired() {
      var i := ClockIsFresh(c, run, nowNs);
    }
  }

  lemma ClockIsFresh(c: Startup, ops: seq<GuardOp>, nowNs: u64) returns (i: nat)
    requires c.Valid() && c.GazeboRequired() && ClockFresh(c, After(c, ops), nowNs)
    ensures i < |ops| && FreshClock(c, ops, i, nowNs)
  {
    hide Startup.Valid, After, LastClock, ClockReceipt, Startup.GazeboRequired;
    ClockIsLatestReceipt(c, ops);
    i := LastClockIsReceipt(c, ops);
  }
}
