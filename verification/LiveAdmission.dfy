// The live admission tracker (src/core/healthcheck.cpp:116-151): ready after two
// admissible status messages with increasing sequences. The tracker is a class
// updated in place; what it decides is stated as a predicate on the whole
// message history.
module LiveAdmission {
  import opened Numbers
  import opened Types
  import opened Policy
  import opened GuardSpec
  import opened Admission

  datatype Message = Message(publisher: string, evidence: Evidence)

  // What a tracker trusts; immutable for its life.
  datatype Trust = Trust(config: FrozenConfig, epoch: u64, publisher: string)

  datatype Rejection =
    | UntrustedPublisher
    | ChangedPublisher
    | Refused(reason: Refusal)
    | SequenceRegressed

  // ---- what a history means ----

  predicate Good(t: Trust, m: Message)
    requires ModeClockPolicyValid(t.config)
  {
    m.publisher == t.publisher && ValidateLockedAdmission(m.evidence, t.config, t.epoch).None?
  }

  function SequenceOf(m: Message): u64 { m.evidence.statusSequence }

  // The first n messages are admissible and all carry the first one's sequence.
  predicate Steady(t: Trust, h: seq<Message>, n: nat)
    requires ModeClockPolicyValid(t.config) && n <= |h|
  {
    forall i :: 0 <= i < n ==> Good(t, h[i]) && SequenceOf(h[i]) == SequenceOf(h[0])
  }

  // Message j completes the admission: it is admissible with a greater sequence
  // than the first, and everything before it is steady.
  predicate Completes(t: Trust, h: seq<Message>, j: nat)
    requires ModeClockPolicyValid(t.config) && j < |h|
  {
    j > 0 && Steady(t, h, j) && Good(t, h[j]) && SequenceOf(h[j]) > SequenceOf(h[0])
  }

  // Message j breaks the admission: it is the first that is not admissible or
  // whose sequence is below the first one's.
  predicate Breaks(t: Trust, h: seq<Message>, j: nat)
    requires ModeClockPolicyValid(t.config) && j < |h|
  {
    Steady(t, h, j) && (!Good(t, h[j]) || SequenceOf(h[j]) < SequenceOf(h[0]))
  }

  predicate IsReady(t: Trust, h: seq<Message>)
    requires ModeClockPolicyValid(t.config)
  {
    exists j :: 0 <= j < |h| && Completes(t, h, j)
  }

  predicate IsRejected(t: Trust, h: seq<Message>)
    requires ModeClockPolicyValid(t.config)
  {
    exists j :: 0 <= j < |h| && Breaks(t, h, j)
  }

  lemma PrefixKeeps(t: Trust, h: seq<Message>, m: Message, j: nat)
    requires ModeClockPolicyValid(t.config) && j < |h|
    ensures Completes(t, h + [m], j) <==> Completes(t, h, j)
    ensures Breaks(t, h + [m], j) <==> Breaks(t, h, j)
  {
    hide ModeClockPolicyValid, Good, SequenceOf;
    assert forall i :: 0 <= i < |h| ==> (h + [m])[i] == h[i];
  }

  // One more message: verdicts stay, and an undecided history is decided by the
  // message itself.
  lemma HistoryExtends(t: Trust, h: seq<Message>, m: Message)
    requires ModeClockPolicyValid(t.config)
    ensures IsReady(t, h + [m]) <==> IsReady(t, h) || Completes(t, h + [m], |h|)
    ensures IsRejected(t, h + [m]) <==> IsRejected(t, h) || Breaks(t, h + [m], |h|)
  {
    hide ModeClockPolicyValid, Completes, Breaks;
    var g := h + [m];
    forall j | 0 <= j < |h|
      ensures Completes(t, g, j) <==> Completes(t, h, j)
      ensures Breaks(t, g, j) <==> Breaks(t, h, j)
    {
      PrefixKeeps(t, h, m, j);
    }
    if IsReady(t, h) {
      var j :| 0 <= j < |h| && Completes(t, h, j);
      assert Completes(t, g, j);
    }
    if IsRejected(t, h) {
      var j :| 0 <= j < |h| && Breaks(t, h, j);
      assert Breaks(t, g, j);
    }
  }

  // A history is steady throughout exactly while it is undecided.
  lemma {:induction false} SteadyUntilDecided(t: Trust, h: seq<Message>)
    requires ModeClockPolicyValid(t.config)
    ensures Steady(t, h, |h|) <==> !IsReady(t, h) && !IsRejected(t, h)
  {
    hide ModeClockPolicyValid, Good;
    if h != [] {
      var front, m := h[..|h| - 1], h[|h| - 1];
      assert h == front + [m];
      SteadyUntilDecided(t, front);
      HistoryExtends(t, front, m);
      assert Steady(t, h, |front|) <==> Steady(t, front, |front|) by {
        assert forall i :: 0 <= i < |front| ==> h[i] == front[i];
      }
    }
  }

  // Ready and rejected exclude each other.
  lemma NeverBoth(t: Trust, h: seq<Message>)
    requires ModeClockPolicyValid(t.config)
    ensures !(IsReady(t, h) && IsRejected(t, h))
  {
    hide ModeClockPolicyValid, Good;
    if IsReady(t, h) {
      var j :| 0 <= j < |h| && Completes(t, h, j);
      forall i | 0 <= i < |h| ensures !Breaks(t, h, i) {
        if i < j {
          assert Good(t, h[i]) && SequenceOf(h[i]) == SequenceOf(h[0]);
        } else if i > j {
          assert h[j] == h[j] && SequenceOf(h[j]) != SequenceOf(h[0]);
        }
      }
    }
  }

  // Both verdicts are final.
  lemma {:induction false} VerdictsAreFinal(t: Trust, h: seq<Message>, more: seq<Message>)
    requires ModeClockPolicyValid(t.config)
    ensures IsReady(t, h) ==> IsReady(t, h + more)
    ensures IsRejected(t, h) ==> IsRejected(t, h + more)
    decreases |more|
  {
    hide ModeClockPolicyValid, IsReady, IsRejected;
    if more == [] {
      assert h + more == h;
    } else {
      assert (h + [more[0]]) + more[1..] == h + more;
      HistoryExtends(t, h, more[0]);
      VerdictsAreFinal(t, h + [more[0]], more[1..]);
    }
  }

  // ---- what a verdict rests on ----

  // The message is the trusted publisher's, of the trusted Session, policy and
  // epoch, and says that its guard is locked.
  predicate Trusted(t: Trust, m: Message) {
    m.publisher == t.publisher && Identifies(m.evidence, t.config, t.epoch) && SaysLocked(m.evidence) && SequenceOf(m) != 0
  }

  lemma GoodIsTrusted(t: Trust, m: Message)
    requires ModeClockPolicyValid(t.config) && Good(t, m)
    ensures Trusted(t, m)
  {
    hide ModeClockPolicyValid, ValidateLockedAdmission, Identifies, Diagnoses;
    AdmissionIsExact(m.evidence, t.config, t.epoch);
  }

  // A consumer is ready only after two messages in increasing order, the second and
  // everything before it trusted; a first message that is not rejects it.
  lemma ReadyMeansTrusted(t: Trust, h: seq<Message>)
    requires ModeClockPolicyValid(t.config)
    ensures IsReady(t, h) ==>
              exists j :: 0 < j < |h| && SequenceOf(h[j]) > SequenceOf(h[0]) && forall i :: 0 <= i <= j ==> Trusted(t, h[i])
    ensures h != [] && !Trusted(t, h[0]) ==> IsRejected(t, h)
  {
    hide ModeClockPolicyValid, Good, Trusted, SequenceOf;
    if IsReady(t, h) {
      var j :| 0 <= j < |h| && Completes(t, h, j);
      forall i | 0 <= i <= j ensures Trusted(t, h[i]) { GoodIsTrusted(t, h[i]); }
    }
    if h != [] && !Trusted(t, h[0]) {
      if Good(t, h[0]) { GoodIsTrusted(t, h[0]); }
      assert Breaks(t, h, 0);
    }
  }

  // A history without a trusted message to start with is never ready.
  lemma ForeignIsNeverReady(t: Trust, h: seq<Message>)
    requires ModeClockPolicyValid(t.config)
    requires forall i :: 0 <= i < |h| ==>
               || h[i].evidence.sessionId != t.config.sessionId || h[i].evidence.policySha256 != t.config.policySha256
               || h[i].evidence.epoch != t.epoch
    ensures !IsReady(t, h) && (h != [] ==> IsRejected(t, h))
  {
    hide ModeClockPolicyValid, IsReady, IsRejected, SaysLocked;
    ReadyMeansTrusted(t, h);
    forall i | 0 <= i < |h| ensures !Trusted(t, h[i]) {
    }
  }

  // ---- watching a guard ----

  // The messages a trusted node publishes of its guard: each shows the state
  // after some run, under sequences that increase from one.
  ghost predicate PublishedBy(c: Startup, publisher: string, runs: seq<seq<GuardOp>>, h: seq<Message>)
    requires c.Valid()
  {
    && |h| == |runs|
    && (forall k :: 0 <= k < |h| ==>
          h[k] == Message(publisher, Published(c, After(c, runs[k]), SequenceOf(h[k]))) && SequenceOf(h[k]) != 0)
    && (forall j, k :: 0 <= j < k < |h| ==> SequenceOf(h[j]) < SequenceOf(h[k]))
  }

  lemma GoodMeansLocked(c: Startup, publisher: string, run: seq<GuardOp>, m: Message)
    requires c.Valid() && |c.config.routes| <= U32_MAX
    requires m == Message(publisher, Published(c, After(c, run), SequenceOf(m))) && SequenceOf(m) != 0
    ensures ModeClockPolicyValid(c.config)
    ensures Good(Trust(c.config, c.epoch, publisher), m) <==> Aggregate(After(c, run)) == Locked
  {
    hide Startup.Valid, After, Aggregate, Published, ValidateLockedAdmission, ModeClockPolicyValid;
    AdmissionAgreesWithGuard(c, run, SequenceOf(m));
  }

  // End to end: a consumer that watches a guard through at least two of its
  // node's messages admits it exactly when the guard was locked at the first
  // two of them, and rejects it exactly when it was not.
  lemma AdmittedExactlyWhenLocked(c: Startup, publisher: string, runs: seq<seq<GuardOp>>, h: seq<Message>)
    requires c.Valid() && |c.config.routes| <= U32_MAX
    requires PublishedBy(c, publisher, runs, h) && |h| >= 2
    ensures ModeClockPolicyValid(c.config)
    ensures var t := Trust(c.config, c.epoch, publisher);
            var locked := Aggregate(After(c, runs[0])) == Locked && Aggregate(After(c, runs[1])) == Locked;
            (IsReady(t, h) <==> locked) && (IsRejected(t, h) <==> !locked)
  {
    hide Startup.Valid, After, Aggregate, Published, Good, SequenceOf, ModeClockPolicyValid;
    GoodMeansLocked(c, publisher, runs[0], h[0]);
    GoodMeansLocked(c, publisher, runs[1], h[1]);
    var t := Trust(c.config, c.epoch, publisher);
    if Good(t, h[0]) && Good(t, h[1]) {
      assert Completes(t, h, 1);
      NeverBoth(t, h);
    } else {
      var j := if Good(t, h[0]) then 1 else 0;
      assert Breaks(t, h, j);
      NeverBoth(t, h);
    }
  }

  // ---- the tracker ----

  class LiveAdmissionTracker {
    const trust: Trust
    var observedPublisher: string
    var lastSequence: u64
    var acceptedSamples: nat
    var rejection: Option<Rejection>
    // Every message seen so far.
    ghost var history: seq<Message>

    predicate Ready() reads this {
      acceptedSamples >= 2 && rejection.None?
    }

    ghost predicate Valid() reads this {
      && ModeClockPolicyValid(trust.config)
      && (Ready() <==> IsReady(trust, history))
      && (rejection.Some? <==> IsRejected(trust, history))
      && rejection != Some(ChangedPublisher)
      && (acceptedSamples > 0 ==> observedPublisher == trust.publisher)
      && (rejection.None? && acceptedSamples < 2 ==>
            && acceptedSamples == (if history == [] then 0 else 1)
            && (history != [] ==> lastSequence == SequenceOf(history[0])))
    }

    constructor (config: FrozenConfig, expectedEpoch: u64, expectedPublisher: string)
      requires ModeClockPolicyValid(config)
      ensures Valid() && history == [] && trust == Trust(config, expectedEpoch, expectedPublisher)
      ensures !Ready() && rejection.None?
    {
      trust := Trust(config, expectedEpoch, expectedPublisher);
      observedPublisher := "";
      lastSequence := 0;
      acceptedSamples := 0;
      rejection := None;
      history := [];
    }

    // After every message the tracker is ready exactly when the history is, and
    // rejected exactly when the history is; the check for a publisher that
    // changed between samples never fires, and the reason is the message's own.
    method Observe(publisher: string, evidence: Evidence)
      requires Valid()
      modifies this
      ensures Valid() && history == old(history) + [Message(publisher, evidence)]
      ensures Ready() <==> IsReady(trust, history)
      ensures rejection.Some? <==> IsRejected(trust, history)
      ensures rejection != Some(ChangedPublisher)
      ensures old(Ready()) ==> Ready()
      ensures old(rejection).Some? ==> rejection == old(rejection)
      ensures rejection.Some? && old(rejection).None? ==>
                rejection.value ==
                  if publisher != trust.publisher then UntrustedPublisher
                  else
                    match ValidateLockedAdmission(evidence, trust.config, trust.epoch)
                    case Some(reason) => Refused(reason)
                    case None => SequenceRegressed
    {
      hide ModeClockPolicyValid, IsReady, IsRejected, ValidateLockedAdmission;
      ghost var h, m := history, Message(publisher, evidence);
      HistoryExtends(trust, h, m);
      NeverBoth(trust, h);
      NeverBoth(trust, h + [m]);
      SteadyUntilDecided(trust, h);
      history := h + [m];
      if rejection.Some? || Ready() {
        return;
      }
      assert Steady(trust, history, |h|) by {
        assert forall i :: 0 <= i < |h| ==> history[i] == h[i];
      }
      assert history[0] == if h == [] then m else h[0];
      assert history[|h|] == m;
      var changed := acceptedSamples != 0 && publisher != observedPublisher;
      var refusal := ValidateLockedAdmission(evidence, trust.config, trust.epoch);
      var regressed := acceptedSamples != 0 && evidence.statusSequence < lastSequence;
      var found :=
        if publisher != trust.publisher then Some(UntrustedPublisher)
        else if changed then Some(ChangedPublisher)
        else if refusal.Some? then Some(Refused(refusal.value))
        else if regressed then Some(SequenceRegressed)
        else None;
      if found.Some? {
        rejection := found;
      } else if acceptedSamples == 0 || evidence.statusSequence != lastSequence {
        observedPublisher := publisher;
        lastSequence := evidence.statusSequence;
        acceptedSamples := acceptedSamples + 1;
      }
    }
  }
}
