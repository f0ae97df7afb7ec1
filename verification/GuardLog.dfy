// The event log over every run, as its consumer sees it across any number of
// drains.
module GuardLog {
  import opened Numbers
  import opened Types
  import opened GuardSpec
  import opened GuardInvariant
  import opened GuardRuns

  // One NewEpoch event, then transitions; Lost only last, never two Locked in a
  // row.
  predicate Grammatical(log: seq<GuardEvent>) {
    && |log| >= 1
    && log[0].kind == NewEpochEvent && log[0].state == Initializing
    && (forall k :: 1 <= k < |log| ==> log[k].state != Initializing && log[k].kind == KindOf(log[k].state))
    && (forall k :: 0 <= k < |log| - 1 ==> log[k].state != Lost)
    && (forall k :: 1 <= k < |log| && log[k].state == Locked ==> log[k - 1].state != Locked)
  }

  // Sequences count 1, 2, 3, ... through all drains, in a 64-bit counter.
  predicate Numbered(log: seq<GuardEvent>) {
    forall k :: 0 <= k < |log| ==> log[k].sequence == (k + 1) % (U64_MAX + 1)
  }

  // The last event names the aggregate, except that a degraded guard may fall
  // back to initializing without saying so.
  predicate LastSays(log: seq<GuardEvent>, aggregate: GuardState)
    requires |log| >= 1
  {
    || log[|log| - 1].state == aggregate
    || (log[|log| - 1].state == Degraded && aggregate == Initializing)
  }

  ghost predicate LogTracks(s: Guard, log: seq<GuardEvent>) {
    && Grammatical(log) && Numbered(log) && LastSays(log, Aggregate(s))
    && s.nextSequence == (|log| + 1) % (U64_MAX + 1)
  }

  // How a log moves in one call: by the transition to the state reached, if
  // that is a new one, or not at all.
  predicate LogMoves(before: GuardState, after: GuardState, next: u64, log: seq<GuardEvent>, log': seq<GuardEvent>) {
    if after == before || after == Initializing then log' == log
    else
      && |log'| == |log| + 1 && log'[..|log|] == log
      && log'[|log|].sequence == next && log'[|log|].state == after && log'[|log|].kind == KindOf(after)
  }

  lemma GrammarExtends(before: GuardState, after: GuardState, next: u64, log: seq<GuardEvent>, log': seq<GuardEvent>)
    requires Grammatical(log) && Numbered(log) && LastSays(log, before) && next == (|log| + 1) % (U64_MAX + 1)
    requires LogMoves(before, after, next, log, log')
    requires before == Locked ==> after != Initializing
    requires before == Lost ==> after == Lost
    ensures Grammatical(log') && Numbered(log') && LastSays(log', after)
  {
    if |log'| > |log| {
      assert forall k :: 0 <= k < |log| ==> log'[k] == log[k];
    }
  }

  lemma LoggedMovesLog(s: Guard, t: Guard, drained: seq<GuardEvent>)
    requires Logged(s, t)
    ensures LogMoves(Aggregate(s), Aggregate(t), s.nextSequence, drained + s.pending, drained + t.pending)
    ensures t.nextSequence == if |t.pending| > |s.pending| then (s.nextSequence + 1) % (U64_MAX + 1) else s.nextSequence
  {
    hide Aggregate, KindOf;
    if |t.pending| > |s.pending| {
      assert (drained + t.pending)[..|drained + s.pending|] == drained + t.pending[..|s.pending|];
    }
  }

  lemma LogMovesOn(before: GuardState, after: GuardState, next: u64, log: seq<GuardEvent>, log': seq<GuardEvent>)
    requires LogMoves(before, after, next, log, log')
    ensures |log| <= |log'| <= |log| + 1 && log'[..|log|] == log
  {
  }

  lemma InitialLog(c: Startup)
    requires c.Valid()
    ensures LogTracks(Initial(c), Initial(c).pending)
  {
    hide Startup.Valid, Aggregate, Refresh, InitialAuthority, Inv;
    var r := Refresh(c, InitialAuthority(c));
    InitialStartsQuiet(c);
    var s := Emit(c, r, NewEpochEvent, Initializing, c.monotonicNs);
    AggregateIgnoresEmit(c, r, NewEpochEvent, Initializing, c.monotonicNs);
    AggregateIgnoresEmit(c, s, LockedEvent, Locked, c.monotonicNs);
  }

  lemma AggregateIgnoresEmit(c: Startup, s: Guard, kind: GuardEventKind, state: GuardState, monotonicNs: u64)
    ensures Aggregate(Emit(c, s, kind, state, monotonicNs)) == Aggregate(s)
  {
    hide EventAt;
  }

  // A fresh guard has an empty log, and is locked or initializing.
  lemma InitialStartsQuiet(c: Startup)
    requires c.Valid()
    ensures var r := Refresh(c, InitialAuthority(c));
            && r.pending == [] && r.nextSequence == 1
            && (Aggregate(r) == Locked || Aggregate(r) == Initializing)
  {
    hide Startup.Valid, Table, RouteConfig, InitialStatus, RoutesSound;
    InitialRoutesSound(c);
  }

  lemma AggregateMoves(c: Startup, s: Guard, t: Guard)
    requires c.Valid() && Inv(c, s) && Call(c, s, t)
    ensures Aggregate(s) == Locked ==> Aggregate(t) != Initializing
    ensures Aggregate(s) == Lost ==> Aggregate(t) == Lost
  {
    hide Startup.Valid, Core, LockSupported, StationWithin, Logged;
    assert SomeRoute(s.routes, Lost) ==> SomeRoute(t.routes, Lost);
    assert Aggregate(s) == Locked ==> !SomeRoute(s.routes, Initializing) && !SomeRoute(t.routes, Initializing);
  }

  lemma DrainKeepsAggregate(s: Guard)
    ensures Aggregate(s.(pending := [])) == Aggregate(s)
  {
  }

  lemma DrainedLog(c: Startup, ops: seq<GuardOp>)
    requires c.Valid()
    ensures Log(c, ops + [TakeEventsOp]) == Log(c, ops)
  {
    hide Startup.Valid, Apply, After;
    assert (ops + [TakeEventsOp])[..|ops + [TakeEventsOp]| - 1] == ops;
    RunExtends(c, ops, TakeEventsOp);
    assert After(c, ops + [TakeEventsOp]).pending == [] by { DrainEmpties(c, After(c, ops)); }
  }

  lemma DrainEmpties(c: Startup, s: Guard)
    requires c.Valid()
    ensures Apply(c, s, TakeEventsOp) == s.(pending := [])
  {
    hide Startup.Valid, ObserveGazebo, ObserveRoute, Poll, FailEpochFence;
  }

  lemma UndrainedLog(c: Startup, ops: seq<GuardOp>, op: GuardOp)
    requires c.Valid() && op != TakeEventsOp
    ensures Log(c, ops + [op]) == Drained(c, ops) + After(c, ops + [op]).pending
  {
    hide Startup.Valid, After;
    assert (ops + [op])[..|ops + [op]| - 1] == ops;
  }

  lemma CallTracks(c: Startup, s: Guard, t: Guard, drained: seq<GuardEvent>)
    requires c.Valid() && Inv(c, s) && Call(c, s, t) && LogTracks(s, drained + s.pending)
    ensures LogTracks(t, drained + t.pending)
    ensures |drained + s.pending| <= |drained + t.pending| <= |drained + s.pending| + 1
    ensures (drained + t.pending)[..|drained + s.pending|] == drained + s.pending
  {
    hide Startup.Valid, Aggregate, Inv, RoutesProgress, AuthorityProgress, Logged, Grammatical, Numbered, LastSays, KindOf,
         LogMoves, Call;
    CallIsLogged(c, s, t);
    LoggedMovesLog(s, t, drained);
    LogMovesOn(Aggregate(s), Aggregate(t), s.nextSequence, drained + s.pending, drained + t.pending);
    AggregateMoves(c, s, t);
    GrammarExtends(Aggregate(s), Aggregate(t), s.nextSequence, drained + s.pending, drained + t.pending);
    NextNumber(|drained + s.pending|);
  }

  lemma CallIsLogged(c: Startup, s: Guard, t: Guard)
    requires c.Valid() && Call(c, s, t)
    ensures Logged(s, t)
  {
    hide Startup.Valid, Inv, Logged, RoutesProgress, AuthorityProgress;
  }

  lemma NextNumber(n: nat)
    ensures ((n + 1) % (U64_MAX + 1) + 1) % (U64_MAX + 1) == (n + 2) % (U64_MAX + 1)
  {
  }

  // One operation adds at most one event, and the log keeps its grammar.
  lemma LogTracksStep(c: Startup, ops: seq<GuardOp>, op: GuardOp)
    requires c.Valid() && LogTracks(After(c, ops), Log(c, ops))
    ensures LogTracks(After(c, ops + [op]), Log(c, ops + [op]))
    ensures |Log(c, ops)| <= |Log(c, ops + [op])| <= |Log(c, ops)| + 1
    ensures Log(c, ops + [op])[..|Log(c, ops)|] == Log(c, ops)
  {
    hide Startup.Valid, Aggregate, Inv, Apply, After, Drained, Call, Grammatical, Numbered, LastSays;
    RunInv(c, ops);
    RunExtends(c, ops, op);
    if op == TakeEventsOp {
      DrainedLog(c, ops);
      DrainEmpties(c, After(c, ops));
      DrainKeepsAggregate(After(c, ops));
    } else {
      UndrainedLog(c, ops, op);
      ApplyCall(c, After(c, ops), op);
      CallTracks(c, After(c, ops), After(c, ops + [op]), Drained(c, ops));
    }
  }

  // The log of every run.
  lemma {:induction false} EventLogGrammar(c: Startup, ops: seq<GuardOp>)
    requires c.Valid()
    ensures var log := Log(c, ops);
            Grammatical(log) && Numbered(log) && LastSays(log, Aggregate(After(c, ops)))
    ensures LogTracks(After(c, ops), Log(c, ops))
  {
    hide Startup.Valid, Aggregate, Initial, Apply, Grammatical, Numbered, LastSays;
    if ops == [] {
      InitialLog(c);
      assert Log(c, ops) == Initial(c).pending;
    } else {
      var front := ops[..|ops| - 1];
      EventLogGrammar(c, front);
      LogTracksStep(c, front, ops[|ops| - 1]);
      assert front + [ops[|ops| - 1]] == ops;
    }
  }

  // One operation appends at most one event to the log and rewrites none.
  lemma OneEventAtMost(c: Startup, ops: seq<GuardOp>, op: GuardOp)
    requires c.Valid()
    ensures |Log(c, ops)| <= |Log(c, ops + [op])| <= |Log(c, ops)| + 1
    ensures Log(c, ops + [op])[..|Log(c, ops)|] == Log(c, ops)
  {
    hide Startup.Valid, Log, After, LogTracks;
    EventLogGrammar(c, ops);
    LogTracksStep(c, ops, op);
  }
}
