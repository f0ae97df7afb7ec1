// How far each value of an accepted policy may move while the others stay: its
// exact range, across all the validators together
// (src/core/frozen_config.cpp:272-357 and 418-535).
module LimitRanges {
  import opened Numbers
  import opened Types
  import opened Policy

  // The policy with other limits is still accepted.
  predicate StillValid(c: FrozenConfig, p: ThresholdPolicy) { ConfigValid(c.(thresholds := p)) }

  predicate Mapped(c: FrozenConfig) { c.runMode != Simulation }

  // The routes keep their legality whatever the limits are, and their timing as
  // long as no sample may come later than the sample age or be less certain than
  // the largest uncertainty.
  lemma RoutesFollow(c: FrozenConfig, p: ThresholdPolicy)
    requires ConfigValid(c)
    ensures var d := c.(thresholds := p);
            StillValid(c, p) <==>
              && ThresholdPolicyValid(p) && ModeClockPolicyValid(d)
              && (Mapped(c) ==> p.maxOffsetStepNs.value >= 1000 && p.maxJitterNs.value >= 1000)
              && (p.maxGazeboClockSkewNs.Some? ==> p.maxGazeboClockSkewNs.value >= 1000)
              && (p.maxStationWallStepNs.Some? ==> p.maxStationWallStepNs.value <= p.maxStationWallErrorNs.value)
              && (forall r :: r in c.routes ==>
                    r.samplePeriodNs <= p.maxSampleAgeNs && r.sourceUncertaintyNs <= p.maxUncertaintyNs)
  {
    hide ThresholdPolicyValid, RoutesValid;
    assert forall i :: 0 <= i < |c.routes| ==> RouteTimingValid(c, c.routes[i]);
  }

  lemma AsItIs(c: FrozenConfig)
    requires ConfigValid(c)
    ensures StillValid(c, c.thresholds)
  {
    assert c.(thresholds := c.thresholds) == c;
  }

  lemma MinLockRange(c: FrozenConfig, x: u32)
    requires ConfigValid(c)
    ensures var p := c.thresholds;
            StillValid(c, p.(minLockSamples := x)) <==>
              2 <= x <= if Mapped(c) then p.estimatorWindow.value else 4096
  {
    hide RoutesValid, StillValid, SourceTimingValid;
    AsItIs(c);
    RoutesFollow(c, c.thresholds);
    RoutesFollow(c, c.thresholds.(minLockSamples := x));
  }

  lemma RecoverLockRange(c: FrozenConfig, x: u32)
    requires ConfigValid(c)
    ensures var p := c.thresholds;
            StillValid(c, p.(recoverLockSamples := x)) <==>
              1 <= x <= if Mapped(c) then p.estimatorWindow.value else 4096
  {
    hide RoutesValid, StillValid, SourceTimingValid;
    AsItIs(c);
    RoutesFollow(c, c.thresholds);
    RoutesFollow(c, c.thresholds.(recoverLockSamples := x));
  }

  lemma LostAfterRange(c: FrozenConfig, x: u32)
    requires ConfigValid(c)
    ensures var p := c.thresholds;
            StillValid(c, p.(lostAfterFailures := x)) <==> 1 <= x
  {
    hide RoutesValid, StillValid, SourceTimingValid;
    AsItIs(c);
    RoutesFollow(c, c.thresholds);
    RoutesFollow(c, c.thresholds.(lostAfterFailures := x));
  }

  lemma QueueDepthRange(c: FrozenConfig, x: u32)
    requires ConfigValid(c)
    ensures var p := c.thresholds;
            StillValid(c, p.(ioQueueDepth := x)) <==> 1 <= x <= 65536
  {
    hide RoutesValid, StillValid, SourceTimingValid;
    AsItIs(c);
    RoutesFollow(c, c.thresholds);
    RoutesFollow(c, c.thresholds.(ioQueueDepth := x));
  }

  lemma StartupRange(c: FrozenConfig, x: u64)
    requires ConfigValid(c)
    ensures var p := c.thresholds;
            StillValid(c, p.(startupLockTimeoutNs := x)) <==>
              250_000_000 <= x <= 120_000_000_000 && p.maxSampleAgeNs <= x && p.maxAuthorityAgeNs <= x
  {
    hide RoutesValid, StillValid, SourceTimingValid;
    AsItIs(c);
    RoutesFollow(c, c.thresholds);
    RoutesFollow(c, c.thresholds.(startupLockTimeoutNs := x));
  }

  lemma SampleAgeRange(c: FrozenConfig, x: u64)
    requires ConfigValid(c)
    ensures var p := c.thresholds;
            StillValid(c, p.(maxSampleAgeNs := x)) <==>
              p.guardPollPeriodNs <= x <= p.startupLockTimeoutNs && forall r :: r in c.routes ==> r.samplePeriodNs <= x
  {
    hide RoutesValid, StillValid, SourceTimingValid;
    AsItIs(c);
    RoutesFollow(c, c.thresholds);
    RoutesFollow(c, c.thresholds.(maxSampleAgeNs := x));
  }

  lemma AuthorityAgeRange(c: FrozenConfig, x: u64)
    requires ConfigValid(c)
    ensures var p := c.thresholds;
            StillValid(c, p.(maxAuthorityAgeNs := x)) <==> p.guardPollPeriodNs <= x <= p.startupLockTimeoutNs
  {
    hide RoutesValid, StillValid, SourceTimingValid;
    AsItIs(c);
    RoutesFollow(c, c.thresholds);
    RoutesFollow(c, c.thresholds.(maxAuthorityAgeNs := x));
  }

  lemma PollPeriodRange(c: FrozenConfig, x: u64)
    requires ConfigValid(c)
    ensures var p := c.thresholds;
            StillValid(c, p.(guardPollPeriodNs := x)) <==>
              1 <= x <= 250_000_000 && x <= p.maxSampleAgeNs && x <= p.maxAuthorityAgeNs
  {
    hide RoutesValid, StillValid, SourceTimingValid;
    AsItIs(c);
    RoutesFollow(c, c.thresholds);
    RoutesFollow(c, c.thresholds.(guardPollPeriodNs := x));
  }

  lemma UncertaintyRange(c: FrozenConfig, x: u64)
    requires ConfigValid(c)
    ensures var p := c.thresholds;
            StillValid(c, p.(maxUncertaintyNs := x)) <==>
              1 <= x && (p.maxJitterNs.Some? ==> p.maxJitterNs.value <= x)
                 && forall r :: r in c.routes ==> r.sourceUncertaintyNs <= x
  {
    hide RoutesValid, StillValid, SourceTimingValid;
    AsItIs(c);
    RoutesFollow(c, c.thresholds);
    RoutesFollow(c, c.thresholds.(maxUncertaintyNs := x));
  }

  lemma WindowRange(c: FrozenConfig, x: Option<u64>)
    requires ConfigValid(c)
    ensures var p := c.thresholds;
            StillValid(c, p.(estimatorWindow := x)) <==>
              if Mapped(c) then x.Some? && p.minLockSamples <= x.value <= 4096 && p.recoverLockSamples <= x.value else x.None?
  {
    hide RoutesValid, StillValid, SourceTimingValid;
    AsItIs(c);
    RoutesFollow(c, c.thresholds);
    RoutesFollow(c, c.thresholds.(estimatorWindow := x));
  }

  lemma OffsetStepRange(c: FrozenConfig, x: Option<u64>)
    requires ConfigValid(c)
    ensures var p := c.thresholds;
            StillValid(c, p.(maxOffsetStepNs := x)) <==> if Mapped(c) then x.Some? && 1000 <= x.value else x.None?
  {
    hide RoutesValid, StillValid, SourceTimingValid;
    AsItIs(c);
    RoutesFollow(c, c.thresholds);
    RoutesFollow(c, c.thresholds.(maxOffsetStepNs := x));
  }

  lemma JitterRange(c: FrozenConfig, x: Option<u64>)
    requires ConfigValid(c)
    ensures var p := c.thresholds;
            StillValid(c, p.(maxJitterNs := x)) <==>
              if Mapped(c) then x.Some? && 1000 <= x.value <= p.maxUncertaintyNs else x.None?
  {
    hide RoutesValid, StillValid, SourceTimingValid;
    AsItIs(c);
    RoutesFollow(c, c.thresholds);
    RoutesFollow(c, c.thresholds.(maxJitterNs := x));
  }

  lemma SkewRange(c: FrozenConfig, x: Option<u64>)
    requires ConfigValid(c)
    ensures var p := c.thresholds;
            StillValid(c, p.(maxGazeboClockSkewNs := x)) <==>
              if c.runMode != Physical then x.Some? && 1000 <= x.value else x.None?
  {
    hide RoutesValid, StillValid, SourceTimingValid;
    AsItIs(c);
    RoutesFollow(c, c.thresholds);
    RoutesFollow(c, c.thresholds.(maxGazeboClockSkewNs := x));
  }

  lemma WallErrorRange(c: FrozenConfig, x: Option<u64>)
    requires ConfigValid(c)
    ensures var p := c.thresholds;
            StillValid(c, p.(maxStationWallErrorNs := x)) <==>
              if Mapped(c) then x.Some? && p.maxStationWallStepNs.value <= x.value else x.None?
  {
    hide RoutesValid, StillValid, SourceTimingValid;
    AsItIs(c);
    RoutesFollow(c, c.thresholds);
    RoutesFollow(c, c.thresholds.(maxStationWallErrorNs := x));
  }

  lemma WallStepRange(c: FrozenConfig, x: Option<u64>)
    requires ConfigValid(c)
    ensures var p := c.thresholds;
            StillValid(c, p.(maxStationWallStepNs := x)) <==>
              if Mapped(c) then x.Some? && 1 <= x.value <= p.maxStationWallErrorNs.value else x.None?
  {
    hide RoutesValid, StillValid, SourceTimingValid;
    AsItIs(c);
    RoutesFollow(c, c.thresholds);
    RoutesFollow(c, c.thresholds.(maxStationWallStepNs := x));
  }

  lemma DriftRange(c: FrozenConfig, x: Option<real>)
    requires ConfigValid(c)
    ensures var p := c.thresholds;
            StillValid(c, p.(maxDriftPpm := x)) <==> if Mapped(c) then x.Some? && 0.0 < x.value else x.None?
  {
    hide RoutesValid, StillValid, SourceTimingValid;
    AsItIs(c);
    RoutesFollow(c, c.thresholds);
    RoutesFollow(c, c.thresholds.(maxDriftPpm := x));
  }

  lemma LeastRateRange(c: FrozenConfig, x: Option<real>)
    requires ConfigValid(c)
    ensures var p := c.thresholds;
            StillValid(c, p.(minGazeboRealTimeFactor := x)) <==>
              if c.runMode == Hybrid then x.Some? && 0.0 < x.value <= 1.0 && x.value < p.maxGazeboRealTimeFactor.value
              else x.None?
  {
    hide RoutesValid, StillValid, SourceTimingValid;
    AsItIs(c);
    RoutesFollow(c, c.thresholds);
    RoutesFollow(c, c.thresholds.(minGazeboRealTimeFactor := x));
  }

  lemma LargestRateRange(c: FrozenConfig, x: Option<real>)
    requires ConfigValid(c)
    ensures var p := c.thresholds;
            StillValid(c, p.(maxGazeboRealTimeFactor := x)) <==>
              if c.runMode == Hybrid then x.Some? && 1.0 <= x.value && p.minGazeboRealTimeFactor.value < x.value else x.None?
  {
    hide RoutesValid, StillValid, SourceTimingValid;
    AsItIs(c);
    RoutesFollow(c, c.thresholds);
    RoutesFollow(c, c.thresholds.(maxGazeboRealTimeFactor := x));
  }

  // The wire resolution, the delay policy and, for a mode, the authority and the
  // mapping have one value each.
  lemma FixedValues(c: FrozenConfig, wire: u64, delay: string, authority: SessionTimeAuthority, mapping: ClockMapping)
    requires ConfigValid(c)
    ensures ConfigValid(c.(wireResolutionNs := wire)) <==> wire == 1000
    ensures ConfigValid(c.(delayTimestampPolicy := delay)) <==> delay == "sample_time"
    ensures ConfigValid(c.(authority := authority)) <==>
              authority == if c.runMode == Simulation then GazeboSimulation else StationWallMonotonic
    ensures ConfigValid(c.(mapping := mapping)) <==> mapping == if c.runMode == Simulation then Identity else AffineToSession
  {
    hide RoutesValid;
  }

  predicate WithRoute(c: FrozenConfig, i: nat, r: Route)
    requires i < |c.routes|
  {
    ConfigValid(c.(routes := c.routes[i := r]))
  }

  // Another period or uncertainty leaves the names of the routes as they are.
  lemma NamesStay(c: FrozenConfig, i: nat, period: u64, uncertainty: u64)
    requires ConfigValid(c) && i < |c.routes| && period > 0 && uncertainty > 0
    ensures RoutesValid(c.runMode, c.routes[i := c.routes[i].(samplePeriodNs := period, sourceUncertaintyNs := uncertainty)])
  {
    hide ThresholdPolicyValid, ModeClockPolicyValid, SourceTimingValid, IsSlotId, IsRosSegment;
    var routes := c.routes[i := c.routes[i].(samplePeriodNs := period, sourceUncertaintyNs := uncertainty)];
    assert forall j :: 0 <= j < |routes| ==>
             routes[j] == c.routes[j].(samplePeriodNs := routes[j].samplePeriodNs,
                                       sourceUncertaintyNs := routes[j].sourceUncertaintyNs);
    hide RoutesApart;
    forall j, k | 0 <= j < k < |routes|
      ensures RoutesApart(routes[j], routes[k])
    {
      assert RoutesApart(c.routes[j], c.routes[k]);
      NamesApart(c.routes[j], c.routes[k], routes[j], routes[k]);
    }
    DomainsStay(c.routes, routes, SimulationSource);
    DomainsStay(c.routes, routes, PhysicalSource);
  }

  lemma NamesApart(a: Route, b: Route, a': Route, b': Route)
    requires RoutesApart(a, b)
    requires a' == a.(samplePeriodNs := a'.samplePeriodNs, sourceUncertaintyNs := a'.sourceUncertaintyNs)
    requires b' == b.(samplePeriodNs := b'.samplePeriodNs, sourceUncertaintyNs := b'.sourceUncertaintyNs)
    ensures RoutesApart(a', b')
  {
  }

  lemma DomainsStay(before: seq<Route>, after: seq<Route>, domain: SourceDomain)
    requires |before| == |after| && forall j :: 0 <= j < |before| ==> after[j].sourceDomain == before[j].sourceDomain
    ensures HasDomain(before, domain) ==> HasDomain(after, domain)
  {
    if i :| 0 <= i < |before| && before[i].sourceDomain == domain {
      assert after[i].sourceDomain == domain;
    }
  }

  // A route's period fits twice into what its uncertainty leaves above the wire
  // resolution, and into the sample age; its uncertainty fits the largest one.
  lemma RouteRanges(c: FrozenConfig, i: nat, period: u64, uncertainty: u64)
    requires ConfigValid(c) && i < |c.routes|
    ensures WithRoute(c, i, c.routes[i].(samplePeriodNs := period, sourceUncertaintyNs := uncertainty)) <==>
              1 <= period <= 2 * (uncertainty - 1000) && period <= c.thresholds.maxSampleAgeNs
              && uncertainty <= c.thresholds.maxUncertaintyNs
  {
    hide ThresholdPolicyValid, RoutesApart;
    var r := c.routes[i].(samplePeriodNs := period, sourceUncertaintyNs := uncertainty);
    var routes := c.routes[i := r];
    assert forall j :: 0 <= j < |routes| && j != i ==> routes[j] == c.routes[j];
    assert routes[i] == r;
    if period > 0 && uncertainty > 0 {
      NamesStay(c, i, period, uncertainty);
      hide RoutesValid;
      HalfFits(period, uncertainty);
    } else {
      assert !RouteLegal(c.runMode, routes[i]);
    }
  }

  lemma HalfFits(period: u64, uncertainty: u64)
    ensures var half := period / 2 + period % 2;
            half <= U64_MAX - 1000 && uncertainty >= 1000 + half <==> period <= 2 * (uncertainty - 1000)
  {
  }

  // ---- one more route ----

  const CAPITALS := "ABCDEFGHIJKLMNOPQRSTUVWXYZ"
  const SMALL := "abcdefghijklmnopqrstuvwxyz"
  const LETTERS := CAPITALS + SMALL
  const DIGITS := "0123456789"

  // A text of 1 to 128 characters, the first from one alphabet and the rest from
  // another.
  predicate Spelled(s: string, first: string, rest: string) {
    0 < |s| <= 128 && s[0] in first && forall i :: 1 <= i < |s| ==> s[i] in rest
  }

  lemma Capitals(c: char)
    ensures 'A' <= c <= 'Z' <==> c in CAPITALS
  {
    if 'A' <= c <= 'Z' { assert CAPITALS[c as int - 'A' as int] == c; }
  }

  lemma SmallLetters(c: char)
    ensures 'a' <= c <= 'z' <==> c in SMALL
  {
    if 'a' <= c <= 'z' { assert SMALL[c as int - 'a' as int] == c; }
  }

  lemma LettersAndDigits(c: char)
    ensures AsciiAlpha(c) <==> c in LETTERS
    ensures AsciiDigit(c) <==> c in DIGITS
  {
    hide CAPITALS, SMALL;
    Capitals(c);
    SmallLetters(c);
    if AsciiDigit(c) { assert DIGITS[c as int - '0' as int] == c; }
  }

  // A route may join a route table exactly when its slot starts with a letter or a
  // digit and goes on with letters, digits, underscores and hyphens, its bodies start
  // with a letter or an underscore and go on with those and digits, its domain is one
  // the mode takes, its timing is positive, and no route of the table has its slot,
  // its canonical body or its raw topics.
  lemma RouteJoins(mode: RunMode, routes: seq<Route>, r: Route)
    requires RoutesValid(mode, routes)
    ensures RoutesValid(mode, routes + [r]) <==>
              && Spelled(r.slot, LETTERS + DIGITS, LETTERS + DIGITS + "_-")
              && Spelled(r.sourceBody, LETTERS + "_", LETTERS + DIGITS + "_")
              && Spelled(r.canonicalBody, LETTERS + "_", LETTERS + DIGITS + "_")
              && r.samplePeriodNs > 0 && r.sourceUncertaintyNs > 0
              && (mode == Simulation ==> r.sourceDomain == SimulationSource)
              && (mode == Physical ==> r.sourceDomain == PhysicalSource)
              && forall q :: q in routes ==>
                   q.slot != r.slot && q.canonicalBody != r.canonicalBody && RawSource(q) != RawSource(r)
  {
    hide IsSlotId, IsRosSegment, RawSource, RoutesApart, Spelled, LETTERS, CAPITALS, SMALL, DIGITS;
    SlotSpelled(r.slot);
    SegmentSpelled(r.sourceBody);
    SegmentSpelled(r.canonicalBody);
    var longer := routes + [r];
    assert longer[|routes|] == r && forall i :: 0 <= i < |routes| ==> longer[i] == routes[i];
    DomainsStaySuffix(routes, r, SimulationSource);
    DomainsStaySuffix(routes, r, PhysicalSource);
    forall i | 0 <= i < |routes|
      ensures RoutesApart(longer[i], longer[|routes|]) <==>
                routes[i].slot != r.slot && routes[i].canonicalBody != r.canonicalBody && RawSource(routes[i]) != RawSource(r)
    {
      ApartByNames(routes[i], r);
    }
  }

  lemma DomainsStaySuffix(routes: seq<Route>, r: Route, domain: SourceDomain)
    ensures HasDomain(routes, domain) ==> HasDomain(routes + [r], domain)
  {
    if i :| 0 <= i < |routes| && routes[i].sourceDomain == domain {
      assert (routes + [r])[i].sourceDomain == domain;
    }
  }

  lemma SlotSpelled(s: string)
    ensures IsSlotId(s) <==> Spelled(s, LETTERS + DIGITS, LETTERS + DIGITS + "_-")
  {
    hide LETTERS, CAPITALS, SMALL, DIGITS, AsciiAlpha, AsciiDigit;
    forall i | 0 <= i < |s|
      ensures AsciiAlphaNumeric(s[i]) <==> s[i] in LETTERS + DIGITS
    {
      LettersAndDigits(s[i]);
    }
  }

  lemma SegmentSpelled(s: string)
    ensures IsRosSegment(s) <==> Spelled(s, LETTERS + "_", LETTERS + DIGITS + "_")
  {
    hide LETTERS, CAPITALS, SMALL, DIGITS, AsciiAlpha, AsciiDigit;
    forall i | 0 <= i < |s|
      ensures AsciiAlpha(s[i]) <==> s[i] in LETTERS
      ensures AsciiAlphaNumeric(s[i]) <==> s[i] in LETTERS + DIGITS
    {
      LettersAndDigits(s[i]);
    }
  }

  // A Session is named by 1 to 64 letters, digits and marks, and a digest written in
  // 64 lower-case hexadecimal digits.
  lemma NamesAreSpelled(s: string)
    ensures IsSessionId(s) <==> 0 < |s| <= 64 && forall i :: 0 <= i < |s| ==> s[i] in LETTERS + DIGITS + "-_.:"
    ensures IsLowerHexDigest(s) <==> |s| == 64 && forall i :: 0 <= i < |s| ==> s[i] in DIGITS + "abcdef"
  {
    hide LETTERS, CAPITALS, SMALL, DIGITS, AsciiAlpha, AsciiDigit;
    forall i | 0 <= i < |s|
      ensures AsciiAlphaNumeric(s[i]) <==> s[i] in LETTERS + DIGITS
      ensures AsciiDigit(s[i]) <==> s[i] in DIGITS
      ensures 'a' <= s[i] <= 'f' <==> s[i] in "abcdef"
    {
      LettersAndDigits(s[i]);
      HexLetter(s[i]);
    }
  }

  lemma HexLetter(c: char)
    ensures 'a' <= c <= 'f' <==> c in "abcdef"
  {
    if 'a' <= c <= 'f' { assert "abcdef"[c as int - 'a' as int] == c; }
  }
}
