// The startup validators of the frozen policy
// (src/core/frozen_config.cpp:30-74 and 272-535).
module Policy {
  import opened Numbers
  import opened Types

  predicate AsciiAlpha(c: char) { 'A' <= c <= 'Z' || 'a' <= c <= 'z' }
  predicate AsciiDigit(c: char) { '0' <= c <= '9' }
  predicate AsciiAlphaNumeric(c: char) { AsciiAlpha(c) || AsciiDigit(c) }

  predicate IsLowerHexDigest(s: string) {
    |s| == 64 && forall i :: 0 <= i < |s| ==> AsciiDigit(s[i]) || 'a' <= s[i] <= 'f'
  }

  predicate IsRosSegment(s: string) {
    && 0 < |s| <= 128
    && (AsciiAlpha(s[0]) || s[0] == '_')
    && forall i :: 1 <= i < |s| ==> AsciiAlphaNumeric(s[i]) || s[i] == '_'
  }

  predicate IsSlotId(s: string) {
    && 0 < |s| <= 128
    && AsciiAlphaNumeric(s[0])
    && forall i :: 1 <= i < |s| ==> AsciiAlphaNumeric(s[i]) || s[i] == '_' || s[i] == '-'
  }

  predicate IsSessionId(s: string) {
    && 0 < |s| <= 64
    && forall i :: 0 <= i < |s| ==>
         AsciiAlphaNumeric(s[i]) || s[i] == '-' || s[i] == '_' || s[i] == '.' || s[i] == ':'
  }

  predicate AbsentOrPositive(o: Option<u64>) { o.Some? ==> o.value > 0 }
  predicate AbsentOrPositiveReal(o: Option<real>) { o.Some? ==> o.value > 0.0 }

  predicate ThresholdPolicyValid(p: ThresholdPolicy) {
    && 2 <= p.minLockSamples <= 4096
    && 1 <= p.recoverLockSamples <= 4096
    && (p.estimatorWindow.Some? ==>
          && 2 <= p.estimatorWindow.value <= 4096
          && p.minLockSamples <= p.estimatorWindow.value
          && p.recoverLockSamples <= p.estimatorWindow.value)
    && p.lostAfterFailures > 0
    && p.startupLockTimeoutNs > 0
    && p.maxUncertaintyNs > 0
    && p.maxSampleAgeNs > 0
    && p.maxAuthorityAgeNs > 0
    && p.guardPollPeriodNs > 0
    && p.ioQueueDepth > 0
    && p.guardPollPeriodNs <= p.maxSampleAgeNs
    && p.guardPollPeriodNs <= p.maxAuthorityAgeNs
    && p.guardPollPeriodNs <= 250000000
    && 250000000 <= p.startupLockTimeoutNs <= 120000000000
    && p.startupLockTimeoutNs >= p.maxSampleAgeNs
    && p.startupLockTimeoutNs >= p.maxAuthorityAgeNs
    && p.ioQueueDepth <= 65536
    && AbsentOrPositive(p.maxOffsetStepNs)
    && AbsentOrPositiveReal(p.maxDriftPpm)
    && (p.maxJitterNs.Some? ==> 0 < p.maxJitterNs.value <= p.maxUncertaintyNs)
    && AbsentOrPositive(p.maxGazeboClockSkewNs)
    && AbsentOrPositive(p.maxStationWallErrorNs)
    && AbsentOrPositive(p.maxStationWallStepNs)
    && AbsentOrPositiveReal(p.minGazeboRealTimeFactor)
    && AbsentOrPositiveReal(p.maxGazeboRealTimeFactor)
  }

  predicate DomainFits(mode: RunMode, domain: SourceDomain) {
    match mode
    case Simulation => domain == SimulationSource
    case Physical => domain == PhysicalSource
    case Hybrid => true
  }

  predicate RouteLegal(mode: RunMode, r: Route) {
    && IsSlotId(r.slot)
    && IsRosSegment(r.sourceBody)
    && IsRosSegment(r.canonicalBody)
    && r.samplePeriodNs > 0
    && r.sourceUncertaintyNs > 0
    && DomainFits(mode, r.sourceDomain)
  }

  // Two routes that may appear in one policy.
  predicate RoutesApart(a: Route, b: Route) {
    && a.slot != b.slot
    && a.canonicalBody != b.canonicalBody
    && (a.sourceDomain, a.sourceBody) != (b.sourceDomain, b.sourceBody)
  }

  lemma ApartByNames(a: Route, b: Route)
    ensures RoutesApart(a, b) <==>
            a.slot != b.slot && a.canonicalBody != b.canonicalBody && RawSource(a) != RawSource(b)
  {
    RawSourceIsInjective(a, b);
  }

  // The names taken by some routes.
  ghost predicate Named(before: seq<Route>, slots: set<string>, bodies: set<string>, sources: set<string>) {
    && slots == (set j | 0 <= j < |before| :: before[j].slot)
    && bodies == (set j | 0 <= j < |before| :: before[j].canonicalBody)
    && sources == set j | 0 <= j < |before| :: RawSource(before[j])
  }

  lemma NoneNamed()
    ensures Named([], {}, {}, {})
  {
  }

  lemma NamedNext(before: seq<Route>, route: Route, slots: set<string>, bodies: set<string>, sources: set<string>)
    requires Named(before, slots, bodies, sources)
    ensures Named(before + [route], slots + {route.slot}, bodies + {route.canonicalBody}, sources + {RawSource(route)})
  {
    hide RawSource;
    var longer := before + [route];
    assert forall j :: 0 <= j < |before| ==> longer[j] == before[j];
    assert longer[|before|] == route;
  }

  // A route is apart from those before it exactly when it repeats no name of theirs.
  lemma NamesTellApart(before: seq<Route>, route: Route, slots: set<string>, bodies: set<string>, sources: set<string>)
    requires Named(before, slots, bodies, sources)
    ensures (route.slot in slots || route.canonicalBody in bodies || RawSource(route) in sources)
            <==> exists j :: 0 <= j < |before| && !RoutesApart(before[j], route)
  {
    hide RawSource, RoutesApart;
    forall j | 0 <= j < |before|
      ensures RoutesApart(before[j], route) <==>
              before[j].slot != route.slot && before[j].canonicalBody != route.canonicalBody
              && RawSource(before[j]) != RawSource(route)
    {
      ApartByNames(before[j], route);
    }
  }

  predicate HasDomain(routes: seq<Route>, domain: SourceDomain) {
    exists i :: 0 <= i < |routes| && routes[i].sourceDomain == domain
  }

  // The frozen route table: legal, pairwise apart, and both domains in hybrid.
  predicate RoutesValid(mode: RunMode, routes: seq<Route>) {
    && (forall i :: 0 <= i < |routes| ==> RouteLegal(mode, routes[i]))
    && (forall i, j :: 0 <= i < j < |routes| ==> RoutesApart(routes[i], routes[j]))
    && (mode == Hybrid ==> HasDomain(routes, SimulationSource) && HasDomain(routes, PhysicalSource))
  }

  method ValidateRoutes(mode: RunMode, routes: seq<Route>) returns (ok: bool)
    ensures ok <==> RoutesValid(mode, routes)
  {
    hide IsSlotId, IsRosSegment, RawSource, RoutesApart, Named;
    NoneNamed();
    if |routes| == 0 {
      return mode != Hybrid;
    }
    var slots: set<string>, bodies: set<string>, sources: set<string> := {}, {}, {};
    var hasSimulation, hasPhysical := false, false;
    for i := 0 to |routes|
      invariant Named(routes[..i], slots, bodies, sources)
      invariant forall j :: 0 <= j < i ==> RouteLegal(mode, routes[j])
      invariant forall j, k :: 0 <= j < k < i ==> RoutesApart(routes[j], routes[k])
      invariant hasSimulation <==> HasDomain(routes[..i], SimulationSource)
      invariant hasPhysical <==> HasDomain(routes[..i], PhysicalSource)
    {
      var route := routes[i];
      NamesTellApart(routes[..i], route, slots, bodies, sources);
      if !IsSlotId(route.slot) || !IsRosSegment(route.sourceBody) || !IsRosSegment(route.canonicalBody) {
        return false;
      }
      if route.slot in slots || route.canonicalBody in bodies || RawSource(route) in sources {
        var j :| 0 <= j < i && !RoutesApart(routes[..i][j], route);
        assert !RoutesApart(routes[j], route);
        return false;
      }
      NamedNext(routes[..i], route, slots, bodies, sources);
      slots, bodies, sources := slots + {route.slot}, bodies + {route.canonicalBody}, sources + {RawSource(route)};
      if route.samplePeriodNs == 0 || route.sourceUncertaintyNs == 0 {
        return false;
      }
      assert routes[..i + 1] == routes[..i] + [route];
      hasSimulation := hasSimulation || route.sourceDomain == SimulationSource;
      hasPhysical := hasPhysical || route.sourceDomain == PhysicalSource;
      if mode == Simulation && route.sourceDomain != SimulationSource { return false; }
      if mode == Physical && route.sourceDomain != PhysicalSource { return false; }
    }
    assert routes[..|routes|] == routes;
    ok := mode != Hybrid || (hasSimulation && hasPhysical);
  }

  predicate AffineFieldsPresent(p: ThresholdPolicy) {
    p.estimatorWindow.Some? && p.maxOffsetStepNs.Some? && p.maxDriftPpm.Some? && p.maxJitterNs.Some?
  }
  predicate AffineFieldsAbsent(p: ThresholdPolicy) {
    p.estimatorWindow.None? && p.maxOffsetStepNs.None? && p.maxDriftPpm.None? && p.maxJitterNs.None?
  }
  predicate StationFieldsPresent(p: ThresholdPolicy) {
    p.maxStationWallErrorNs.Some? && p.maxStationWallStepNs.Some?
  }
  predicate StationFieldsAbsent(p: ThresholdPolicy) {
    p.maxStationWallErrorNs.None? && p.maxStationWallStepNs.None?
  }
  predicate RateFieldsPresent(p: ThresholdPolicy) {
    p.minGazeboRealTimeFactor.Some? && p.maxGazeboRealTimeFactor.Some?
  }
  predicate RateFieldsAbsent(p: ThresholdPolicy) {
    p.minGazeboRealTimeFactor.None? && p.maxGazeboRealTimeFactor.None?
  }

  predicate ModeClockPolicyValid(c: FrozenConfig) {
    var p := c.thresholds;
    match c.runMode
    case Simulation =>
      && c.authority == GazeboSimulation && c.mapping == Identity
      && p.maxGazeboClockSkewNs.Some?
      && AffineFieldsAbsent(p) && StationFieldsAbsent(p) && RateFieldsAbsent(p)
    case Physical =>
      && c.authority == StationWallMonotonic && c.mapping == AffineToSession
      && AffineFieldsPresent(p) && StationFieldsPresent(p)
      && p.maxGazeboClockSkewNs.None? && RateFieldsAbsent(p)
    case Hybrid =>
      && c.authority == StationWallMonotonic && c.mapping == AffineToSession
      && AffineFieldsPresent(p) && StationFieldsPresent(p)
      && p.maxGazeboClockSkewNs.Some? && RateFieldsPresent(p)
      && p.minGazeboRealTimeFactor.value <= 1.0 <= p.maxGazeboRealTimeFactor.value
      && p.minGazeboRealTimeFactor.value < p.maxGazeboRealTimeFactor.value
  }

  predicate RouteTimingValid(c: FrozenConfig, r: Route) {
    var halfPeriod := r.samplePeriodNs / 2 + r.samplePeriodNs % 2;
    && halfPeriod <= U64_MAX - c.wireResolutionNs
    && r.sourceUncertaintyNs >= c.wireResolutionNs + halfPeriod
    && c.thresholds.maxUncertaintyNs >= r.sourceUncertaintyNs
    && c.thresholds.maxSampleAgeNs >= r.samplePeriodNs
  }

  predicate SourceTimingValid(c: FrozenConfig)
    requires ModeClockPolicyValid(c)
  {
    var p := c.thresholds;
    && c.wireResolutionNs == 1000
    && c.delayTimestampPolicy == "sample_time"
    && (c.mapping == AffineToSession ==>
          p.maxOffsetStepNs.value >= c.wireResolutionNs && p.maxJitterNs.value >= c.wireResolutionNs)
    && (p.maxGazeboClockSkewNs.Some? ==> p.maxGazeboClockSkewNs.value >= c.wireResolutionNs)
    && (p.maxStationWallStepNs.Some? ==> p.maxStationWallStepNs.value <= p.maxStationWallErrorNs.value)
    && (forall i :: 0 <= i < |c.routes| ==> RouteTimingValid(c, c.routes[i]))
  }

  // Everything the guard's constructor revalidates.
  predicate ConfigValid(c: FrozenConfig) {
    && ThresholdPolicyValid(c.thresholds)
    && RoutesValid(c.runMode, c.routes)
    && ModeClockPolicyValid(c)
    && SourceTimingValid(c)
  }
}
