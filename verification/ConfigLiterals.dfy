// The canonical text of a configuration, pair by pair, under the very key names of
// a policy file (src/core/frozen_config.cpp:209-268 and 674-811).
module ConfigLiterals {
  import opened Numbers
  import opened Types
  import opened Policy
  import opened Decimals
  import opened Floats
  import opened ConfigText
  import opened ConfigKeys
  import opened ConfigFields
  import opened ConfigRoutes
  import opened CanonicalConfig
  import opened FrozenConfigs

  // ---- the pairs of a policy file ----

  function OptionalPair(key: string, value: Option<u64>): seq<Pair> {
    match value
    case None => []
    case Some(n) => [(key, Decimal(n))]
  }

  function RealPair(codec: Codec, key: string, value: Option<real>): seq<Pair> {
    match value
    case None => []
    case Some(r) =>
      match Spelling(codec, r)
      case None => []
      case Some(s) => [(key, s)]
  }

  function HeaderPairs(c: FrozenConfig): seq<Pair> {
    [("schema", "xgc.session-clock-guard.config.v2"),
     ("policy_revision", "xgc.session-clock-guard.builtin-policy.v2"),
     ("session_id", c.sessionId),
     ("session_contract_sha256", c.sessionContractSha256),
     ("run_mode", RunModeText(c.runMode)),
     ("session_clock.authority", AuthorityText(c.authority)),
     ("session_clock.mapping", MappingText(c.mapping)),
     ("vrpn.wire_time_resolution_ns", Decimal(c.wireResolutionNs)),
     ("delay.measurement_enabled", if c.measurementDelayEnabled then "true" else "false"),
     ("delay.timestamp_policy", c.delayTimestampPolicy)]
  }

  function One(key: string, value: string): seq<Pair> { [(key, value)] }

  // The key of a threshold.
  function Threshold(name: string): string { "threshold." + name }

  function LockPairs(codec: Codec, p: ThresholdPolicy): seq<Pair> {
    OptionalPair(Threshold("estimator_window"), p.estimatorWindow)
    + One(Threshold("min_lock_samples"), Decimal(p.minLockSamples))
    + One(Threshold("recover_lock_samples"), Decimal(p.recoverLockSamples))
    + One(Threshold("lost_after_failures"), Decimal(p.lostAfterFailures))
    + One(Threshold("startup_lock_timeout_ns"), Decimal(p.startupLockTimeoutNs))
    + OptionalPair(Threshold("max_offset_step_ns"), p.maxOffsetStepNs)
    + RealPair(codec, Threshold("max_drift_ppm"), p.maxDriftPpm)
    + OptionalPair(Threshold("max_jitter_ns"), p.maxJitterNs)
    + One(Threshold("max_uncertainty_ns"), Decimal(p.maxUncertaintyNs))
  }

  function LimitPairs(codec: Codec, p: ThresholdPolicy): seq<Pair> {
    One(Threshold("max_sample_age_ns"), Decimal(p.maxSampleAgeNs))
    + One(Threshold("max_authority_age_ns"), Decimal(p.maxAuthorityAgeNs))
    + OptionalPair(Threshold("max_gazebo_clock_skew_ns"), p.maxGazeboClockSkewNs)
    + OptionalPair(Threshold("max_station_wall_error_ns"), p.maxStationWallErrorNs)
    + OptionalPair(Threshold("max_station_wall_step_ns"), p.maxStationWallStepNs)
    + RealPair(codec, Threshold("min_gazebo_real_time_factor"), p.minGazeboRealTimeFactor)
    + RealPair(codec, Threshold("max_gazebo_real_time_factor"), p.maxGazeboRealTimeFactor)
    + One(Threshold("guard_poll_period_ns"), Decimal(p.guardPollPeriodNs))
    + One("io.queue_depth", Decimal(p.ioQueueDepth))
  }

  // The key of a route's field.
  function RouteKey(slot: string, name: string): string { "route." + slot + "." + name }

  function PairsOfRoute(r: Route): seq<Pair> {
    [(RouteKey(r.slot, "source_domain"), DomainText(r.sourceDomain)),
     (RouteKey(r.slot, "source_body"), r.sourceBody),
     (RouteKey(r.slot, "canonical_body"), r.canonicalBody),
     (RouteKey(r.slot, "sample_period_ns"), Decimal(r.samplePeriodNs)),
     (RouteKey(r.slot, "source_uncertainty_ns"), Decimal(r.sourceUncertaintyNs))]
  }

  function PairsOfRoutes(routes: seq<Route>): seq<Pair> {
    if routes == [] then [] else PairsOfRoutes(routes[..|routes| - 1]) + PairsOfRoute(routes[|routes| - 1])
  }

  // Everything a policy file says, in the order it says it.
  function FilePairs(codec: Codec, c: FrozenConfig): seq<Pair> {
    HeaderPairs(c) + LockPairs(codec, c.thresholds) + LimitPairs(codec, c.thresholds) + PairsOfRoutes(c.routes)
  }

  // ---- they are the canonical entries ----

  lemma NextPair(codec: Codec, c: FrozenConfig, n: nat, k: ScalarKey)
    requires Place(k) == n
    ensures |ORDER| == 28 && n < 28
    ensures ScalarPairs(codec, c, n + 1) == ScalarPairs(codec, c, n) + PresentPair(codec, c, k)
  {
    hide PresentPair;
    PlaceTellsKey(k);
  }

  lemma HeaderPresent(codec: Codec, c: FrozenConfig, k: ScalarKey)
    requires Place(k) < 10
    ensures |HeaderPairs(c)| == 10 && PresentPair(codec, c, k) == [HeaderPairs(c)[Place(k)]]
  {
    hide HeaderPairs, PresentPair;
    HeaderIsTen(c);
    if Place(k) < 5 { FirstHeaderPresent(codec, c, k); } else { LastHeaderPresent(codec, c, k); }
  }

  lemma FirstHeaderPresent(codec: Codec, c: FrozenConfig, k: ScalarKey)
    requires Place(k) < 5
    ensures |HeaderPairs(c)| == 10 && PresentPair(codec, c, k) == [HeaderPairs(c)[Place(k)]]
  {
    hide Decimal, RunModeText, AuthorityText, MappingText, ThresholdName, Spelling;
  }

  lemma LastHeaderPresent(codec: Codec, c: FrozenConfig, k: ScalarKey)
    requires 5 <= Place(k) < 10
    ensures |HeaderPairs(c)| == 10 && PresentPair(codec, c, k) == [HeaderPairs(c)[Place(k)]]
  {
    hide Decimal, RunModeText, AuthorityText, MappingText, ThresholdName, Spelling;
  }

  lemma ScalarHeader(codec: Codec, c: FrozenConfig)
    ensures |ORDER| == 28 && ScalarPairs(codec, c, 10) == HeaderPairs(c)
  {
    hide PresentPair, HeaderPairs, ORDER, ScalarPairs;
    HeaderIsTen(c);
    NothingPaired(codec, c);
    NextHeader(codec, c, 0, SchemaKey);
    NextHeader(codec, c, 1, RevisionKey);
    NextHeader(codec, c, 2, SessionKey);
    NextHeader(codec, c, 3, ContractKey);
    NextHeader(codec, c, 4, ModeKey);
    NextHeader(codec, c, 5, AuthorityKey);
    NextHeader(codec, c, 6, MappingKey);
    NextHeader(codec, c, 7, WireResolutionKey);
    NextHeader(codec, c, 8, DelayEnabledKey);
    NextHeader(codec, c, 9, DelayPolicyKey);
    assert HeaderPairs(c)[..10] == HeaderPairs(c);
  }

  lemma HeaderIsTen(c: FrozenConfig)
    ensures |HeaderPairs(c)| == 10
  {
  }

  lemma NothingPaired(codec: Codec, c: FrozenConfig)
    ensures |ORDER| == 28 && ScalarPairs(codec, c, 0) == [] && HeaderPairs(c)[..0] == []
  {
    PlaceTellsKey(SchemaKey);
  }

  lemma NextHeader(codec: Codec, c: FrozenConfig, n: nat, k: ScalarKey)
    requires Place(k) == n < 10
    requires |ORDER| == 28 && n < |HeaderPairs(c)| == 10 && ScalarPairs(codec, c, n) == HeaderPairs(c)[..n]
    ensures ScalarPairs(codec, c, n + 1) == HeaderPairs(c)[..n + 1]
  {
    hide PresentPair, HeaderPairs;
    NextPair(codec, c, n, k);
    HeaderPresent(codec, c, k);
  }

  // The pair of a threshold, by its name.
  lemma ThresholdPresent(codec: Codec, c: FrozenConfig, k: ScalarKey)
    requires 10 <= Place(k) < 27
    ensures PresentPair(codec, c, k) == (match FieldText(codec, c, k)
                                         case None => []
                                         case Some(s) => One(Threshold(ThresholdName(k)), s))
  {
    hide FieldText, ThresholdName;
  }

  lemma LockPresent(codec: Codec, c: FrozenConfig)
    ensures var p := c.thresholds;
            && PresentPair(codec, c, WindowKey) == OptionalPair(Threshold("estimator_window"), p.estimatorWindow)
            && PresentPair(codec, c, MinLockKey) == One(Threshold("min_lock_samples"), Decimal(p.minLockSamples))
            && PresentPair(codec, c, RecoverLockKey) == One(Threshold("recover_lock_samples"), Decimal(p.recoverLockSamples))
  {
    hide PresentPair, Decimal, Threshold;
    ThresholdPresent(codec, c, WindowKey);
    ThresholdPresent(codec, c, MinLockKey);
    ThresholdPresent(codec, c, RecoverLockKey);
  }

  lemma LossPresent(codec: Codec, c: FrozenConfig)
    ensures var p := c.thresholds;
            && PresentPair(codec, c, LostAfterKey) == One(Threshold("lost_after_failures"), Decimal(p.lostAfterFailures))
            && PresentPair(codec, c, StartupTimeoutKey)
               == One(Threshold("startup_lock_timeout_ns"), Decimal(p.startupLockTimeoutNs))
  {
    hide PresentPair, Decimal, Threshold;
    ThresholdPresent(codec, c, LostAfterKey);
    ThresholdPresent(codec, c, StartupTimeoutKey);
  }

  lemma QualityPresent(codec: Codec, c: FrozenConfig)
    ensures var p := c.thresholds;
            && PresentPair(codec, c, OffsetStepKey) == OptionalPair(Threshold("max_offset_step_ns"), p.maxOffsetStepNs)
            && PresentPair(codec, c, DriftKey) == RealPair(codec, Threshold("max_drift_ppm"), p.maxDriftPpm)
            && PresentPair(codec, c, JitterKey) == OptionalPair(Threshold("max_jitter_ns"), p.maxJitterNs)
            && PresentPair(codec, c, UncertaintyKey) == One(Threshold("max_uncertainty_ns"), Decimal(p.maxUncertaintyNs))
  {
    hide PresentPair, Decimal, Spelling, Threshold;
    ThresholdPresent(codec, c, OffsetStepKey);
    ThresholdPresent(codec, c, DriftKey);
    ThresholdPresent(codec, c, JitterKey);
    ThresholdPresent(codec, c, UncertaintyKey);
  }

  lemma AgePresent(codec: Codec, c: FrozenConfig)
    ensures var p := c.thresholds;
            && PresentPair(codec, c, SampleAgeKey) == One(Threshold("max_sample_age_ns"), Decimal(p.maxSampleAgeNs))
            && PresentPair(codec, c, AuthorityAgeKey) == One(Threshold("max_authority_age_ns"), Decimal(p.maxAuthorityAgeNs))
            && PresentPair(codec, c, SkewKey)
               == OptionalPair(Threshold("max_gazebo_clock_skew_ns"), p.maxGazeboClockSkewNs)
            && PresentPair(codec, c, WallErrorKey)
               == OptionalPair(Threshold("max_station_wall_error_ns"), p.maxStationWallErrorNs)
            && PresentPair(codec, c, WallStepKey)
               == OptionalPair(Threshold("max_station_wall_step_ns"), p.maxStationWallStepNs)
  {
    hide PresentPair, Decimal, Threshold;
    ThresholdPresent(codec, c, SampleAgeKey);
    ThresholdPresent(codec, c, AuthorityAgeKey);
    ThresholdPresent(codec, c, SkewKey);
    ThresholdPresent(codec, c, WallErrorKey);
    ThresholdPresent(codec, c, WallStepKey);
  }

  lemma RatePresent(codec: Codec, c: FrozenConfig)
    ensures var p := c.thresholds;
            && PresentPair(codec, c, MinRateKey)
               == RealPair(codec, Threshold("min_gazebo_real_time_factor"), p.minGazeboRealTimeFactor)
            && PresentPair(codec, c, MaxRateKey)
               == RealPair(codec, Threshold("max_gazebo_real_time_factor"), p.maxGazeboRealTimeFactor)
            && PresentPair(codec, c, PollPeriodKey) == One(Threshold("guard_poll_period_ns"), Decimal(p.guardPollPeriodNs))
            && PresentPair(codec, c, QueueDepthKey) == One("io.queue_depth", Decimal(p.ioQueueDepth))
  {
    hide PresentPair, Decimal, Spelling, Threshold;
    ThresholdPresent(codec, c, MinRateKey);
    ThresholdPresent(codec, c, MaxRateKey);
    ThresholdPresent(codec, c, PollPeriodKey);
    QueuePresent(codec, c);
  }

  lemma QueuePresent(codec: Codec, c: FrozenConfig)
    ensures PresentPair(codec, c, QueueDepthKey) == One("io.queue_depth", Decimal(c.thresholds.ioQueueDepth))
  {
    hide Decimal, ThresholdName;
  }

  lemma Regrouped(s: seq<Pair>, a: seq<Pair>, b: seq<Pair>, c: seq<Pair>, d: seq<Pair>, e: seq<Pair>, f: seq<Pair>, g: seq<Pair>,
                  h: seq<Pair>, i: seq<Pair>)
    ensures s + a + b + c + d + e + f + g + h + i == s + (a + b + c + d + e + f + g + h + i)
  {
    Associates(s, a, b);
    Associates(s, a + b, c);
    Associates(s, a + b + c, d);
    Associates(s, a + b + c + d, e);
    Associates(s, a + b + c + d + e, f);
    Associates(s, a + b + c + d + e + f, g);
    Associates(s, a + b + c + d + e + f + g, h);
    Associates(s, a + b + c + d + e + f + g + h, i);
  }

  lemma Associates(s: seq<Pair>, a: seq<Pair>, b: seq<Pair>)
    ensures s + a + b == s + (a + b)
  {
  }

  lemma LocksPlaced()
    ensures Place(WindowKey) == 10 && Place(MinLockKey) == 11 && Place(RecoverLockKey) == 12
    ensures Place(LostAfterKey) == 13 && Place(StartupTimeoutKey) == 14 && Place(OffsetStepKey) == 15
    ensures Place(DriftKey) == 16 && Place(JitterKey) == 17 && Place(UncertaintyKey) == 18
  {
  }

  lemma LocksInRow(codec: Codec, c: FrozenConfig)
    ensures |ORDER| == 28
    ensures ScalarPairs(codec, c, 19) == ScalarPairs(codec, c, 10) + PresentLocks(codec, c)
  {
    hide PresentPair, ORDER, ScalarPairs, Place;
    LocksPlaced();
    PlaceTellsKey(SchemaKey);
    NextPair(codec, c, 10, WindowKey);
    NextPair(codec, c, 11, MinLockKey);
    NextPair(codec, c, 12, RecoverLockKey);
    NextPair(codec, c, 13, LostAfterKey);
    NextPair(codec, c, 14, StartupTimeoutKey);
    NextPair(codec, c, 15, OffsetStepKey);
    NextPair(codec, c, 16, DriftKey);
    NextPair(codec, c, 17, JitterKey);
    NextPair(codec, c, 18, UncertaintyKey);
    Regrouped(ScalarPairs(codec, c, 10), PresentPair(codec, c, WindowKey),
              PresentPair(codec, c, MinLockKey),
              PresentPair(codec, c, RecoverLockKey),
              PresentPair(codec, c, LostAfterKey),
              PresentPair(codec, c, StartupTimeoutKey),
              PresentPair(codec, c, OffsetStepKey),
              PresentPair(codec, c, DriftKey),
              PresentPair(codec, c, JitterKey),
              PresentPair(codec, c, UncertaintyKey));
  }

  function PresentLocks(codec: Codec, c: FrozenConfig): seq<Pair> {
    PresentPair(codec, c, WindowKey)
    + PresentPair(codec, c, MinLockKey)
    + PresentPair(codec, c, RecoverLockKey)
    + PresentPair(codec, c, LostAfterKey)
    + PresentPair(codec, c, StartupTimeoutKey)
    + PresentPair(codec, c, OffsetStepKey)
    + PresentPair(codec, c, DriftKey)
    + PresentPair(codec, c, JitterKey)
    + PresentPair(codec, c, UncertaintyKey)
  }

  lemma LocksAreLiteral(codec: Codec, c: FrozenConfig)
    ensures PresentLocks(codec, c) == LockPairs(codec, c.thresholds)
  {
    hide PresentPair, OptionalPair, RealPair, Decimal, One, Threshold;
    LockPresent(codec, c);
    LossPresent(codec, c);
    QualityPresent(codec, c);
  }

  lemma ScalarLocks(codec: Codec, c: FrozenConfig)
    ensures |ORDER| == 28
    ensures ScalarPairs(codec, c, 19) == ScalarPairs(codec, c, 10) + LockPairs(codec, c.thresholds)
  {
    hide ORDER, ScalarPairs, PresentLocks, LockPairs;
    LocksInRow(codec, c);
    LocksAreLiteral(codec, c);
  }

  lemma LimitsPlaced()
    ensures Place(SampleAgeKey) == 19 && Place(AuthorityAgeKey) == 20 && Place(SkewKey) == 21
    ensures Place(WallErrorKey) == 22 && Place(WallStepKey) == 23 && Place(MinRateKey) == 24
    ensures Place(MaxRateKey) == 25 && Place(PollPeriodKey) == 26 && Place(QueueDepthKey) == 27
  {
  }

  lemma LimitsInRow(codec: Codec, c: FrozenConfig)
    ensures |ORDER| == 28
    ensures ScalarPairs(codec, c, 28) == ScalarPairs(codec, c, 19) + PresentLimits(codec, c)
  {
    hide PresentPair, ORDER, ScalarPairs, Place;
    LimitsPlaced();
    PlaceTellsKey(SchemaKey);
    NextPair(codec, c, 19, SampleAgeKey);
    NextPair(codec, c, 20, AuthorityAgeKey);
    NextPair(codec, c, 21, SkewKey);
    NextPair(codec, c, 22, WallErrorKey);
    NextPair(codec, c, 23, WallStepKey);
    NextPair(codec, c, 24, MinRateKey);
    NextPair(codec, c, 25, MaxRateKey);
    NextPair(codec, c, 26, PollPeriodKey);
    NextPair(codec, c, 27, QueueDepthKey);
    Regrouped(ScalarPairs(codec, c, 19), PresentPair(codec, c, SampleAgeKey),
              PresentPair(codec, c, AuthorityAgeKey),
              PresentPair(codec, c, SkewKey),
              PresentPair(codec, c, WallErrorKey),
              PresentPair(codec, c, WallStepKey),
              PresentPair(codec, c, MinRateKey),
              PresentPair(codec, c, MaxRateKey),
              PresentPair(codec, c, PollPeriodKey),
              PresentPair(codec, c, QueueDepthKey));
  }

  function PresentLimits(codec: Codec, c: FrozenConfig): seq<Pair> {
    PresentPair(codec, c, SampleAgeKey)
    + PresentPair(codec, c, AuthorityAgeKey)
    + PresentPair(codec, c, SkewKey)
    + PresentPair(codec, c, WallErrorKey)
    + PresentPair(codec, c, WallStepKey)
    + PresentPair(codec, c, MinRateKey)
    + PresentPair(codec, c, MaxRateKey)
    + PresentPair(codec, c, PollPeriodKey)
    + PresentPair(codec, c, QueueDepthKey)
  }

  lemma LimitsAreLiteral(codec: Codec, c: FrozenConfig)
    ensures PresentLimits(codec, c) == LimitPairs(codec, c.thresholds)
  {
    hide PresentPair, OptionalPair, RealPair, Decimal, One, Threshold;
    AgePresent(codec, c);
    RatePresent(codec, c);
  }

  lemma ScalarLimits(codec: Codec, c: FrozenConfig)
    ensures |ORDER| == 28
    ensures ScalarPairs(codec, c, 28) == ScalarPairs(codec, c, 19) + LimitPairs(codec, c.thresholds)
  {
    hide ORDER, ScalarPairs, PresentLimits, LimitPairs;
    LimitsInRow(codec, c);
    LimitsAreLiteral(codec, c);
  }

  lemma {:induction false} RoutePairsAreLiteral(routes: seq<Route>)
    ensures RoutePairs(routes) == PairsOfRoutes(routes)
  {
    hide PairsOfRoute, RoutePair;
    if routes != [] {
      var front, r := routes[..|routes| - 1], routes[|routes| - 1];
      RoutePairsAreLiteral(front);
      OneRouteIsLiteral(r);
      var a, b := RoutePairs(front), RoutePairs(routes);
      forall i | 0 <= i < |b| ensures b[i] == (a + PairsOfRoute(r))[i] {
        if i < |a| {
          assert i / 5 < |front|;
        } else {
          assert i / 5 == |front| && i % 5 == i - |a|;
        }
      }
    }
  }

  lemma OneRouteIsLiteral(r: Route)
    ensures |FIELDS| == 5 && |PairsOfRoute(r)| == 5
    ensures forall j :: 0 <= j < 5 ==> PairsOfRoute(r)[j] == RoutePair(r, FIELDS[j])
  {
    hide Decimal, DomainText;
  }

  lemma EntriesAreFilePairs(codec: Codec, c: FrozenConfig)
    ensures Entries(codec, c) == FilePairs(codec, c)
  {
    hide ScalarPairs, HeaderPairs, LockPairs, LimitPairs, RoutePairs, PairsOfRoutes, ORDER;
    ScalarHeader(codec, c);
    ScalarLocks(codec, c);
    ScalarLimits(codec, c);
    RoutePairsAreLiteral(c.routes);
  }

  // A text is that of a configuration exactly when it is, line by line, what that
  // configuration's fields spell under the names of a policy file, in at most one
  // mebibyte, and the configuration is valid, of a legal Session and under the
  // verified digest, with floats that have a spelling and routes in slot order.
  lemma SpelledIsLiteral(codec: Codec, c: FrozenConfig, digest: string, bytes: string)
    ensures Spells(codec, c, digest, bytes) <==>
              && ConfigValid(c) && FloatsSpellable(codec, c.thresholds)
              && IsSessionId(c.sessionId) && IsLowerHexDigest(c.sessionContractSha256)
              && IsLowerHexDigest(digest) && c.policySha256 == digest
              && (forall i, j :: 0 <= i < j < |c.routes| ==> Less(c.routes[i].slot, c.routes[j].slot))
              && bytes == Join(FilePairs(codec, c)) && |bytes| <= 1024 * 1024
  {
    hide ConfigValid, FloatsSpellable, IsSessionId, IsLowerHexDigest, Less, Entries, FilePairs, Join;
    EntriesAreFilePairs(codec, c);
  }
}
