// The example policy files (config/example-*-v24.cfg), line by line, and the
// configurations they are read as.
module ExampleTexts {
  import opened Types
  import opened Policy
  import opened Decimals
  import opened Floats
  import opened ConfigText
  import opened ConfigFields
  import opened ConfigRoutes
  import opened CanonicalConfig
  import opened FrozenConfigs
  import opened ConfigLiterals
  import opened ExamplePolicies

  // The floats of the examples, as the files spell them.
  predicate SpellsExamples(codec: Codec) {
    Spelling(codec, 5000.0) == Some("5000") && Spelling(codec, 0.8) == Some("0.8") && Spelling(codec, 1.2) == Some("1.2")
  }

  // ---- the lines of the files ----

  function ExampleHeaderLines(mode: RunMode): seq<Pair> {
    match mode
    case Simulation =>
      [("schema", "xgc.session-clock-guard.config.v2"),
       ("policy_revision", "xgc.session-clock-guard.builtin-policy.v2"),
       ("session_id", "example-simulation-session"),
       ("session_contract_sha256", Uniform('1')),
       ("run_mode", "simulation"),
       ("session_clock.authority", "gazebo-simulation"),
       ("session_clock.mapping", "identity"),
       ("vrpn.wire_time_resolution_ns", "1000"),
       ("delay.measurement_enabled", "true"),
       ("delay.timestamp_policy", "sample_time")]
    case Physical =>
      [("schema", "xgc.session-clock-guard.config.v2"),
       ("policy_revision", "xgc.session-clock-guard.builtin-policy.v2"),
       ("session_id", "example-physical-session"),
       ("session_contract_sha256", Uniform('2')),
       ("run_mode", "physical"),
       ("session_clock.authority", "station-wall-monotonic"),
       ("session_clock.mapping", "affine-to-session"),
       ("vrpn.wire_time_resolution_ns", "1000"),
       ("delay.measurement_enabled", "true"),
       ("delay.timestamp_policy", "sample_time")]
    case Hybrid =>
      [("schema", "xgc.session-clock-guard.config.v2"),
       ("policy_revision", "xgc.session-clock-guard.builtin-policy.v2"),
       ("session_id", "example-hybrid-session"),
       ("session_contract_sha256", Uniform('0')),
       ("run_mode", "hybrid"),
       ("session_clock.authority", "station-wall-monotonic"),
       ("session_clock.mapping", "affine-to-session"),
       ("vrpn.wire_time_resolution_ns", "1000"),
       ("delay.measurement_enabled", "true"),
       ("delay.timestamp_policy", "sample_time")]
  }

  function ExampleLocksLines(mode: RunMode): seq<Pair> {
    match mode
    case Simulation =>
      [(Threshold("min_lock_samples"), "8"),
       (Threshold("recover_lock_samples"), "4"),
       (Threshold("lost_after_failures"), "3"),
       (Threshold("startup_lock_timeout_ns"), "60000000000"),
       (Threshold("max_uncertainty_ns"), "10000000")]
    case Physical =>
      [(Threshold("estimator_window"), "32"),
       (Threshold("min_lock_samples"), "8"),
       (Threshold("recover_lock_samples"), "4"),
       (Threshold("lost_after_failures"), "3"),
       (Threshold("startup_lock_timeout_ns"), "60000000000"),
       (Threshold("max_offset_step_ns"), "5000000"),
       (Threshold("max_drift_ppm"), "5000"),
       (Threshold("max_jitter_ns"), "3000000"),
       (Threshold("max_uncertainty_ns"), "10000000")]
    case Hybrid =>
      [(Threshold("estimator_window"), "32"),
       (Threshold("min_lock_samples"), "8"),
       (Threshold("recover_lock_samples"), "4"),
       (Threshold("lost_after_failures"), "3"),
       (Threshold("startup_lock_timeout_ns"), "60000000000"),
       (Threshold("max_offset_step_ns"), "5000000"),
       (Threshold("max_drift_ppm"), "5000"),
       (Threshold("max_jitter_ns"), "3000000"),
       (Threshold("max_uncertainty_ns"), "10000000")]
  }

  function ExampleLimitsLines(mode: RunMode): seq<Pair> {
    match mode
    case Simulation =>
      [(Threshold("max_sample_age_ns"), "100000000"),
       (Threshold("max_authority_age_ns"), "100000000"),
       (Threshold("max_gazebo_clock_skew_ns"), "20000000"),
       (Threshold("guard_poll_period_ns"), "25000000"),
       ("io.queue_depth", "32")]
    case Physical =>
      [(Threshold("max_sample_age_ns"), "100000000"),
       (Threshold("max_authority_age_ns"), "100000000"),
       (Threshold("max_station_wall_error_ns"), "20000000"),
       (Threshold("max_station_wall_step_ns"), "5000000"),
       (Threshold("guard_poll_period_ns"), "25000000"),
       ("io.queue_depth", "32")]
    case Hybrid =>
      [(Threshold("max_sample_age_ns"), "100000000"),
       (Threshold("max_authority_age_ns"), "100000000"),
       (Threshold("max_gazebo_clock_skew_ns"), "20000000"),
       (Threshold("max_station_wall_error_ns"), "20000000"),
       (Threshold("max_station_wall_step_ns"), "5000000"),
       (Threshold("min_gazebo_real_time_factor"), "0.8"),
       (Threshold("max_gazebo_real_time_factor"), "1.2"),
       (Threshold("guard_poll_period_ns"), "25000000"),
       ("io.queue_depth", "32")]
  }

  function ExampleRoutesLines(mode: RunMode): seq<Pair> {
    match mode
    case Simulation =>
      [(RouteKey("fs150_1", "source_domain"), "simulation"),
       (RouteKey("fs150_1", "source_body"), "uav1"),
       (RouteKey("fs150_1", "canonical_body"), "uav1"),
       (RouteKey("fs150_1", "sample_period_ns"), "8333333"),
       (RouteKey("fs150_1", "source_uncertainty_ns"), "5000000")]
    case Physical =>
      [(RouteKey("scout_1", "source_domain"), "physical"),
       (RouteKey("scout_1", "source_body"), "ugv1"),
       (RouteKey("scout_1", "canonical_body"), "ugv1"),
       (RouteKey("scout_1", "sample_period_ns"), "10000000"),
       (RouteKey("scout_1", "source_uncertainty_ns"), "6000000")]
    case Hybrid =>
      [(RouteKey("fs150_1", "source_domain"), "simulation"),
       (RouteKey("fs150_1", "source_body"), "uav1"),
       (RouteKey("fs150_1", "canonical_body"), "uav1"),
       (RouteKey("fs150_1", "sample_period_ns"), "8333333"),
       (RouteKey("fs150_1", "source_uncertainty_ns"), "5000000"),
       (RouteKey("scout_1", "source_domain"), "physical"),
       (RouteKey("scout_1", "source_body"), "ugv1"),
       (RouteKey("scout_1", "canonical_body"), "uav7"),
       (RouteKey("scout_1", "sample_period_ns"), "10000000"),
       (RouteKey("scout_1", "source_uncertainty_ns"), "6000000")]
  }

  // The whole file.
  function ExampleLines(mode: RunMode): seq<Pair> {
    ExampleHeaderLines(mode) + ExampleLocksLines(mode) + ExampleLimitsLines(mode) + ExampleRoutesLines(mode)
  }

  function ExampleText(mode: RunMode): string { Join(ExampleLines(mode)) }

  // The policy read under the digest of its file.
  function ExampleUnder(mode: RunMode, digest: string): FrozenConfig {
    ExampleConfig(mode).(policySha256 := digest)
  }

  // ---- the numbers ----

  lemma NextDigit(n: nat, d: nat)
    requires n > 0 && d < 10
    ensures Decimal(10 * n + d) == Decimal(n) + [DigitOf(d)]
  {
  }

  lemma NextTriple(n: nat, a: nat, b: nat, c: nat)
    requires n > 0 && a < 10 && b < 10 && c < 10
    ensures Decimal(1000 * n + 100 * a + 10 * b + c) == Decimal(n) + [DigitOf(a), DigitOf(b), DigitOf(c)]
  {
    hide Decimal, DigitOf;
    NextDigit(n, a);
    NextDigit(10 * n + a, b);
    NextDigit(100 * n + 10 * a + b, c);
    assert Decimal(n) + [DigitOf(a)] + [DigitOf(b)] + [DigitOf(c)] == Decimal(n) + [DigitOf(a), DigitOf(b), DigitOf(c)];
  }

  // A number in thousands.
  lemma Thousands(n: nat, text: string)
    requires n > 0 && Decimal(n) == text
    ensures Decimal(1000 * n) == text + "000"
  {
    hide Decimal;
    NextTriple(n, 0, 0, 0);
    assert [DigitOf(0), DigitOf(0), DigitOf(0)] == "000";
  }

  lemma SmallNumbers()
    ensures Decimal(3) == "3" && Decimal(4) == "4" && Decimal(8) == "8" && Decimal(32) == "32"
    ensures Decimal(1) == "1" && Decimal(5) == "5" && Decimal(6) == "6" && Decimal(10) == "10" && Decimal(20) == "20"
    ensures Decimal(25) == "25" && Decimal(60) == "60" && Decimal(100) == "100"
  {
  }

  lemma ThousandNumbers()
    ensures Decimal(1000) == "1000" && Decimal(3000) == "3000" && Decimal(5000) == "5000" && Decimal(6000) == "6000"
    ensures Decimal(10000) == "10000" && Decimal(20000) == "20000" && Decimal(25000) == "25000"
    ensures Decimal(100000) == "100000" && Decimal(60000) == "60000"
  {
    SmallNumbers();
    hide Decimal;
    Thousands(1, "1");
    Thousands(3, "3");
    Thousands(5, "5");
    Thousands(6, "6");
    Thousands(10, "10");
    Thousands(20, "20");
    Thousands(25, "25");
    Thousands(100, "100");
    Thousands(60, "60");
  }

  lemma MillionNumbers()
    ensures Decimal(3000000) == "3000000" && Decimal(5000000) == "5000000" && Decimal(6000000) == "6000000"
    ensures Decimal(10000000) == "10000000" && Decimal(20000000) == "20000000" && Decimal(25000000) == "25000000"
    ensures Decimal(100000000) == "100000000"
  {
    ThousandNumbers();
    hide Decimal;
    Thousands(3000, "3000");
    Thousands(5000, "5000");
    Thousands(6000, "6000");
    Thousands(10000, "10000");
    Thousands(20000, "20000");
    Thousands(25000, "25000");
    Thousands(100000, "100000");
  }

  lemma MinuteInNanoseconds()
    ensures Decimal(60000000000) == "60000000000"
  {
    ThousandNumbers();
    hide Decimal;
    Thousands(60000, "60000");
    Thousands(60000000, "60000" + "000");
    assert "60000" + "000" + "000" == "60000000000";
  }

  lemma FrameInNanoseconds()
    ensures Decimal(8333333) == "8333333"
  {
    SmallNumbers();
    hide Decimal;
    NextTriple(8, 3, 3, 3);
    NextTriple(8333, 3, 3, 3);
    assert [DigitOf(3), DigitOf(3), DigitOf(3)] == "333";
    assert "8" + "333" + "333" == "8333333";
  }

  // ---- the lines are the canonical pairs ----

  lemma HeaderMatches(mode: RunMode)
    ensures HeaderPairs(ExampleConfig(mode)) == ExampleHeaderLines(mode)
  {
    hide Decimal, Uniform, ExampleThresholds, ExampleRoutes;
    ThousandNumbers();
  }

  lemma LocksMatch(codec: Codec, mode: RunMode)
    requires SpellsExamples(codec)
    ensures LockPairs(codec, ExampleThresholds(mode)) == ExampleLocksLines(mode)
  {
    SmallNumbers();
    MillionNumbers();
    MinuteInNanoseconds();
    hide Decimal, Spelling, Threshold;
  }

  lemma LimitsMatch(codec: Codec, mode: RunMode)
    requires SpellsExamples(codec)
    ensures LimitPairs(codec, ExampleThresholds(mode)) == ExampleLimitsLines(mode)
  {
    SmallNumbers();
    MillionNumbers();
    hide Decimal, Spelling, Threshold;
  }

  lemma PairsOfOne(r: Route)
    ensures PairsOfRoutes([r]) == PairsOfRoute(r)
  {
    assert [r][..0] == [];
    assert PairsOfRoutes([r]) == [] + PairsOfRoute(r);
  }

  lemma PairsOfTwo(q: Route, r: Route)
    ensures PairsOfRoutes([q, r]) == PairsOfRoute(q) + PairsOfRoute(r)
  {
    hide PairsOfRoute;
    PairsOfOne(q);
    assert [q, r][..1] == [q];
  }

  lemma RoutesMatch(mode: RunMode)
    ensures PairsOfRoutes(ExampleRoutes(mode)) == ExampleRoutesLines(mode)
  {
    hide Decimal, RouteKey, PairsOfRoutes;
    MillionNumbers();
    FrameInNanoseconds();
    PairsOfOne(SIMULATED);
    PairsOfOne(TRACKED);
    PairsOfTwo(SIMULATED, TRACKED_AS_UAV);
  }

  lemma LinesMatch(codec: Codec, mode: RunMode, digest: string)
    requires SpellsExamples(codec)
    ensures FilePairs(codec, ExampleUnder(mode, digest)) == ExampleLines(mode)
  {
    hide HeaderPairs, LockPairs, LimitPairs, PairsOfRoutes, ExampleHeaderLines, ExampleLocksLines, ExampleLimitsLines,
         ExampleRoutesLines, ExampleThresholds, ExampleRoutes, SpellsExamples;
    HeaderMatches(mode);
    DigestIsNoLine(mode, digest);
    LocksMatch(codec, mode);
    LimitsMatch(codec, mode);
    RoutesMatch(mode);
  }

  lemma DigestIsNoLine(mode: RunMode, digest: string)
    ensures HeaderPairs(ExampleUnder(mode, digest)) == HeaderPairs(ExampleConfig(mode))
  {
    hide Decimal, ExampleSession, ExampleContract, RunModeText, AuthorityText, MappingText;
  }

  // ---- the policies are canonical ----

  predicate ShortPairs(ps: seq<Pair>) {
    forall i :: 0 <= i < |ps| ==> |ps[i].0| <= 60 && |ps[i].1| <= 64
  }

  lemma {:induction false} ShortJoin(ps: seq<Pair>)
    requires ShortPairs(ps)
    ensures |Join(ps)| <= 126 * |ps|
  {
    if ps != [] { ShortJoin(ps[..|ps| - 1]); }
  }

  lemma LinesAreShort(mode: RunMode)
    ensures ShortPairs(ExampleLines(mode)) && |ExampleLines(mode)| <= 38
  {
    hide ExampleHeaderLines, ExampleLocksLines, ExampleLimitsLines, ExampleRoutesLines;
    HeaderIsShort(mode);
    LocksAreShort(mode);
    LimitsAreShort(mode);
    RoutesAreShort(mode);
  }

  lemma HeaderIsShort(mode: RunMode)
    ensures ShortPairs(ExampleHeaderLines(mode)) && |ExampleHeaderLines(mode)| <= 10
  {
    hide ExampleHeaderLines;
    match mode
    case Simulation => SimulationHeaderIsShort();
    case Physical => PhysicalHeaderIsShort();
    case Hybrid => HybridHeaderIsShort();
  }

  lemma SimulationHeaderIsShort()
    ensures ShortPairs(ExampleHeaderLines(Simulation)) && |ExampleHeaderLines(Simulation)| <= 10
  {
  }

  lemma PhysicalHeaderIsShort()
    ensures ShortPairs(ExampleHeaderLines(Physical)) && |ExampleHeaderLines(Physical)| <= 10
  {
  }

  lemma HybridHeaderIsShort()
    ensures ShortPairs(ExampleHeaderLines(Hybrid)) && |ExampleHeaderLines(Hybrid)| <= 10
  {
  }

  lemma LocksAreShort(mode: RunMode)
    ensures ShortPairs(ExampleLocksLines(mode)) && |ExampleLocksLines(mode)| <= 9
  {
  }

  lemma LimitsAreShort(mode: RunMode)
    ensures ShortPairs(ExampleLimitsLines(mode)) && |ExampleLimitsLines(mode)| <= 9
  {
  }

  lemma RoutesAreShort(mode: RunMode)
    ensures ShortPairs(ExampleRoutesLines(mode)) && |ExampleRoutesLines(mode)| <= 10
  {
  }

  lemma ExampleHeaderLegal(mode: RunMode, digest: string)
    ensures HeaderLegal(ExampleUnder(mode, digest))
  {
    hide ExampleThresholds, ExampleRoutes;
    SessionIsLegal(mode);
    ContractIsLegal(mode);
  }

  lemma SessionIsLegal(mode: RunMode)
    ensures IsSessionId(ExampleSession(mode))
  {
  }

  lemma ContractIsLegal(mode: RunMode)
    ensures IsLowerHexDigest(ExampleContract(mode))
  {
    UniformIsDigest('0');
    UniformIsDigest('1');
    UniformIsDigest('2');
  }

  lemma UniformIsDigest(digit: char)
    requires '0' <= digit <= '9'
    ensures IsLowerHexDigest(Uniform(digit))
  {
  }

  lemma ExampleSlotsSorted(mode: RunMode)
    ensures Sorted(SlotsOf(ExampleRoutes(mode)))
  {
    if mode == Hybrid {
      assert SlotsOf(ExampleRoutes(mode)) == ["fs150_1", "scout_1"];
      assert "fs150_1"[0] < "scout_1"[0];
      assert Less("fs150_1", "scout_1");
    }
  }

  lemma ExampleIsCanonical(codec: Codec, mode: RunMode, digest: string)
    requires SpellsExamples(codec) && IsLowerHexDigest(digest)
    ensures Canonical(codec, ExampleUnder(mode, digest), digest)
  {
    hide IsLowerHexDigest, HeaderLegal, Sorted, SlotsOf, Join, FilePairs, Entries, RouteLegal, RoutesApart, ThresholdPolicyValid,
         RoutesValid, ModeClockPolicyValid, SourceTimingValid, ExampleLines, ExampleContract, ExampleSession, Spelling;
    var c := ExampleUnder(mode, digest);
    ExampleConfigValid(mode, digest);
    ExampleHeaderLegal(mode, digest);
    ExampleSlotsSorted(mode);
    EntriesAreFilePairs(codec, c);
    LinesMatch(codec, mode, digest);
    LinesAreShort(mode);
    ShortJoin(ExampleLines(mode));
  }

  lemma ExampleConfigValid(mode: RunMode, digest: string)
    ensures ConfigValid(ExampleUnder(mode, digest))
  {
    hide ThresholdPolicyValid, RoutesValid, ExampleThresholds, ExampleRoutes, ExampleContract, ExampleSession;
    ExamplesAreValid(mode, 1, 1, 1);
  }

  // ---- what the files are read as ----

  // Under a codec that spells their three floats, each example file is the text of
  // its example policy under the verified digest, and of no other configuration.
  lemma ExampleIsSpelled(codec: Codec, mode: RunMode, digest: string, c: FrozenConfig)
    requires SpellsExamples(codec) && IsLowerHexDigest(digest)
    ensures Spells(codec, c, digest, ExampleText(mode)) <==> c == ExampleUnder(mode, digest)
  {
    hide IsLowerHexDigest, Canonical, Join, FilePairs, ExampleLines, ExampleUnder, Entries, SpellsExamples;
    var d := ExampleUnder(mode, digest);
    ExampleIsCanonical(codec, mode, digest);
    LinesMatch(codec, mode, digest);
    EntriesAreFilePairs(codec, d);
    if Spells(codec, c, digest, ExampleText(mode)) { RenderIsInjective(codec, c, d, digest); }
  }

  // The parser reads it so.
  method ReadExample(codec: Codec, mode: RunMode, digest: string) returns (r: Option<FrozenConfig>)
    requires SpellsExamples(codec) && IsLowerHexDigest(digest)
    ensures r == Some(ExampleUnder(mode, digest))
  {
    hide *;
    r := Parse(codec, ExampleText(mode), digest);
    ExampleIsSpelled(codec, mode, digest, ExampleUnder(mode, digest));
    if r.Some? { ExampleIsSpelled(codec, mode, digest, r.value); }
  }
}
