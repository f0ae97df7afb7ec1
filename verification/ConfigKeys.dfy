// The keys of a frozen policy and what each one holds
// (src/core/frozen_config.cpp:186-268 and 615-811).
module ConfigKeys {
  import opened ConfigText

  const SCHEMA := "xgc.session-clock-guard.config.v2"
  const REVISION := "xgc.session-clock-guard.builtin-policy.v2"

  // ---- scalar keys ----

  datatype ScalarKey =
    | SchemaKey | RevisionKey | SessionKey | ContractKey | ModeKey | AuthorityKey | MappingKey
    | WireResolutionKey | DelayEnabledKey | DelayPolicyKey
    | WindowKey | MinLockKey | RecoverLockKey | LostAfterKey | StartupTimeoutKey | OffsetStepKey | DriftKey | JitterKey
    | UncertaintyKey | SampleAgeKey | AuthorityAgeKey | SkewKey | WallErrorKey | WallStepKey | MinRateKey | MaxRateKey
    | PollPeriodKey | QueueDepthKey

  const ORDER: seq<ScalarKey> := [
    SchemaKey, RevisionKey, SessionKey, ContractKey, ModeKey, AuthorityKey, MappingKey,
    WireResolutionKey, DelayEnabledKey, DelayPolicyKey,
    WindowKey, MinLockKey, RecoverLockKey, LostAfterKey, StartupTimeoutKey, OffsetStepKey, DriftKey, JitterKey,
    UncertaintyKey, SampleAgeKey, AuthorityAgeKey, SkewKey, WallErrorKey, WallStepKey, MinRateKey, MaxRateKey,
    PollPeriodKey, QueueDepthKey]

  // The name of a threshold.
  function ThresholdName(k: ScalarKey): string {
    match k
    case WindowKey => "estimator_window"
    case MinLockKey => "min_lock_samples"
    case RecoverLockKey => "recover_lock_samples"
    case LostAfterKey => "lost_after_failures"
    case StartupTimeoutKey => "startup_lock_timeout_ns"
    case OffsetStepKey => "max_offset_step_ns"
    case DriftKey => "max_drift_ppm"
    case JitterKey => "max_jitter_ns"
    case UncertaintyKey => "max_uncertainty_ns"
    case SampleAgeKey => "max_sample_age_ns"
    case AuthorityAgeKey => "max_authority_age_ns"
    case SkewKey => "max_gazebo_clock_skew_ns"
    case WallErrorKey => "max_station_wall_error_ns"
    case WallStepKey => "max_station_wall_step_ns"
    case MinRateKey => "min_gazebo_real_time_factor"
    case MaxRateKey => "max_gazebo_real_time_factor"
    case PollPeriodKey => "guard_poll_period_ns"
    case _ => ""
  }

  function KeyText(k: ScalarKey): string {
    match k
    case SchemaKey => "schema"
    case RevisionKey => "policy_revision"
    case SessionKey => "session_id"
    case ContractKey => "session_contract_sha256"
    case ModeKey => "run_mode"
    case AuthorityKey => "session_clock.authority"
    case MappingKey => "session_clock.mapping"
    case WireResolutionKey => "vrpn.wire_time_resolution_ns"
    case DelayEnabledKey => "delay.measurement_enabled"
    case DelayPolicyKey => "delay.timestamp_policy"
    case QueueDepthKey => "io.queue_depth"
    case _ => "threshold." + ThresholdName(k)
  }

  // The place of a key in the canonical order.
  function Place(k: ScalarKey): (n: nat)
    ensures n < 28
  {
    match k
    case SchemaKey => 0
    case RevisionKey => 1
    case SessionKey => 2
    case ContractKey => 3
    case ModeKey => 4
    case AuthorityKey => 5
    case MappingKey => 6
    case WireResolutionKey => 7
    case DelayEnabledKey => 8
    case DelayPolicyKey => 9
    case WindowKey => 10
    case MinLockKey => 11
    case RecoverLockKey => 12
    case LostAfterKey => 13
    case StartupTimeoutKey => 14
    case OffsetStepKey => 15
    case DriftKey => 16
    case JitterKey => 17
    case UncertaintyKey => 18
    case SampleAgeKey => 19
    case AuthorityAgeKey => 20
    case SkewKey => 21
    case WallErrorKey => 22
    case WallStepKey => 23
    case MinRateKey => 24
    case MaxRateKey => 25
    case PollPeriodKey => 26
    case QueueDepthKey => 27
  }

  // Its length and two of its characters already tell a key's place.
  function PlaceOf(s: string): nat {
    var n := |s|;
    var x := if n < 15 then ' ' else s[11];
    var y := if n < 15 then ' ' else s[14];
    if n == 6 then 0 else if n == 15 then 1 else if n == 10 then 2
    else if n == 23 then (if y == 'c' then 3 else if y == 'a' then 5 else if y == 'd' then 16 else 17)
    else if n == 8 then 4 else if n == 21 then 6
    else if n == 28 then (if y == '_' then 7 else if y == 'o' then 15 else 18)
    else if n == 25 then 8 else if n == 22 then 9
    else if n == 26 then (if y == 'm' then 10 else 11)
    else if n == 30 then (if y == 'v' then 12 else if y == 'a' then 20 else 26)
    else if n == 29 then 13 else if n == 33 then 14 else if n == 27 then 19
    else if n == 34 then (if y == 'g' then 21 else 23)
    else if n == 35 then 22
    else if n == 37 then (if x == 'i' then 24 else 25)
    else 27
  }

  lemma TextTellsPlace(k: ScalarKey)
    ensures PlaceOf(KeyText(k)) == Place(k)
  {
    hide KeyText, PlaceOf;
    if Place(k) < 5 {
      FirstHeaderTellsPlace(k);
    } else if Place(k) < 10 {
      LastHeaderTellsPlace(k);
    } else if Place(k) < 19 {
      LockTextTellsPlace(k);
    } else if Place(k) < 23 {
      LimitTextTellsPlace(k);
    } else {
      LastTextTellsPlace(k);
    }
  }

  lemma FirstHeaderTellsPlace(k: ScalarKey)
    requires Place(k) < 5
    ensures PlaceOf(KeyText(k)) == Place(k)
  {
    hide ThresholdName;
  }

  lemma LastHeaderTellsPlace(k: ScalarKey)
    requires 5 <= Place(k) < 10
    ensures PlaceOf(KeyText(k)) == Place(k)
  {
    hide ThresholdName;
  }

  lemma LockTextTellsPlace(k: ScalarKey)
    requires 10 <= Place(k) < 19
    ensures PlaceOf(KeyText(k)) == Place(k)
  {
  }

  lemma LimitTextTellsPlace(k: ScalarKey)
    requires 19 <= Place(k) < 23
    ensures PlaceOf(KeyText(k)) == Place(k)
  {
  }

  lemma LastTextTellsPlace(k: ScalarKey)
    requires 23 <= Place(k)
    ensures PlaceOf(KeyText(k)) == Place(k)
  {
  }

  lemma PlaceTellsKey(k: ScalarKey)
    ensures |ORDER| == 28 && ORDER[Place(k)] == k
  {
  }

  lemma PlaceInOrder(n: nat)
    requires n < 28
    ensures |ORDER| == 28 && Place(ORDER[n]) == n
  {
  }

  // Different keys have different texts.
  lemma KeyTextIsInjective(a: ScalarKey, b: ScalarKey)
    ensures KeyText(a) == KeyText(b) ==> a == b
  {
    hide KeyText, PlaceOf, Place;
    TextTellsPlace(a);
    TextTellsPlace(b);
    PlaceTellsKey(a);
    PlaceTellsKey(b);
  }

  predicate NameChar(c: char) { 'a' <= c <= 'z' || '0' <= c <= '9' || c == '_' || c == '.' }

  // The characters of every key text.
  predicate NameText(s: string) { forall c :: c in s ==> NameChar(c) }

  // The names are looked at in parts of the table.
  lemma FirstHeaderIsName(k: ScalarKey)
    requires Place(k) < 6
    ensures NameText(KeyText(k))
  {
    hide ThresholdName;
  }

  lemma MiddleHeaderIsName(k: ScalarKey)
    requires 6 <= Place(k) < 8
    ensures NameText(KeyText(k))
  {
    hide ThresholdName;
  }

  lemma QueueDepthIsName()
    ensures NameText(KeyText(QueueDepthKey))
  {
    hide ThresholdName;
  }

  lemma LastHeaderIsName(k: ScalarKey)
    requires 8 <= Place(k) < 10
    ensures NameText(KeyText(k))
  {
    hide ThresholdName;
  }

  lemma FirstThresholdIsName(k: ScalarKey)
    requires 10 <= Place(k) < 14
    ensures NameText(ThresholdName(k))
  {
  }

  lemma NextThresholdIsName(k: ScalarKey)
    requires 14 <= Place(k) < 19
    ensures NameText(ThresholdName(k))
  {
  }

  lemma MiddleThresholdIsName(k: ScalarKey)
    requires 19 <= Place(k) < 24
    ensures NameText(ThresholdName(k))
  {
  }

  lemma LastThresholdIsName(k: ScalarKey)
    requires 24 <= Place(k) < 27
    ensures NameText(ThresholdName(k))
  {
  }

  lemma KeyIsName(k: ScalarKey)
    ensures NameText(KeyText(k)) && KeyText(k) != ""
  {
    hide ThresholdName, NameText;
    if Place(k) < 6 {
      FirstHeaderIsName(k);
    } else if Place(k) < 8 {
      MiddleHeaderIsName(k);
    } else if Place(k) < 10 {
      LastHeaderIsName(k);
    } else if k == QueueDepthKey {
      QueueDepthIsName();
    } else {
      if Place(k) < 14 {
        FirstThresholdIsName(k);
      } else if Place(k) < 19 {
        NextThresholdIsName(k);
      } else if Place(k) < 24 {
        MiddleThresholdIsName(k);
      } else {
        LastThresholdIsName(k);
      }
      ThresholdIsName(ThresholdName(k));
    }
  }

  lemma ThresholdIsName(name: string)
    requires NameText(name)
    ensures NameText("threshold." + name)
  {
    assert NameText("threshold.");
  }

  lemma NameIsLegal(s: string)
    requires NameText(s) && s != ""
    ensures LegalText(s) && s[0] != '#'
  {
    forall i | 0 <= i < |s| ensures LegalChar(s[i]) {
      assert s[i] in s;
    }
    assert s[0] in s;
  }
}
