// The frozen-policy parser (src/core/frozen_config.cpp:570-820): it accepts
// exactly the canonical texts, each as the one configuration it spells.
module FrozenConfigs {
  import opened Types
  import opened Policy
  import opened Floats
  import opened ConfigText
  import opened ConfigKeys
  import opened ConfigFields
  import opened ConfigRoutes
  import opened CanonicalConfig

  // ---- what the values determine ----

  predicate NamesSlot(key: string, slot: string) {
    RouteKeyOf(key).Some? && RouteKeyOf(key).value.0 == slot
  }

  ghost predicate IsScalar(key: string) { exists k :: key == KeyText(k) }

  ghost predicate KnownKeys(values: map<string, string>) {
    forall key :: key in values ==> IsScalar(key) || RouteKeyOf(key).Some?
  }

  // The slots the route keys name, in order.
  ghost predicate SlotsCover(values: map<string, string>, slots: seq<string>) {
    Sorted(slots) && forall s :: s in slots <==> exists key :: key in values && NamesSlot(key, s)
  }

  function Assembled(codec: Codec, values: map<string, string>, slots: seq<string>, digest: string): Option<FrozenConfig> {
    match (ReadScalars(codec, values, digest), ReadRoutes(values, slots))
    case (Some(c), Some(routes)) => Some(c.(routes := routes))
    case _ => None
  }

  // The assembled configuration is the one the values hold under the digest.
  lemma AssembledWhenHeld(codec: Codec, values: map<string, string>, slots: seq<string>, digest: string, c: FrozenConfig)
    ensures Assembled(codec, values, slots, digest) == Some(c) <==>
            && c.policySha256 == digest && HeaderLegal(c) && FloatsSpellable(codec, c.thresholds)
            && ScalarsHeld(codec, values, c)
            && slots == SlotsOf(c.routes) && forall i :: 0 <= i < |c.routes| ==> RouteHeld(values, c.routes[i])
  {
    hide ReadScalars, ReadRoutes, HeaderLegal, FloatsSpellable, ScalarsHeld, RouteHeld;
    var bare := c.(routes := []);
    ScalarsInvert(codec, values, digest, bare);
    RoutesInvert(values, slots, c.routes);
    BareScalars(codec, values, c);
    if Assembled(codec, values, slots, digest) == Some(c) {
      assert ReadScalars(codec, values, digest).value.(routes := []) == bare;
      ScalarsInvert(codec, values, digest, ReadScalars(codec, values, digest).value);
    }
  }

  // The scalar fields do not depend on the routes.
  lemma BareScalars(codec: Codec, values: map<string, string>, c: FrozenConfig)
    ensures var bare := c.(routes := []);
            && (HeaderLegal(bare) <==> HeaderLegal(c))
            && (FloatsSpellable(codec, bare.thresholds) <==> FloatsSpellable(codec, c.thresholds))
            && (ScalarsHeld(codec, values, bare) <==> ScalarsHeld(codec, values, c))
  {
    hide KeyText, Lookup, FloatsSpellable, IsSessionId, IsLowerHexDigest;
    var bare := c.(routes := []);
    forall k ensures Holds(codec, values, bare, k) <==> Holds(codec, values, c, k) {
      BareField(codec, c, k);
    }
  }

  lemma BareField(codec: Codec, c: FrozenConfig, k: ScalarKey)
    ensures FieldText(codec, c.(routes := []), k) == FieldText(codec, c, k)
  {
  }

  // The keys of the pairs in canonical order make them the canonical pairs.
  lemma OrderedPairsAreEntries(codec: Codec, ps: seq<Pair>, slots: seq<string>, digest: string, c: FrozenConfig)
    requires PairsLegal(ps) && Assembled(codec, MapOf(ps), slots, digest) == Some(c)
    requires Keys(ps) == Keys(Entries(codec, c))
    ensures ps == Entries(codec, c)
  {
    hide Assembled, Entries, MapOf, Lookup, ScalarsHeld, RouteHeld, FloatsSpellable, HeaderLegal;
    AssembledWhenHeld(codec, MapOf(ps), slots, digest, c);
    assert forall i, j :: 0 <= i < j < |ps| ==> ps[i].0 != ps[j].0;
    MapHolds(ps);
    var es := Entries(codec, c);
    assert |ps| == |Keys(ps)| == |Keys(es)| == |es|;
    forall i | 0 <= i < |ps| ensures ps[i] == es[i] {
      assert Keys(ps)[i] == ps[i].0 && Keys(es)[i] == es[i].0;
      EntriesAreHeld(codec, MapOf(ps), c, es[i]);
      LookupHeld(ps, i);
    }
  }

  lemma LookupHeld(ps: seq<Pair>, i: nat)
    requires PairsLegal(ps) && i < |ps|
    ensures Lookup(MapOf(ps), ps[i].0) == Some(ps[i].1)
  {
    hide PairLegal;
    MapHolds(ps);
  }

  // ---- canonical pairs read back ----

  lemma EntriesHoldScalars(codec: Codec, c: FrozenConfig)
    requires PairsLegal(Entries(codec, c)) && RoutesValid(c.runMode, c.routes)
    ensures ScalarsHeld(codec, MapOf(Entries(codec, c)), c)
  {
    hide KeyText, FieldText, Place, ORDER, ScalarPairs, RoutePairs, PairsLegal, MapOf, RoutesValid, Lookup;
    forall k: ScalarKey ensures Holds(codec, MapOf(Entries(codec, c)), c, k) {
      EntryHoldsScalar(codec, c, k);
    }
  }

  lemma EntryHoldsScalar(codec: Codec, c: FrozenConfig, k: ScalarKey)
    requires PairsLegal(Entries(codec, c)) && RoutesValid(c.runMode, c.routes)
    ensures Lookup(MapOf(Entries(codec, c)), KeyText(k)) == FieldText(codec, c, k)
  {
    hide KeyText, FieldText, ORDER, ScalarPairs, RoutePairs, PairsLegal, MapOf, RoutesValid, RouteKeyOf;
    var es := Entries(codec, c);
    PlaceTellsKey(k);
    MapHoldsLegal(es);
    if FieldText(codec, c, k).Some? {
      var p := (KeyText(k), FieldText(codec, c, k).value);
      ScalarPairsHold(codec, c, |ORDER|, p);
      assert p in es;
    } else if KeyText(k) in MapOf(es) {
      var i :| 0 <= i < |es| && es[i].0 == KeyText(k);
      AbsentFieldHasNoEntry(codec, c, k, i);
    }
  }

  lemma MapHoldsLegal(ps: seq<Pair>)
    requires PairsLegal(ps)
    ensures forall i :: 0 <= i < |ps| ==> ps[i].0 in MapOf(ps) && MapOf(ps)[ps[i].0] == ps[i].1
    ensures forall k :: k in MapOf(ps) ==> exists i :: 0 <= i < |ps| && ps[i].0 == k
  {
    hide PairLegal, MapOf;
    MapHolds(ps);
  }

  lemma AbsentFieldHasNoEntry(codec: Codec, c: FrozenConfig, k: ScalarKey, i: nat)
    requires RoutesValid(c.runMode, c.routes) && FieldText(codec, c, k).None? && i < |Entries(codec, c)|
    ensures Entries(codec, c)[i].0 != KeyText(k)
  {
    hide KeyText, FieldText, ORDER, ScalarPairs, RoutePairs, RoutesValid, RouteKeyOf, Place;
    var n := |ScalarPairs(codec, c, |ORDER|)|;
    var p := Entries(codec, c)[i];
    if i < n {
      ScalarPairsHold(codec, c, |ORDER|, p);
      assert p in ScalarPairs(codec, c, |ORDER|);
      var l :| p.0 == KeyText(l) && FieldText(codec, c, l) == Some(p.1);
      KeyTextIsInjective(k, l);
    } else {
      RouteKeyOfPair(c, i - n);
      ScalarIsNoRoute(k);
    }
  }

  lemma EntriesHoldRoutes(codec: Codec, c: FrozenConfig)
    requires PairsLegal(Entries(codec, c))
    ensures forall i :: 0 <= i < |c.routes| ==> RouteHeld(MapOf(Entries(codec, c)), c.routes[i])
  {
    hide ScalarPairs, RoutePairs, PairsLegal, MapOf, RouteKeyText, RouteFieldText;
    var es := Entries(codec, c);
    MapHoldsLegal(es);
    forall i, f: RouteField | 0 <= i < |c.routes|
      ensures Lookup(MapOf(es), RouteKeyText(c.routes[i].slot, f)) == Some(RouteFieldText(c.routes[i], f))
    {
      var p := RoutePair(c.routes[i], f);
      RoutePairsHold(c.routes, p);
      assert p in es;
    }
  }

  lemma EntriesAreKnown(codec: Codec, c: FrozenConfig)
    requires PairsLegal(Entries(codec, c)) && RoutesValid(c.runMode, c.routes)
    ensures KnownKeys(MapOf(Entries(codec, c)))
  {
    hide KeyText, FieldText, ORDER, ScalarPairs, RoutePairs, PairsLegal, MapOf, RoutesValid, RouteKeyOf, Place;
    var es := Entries(codec, c);
    MapHoldsLegal(es);
    forall key | key in MapOf(es) ensures IsScalar(key) || RouteKeyOf(key).Some? {
      var i :| 0 <= i < |es| && es[i].0 == key;
      EntryIsKnown(codec, c, i);
    }
  }

  lemma EntryIsKnown(codec: Codec, c: FrozenConfig, i: nat)
    requires RoutesValid(c.runMode, c.routes) && i < |Entries(codec, c)|
    ensures var key := Entries(codec, c)[i].0;
            && (IsScalar(key) || RouteKeyOf(key).Some?)
            && (RouteKeyOf(key).Some? ==> RouteKeyOf(key).value.0 in SlotsOf(c.routes))
  {
    hide KeyText, FieldText, ORDER, ScalarPairs, RoutePairs, RoutesValid, RouteKeyOf, Place;
    var n := |ScalarPairs(codec, c, |ORDER|)|;
    var p := Entries(codec, c)[i];
    if i < n {
      ScalarPairsHold(codec, c, |ORDER|, p);
      assert p in ScalarPairs(codec, c, |ORDER|);
      var l :| p.0 == KeyText(l);
      ScalarIsNoRoute(l);
    } else {
      RouteKeyOfPair(c, i - n);
      assert SlotsOf(c.routes)[(i - n) / 5] == c.routes[(i - n) / 5].slot;
    }
  }

  lemma CoveredSlots(codec: Codec, c: FrozenConfig, slots: seq<string>)
    requires PairsLegal(Entries(codec, c)) && RoutesValid(c.runMode, c.routes) && Sorted(SlotsOf(c.routes))
    requires SlotsCover(MapOf(Entries(codec, c)), slots)
    ensures slots == SlotsOf(c.routes)
  {
    hide ScalarPairs, RoutePairs, PairsLegal, MapOf, RouteKeyOf, Sorted, RouteLegal, RoutesApart, HasDomain;
    var es := Entries(codec, c);
    MapHoldsLegal(es);
    forall s ensures s in slots <==> s in SlotsOf(c.routes) {
      if s in slots {
        var key :| key in MapOf(es) && NamesSlot(key, s);
        var i :| 0 <= i < |es| && es[i].0 == key;
        EntryIsKnown(codec, c, i);
      }
      if s in SlotsOf(c.routes) {
        SlotIsNamed(codec, c, s);
      }
    }
    SortedIsUnique(slots, SlotsOf(c.routes));
  }

  lemma SlotIsNamed(codec: Codec, c: FrozenConfig, s: string)
    requires PairsLegal(Entries(codec, c)) && RoutesValid(c.runMode, c.routes) && s in SlotsOf(c.routes)
    ensures exists key :: key in MapOf(Entries(codec, c)) && NamesSlot(key, s)
  {
    hide ScalarPairs, RoutePairs, PairsLegal, MapOf, RouteKeyOf, RouteKeyText, RouteFieldText, IsSlotId, IsRosSegment, HasDomain;
    var es := Entries(codec, c);
    MapHoldsLegal(es);
    var i :| 0 <= i < |c.routes| && c.routes[i].slot == s;
    assert RouteLegal(c.runMode, c.routes[i]);
    var p := RoutePair(c.routes[i], DomainField);
    RoutePairsHold(c.routes, p);
    assert p in es;
    RouteKeySpelling(p.0, s, DomainField);
    assert NamesSlot(p.0, s);
  }

  // The values of a canonical configuration's entries name known keys only and
  // assemble to that configuration.
  lemma EntriesAssemble(codec: Codec, c: FrozenConfig, slots: seq<string>, digest: string)
    requires Canonical(codec, c, digest)
    ensures PairsLegal(Entries(codec, c)) && KnownKeys(MapOf(Entries(codec, c)))
    ensures SlotsCover(MapOf(Entries(codec, c)), slots) ==>
              Assembled(codec, MapOf(Entries(codec, c)), slots, digest) == Some(c)
  {
    hide ThresholdPolicyValid, ModeClockPolicyValid, SourceTimingValid, RoutesValid, HeaderLegal, FloatsSpellable, Sorted,
         Entries, MapOf, KnownKeys, SlotsCover, Assembled, PairsLegal, ScalarsHeld, RouteHeld, Render, SlotsOf;
    EntriesAreLegal(codec, c);
    EntriesAreKnown(codec, c);
    EntriesHoldScalars(codec, c);
    EntriesHoldRoutes(codec, c);
    if SlotsCover(MapOf(Entries(codec, c)), slots) { CoveredSlots(codec, c, slots); }
    AssembledWhenHeld(codec, MapOf(Entries(codec, c)), slots, digest, c);
  }

  // ---- one text, one configuration ----

  // Different canonical configurations have different texts.
  lemma RenderIsInjective(codec: Codec, c: FrozenConfig, d: FrozenConfig, digest: string)
    requires Canonical(codec, c, digest) && Canonical(codec, d, digest) && Render(codec, c) == Render(codec, d)
    ensures c == d
  {
    CanonicalEntries(codec, c, d, digest);
    var values := MapOf(Entries(codec, c));
    hide Canonical, Render, Entries, Assembled, MapOf;
    var slots := SlotsOf(c.routes);
    EntriesCover(codec, c, digest);
    EntriesAssemble(codec, c, slots, digest);
    EntriesAssemble(codec, d, slots, digest);
  }

  lemma CanonicalEntries(codec: Codec, c: FrozenConfig, d: FrozenConfig, digest: string)
    requires Canonical(codec, c, digest) && Canonical(codec, d, digest) && Render(codec, c) == Render(codec, d)
    ensures Entries(codec, c) == Entries(codec, d)
  {
    hide ConfigValid, HeaderLegal, FloatsSpellable, Sorted, Entries, Join, PairsLegal, SlotsOf;
    EntriesAreLegal(codec, c);
    EntriesAreLegal(codec, d);
    JoinIsInjective(Entries(codec, c), Entries(codec, d), 0);
  }

  lemma EntriesCover(codec: Codec, c: FrozenConfig, digest: string)
    requires Canonical(codec, c, digest)
    ensures SlotsCover(MapOf(Entries(codec, c)), SlotsOf(c.routes))
  {
    EntriesAreLegal(codec, c);
    hide ThresholdPolicyValid, ModeClockPolicyValid, SourceTimingValid, RouteLegal, RoutesApart, HeaderLegal, FloatsSpellable,
         MapOf, PairsLegal, Render, ScalarPairs, RoutePairs, RouteKeyOf, HasDomain, Sorted;
    var es := Entries(codec, c);
    MapHoldsLegal(es);
    forall s ensures s in SlotsOf(c.routes) <==> exists key :: key in MapOf(es) && NamesSlot(key, s) {
      if s in SlotsOf(c.routes) { SlotIsNamed(codec, c, s); }
      if key :| key in MapOf(es) && NamesSlot(key, s) {
        var i :| 0 <= i < |es| && es[i].0 == key;
        EntryIsKnown(codec, c, i);
      }
    }
  }

  // ---- the key order ----

  predicate FieldPresent(c: FrozenConfig, k: ScalarKey) {
    match FieldOf(c, k)
    case MaybeNumber(o) => o.Some?
    case MaybeReal(o) => o.Some?
    case _ => true
  }

  function Appended(keys: seq<string>, c: FrozenConfig, k: ScalarKey): seq<string> {
    if FieldPresent(c, k) then keys + [KeyText(k)] else keys
  }

  function PresentKeys(c: FrozenConfig, n: nat): seq<string>
    requires n <= |ORDER|
  {
    if n == 0 then [] else Appended(PresentKeys(c, n - 1), c, ORDER[n - 1])
  }

  lemma KeysConcatenate(a: seq<Pair>, b: seq<Pair>)
    ensures Keys(a + b) == Keys(a) + Keys(b)
  {
  }

  lemma PresentWhenText(codec: Codec, c: FrozenConfig, k: ScalarKey)
    requires FloatsSpellable(codec, c.thresholds)
    ensures FieldPresent(c, k) <==> FieldText(codec, c, k).Some?
  {
    hide FieldTable, FloatsSpellable, Spelling, FixedDecimalText, Place;
    FieldsSpellable(codec, c);
    assert ValueSpellable(codec, FieldOf(c, k));
  }

  lemma {:induction false} ScalarKeysArePresent(codec: Codec, c: FrozenConfig, n: nat)
    requires n <= |ORDER| && FloatsSpellable(codec, c.thresholds)
    ensures Keys(ScalarPairs(codec, c, n)) == PresentKeys(c, n)
  {
    hide KeyText, FieldText, FieldPresent, ORDER, FloatsSpellable, Keys;
    if n == 0 {
      NoKeys();
    } else {
      var k := ORDER[n - 1];
      ScalarKeysArePresent(codec, c, n - 1);
      PresentWhenText(codec, c, k);
      KeysConcatenate(ScalarPairs(codec, c, n - 1), PresentPair(codec, c, k));
      PresentPairKeys(codec, c, k);
    }
  }

  lemma NoKeys()
    ensures Keys([]) == []
  {
  }

  lemma PresentPairKeys(codec: Codec, c: FrozenConfig, k: ScalarKey)
    ensures Keys(PresentPair(codec, c, k)) == if FieldText(codec, c, k).Some? then [KeyText(k)] else []
  {
    hide FieldText, KeyText;
  }

  // The key after the first n present ones.
  lemma NextPresent(c: FrozenConfig, n: nat, k: ScalarKey)
    requires Place(k) == n
    ensures |ORDER| == 28 && n < 28
    ensures PresentKeys(c, n + 1) == Appended(PresentKeys(c, n), c, k)
  {
    hide Appended;
    PlaceTellsKey(k);
  }

  function RouteKeys(r: Route): seq<string> {
    [RouteKeyText(r.slot, DomainField), RouteKeyText(r.slot, SourceBodyField), RouteKeyText(r.slot, CanonicalBodyField),
     RouteKeyText(r.slot, PeriodField), RouteKeyText(r.slot, UncertaintyField)]
  }

  lemma NextRouteKeys(routes: seq<Route>, i: nat)
    requires i < |routes|
    ensures Keys(RoutePairs(routes[..i + 1])) == Keys(RoutePairs(routes[..i])) + RouteKeys(routes[i])
  {
    hide RouteKeyText, RouteFieldText;
    var a, b := RoutePairs(routes[..i]), RoutePairs(routes[..i + 1]);
    forall j | 0 <= j < |b| ensures Keys(b)[j] == (Keys(a) + RouteKeys(routes[i]))[j] {
      if j < |a| {
        assert j / 5 < i;
      } else {
        assert j / 5 == i && j % 5 == j - 5 * i;
      }
    }
  }

  // The keys of the header fields.
  method HeaderKeyOrder(c: FrozenConfig) returns (keys: seq<string>)
    ensures |ORDER| == 28 && keys == PresentKeys(c, 10)
  {
    hide KeyText, FieldPresent, ORDER, Appended, PresentKeys;
    NothingPresent(c);
    keys := [];
    keys := Appended(keys, c, SchemaKey); NextPresent(c, 0, SchemaKey);
    keys := Appended(keys, c, RevisionKey); NextPresent(c, 1, RevisionKey);
    keys := Appended(keys, c, SessionKey); NextPresent(c, 2, SessionKey);
    keys := Appended(keys, c, ContractKey); NextPresent(c, 3, ContractKey);
    keys := Appended(keys, c, ModeKey); NextPresent(c, 4, ModeKey);
    keys := Appended(keys, c, AuthorityKey); NextPresent(c, 5, AuthorityKey);
    keys := Appended(keys, c, MappingKey); NextPresent(c, 6, MappingKey);
    keys := Appended(keys, c, WireResolutionKey); NextPresent(c, 7, WireResolutionKey);
    keys := Appended(keys, c, DelayEnabledKey); NextPresent(c, 8, DelayEnabledKey);
    keys := Appended(keys, c, DelayPolicyKey); NextPresent(c, 9, DelayPolicyKey);
  }

  // The keys of the first policy fields after them.
  method LockKeyOrder(c: FrozenConfig, before: seq<string>) returns (keys: seq<string>)
    requires |ORDER| == 28 && before == PresentKeys(c, 10)
    ensures |ORDER| == 28 && keys == PresentKeys(c, 19)
  {
    hide KeyText, FieldPresent, ORDER, Appended, PresentKeys;
    keys := before;
    keys := Appended(keys, c, WindowKey); NextPresent(c, 10, WindowKey);
    keys := Appended(keys, c, MinLockKey); NextPresent(c, 11, MinLockKey);
    keys := Appended(keys, c, RecoverLockKey); NextPresent(c, 12, RecoverLockKey);
    keys := Appended(keys, c, LostAfterKey); NextPresent(c, 13, LostAfterKey);
    keys := Appended(keys, c, StartupTimeoutKey); NextPresent(c, 14, StartupTimeoutKey);
    keys := Appended(keys, c, OffsetStepKey); NextPresent(c, 15, OffsetStepKey);
    keys := Appended(keys, c, DriftKey); NextPresent(c, 16, DriftKey);
    keys := Appended(keys, c, JitterKey); NextPresent(c, 17, JitterKey);
    keys := Appended(keys, c, UncertaintyKey); NextPresent(c, 18, UncertaintyKey);
  }

  // The keys of the remaining policy fields after those.
  method LimitKeyOrder(c: FrozenConfig, before: seq<string>) returns (keys: seq<string>)
    requires |ORDER| == 28 && before == PresentKeys(c, 19)
    ensures |ORDER| == 28 && keys == PresentKeys(c, 28)
  {
    hide KeyText, FieldPresent, ORDER, Appended, PresentKeys;
    keys := before;
    keys := Appended(keys, c, SampleAgeKey); NextPresent(c, 19, SampleAgeKey);
    keys := Appended(keys, c, AuthorityAgeKey); NextPresent(c, 20, AuthorityAgeKey);
    keys := Appended(keys, c, SkewKey); NextPresent(c, 21, SkewKey);
    keys := Appended(keys, c, WallErrorKey); NextPresent(c, 22, WallErrorKey);
    keys := Appended(keys, c, WallStepKey); NextPresent(c, 23, WallStepKey);
    keys := Appended(keys, c, MinRateKey); NextPresent(c, 24, MinRateKey);
    keys := Appended(keys, c, MaxRateKey); NextPresent(c, 25, MaxRateKey);
    keys := Appended(keys, c, PollPeriodKey); NextPresent(c, 26, PollPeriodKey);
    keys := Appended(keys, c, QueueDepthKey); NextPresent(c, 27, QueueDepthKey);
  }

  // The keys of a configuration in the order its policy text must have them.
  method CanonicalKeyOrder(codec: Codec, c: FrozenConfig) returns (keys: seq<string>)
    requires FloatsSpellable(codec, c.thresholds)
    ensures keys == Keys(Entries(codec, c))
  {
    hide KeyText, FieldPresent, FieldText, ORDER, FloatsSpellable, Keys, PresentKeys, ScalarPairs, RoutePairs, RouteKeyText;
    keys := HeaderKeyOrder(c);
    keys := LockKeyOrder(c, keys);
    keys := LimitKeyOrder(c, keys);
    NothingPresent(c);
    ScalarKeysArePresent(codec, c, |ORDER|);
    ghost var scalars := keys;
    for i := 0 to |c.routes|
      invariant keys == scalars + Keys(RoutePairs(c.routes[..i]))
    {
      NextRouteKeys(c.routes, i);
      keys := keys + RouteKeys(c.routes[i]);
    }
    assert c.routes[..|c.routes|] == c.routes;
    KeysConcatenate(ScalarPairs(codec, c, |ORDER|), RoutePairs(c.routes));
  }

  lemma NothingPresent(c: FrozenConfig)
    ensures |ORDER| == 28 && PresentKeys(c, 0) == [] && Keys(RoutePairs(c.routes[..0])) == []
  {
    PlaceTellsKey(SchemaKey);
    hide ORDER;
    assert RoutePairs(c.routes[..0]) == [];
  }

  // ---- the routes ----

  const SCALAR_KEYS: set<string> := set k | k in ORDER :: KeyText(k)

  lemma ScalarKeysAreAll(key: string)
    ensures key in SCALAR_KEYS <==> IsScalar(key)
  {
    hide KeyText, ORDER, Place;
    if k :| key == KeyText(k) {
      PlaceTellsKey(k);
    }
  }

  // The slots named by the route keys, in order; nothing when a key is neither
  // a scalar key nor a route key.
  method CollectSlots(values: map<string, string>) returns (r: Option<seq<string>>)
    ensures r.Some? <==> KnownKeys(values)
    ensures r.Some? ==> SlotsCover(values, r.value)
  {
    hide SCALAR_KEYS, IsScalar, RouteKeyOf, Sorted, Inserted;
    var slots: seq<string> := [];
    var todo := values.Keys;
    NoneSorted();
    while todo != {}
      invariant todo <= values.Keys
      invariant Sorted(slots)
      invariant forall s :: s in slots <==> exists key :: key in values && key !in todo && NamesSlot(key, s)
      invariant forall key :: key in values && key !in todo ==> IsScalar(key) || RouteKeyOf(key).Some?
      decreases |todo|
    {
      var key :| key in todo;
      ScalarKeysAreAll(key);
      var named := RouteKeyOf(key);
      if key in SCALAR_KEYS {
        ScalarNamesNone(key);
      } else if named.None? {
        return None;
      } else if named.value.0 !in slots {
        InsertedIsSorted(slots, named.value.0);
        slots := Inserted(slots, named.value.0);
      }
      assert forall s :: NamesSlot(key, s) <==> named.Some? && s == named.value.0;
      todo := todo - {key};
    }
    return Some(slots);
  }

  lemma NoneSorted()
    ensures Sorted([])
  {
  }

  lemma ScalarNamesNone(key: string)
    requires IsScalar(key)
    ensures RouteKeyOf(key).None?
  {
    hide KeyText, RouteKeyOf;
    var k :| key == KeyText(k);
    ScalarIsNoRoute(k);
  }

  method CollectRoutes(values: map<string, string>, slots: seq<string>) returns (r: Option<seq<Route>>)
    ensures r == ReadRoutes(values, slots)
  {
    hide ReadRoute;
    var routes: seq<Route> := [];
    for i := 0 to |slots|
      invariant ReadRoutes(values, slots[..i]) == Some(routes)
    {
      assert slots[..i + 1][..i] == slots[..i];
      var route := ReadRoute(values, slots[i]);
      if route.None? {
        PrefixFails(values, slots, i + 1);
        return None;
      }
      routes := routes + [route.value];
    }
    assert slots[..|slots|] == slots;
    return Some(routes);
  }

  lemma {:induction false} PrefixFails(values: map<string, string>, slots: seq<string>, n: nat)
    requires n <= |slots| && ReadRoutes(values, slots[..n]).None?
    ensures ReadRoutes(values, slots).None?
  {
    hide ReadRoute;
    if n < |slots| {
      assert slots[..|slots| - 1][..n] == slots[..n];
      PrefixFails(values, slots[..|slots| - 1], n);
    } else {
      assert slots[..n] == slots;
    }
  }

  // ---- the parser ----

  // The text is that of a canonical configuration under the digest.
  ghost predicate Spells(codec: Codec, c: FrozenConfig, digest: string, bytes: string) {
    Canonical(codec, c, digest) && Render(codec, c) == bytes
  }

  // A text is accepted exactly when it is the canonical text of a canonical
  // configuration, and then as that configuration.
  method Parse(codec: Codec, bytes: string, digest: string) returns (r: Option<FrozenConfig>)
    ensures r.Some? ==> Spells(codec, r.value, digest, bytes)
    ensures r.None? ==> forall c :: !Spells(codec, c, digest, bytes)
  {
    hide *;
    if !IsLowerHexDigest(digest) {
      NoDigest(codec, digest, bytes);
      return None;
    }
    var split := SplitPairs(bytes);
    if split.None? {
      NoPairs(codec, digest, bytes);
      return None;
    }
    var (pairs, values) := split.value;
    SpelledPairs(codec, digest, bytes, pairs);
    var collected := CollectSlots(values);
    if collected.None? {
      UnknownKeys(codec, digest, bytes, pairs);
      return None;
    }
    var slots := collected.value;
    SpelledAssembles(codec, digest, bytes, pairs, slots);
    var scalars := ReadScalars(codec, values, digest);
    var routes := CollectRoutes(values, slots);
    AssembledFrom(codec, values, slots, digest);
    if scalars.None? || routes.None? {
      return None;
    }
    var config := scalars.value.(routes := routes.value);
    var routesOk := ValidateRoutes(config.runMode, config.routes);
    if !ThresholdPolicyValid(config.thresholds) || !routesOk || !ModeClockPolicyValid(config) {
      InvalidIsSpelledByNone(codec, config, digest);
      return None;
    }
    if !SourceTimingValid(config) {
      InvalidIsSpelledByNone(codec, config, digest);
      return None;
    }
    AssembledIsLegal(codec, values, slots, digest, config);
    var keys := CanonicalKeyOrder(codec, config);
    if Keys(pairs) != keys {
      return None;
    }
    AcceptedIsSpelled(codec, digest, bytes, pairs, slots, config);
    return Some(config);
  }

  lemma NoDigest(codec: Codec, digest: string, bytes: string)
    requires !IsLowerHexDigest(digest)
    ensures forall c :: !Spells(codec, c, digest, bytes)
  {
    hide ConfigValid, HeaderLegal, FloatsSpellable, Sorted, Render, IsLowerHexDigest;
  }

  lemma SpelledJoins(codec: Codec, c: FrozenConfig, digest: string, bytes: string)
    requires Spells(codec, c, digest, bytes)
    ensures JoinsTo(Entries(codec, c), bytes) && Entries(codec, c) != [] && |bytes| <= MAX_POLICY_BYTES
  {
    hide ConfigValid, HeaderLegal, FloatsSpellable, Sorted, Entries, PairsLegal, Join;
    EntriesAreLegal(codec, c);
  }

  lemma NoPairs(codec: Codec, digest: string, bytes: string)
    requires forall ps :: JoinsTo(ps, bytes) ==> ps == [] || |bytes| > MAX_POLICY_BYTES
    ensures forall c :: !Spells(codec, c, digest, bytes)
  {
    hide Spells, JoinsTo;
    forall c ensures !Spells(codec, c, digest, bytes) {
      if Spells(codec, c, digest, bytes) { SpelledJoins(codec, c, digest, bytes); }
    }
  }

  // Whatever configuration spells the text has the pairs as its entries.
  lemma SpelledPairs(codec: Codec, digest: string, bytes: string, pairs: seq<Pair>)
    requires PairsLegal(pairs) && if pairs == [] then bytes == "\n" else Join(pairs) == bytes
    ensures forall c :: Spells(codec, c, digest, bytes) ==> Entries(codec, c) == pairs
  {
    hide Spells, PairsLegal, Join, Entries;
    forall c | Spells(codec, c, digest, bytes) ensures Entries(codec, c) == pairs {
      SpelledJoins(codec, c, digest, bytes);
      JoinIsClean(Entries(codec, c));
      JoinIsInjective(Entries(codec, c), if pairs == [] then Entries(codec, c) else pairs, 0);
    }
  }

  lemma UnknownKeys(codec: Codec, digest: string, bytes: string, pairs: seq<Pair>)
    requires !KnownKeys(MapOf(pairs))
    requires forall c :: Spells(codec, c, digest, bytes) ==> Entries(codec, c) == pairs
    ensures forall c :: !Spells(codec, c, digest, bytes)
  {
    hide KnownKeys, Entries, Canonical, Render, MapOf;
    forall c ensures !Spells(codec, c, digest, bytes) {
      if Spells(codec, c, digest, bytes) { EntriesAssemble(codec, c, [], digest); }
    }
  }

  lemma SpelledAssembles(codec: Codec, digest: string, bytes: string, pairs: seq<Pair>, slots: seq<string>)
    requires SlotsCover(MapOf(pairs), slots)
    requires forall c :: Spells(codec, c, digest, bytes) ==> Entries(codec, c) == pairs
    ensures forall c :: Spells(codec, c, digest, bytes) ==> Assembled(codec, MapOf(pairs), slots, digest) == Some(c)
  {
    hide SlotsCover, Entries, Canonical, Render, MapOf, Assembled;
    forall c | Spells(codec, c, digest, bytes) ensures Assembled(codec, MapOf(pairs), slots, digest) == Some(c) {
      EntriesAssemble(codec, c, slots, digest);
    }
  }

  lemma AssembledFrom(codec: Codec, values: map<string, string>, slots: seq<string>, digest: string)
    ensures Assembled(codec, values, slots, digest) ==
            (if ReadScalars(codec, values, digest).None? || ReadRoutes(values, slots).None? then None
             else Some(ReadScalars(codec, values, digest).value.(routes := ReadRoutes(values, slots).value)))
  {
    hide ReadScalars, ReadRoutes;
  }

  lemma InvalidIsSpelledByNone(codec: Codec, c: FrozenConfig, digest: string)
    requires !ThresholdPolicyValid(c.thresholds) || !RoutesValid(c.runMode, c.routes) || !ModeClockPolicyValid(c)
             || !SourceTimingValid(c)
    ensures forall bytes :: !Spells(codec, c, digest, bytes)
  {
    hide ThresholdPolicyValid, RoutesValid, ModeClockPolicyValid, SourceTimingValid, HeaderLegal, FloatsSpellable, Render, Sorted;
  }

  lemma AssembledIsLegal(codec: Codec, values: map<string, string>, slots: seq<string>, digest: string, c: FrozenConfig)
    requires Assembled(codec, values, slots, digest) == Some(c)
    ensures c.policySha256 == digest && HeaderLegal(c) && FloatsSpellable(codec, c.thresholds) && slots == SlotsOf(c.routes)
  {
    hide Assembled, HeaderLegal, FloatsSpellable, ScalarsHeld, RouteHeld;
    AssembledWhenHeld(codec, values, slots, digest, c);
  }

  lemma AcceptedIsSpelled(codec: Codec, digest: string, bytes: string, pairs: seq<Pair>, slots: seq<string>, c: FrozenConfig)
    requires PairsLegal(pairs) && |bytes| <= MAX_POLICY_BYTES
    requires if pairs == [] then bytes == "\n" else Join(pairs) == bytes
    requires SlotsCover(MapOf(pairs), slots) && Assembled(codec, MapOf(pairs), slots, digest) == Some(c)
    requires Keys(pairs) == Keys(Entries(codec, c)) && IsLowerHexDigest(digest)
    requires ThresholdPolicyValid(c.thresholds) && RoutesValid(c.runMode, c.routes) && ModeClockPolicyValid(c)
             && SourceTimingValid(c)
    ensures Spells(codec, c, digest, bytes)
  {
    hide ThresholdPolicyValid, RoutesValid, ModeClockPolicyValid, SourceTimingValid, HeaderLegal, FloatsSpellable, Sorted,
         Entries, Assembled, MapOf, Keys, Join, PairsLegal;
    AssembledIsLegal(codec, MapOf(pairs), slots, digest, c);
    EntriesAreLegal(codec, c);
    OrderedPairsAreEntries(codec, pairs, slots, digest, c);
  }
}
