// The canonical text of a frozen policy: its key=value pairs in one order, for
// configurations in one order of routes (src/core/frozen_config.cpp:209-268).
module CanonicalConfig {
  import opened Types
  import opened Policy
  import opened Decimals
  import opened Floats
  import opened ConfigText
  import opened ConfigKeys
  import opened ConfigFields
  import opened ConfigRoutes

  // The first n scalar fields, those that are present.
  function ScalarPairs(codec: Codec, c: FrozenConfig, n: nat): seq<Pair>
    requires n <= |ORDER|
  {
    if n == 0 then []
    else ScalarPairs(codec, c, n - 1) + PresentPair(codec, c, ORDER[n - 1])
  }

  function PresentPair(codec: Codec, c: FrozenConfig, k: ScalarKey): seq<Pair> {
    match FieldText(codec, c, k)
    case None => []
    case Some(s) => [(KeyText(k), s)]
  }

  function RoutePair(r: Route, f: RouteField): Pair {
    (RouteKeyText(r.slot, f), RouteFieldText(r, f))
  }

  // Five lines for every route.
  function RoutePairs(routes: seq<Route>): (ps: seq<Pair>)
    ensures |ps| == 5 * |routes|
    ensures forall i :: 0 <= i < |ps| ==> ps[i] == RoutePair(routes[i / 5], FIELDS[i % 5])
  {
    seq(5 * |routes|, i requires 0 <= i < 5 * |routes| => RoutePair(routes[i / 5], FIELDS[i % 5]))
  }

  function Entries(codec: Codec, c: FrozenConfig): seq<Pair> {
    ScalarPairs(codec, c, |ORDER|) + RoutePairs(c.routes)
  }

  // The canonical text.
  function Render(codec: Codec, c: FrozenConfig): string { Join(Entries(codec, c)) }

  // The configurations a policy text can hold: valid, with routes in slot order,
  // under the verified digest, with floats that have a canonical spelling, and
  // small enough.
  predicate Canonical(codec: Codec, c: FrozenConfig, digest: string) {
    && ConfigValid(c) && HeaderLegal(c) && FloatsSpellable(codec, c.thresholds)
    && IsLowerHexDigest(digest) && c.policySha256 == digest
    && Sorted(SlotsOf(c.routes))
    && |Render(codec, c)| <= MAX_POLICY_BYTES
  }

  // ---- what the entries hold ----

  lemma {:induction false} ScalarPairsHold(codec: Codec, c: FrozenConfig, n: nat, p: Pair)
    requires n <= |ORDER|
    ensures p in ScalarPairs(codec, c, n) <==>
              exists k :: Place(k) < n && p.0 == KeyText(k) && FieldText(codec, c, k) == Some(p.1)
  {
    hide KeyText, FieldText, Place, ORDER;
    OrderIsPlaced();
    if n > 0 {
      var last := ORDER[n - 1];
      ScalarPairsHold(codec, c, n - 1, p);
      assert Place(last) == n - 1;
      if exists k :: Place(k) < n && p.0 == KeyText(k) && FieldText(codec, c, k) == Some(p.1) {
        var k :| Place(k) < n && p.0 == KeyText(k) && FieldText(codec, c, k) == Some(p.1);
        if Place(k) == n - 1 {
          assert k == last;
        }
      }
    }
  }

  lemma OrderIsPlaced()
    ensures |ORDER| == 28
    ensures forall k :: ORDER[Place(k)] == k
    ensures forall n :: 0 <= n < 28 ==> Place(ORDER[n]) == n
  {
    hide Place, ORDER;
    PlaceTellsKey(SchemaKey);
    forall k ensures ORDER[Place(k)] == k { PlaceTellsKey(k); }
    forall n | 0 <= n < 28 ensures Place(ORDER[n]) == n { PlaceInOrder(n); }
  }

  lemma RoutePairsHold(routes: seq<Route>, p: Pair)
    ensures p in RoutePairs(routes) <==> exists i, f :: 0 <= i < |routes| && p == RoutePair(routes[i], f)
  {
    hide RoutePair;
    var ps := RoutePairs(routes);
    if i, f :| 0 <= i < |routes| && p == RoutePair(routes[i], f) {
      var j := FieldPlace(f);
      assert (5 * i + j) / 5 == i && (5 * i + j) % 5 == j;
      assert ps[5 * i + j] == p;
    }
  }

  lemma FieldPlace(f: RouteField) returns (j: nat)
    ensures |FIELDS| == 5 && j < 5 && FIELDS[j] == f
  {
    match f
    case DomainField => j := 0;
    case SourceBodyField => j := 1;
    case CanonicalBodyField => j := 2;
    case PeriodField => j := 3;
    case UncertaintyField => j := 4;
  }

  // Every entry is what the values hold, when the fields are.
  lemma EntriesAreHeld(codec: Codec, values: map<string, string>, c: FrozenConfig, p: Pair)
    requires ScalarsHeld(codec, values, c) && forall i :: 0 <= i < |c.routes| ==> RouteHeld(values, c.routes[i])
    requires p in Entries(codec, c)
    ensures Lookup(values, p.0) == Some(p.1)
  {
    hide KeyText, FieldText, Lookup, RouteKeyText, RouteFieldText, ORDER, Place, RoutePairs, ScalarPairs;
    ScalarPairsHold(codec, c, |ORDER|, p);
    RoutePairsHold(c.routes, p);
    if p in ScalarPairs(codec, c, |ORDER|) {
      var k :| p.0 == KeyText(k) && FieldText(codec, c, k) == Some(p.1);
      assert Holds(codec, values, c, k);
    } else {
      var i, f :| 0 <= i < |c.routes| && p == RoutePair(c.routes[i], f);
      assert RouteHeld(values, c.routes[i]);
    }
  }

  // ---- the entries are legal pairs ----

  lemma DecimalIsLegal(n: nat)
    ensures LegalText(Decimal(n))
  {
    SpellingIsCanonical(n);
    hide Decimal, DecimalValue;
    forall i | 0 <= i < |Decimal(n)| ensures LegalChar(Decimal(n)[i]) {
      assert AsciiDigit(Decimal(n)[i]);
    }
  }

  lemma FixedIsLegal(s: string)
    requires FixedDecimalText(s)
    ensures LegalText(s)
  {
    forall i | 0 <= i < |s| ensures LegalChar(s[i]) {
      assert AsciiDigit(s[i]) || s[i] == '.';
    }
  }

  lemma IdentityIsLegal(s: string)
    ensures IsSessionId(s) || IsLowerHexDigest(s) || IsRosSegment(s) || IsSlotId(s) ==> LegalText(s)
  {
    if IsSessionId(s) || IsLowerHexDigest(s) || IsRosSegment(s) || IsSlotId(s) {
      forall i | 0 <= i < |s| ensures LegalChar(s[i]) {
        assert AsciiAlphaNumeric(s[i]) || s[i] in {'_', '-', '.', ':'};
      }
    }
  }

  lemma WordsAreLegal()
    ensures forall m :: LegalText(RunModeText(m))
    ensures forall d :: LegalText(DomainText(d))
    ensures forall b :: LegalText(BooleanText(b))
  {
  }

  lemma ClockWordsAreLegal()
    ensures forall a :: LegalText(AuthorityText(a))
    ensures forall m :: LegalText(MappingText(m))
    ensures LegalText("sample_time")
  {
  }

  lemma SchemaIsLegal()
    ensures LegalText(SCHEMA)
  {
    CharsLegal(SCHEMA);
  }

  lemma CharsLegal(s: string)
    requires s != "" && forall c :: c in s ==> NameChar(c) || c == '-'
    ensures LegalText(s)
  {
    forall i | 0 <= i < |s| ensures LegalChar(s[i]) {
      assert s[i] in s;
    }
  }

  lemma RevisionIsLegal()
    ensures LegalText(REVISION)
  {
    CharsLegal(REVISION);
  }

  lemma ValueTextIsLegal(codec: Codec, v: FieldValue)
    requires ValueSpellable(codec, v)
    requires v.Word? ==> LegalText(v.word)
    requires v.Constant? ==> LegalText(v.constant)
    ensures ValueText(codec, v).Some? ==> LegalText(ValueText(codec, v).value)
  {
    hide LegalText, Decimal, RunModeText, AuthorityText, MappingText, BooleanText, Spelling, FixedDecimalText;
    WordsAreLegal();
    ClockWordsAreLegal();
    match v
    case Number(n) => DecimalIsLegal(n);
    case Count(n) => DecimalIsLegal(n);
    case MaybeNumber(Some(n)) => DecimalIsLegal(n);
    case MaybeReal(Some(r)) => FixedIsLegal(Spelling(codec, r).value);
    case _ =>
  }

  // The texts a configuration carries verbatim.
  lemma VerbatimFields(c: FrozenConfig, n: nat)
    requires n < 28
    ensures FieldTable(c)[n].Word? ==>
              FieldTable(c)[n].word == c.sessionId || FieldTable(c)[n].word == c.sessionContractSha256
              || FieldTable(c)[n].word == c.delayTimestampPolicy
    ensures FieldTable(c)[n].Constant? ==> FieldTable(c)[n].constant == SCHEMA || FieldTable(c)[n].constant == REVISION
  {
    hide SCHEMA, REVISION;
  }

  lemma FieldTextIsLegal(codec: Codec, c: FrozenConfig, k: ScalarKey)
    requires HeaderLegal(c) && FloatsSpellable(codec, c.thresholds) && c.delayTimestampPolicy == "sample_time"
    ensures FieldText(codec, c, k).Some? ==> LegalText(FieldText(codec, c, k).value)
  {
    hide LegalText, IsSessionId, IsLowerHexDigest, SCHEMA, REVISION, FieldTable, FloatsSpellable, ValueText, ValueSpellable, Place;
    ClockWordsAreLegal();
    SchemaIsLegal();
    RevisionIsLegal();
    IdentityIsLegal(c.sessionId);
    IdentityIsLegal(c.sessionContractSha256);
    FieldsSpellable(codec, c);
    VerbatimFields(c, Place(k));
    ValueTextIsLegal(codec, FieldOf(c, k));
  }

  lemma RouteFieldIsLegal(mode: RunMode, r: Route, f: RouteField)
    requires RouteLegal(mode, r)
    ensures PairLegal(RoutePair(r, f))
  {
    hide Decimal, IsSlotId, IsRosSegment, DomainText, DomainFits, LegalText;
    WordsAreLegal();
    DecimalIsLegal(r.samplePeriodNs);
    DecimalIsLegal(r.sourceUncertaintyNs);
    IdentityIsLegal(r.slot);
    IdentityIsLegal(r.sourceBody);
    IdentityIsLegal(r.canonicalBody);
    RouteKeyIsLegal(r.slot, f);
  }

  lemma RouteKeyIsLegal(slot: string, f: RouteField)
    requires LegalText(slot)
    ensures LegalText(RouteKeyText(slot, f)) && RouteKeyText(slot, f)[0] != '#'
  {
    FieldIsLegal(f);
    hide FieldName;
    var key := RouteKeyText(slot, f);
    assert LegalText("route.");
    forall i | 0 <= i < |key| ensures LegalChar(key[i]) {
      assert key[i] == if i < 6 then "route."[i] else if i < 6 + |slot| then slot[i - 6]
                       else if i == 6 + |slot| then '.' else FieldName(f)[i - 7 - |slot|];
    }
  }

  lemma FieldIsLegal(f: RouteField)
    ensures LegalText(FieldName(f))
  {
  }

  lemma RouteKeysDiffer(a: Route, f: RouteField, b: Route, g: RouteField)
    requires IsSlotId(a.slot) && IsSlotId(b.slot)
    ensures RouteKeyText(a.slot, f) == RouteKeyText(b.slot, g) ==> a.slot == b.slot && f == g
  {
    hide RouteKeyText, RouteKeyOf, IsSlotId;
    RouteKeySpelling(RouteKeyText(a.slot, f), a.slot, f);
    RouteKeySpelling(RouteKeyText(b.slot, g), b.slot, g);
  }

  lemma FieldsDiffer(i: nat, j: nat)
    requires i < 5 && j < 5 && i != j
    ensures FIELDS[i] != FIELDS[j]
  {
  }

  lemma RoutePairsLegal(mode: RunMode, routes: seq<Route>)
    requires RoutesValid(mode, routes)
    ensures PairsLegal(RoutePairs(routes))
  {
    hide RouteLegal, RoutesApart, RouteKeyText, RouteFieldText, PairLegal;
    var ps := RoutePairs(routes);
    forall i | 0 <= i < |ps| ensures PairLegal(ps[i]) {
      RouteFieldIsLegal(mode, routes[i / 5], FIELDS[i % 5]);
    }
    forall i, j | 0 <= i < j < |ps| ensures ps[i].0 != ps[j].0 {
      PairKeysDiffer(mode, routes, i, j);
    }
  }

  lemma PairKeysDiffer(mode: RunMode, routes: seq<Route>, i: nat, j: nat)
    requires RoutesValid(mode, routes) && i < j < 5 * |routes|
    ensures RoutePairs(routes)[i].0 != RoutePairs(routes)[j].0
  {
    hide RouteKeyText, RouteFieldText, IsSlotId, IsRosSegment, HasDomain;
    var a, b := routes[i / 5], routes[j / 5];
    assert RouteLegal(mode, a) && RouteLegal(mode, b);
    RouteKeysDiffer(a, FIELDS[i % 5], b, FIELDS[j % 5]);
    QuotientOrRemainder(i, j);
    if i / 5 < j / 5 {
      assert RoutesApart(routes[i / 5], routes[j / 5]);
    } else {
      FieldsDiffer(i % 5, j % 5);
    }
  }

  lemma QuotientOrRemainder(i: nat, j: nat)
    requires i < j
    ensures i / 5 < j / 5 || i % 5 != j % 5
  {
  }

  lemma {:induction false} ScalarPairsLegal(codec: Codec, c: FrozenConfig, n: nat)
    requires n <= |ORDER|
    requires HeaderLegal(c) && FloatsSpellable(codec, c.thresholds) && c.delayTimestampPolicy == "sample_time"
    ensures PairsLegal(ScalarPairs(codec, c, n))
  {
    hide KeyText, FieldText, Place, ORDER, PairsLegal, HeaderLegal, FloatsSpellable;
    if n == 0 {
      NoPairsLegal();
    } else {
      var front, k := ScalarPairs(codec, c, n - 1), ORDER[n - 1];
      ScalarPairsLegal(codec, c, n - 1);
      PresentPairLegal(codec, c, k);
      forall i, j | 0 <= i < |front| && 0 <= j < |PresentPair(codec, c, k)|
        ensures front[i].0 != PresentPair(codec, c, k)[j].0
      {
        ScalarKeyIsFresh(codec, c, n, front[i]);
      }
      PairsConcatenate(front, PresentPair(codec, c, k));
    }
  }

  lemma NoPairsLegal()
    ensures PairsLegal([])
  {
  }

  lemma PresentPairLegal(codec: Codec, c: FrozenConfig, k: ScalarKey)
    requires HeaderLegal(c) && FloatsSpellable(codec, c.thresholds) && c.delayTimestampPolicy == "sample_time"
    ensures PairsLegal(PresentPair(codec, c, k))
  {
    hide KeyText, FieldText, LegalText, HeaderLegal, FloatsSpellable;
    KeyIsName(k);
    NameIsLegal(KeyText(k));
    FieldTextIsLegal(codec, c, k);
  }

  lemma ScalarKeyIsFresh(codec: Codec, c: FrozenConfig, n: nat, p: Pair)
    requires 0 < n <= |ORDER| && p in ScalarPairs(codec, c, n - 1)
    ensures p.0 != KeyText(ORDER[n - 1])
  {
    hide KeyText, FieldText, Place, ORDER, ScalarPairs;
    PlaceTellsKey(SchemaKey);
    PlaceInOrder(n - 1);
    ScalarPairsHold(codec, c, n - 1, p);
    var l :| Place(l) < n - 1 && p.0 == KeyText(l);
    KeyTextIsInjective(ORDER[n - 1], l);
  }

  lemma PairsConcatenate(a: seq<Pair>, b: seq<Pair>)
    requires PairsLegal(a) && PairsLegal(b)
    requires forall i, j :: 0 <= i < |a| && 0 <= j < |b| ==> a[i].0 != b[j].0
    ensures PairsLegal(a + b)
  {
    hide PairLegal;
  }

  // The entries of a valid configuration are legal pairs: legal text, and no key
  // twice.
  lemma EntriesAreLegal(codec: Codec, c: FrozenConfig)
    requires ConfigValid(c) && HeaderLegal(c) && FloatsSpellable(codec, c.thresholds)
    ensures PairsLegal(Entries(codec, c)) && Entries(codec, c) != []
  {
    DelayPolicyIsFixed(c);
    hide ThresholdPolicyValid, ModeClockPolicyValid, SourceTimingValid, RoutesValid, HeaderLegal, FloatsSpellable, PairsLegal,
         RouteKeyOf, KeyText, RouteKeyText, FieldText, ORDER, Place, ScalarPairs, RoutePairs;
    var a, b := ScalarPairs(codec, c, |ORDER|), RoutePairs(c.routes);
    ScalarPairsLegal(codec, c, |ORDER|);
    RoutePairsLegal(c.runMode, c.routes);
    forall i, j | 0 <= i < |a| && 0 <= j < |b| ensures a[i].0 != b[j].0 {
      ScalarPairsHold(codec, c, |ORDER|, a[i]);
      var k :| a[i].0 == KeyText(k);
      ScalarIsNoRoute(k);
      RouteKeyOfPair(c, j);
    }
    PairsConcatenate(a, b);
    SchemaIsPresent(codec, c);
  }

  lemma DelayPolicyIsFixed(c: FrozenConfig)
    requires ConfigValid(c)
    ensures c.delayTimestampPolicy == "sample_time"
  {
    hide ThresholdPolicyValid, ModeClockPolicyValid, RoutesValid;
  }

  lemma RouteKeyOfPair(c: FrozenConfig, j: nat)
    requires RoutesValid(c.runMode, c.routes) && j < |RoutePairs(c.routes)|
    ensures RouteKeyOf(RoutePairs(c.routes)[j].0) == Some((c.routes[j / 5].slot, FIELDS[j % 5]))
  {
    hide RouteKeyOf, RouteKeyText, RouteFieldText, IsSlotId, IsRosSegment, HasDomain;
    assert RouteLegal(c.runMode, c.routes[j / 5]);
    RouteKeySpelling(RoutePairs(c.routes)[j].0, c.routes[j / 5].slot, FIELDS[j % 5]);
  }

  lemma SchemaIsPresent(codec: Codec, c: FrozenConfig)
    ensures ScalarPairs(codec, c, |ORDER|) != []
  {
    hide ScalarPairs, ORDER, KeyText;
    OrderIsPlaced();
    var p := (KeyText(SchemaKey), SCHEMA);
    ScalarPairsHold(codec, c, |ORDER|, p);
    assert Place(SchemaKey) < |ORDER| && FieldText(codec, c, SchemaKey) == Some(p.1);
  }
}
