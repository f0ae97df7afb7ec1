// The route lines of a frozen policy, in slot order, and the whole canonical
// text (src/core/frozen_config.cpp:259-268, 646-672 and 783-811).
module ConfigRoutes {
  import opened Numbers
  import opened Types
  import opened Policy
  import opened Decimals
  import opened Floats
  import opened ConfigText
  import opened ConfigKeys
  import opened ConfigFields

  // ---- slot order ----

  // The order of byte strings.
  predicate Less(a: string, b: string) {
    b != "" && (a == "" || a[0] < b[0] || (a[0] == b[0] && Less(a[1..], b[1..])))
  }

  lemma {:induction false} LessIsStrict(a: string, b: string)
    ensures !(Less(a, b) && Less(b, a))
  {
    if a != "" && b != "" { LessIsStrict(a[1..], b[1..]); }
  }

  lemma {:induction false} LessIsTotal(a: string, b: string)
    ensures Less(a, b) || a == b || Less(b, a)
  {
    if a != "" && b != "" && a[0] == b[0] {
      LessIsTotal(a[1..], b[1..]);
      assert a == [a[0]] + a[1..] && b == [b[0]] + b[1..];
    }
  }

  lemma {:induction false} LessIsTransitive(a: string, b: string, c: string)
    requires Less(a, b) && Less(b, c)
    ensures Less(a, c)
  {
    if a != "" && a[0] == b[0] == c[0] { LessIsTransitive(a[1..], b[1..], c[1..]); }
  }

  // The two strings agree up to k, where a ends or has the lesser byte.
  predicate LessAt(a: string, b: string, k: nat) {
    k <= |a| && k < |b| && a[..k] == b[..k] && (k == |a| || a[k] < b[k])
  }

  lemma LessAtNext(a: string, b: string, k: nat)
    requires a != "" && b != "" && k > 0
    ensures LessAt(a, b, k) <==> a[0] == b[0] && LessAt(a[1..], b[1..], k - 1)
  {
    if k <= |a| && k < |b| {
      assert a[..k] == [a[0]] + a[1..][..k - 1];
      assert b[..k] == [b[0]] + b[1..][..k - 1];
      assert a[1..][..k - 1] == a[..k][1..] && b[1..][..k - 1] == b[..k][1..];
    }
  }

  // One string is less than another exactly when it is a proper prefix of it or its
  // first different byte is less.
  lemma {:induction false} LessIsByteOrder(a: string, b: string)
    ensures Less(a, b) <==> exists k: nat :: LessAt(a, b, k)
  {
    if a != "" && b != "" {
      LessIsByteOrder(a[1..], b[1..]);
      forall k: nat | k > 0 ensures LessAt(a, b, k) <==> a[0] == b[0] && LessAt(a[1..], b[1..], k - 1) {
        LessAtNext(a, b, k);
      }
      if k: nat :| LessAt(a[1..], b[1..], k) { LessAtNext(a, b, k + 1); }
    }
    assert LessAt(a, b, 0) <==> b != "" && (a == "" || a[0] < b[0]);
  }

  predicate Sorted(slots: seq<string>) {
    forall i, j :: 0 <= i < j < |slots| ==> Less(slots[i], slots[j])
  }

  // The slot keeps its place in the order of a map.
  function Position(slots: seq<string>, slot: string): (i: nat)
    ensures i <= |slots|
  {
    if slots == [] then 0
    else if Less(slots[|slots| - 1], slot) then |slots|
    else Position(slots[..|slots| - 1], slot)
  }

  lemma {:induction false} PositionSplits(slots: seq<string>, slot: string)
    requires Sorted(slots) && slot !in slots
    ensures var i := Position(slots, slot);
            && (forall j :: 0 <= j < i ==> Less(slots[j], slot))
            && (forall j :: i <= j < |slots| ==> Less(slot, slots[j]))
  {
    if slots != [] {
      var last := slots[|slots| - 1];
      LessIsTotal(last, slot);
      if Less(last, slot) {
        forall j | 0 <= j < |slots| ensures Less(slots[j], slot) {
          if j < |slots| - 1 { LessIsTransitive(slots[j], last, slot); }
        }
      } else {
        var front := slots[..|slots| - 1];
        assert Sorted(front) && slot !in front && forall j :: 0 <= j < |front| ==> slots[j] == front[j];
        PositionSplits(front, slot);
      }
    }
  }

  function Inserted(slots: seq<string>, slot: string): seq<string> {
    slots[..Position(slots, slot)] + [slot] + slots[Position(slots, slot)..]
  }

  lemma InsertedIsSorted(slots: seq<string>, slot: string)
    requires Sorted(slots) && slot !in slots
    ensures Sorted(Inserted(slots, slot))
    ensures forall s :: s in Inserted(slots, slot) <==> s in slots || s == slot
  {
    PositionSplits(slots, slot);
    hide Less, Position;
    var i := Position(slots, slot);
    assert slots == slots[..i] + slots[i..];
  }

  // A set of slots has one sorted enumeration.
  lemma {:induction false} SortedIsUnique(a: seq<string>, b: seq<string>)
    requires Sorted(a) && Sorted(b)
    requires forall s :: s in a <==> s in b
    ensures a == b
  {
    hide Less;
    if b != [] { HeadIsIn(b); }
    if a != [] {
      assert a[0] in b;
      var x, y := a[|a| - 1], b[|b| - 1];
      LastIsGreatest(a, y);
      LastIsGreatest(b, x);
      LessIsStrict(x, y);
      assert x == y;
      LastIsOnce(a);
      LastIsOnce(b);
      var a', b' := a[..|a| - 1], b[..|b| - 1];
      forall s ensures s in a' <==> s in b' {
        assert s in a <==> s in b;
      }
      SortedIsUnique(a', b');
      assert a == a[..|a| - 1] + [x] && b == b[..|b| - 1] + [x];
    }
  }

  lemma HeadIsIn(b: seq<string>)
    requires b != []
    ensures b[0] in b
  {
  }

  lemma LastIsGreatest(a: seq<string>, s: string)
    requires Sorted(a) && a != [] && s in a
    ensures s == a[|a| - 1] || Less(s, a[|a| - 1])
  {
  }

  lemma LastIsOnce(a: seq<string>)
    requires Sorted(a) && a != []
    ensures forall s :: s in a[..|a| - 1] <==> s in a && s != a[|a| - 1]
  {
    LessIsStrict(a[|a| - 1], a[|a| - 1]);
    hide Less;
    assert a == a[..|a| - 1] + [a[|a| - 1]];
  }

  // ---- route keys ----

  datatype RouteField = DomainField | SourceBodyField | CanonicalBodyField | PeriodField | UncertaintyField

  const FIELDS: seq<RouteField> := [DomainField, SourceBodyField, CanonicalBodyField, PeriodField, UncertaintyField]

  function FieldName(f: RouteField): string {
    match f
    case DomainField => "source_domain"
    case SourceBodyField => "source_body"
    case CanonicalBodyField => "canonical_body"
    case PeriodField => "sample_period_ns"
    case UncertaintyField => "source_uncertainty_ns"
  }

  function RouteFieldNamed(name: string): Option<RouteField> {
    if name == "source_domain" then Some(DomainField)
    else if name == "source_body" then Some(SourceBodyField)
    else if name == "canonical_body" then Some(CanonicalBodyField)
    else if name == "sample_period_ns" then Some(PeriodField)
    else if name == "source_uncertainty_ns" then Some(UncertaintyField)
    else None
  }

  lemma FieldNames(name: string)
    ensures forall f :: RouteFieldNamed(name) == Some(f) <==> name == FieldName(f)
  {
    assert |FieldName(DomainField)| == 13 && |FieldName(SourceBodyField)| == 11 && |FieldName(CanonicalBodyField)| == 14;
    assert |FieldName(PeriodField)| == 16 && |FieldName(UncertaintyField)| == 21;
  }

  function RouteKeyText(slot: string, f: RouteField): string {
    "route." + slot + "." + FieldName(f)
  }

  // The slot and field a key names.
  function RouteKeyOf(key: string): Option<(string, RouteField)> {
    if |key| < 6 || key[..6] != "route." then None
    else
      var length := FirstOf(key[6..], {'.'});
      if 6 + length == |key| then None
      else if !IsSlotId(key[6..6 + length]) then None
      else
        match RouteFieldNamed(key[6 + length + 1..])
        case None => None
        case Some(f) => Some((key[6..6 + length], f))
  }

  lemma SlotHasNoPoint(slot: string)
    requires IsSlotId(slot)
    ensures forall i :: 0 <= i < |slot| ==> slot[i] !in {'.'}
    ensures LegalText(slot)
  {
    forall i | 0 <= i < |slot| ensures slot[i] !in {'.'} && LegalChar(slot[i]) {
      assert AsciiAlphaNumeric(slot[i]) || slot[i] == '_' || slot[i] == '-';
    }
  }

  // Every legal slot and field has exactly one key.
  lemma RouteKeySpelling(key: string, slot: string, f: RouteField)
    ensures RouteKeyOf(key) == Some((slot, f)) <==> IsSlotId(slot) && key == RouteKeyText(slot, f)
  {
    if RouteKeyOf(key) == Some((slot, f)) {
      var length := FirstOf(key[6..], {'.'});
      FieldNames(key[6 + length + 1..]);
      hide RouteFieldNamed, FieldName, IsSlotId;
      assert key[6..][length] == '.';
      assert key == key[..6] + key[6..6 + length] + [key[6 + length]] + key[6 + length + 1..];
    }
    if IsSlotId(slot) && key == RouteKeyText(slot, f) {
      RouteKeyReads(slot, f);
    }
  }

  lemma RouteKeyReads(slot: string, f: RouteField)
    requires IsSlotId(slot)
    ensures RouteKeyOf(RouteKeyText(slot, f)) == Some((slot, f))
  {
    SlotHasNoPoint(slot);
    FieldNames(FieldName(f));
    hide RouteFieldNamed, FieldName, IsSlotId;
    var key := RouteKeyText(slot, f);
    assert key[..6] == "route.";
    var rest := key[6..];
    assert rest == slot + "." + FieldName(f);
    FirstIs(rest, {'.'}, |slot|);
    assert key[6..6 + |slot|] == slot && key[6 + |slot| + 1..] == FieldName(f);
  }

  lemma ScalarStarts(k: ScalarKey)
    ensures |KeyText(k)| >= 6 && (KeyText(k)[0] != 'r' || KeyText(k)[1] != 'o')
  {
    hide ThresholdName;
    if 10 <= Place(k) < 27 {
      ThresholdStarts(ThresholdName(k));
    }
  }

  lemma ThresholdStarts(name: string)
    ensures ("threshold." + name)[0] == 't'
  {
  }

  // No scalar key is a route key.
  lemma ScalarIsNoRoute(k: ScalarKey)
    ensures RouteKeyOf(KeyText(k)).None?
  {
    hide KeyText;
    ScalarStarts(k);
    assert KeyText(k)[..6][0] == KeyText(k)[0] && KeyText(k)[..6][1] == KeyText(k)[1];
  }

  // ---- route fields ----

  function RouteFieldText(r: Route, f: RouteField): string {
    match f
    case DomainField => DomainText(r.sourceDomain)
    case SourceBodyField => r.sourceBody
    case CanonicalBodyField => r.canonicalBody
    case PeriodField => Decimal(r.samplePeriodNs)
    case UncertaintyField => Decimal(r.sourceUncertaintyNs)
  }

  ghost predicate RouteHeld(values: map<string, string>, r: Route) {
    forall f: RouteField :: Lookup(values, RouteKeyText(r.slot, f)) == Some(RouteFieldText(r, f))
  }

  function ReadU64(values: map<string, string>, key: string): Option<u64> {
    match Lookup(values, key)
    case None => None
    case Some(s) => ParseUnsigned(s)
  }

  function ReadRoute(values: map<string, string>, slot: string): Option<Route> {
    var domain := Lookup(values, RouteKeyText(slot, DomainField));
    var sourceBody := Lookup(values, RouteKeyText(slot, SourceBodyField));
    var canonicalBody := Lookup(values, RouteKeyText(slot, CanonicalBodyField));
    var period := ReadU64(values, RouteKeyText(slot, PeriodField));
    var uncertainty := ReadU64(values, RouteKeyText(slot, UncertaintyField));
    if domain.None? || ParseDomain(domain.value).None? || sourceBody.None? || canonicalBody.None? || period.None?
       || uncertainty.None? then None
    else Some(Route(slot, sourceBody.value, canonicalBody.value, ParseDomain(domain.value).value, period.value, uncertainty.value))
  }

  lemma UnsignedReads(values: map<string, string>, key: string, n: u64)
    ensures ReadU64(values, key) == Some(n) <==> Lookup(values, key) == Some(Decimal(n))
  {
    if key in values { UnsignedSpelling(values[key], n); }
  }

  lemma RouteHeldByField(values: map<string, string>, r: Route)
    ensures RouteHeld(values, r) <==>
              && Lookup(values, RouteKeyText(r.slot, DomainField)) == Some(DomainText(r.sourceDomain))
              && Lookup(values, RouteKeyText(r.slot, SourceBodyField)) == Some(r.sourceBody)
              && Lookup(values, RouteKeyText(r.slot, CanonicalBodyField)) == Some(r.canonicalBody)
              && Lookup(values, RouteKeyText(r.slot, PeriodField)) == Some(Decimal(r.samplePeriodNs))
              && Lookup(values, RouteKeyText(r.slot, UncertaintyField)) == Some(Decimal(r.sourceUncertaintyNs))
  {
    hide RouteKeyText, Lookup, DomainText, Decimal;
    if RouteHeld(values, r) {
      assert Lookup(values, RouteKeyText(r.slot, DomainField)) == Some(RouteFieldText(r, DomainField));
      assert Lookup(values, RouteKeyText(r.slot, SourceBodyField)) == Some(RouteFieldText(r, SourceBodyField));
      assert Lookup(values, RouteKeyText(r.slot, CanonicalBodyField)) == Some(RouteFieldText(r, CanonicalBodyField));
      assert Lookup(values, RouteKeyText(r.slot, PeriodField)) == Some(RouteFieldText(r, PeriodField));
      assert Lookup(values, RouteKeyText(r.slot, UncertaintyField)) == Some(RouteFieldText(r, UncertaintyField));
    }
  }

  lemma RouteInverts(values: map<string, string>, slot: string, r: Route)
    ensures ReadRoute(values, slot) == Some(r) <==> r.slot == slot && RouteHeld(values, r)
  {
    hide RouteKeyText, Lookup, ReadU64, ParseDomain, DomainText, Decimal;
    UnsignedReads(values, RouteKeyText(slot, PeriodField), r.samplePeriodNs);
    UnsignedReads(values, RouteKeyText(slot, UncertaintyField), r.sourceUncertaintyNs);
    forall s { EnumerationSpellings(s); }
    RouteHeldByField(values, r);
    hide RouteHeld;
  }

  function SlotsOf(routes: seq<Route>): (slots: seq<string>)
    ensures |slots| == |routes| && forall i :: 0 <= i < |routes| ==> slots[i] == routes[i].slot
  {
    seq(|routes|, i requires 0 <= i < |routes| => routes[i].slot)
  }

  // The routes of the slots, in their order.
  function ReadRoutes(values: map<string, string>, slots: seq<string>): Option<seq<Route>> {
    if slots == [] then Some([])
    else
      match (ReadRoutes(values, slots[..|slots| - 1]), ReadRoute(values, slots[|slots| - 1]))
      case (Some(front), Some(r)) => Some(front + [r])
      case _ => None
  }

  lemma {:induction false} RoutesInvert(values: map<string, string>, slots: seq<string>, routes: seq<Route>)
    ensures ReadRoutes(values, slots) == Some(routes) <==>
              slots == SlotsOf(routes) && forall i :: 0 <= i < |routes| ==> RouteHeld(values, routes[i])
  {
    hide ReadRoute, RouteHeld, SlotsOf;
    SlotsFront(routes);
    if slots != [] && routes != [] {
      var before, slot := slots[..|slots| - 1], slots[|slots| - 1];
      var front, r := routes[..|routes| - 1], routes[|routes| - 1];
      RoutesInvert(values, before, front);
      RouteInverts(values, slot, r);
      assert slots == before + [slot] && routes == front + [r];
      assert slots == SlotsOf(routes) <==> before == SlotsOf(front) && slot == r.slot;
      assert ReadRoutes(values, slots) == Some(routes) <==>
               ReadRoutes(values, before) == Some(front) && ReadRoute(values, slot) == Some(r);
    }
  }

  lemma SlotsFront(routes: seq<Route>)
    ensures routes == [] ==> SlotsOf(routes) == []
    ensures routes != [] ==>
              SlotsOf(routes) == SlotsOf(routes[..|routes| - 1]) + [routes[|routes| - 1].slot]
  {
  }
}
