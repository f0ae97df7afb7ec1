// What a frozen policy's fields are spelled as, and how each is read back
// (src/core/frozen_config.cpp:186-268 and 646-811). The printer, Entries with
// ConfigText.Join, is what the parser is proved to invert.
module ConfigFields {
  import opened Numbers
  import opened Types
  import opened Policy
  import opened Decimals
  import opened Floats
  import opened ConfigKeys

  function Lookup(values: map<string, string>, key: string): Option<string> {
    if key in values then Some(values[key]) else None
  }

  // ---- one value ----

  predicate RealSpellable(codec: Codec, o: Option<real>) { o.Some? ==> Spellable(codec, o.value) }

  function ParseRunMode(s: string): Option<RunMode> {
    if s == "simulation" then Some(Simulation)
    else if s == "physical" then Some(Physical)
    else if s == "hybrid" then Some(Hybrid)
    else None
  }

  function ParseAuthority(s: string): Option<SessionTimeAuthority> {
    if s == "gazebo-simulation" then Some(GazeboSimulation)
    else if s == "station-wall-monotonic" then Some(StationWallMonotonic)
    else None
  }

  function ParseMapping(s: string): Option<ClockMapping> {
    if s == "identity" then Some(Identity)
    else if s == "affine-to-session" then Some(AffineToSession)
    else None
  }

  function ParseDomain(s: string): Option<SourceDomain> {
    if s == "simulation" then Some(SimulationSource)
    else if s == "physical" then Some(PhysicalSource)
    else None
  }

  function ParseBoolean(s: string): Option<bool> {
    if s == "true" then Some(true) else if s == "false" then Some(false) else None
  }

  function BooleanText(b: bool): string { if b then "true" else "false" }

  // The enumerations print and parse inversely.
  lemma EnumerationSpellings(s: string)
    ensures forall m :: ParseRunMode(s) == Some(m) <==> s == RunModeText(m)
    ensures forall a :: ParseAuthority(s) == Some(a) <==> s == AuthorityText(a)
    ensures forall c :: ParseMapping(s) == Some(c) <==> s == MappingText(c)
    ensures forall d :: ParseDomain(s) == Some(d) <==> s == DomainText(d)
    ensures forall b :: ParseBoolean(s) == Some(b) <==> s == BooleanText(b)
  {
    assert |RunModeText(Simulation)| == 10 && |RunModeText(Physical)| == 8 && |RunModeText(Hybrid)| == 6;
    assert |AuthorityText(GazeboSimulation)| == 17 && |AuthorityText(StationWallMonotonic)| == 22;
    assert |MappingText(Identity)| == 8 && |MappingText(AffineToSession)| == 17;
    assert |DomainText(SimulationSource)| == 10 && |DomainText(PhysicalSource)| == 8;
  }

  // ---- the table of scalar fields ----

  // What a key may hold.
  datatype FieldKind =
    | FixedText(text: string)
    | Verbatim
    | ModeKind
    | AuthorityKind
    | MappingKind
    | FlagKind
    | NumberKind
    | CountKind
    | OptionalKind
    | RealKind

  datatype FieldValue =
    | Constant(constant: string)
    | Word(word: string)
    | ModeWord(mode: RunMode)
    | AuthorityWord(authority: SessionTimeAuthority)
    | MappingWord(mapping: ClockMapping)
    | Flag(flag: bool)
    | Number(number: u64)
    | Count(count: u32)
    | MaybeNumber(maybeNumber: Option<u64>)
    | MaybeReal(maybeReal: Option<real>)

  predicate OfKind(v: FieldValue, kind: FieldKind) {
    match kind
    case FixedText(text) => v == Constant(text)
    case Verbatim => v.Word?
    case ModeKind => v.ModeWord?
    case AuthorityKind => v.AuthorityWord?
    case MappingKind => v.MappingWord?
    case FlagKind => v.Flag?
    case NumberKind => v.Number?
    case CountKind => v.Count?
    case OptionalKind => v.MaybeNumber?
    case RealKind => v.MaybeReal?
  }

  // What each key may hold, in the order of the keys.
  function KindTable(): (kinds: seq<FieldKind>)
    ensures |kinds| == 28
  {
    [FixedText(SCHEMA), FixedText(REVISION), Verbatim, Verbatim, ModeKind, AuthorityKind, MappingKind, NumberKind, FlagKind,
     Verbatim,
     OptionalKind, CountKind, CountKind, CountKind, NumberKind, OptionalKind, RealKind, OptionalKind, NumberKind, NumberKind,
     NumberKind, OptionalKind, OptionalKind, OptionalKind, RealKind, RealKind, NumberKind, CountKind]
  }

  function Kind(k: ScalarKey): FieldKind { KindTable()[Place(k)] }

  // What a configuration holds, in the order of the keys.
  function FieldTable(c: FrozenConfig): (fields: seq<FieldValue>)
    ensures |fields| == 28
  {
    var p := c.thresholds;
    [Constant(SCHEMA), Constant(REVISION), Word(c.sessionId), Word(c.sessionContractSha256), ModeWord(c.runMode),
     AuthorityWord(c.authority), MappingWord(c.mapping), Number(c.wireResolutionNs), Flag(c.measurementDelayEnabled),
     Word(c.delayTimestampPolicy),
     MaybeNumber(p.estimatorWindow), Count(p.minLockSamples), Count(p.recoverLockSamples), Count(p.lostAfterFailures),
     Number(p.startupLockTimeoutNs), MaybeNumber(p.maxOffsetStepNs), MaybeReal(p.maxDriftPpm), MaybeNumber(p.maxJitterNs),
     Number(p.maxUncertaintyNs), Number(p.maxSampleAgeNs), Number(p.maxAuthorityAgeNs), MaybeNumber(p.maxGazeboClockSkewNs),
     MaybeNumber(p.maxStationWallErrorNs), MaybeNumber(p.maxStationWallStepNs), MaybeReal(p.minGazeboRealTimeFactor),
     MaybeReal(p.maxGazeboRealTimeFactor), Number(p.guardPollPeriodNs), Count(p.ioQueueDepth)]
  }

  function FieldOf(c: FrozenConfig, k: ScalarKey): FieldValue { FieldTable(c)[Place(k)] }

  // One value for every key, in the order of the keys.
  type Fields = fields: seq<FieldValue> | |fields| == 28 witness seq(28, n => Constant(""))

  predicate Complete(fields: Fields) {
    forall n :: 0 <= n < 28 ==> OfKind(fields[n], KindTable()[n])
  }

  function NumberIn(v: FieldValue): u64 { if v.Number? then v.number else 0 }
  function CountIn(v: FieldValue): u32 { if v.Count? then v.count else 0 }
  function MaybeNumberIn(v: FieldValue): Option<u64> { if v.MaybeNumber? then v.maybeNumber else None }
  function MaybeRealIn(v: FieldValue): Option<real> { if v.MaybeReal? then v.maybeReal else None }
  function WordIn(v: FieldValue): string { if v.Word? then v.word else "" }
  function FlagIn(v: FieldValue): bool { v.Flag? && v.flag }
  function ModeIn(v: FieldValue): RunMode { if v.ModeWord? then v.mode else Simulation }
  function AuthorityIn(v: FieldValue): SessionTimeAuthority { if v.AuthorityWord? then v.authority else GazeboSimulation }
  function MappingIn(v: FieldValue): ClockMapping { if v.MappingWord? then v.mapping else Identity }

  function PolicyOf(f: Fields): ThresholdPolicy {
    ThresholdPolicy(
      MaybeNumberIn(f[10]), CountIn(f[11]), CountIn(f[12]), CountIn(f[13]), NumberIn(f[14]), MaybeNumberIn(f[15]),
      MaybeRealIn(f[16]), MaybeNumberIn(f[17]), NumberIn(f[18]), NumberIn(f[19]), NumberIn(f[20]), MaybeNumberIn(f[21]),
      MaybeNumberIn(f[22]), MaybeNumberIn(f[23]), MaybeRealIn(f[24]), MaybeRealIn(f[25]), NumberIn(f[26]), CountIn(f[27]))
  }

  // The configuration, without routes, that holds the fields.
  function ConfigOf(f: Fields, digest: string): FrozenConfig {
    FrozenConfig(WordIn(f[2]), WordIn(f[3]), ModeIn(f[4]), AuthorityIn(f[5]), MappingIn(f[6]), digest, NumberIn(f[7]),
                 FlagIn(f[8]), WordIn(f[9]), PolicyOf(f), [])
  }

  lemma TableIsComplete(c: FrozenConfig)
    ensures Complete(FieldTable(c))
  {
    hide SCHEMA, REVISION;
  }

  lemma ConfigHoldsFields(fields: Fields, digest: string)
    requires Complete(fields)
    ensures FieldTable(ConfigOf(fields, digest)) == fields
  {
    hide SCHEMA, REVISION;
  }

  lemma TableMakesConfig(c: FrozenConfig)
    ensures ConfigOf(FieldTable(c), c.policySha256) == c.(routes := [])
  {
    hide SCHEMA, REVISION;
  }

  // ---- a value and its text ----

  // The text of a value; nothing when the field is absent.
  function ValueText(codec: Codec, v: FieldValue): Option<string> {
    match v
    case Constant(text) => Some(text)
    case Word(word) => Some(word)
    case ModeWord(mode) => Some(RunModeText(mode))
    case AuthorityWord(authority) => Some(AuthorityText(authority))
    case MappingWord(mapping) => Some(MappingText(mapping))
    case Flag(flag) => Some(BooleanText(flag))
    case Number(n) => Some(Decimal(n))
    case Count(n) => Some(Decimal(n))
    case MaybeNumber(o) => (match o case None => None case Some(n) => Some(Decimal(n)))
    case MaybeReal(o) => (match o case None => None case Some(r) => Spelling(codec, r))
  }

  predicate ValueSpellable(codec: Codec, v: FieldValue) { v.MaybeReal? ==> RealSpellable(codec, v.maybeReal) }

  // The value of a kind that a key's text denotes; nothing when it is refused.
  function ReadValue(codec: Codec, kind: FieldKind, text: Option<string>): Option<FieldValue> {
    match (kind, text)
    case (OptionalKind, None) => Some(MaybeNumber(None))
    case (RealKind, None) => Some(MaybeReal(None))
    case (_, None) => None
    case (FixedText(expected), Some(s)) => if s == expected then Some(Constant(s)) else None
    case (Verbatim, Some(s)) => Some(Word(s))
    case (ModeKind, Some(s)) => (match ParseRunMode(s) case None => None case Some(m) => Some(ModeWord(m)))
    case (AuthorityKind, Some(s)) => (match ParseAuthority(s) case None => None case Some(a) => Some(AuthorityWord(a)))
    case (MappingKind, Some(s)) => (match ParseMapping(s) case None => None case Some(m) => Some(MappingWord(m)))
    case (FlagKind, Some(s)) => (match ParseBoolean(s) case None => None case Some(b) => Some(Flag(b)))
    case (NumberKind, Some(s)) => (match ParseUnsigned(s) case None => None case Some(n) => Some(Number(n)))
    case (CountKind, Some(s)) => (match ParseUint32(s) case None => None case Some(n) => Some(Count(n)))
    case (OptionalKind, Some(s)) => (match ParseUnsigned(s) case None => None case Some(n) => Some(MaybeNumber(Some(n))))
    case (RealKind, Some(s)) =>
      (match ParsePositiveDouble(codec, s) case None => None case Some(r) => Some(MaybeReal(Some(r))))
  }

  // Reading inverts printing, for every kind of value.
  lemma ReadInverts(codec: Codec, kind: FieldKind, text: Option<string>, v: FieldValue)
    ensures ReadValue(codec, kind, text) == Some(v) <==>
              OfKind(v, kind) && ValueSpellable(codec, v) && text == ValueText(codec, v)
  {
    hide ParseUnsigned, ParseUint32, ParsePositiveDouble, Spelling, Spellable, Decimal, ParseRunMode, ParseAuthority,
         ParseMapping, ParseBoolean, RunModeText, AuthorityText, MappingText, BooleanText;
    if text.Some? {
      EnumerationSpellings(text.value);
      if v.Number? { UnsignedSpelling(text.value, v.number); }
      if v.Count? { Uint32Spelling(text.value, v.count); }
      if v.MaybeNumber? && v.maybeNumber.Some? { UnsignedSpelling(text.value, v.maybeNumber.value); }
      if v.MaybeReal? && v.maybeReal.Some? { DoubleSpelling(codec, text.value, v.maybeReal.value); }
    }
    if v.MaybeReal? && v.maybeReal.Some? { SpellableIsSpelled(codec, v.maybeReal.value); }
  }

  lemma SpellableIsSpelled(codec: Codec, v: real)
    ensures Spellable(codec, v) ==> Spelling(codec, v).Some?
  {
  }

  // ---- the scalar fields of a text ----

  function FieldText(codec: Codec, c: FrozenConfig, k: ScalarKey): Option<string> {
    ValueText(codec, FieldOf(c, k))
  }

  predicate Holds(codec: Codec, values: map<string, string>, c: FrozenConfig, k: ScalarKey) {
    Lookup(values, KeyText(k)) == FieldText(codec, c, k)
  }

  // Every scalar key holds exactly the field's text.
  ghost predicate ScalarsHeld(codec: Codec, values: map<string, string>, c: FrozenConfig) {
    forall k: ScalarKey :: Holds(codec, values, c, k)
  }

  predicate FloatsSpellable(codec: Codec, p: ThresholdPolicy) {
    && RealSpellable(codec, p.maxDriftPpm)
    && RealSpellable(codec, p.minGazeboRealTimeFactor)
    && RealSpellable(codec, p.maxGazeboRealTimeFactor)
  }

  // The header fields hold what a valid header may hold.
  predicate HeaderLegal(c: FrozenConfig) {
    IsSessionId(c.sessionId) && IsLowerHexDigest(c.sessionContractSha256)
  }

  function ReadField(codec: Codec, values: map<string, string>, k: ScalarKey): Option<FieldValue> {
    ReadValue(codec, Kind(k), Lookup(values, KeyText(k)))
  }

  lemma ReadFieldIsOfKind(codec: Codec, values: map<string, string>, k: ScalarKey)
    ensures ReadField(codec, values, k).Some? ==> OfKind(ReadField(codec, values, k).value, Kind(k))
  {
    hide Kind, KeyText, Lookup, ValueText, ReadValue;
    if ReadField(codec, values, k).Some? {
      ReadInverts(codec, Kind(k), Lookup(values, KeyText(k)), ReadField(codec, values, k).value);
    }
  }

  // Every field as read; only looked at once every field is.
  function FieldsRead(codec: Codec, values: map<string, string>): Fields {
    seq(28, n requires 0 <= n < 28 => match ReadField(codec, values, ORDER[n])
                                      case None => Constant("")
                                      case Some(v) => v)
  }

  // The configuration without its routes.
  function ReadScalars(codec: Codec, values: map<string, string>, digest: string): Option<FrozenConfig> {
    if exists k: ScalarKey :: ReadField(codec, values, k).None? then None
    else
      var c := ConfigOf(FieldsRead(codec, values), digest);
      if HeaderLegal(c) then Some(c) else None
  }

  lemma FieldsReadAreComplete(codec: Codec, values: map<string, string>)
    requires forall k: ScalarKey :: ReadField(codec, values, k).Some?
    ensures Complete(FieldsRead(codec, values))
    ensures forall k: ScalarKey :: ReadField(codec, values, k) == Some(FieldsRead(codec, values)[Place(k)])
  {
    hide ReadField, KindTable, OfKind, Place, ORDER;
    forall k: ScalarKey ensures ReadField(codec, values, k) == Some(FieldsRead(codec, values)[Place(k)]) {
      PlaceTellsKey(k);
    }
    forall n | 0 <= n < 28 ensures OfKind(FieldsRead(codec, values)[n], KindTable()[n]) {
      PlaceInOrder(n);
      ReadFieldIsOfKind(codec, values, ORDER[n]);
    }
  }

  lemma FieldsSpellable(codec: Codec, c: FrozenConfig)
    ensures FloatsSpellable(codec, c.thresholds) <==> forall k: ScalarKey :: ValueSpellable(codec, FieldOf(c, k))
  {
    hide RealSpellable, SCHEMA, REVISION, Place;
    assert Place(DriftKey) == 16 && Place(MinRateKey) == 24 && Place(MaxRateKey) == 25 by { RealPlaces(); }
    if FloatsSpellable(codec, c.thresholds) {
      forall n | 0 <= n < 28 ensures ValueSpellable(codec, FieldTable(c)[n]) {
      }
    }
    if forall k: ScalarKey :: ValueSpellable(codec, FieldOf(c, k)) {
      assert ValueSpellable(codec, FieldOf(c, DriftKey)) && ValueSpellable(codec, FieldOf(c, MinRateKey))
             && ValueSpellable(codec, FieldOf(c, MaxRateKey));
    }
  }

  lemma RealPlaces()
    ensures Place(DriftKey) == 16 && Place(MinRateKey) == 24 && Place(MaxRateKey) == 25
  {
  }

  // Every field reads as the configuration has it exactly when the keys hold its
  // texts and its floats have spellings.
  lemma FieldsReadWhenHeld(codec: Codec, values: map<string, string>, c: FrozenConfig)
    ensures (forall k: ScalarKey :: ReadField(codec, values, k) == Some(FieldOf(c, k))) <==>
              FloatsSpellable(codec, c.thresholds) && ScalarsHeld(codec, values, c)
  {
    hide KindTable, FieldTable, KeyText, Lookup, ValueText, ReadValue, FloatsSpellable, ValueSpellable, OfKind, Place;
    FieldsSpellable(codec, c);
    TableIsComplete(c);
    forall k: ScalarKey
      ensures ReadField(codec, values, k) == Some(FieldOf(c, k)) <==>
                Holds(codec, values, c, k) && ValueSpellable(codec, FieldOf(c, k))
    {
      ReadInverts(codec, Kind(k), Lookup(values, KeyText(k)), FieldOf(c, k));
    }
  }

  // The scalar fields read as a configuration exactly when its texts are what
  // the keys hold, and it is one the readers admit.
  lemma ScalarsInvert(codec: Codec, values: map<string, string>, digest: string, c: FrozenConfig)
    ensures ReadScalars(codec, values, digest) == Some(c) <==>
            && c.routes == [] && c.policySha256 == digest && HeaderLegal(c)
            && FloatsSpellable(codec, c.thresholds) && ScalarsHeld(codec, values, c)
  {
    hide ReadField, FieldTable, FloatsSpellable, ScalarsHeld, HeaderLegal, Complete, ConfigOf, FieldsRead, Place;
    FieldsReadWhenHeld(codec, values, c);
    if forall k: ScalarKey :: ReadField(codec, values, k).Some? {
      var fields := FieldsRead(codec, values);
      FieldsReadAreComplete(codec, values);
      ConfigHoldsFields(fields, digest);
      ConfigIsBare(fields, digest);
      if forall k: ScalarKey :: ReadField(codec, values, k) == Some(FieldOf(c, k)) {
        SameFields(fields, c);
        TableMakesConfig(c);
      }
    }
  }

  lemma SameFields(fields: Fields, c: FrozenConfig)
    requires forall k: ScalarKey :: fields[Place(k)] == FieldOf(c, k)
    ensures fields == FieldTable(c)
  {
    hide Place, FieldTable, ORDER;
    forall n | 0 <= n < 28 ensures fields[n] == FieldTable(c)[n] {
      PlaceInOrder(n);
      assert fields[Place(ORDER[n])] == FieldOf(c, ORDER[n]);
    }
  }

  lemma ConfigIsBare(fields: Fields, digest: string)
    ensures ConfigOf(fields, digest).routes == [] && ConfigOf(fields, digest).policySha256 == digest
  {
  }
}
