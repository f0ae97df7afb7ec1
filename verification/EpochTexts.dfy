// The epoch-state file by its literal text (src/core/epoch_fence.cpp:113-271 and
// 405-446): the keys, the escapes and the white space are written out here, over
// the Unicode scalar values a text carries, and the parser is proved to accept
// these texts and no others.
module EpochTexts {
  import opened Types
  import opened Policy
  import opened Decimals
  import opened Utf8
  import opened EpochState

  predicate Scalars(points: seq<int>) { forall i :: 0 <= i < |points| ==> Scalar(points[i]) }

  // The UTF-8 text of a sequence of scalar values.
  function Text(points: seq<int>): string
    requires Scalars(points)
  {
    if points == [] then "" else Encode(points[0]) + Text(points[1..])
  }

  const HEX := "0123456789abcdef"

  // How one scalar value is written inside a JSON string.
  function Written(v: int): string
    requires Scalar(v)
  {
    match v
    case 8 => "\\b"
    case 9 => "\\t"
    case 10 => "\\n"
    case 12 => "\\f"
    case 13 => "\\r"
    case 34 => "\\\""
    case 92 => "\\\\"
    case 38 => "\\u0026"
    case 60 => "\\u003c"
    case 62 => "\\u003e"
    case 0x2028 => "\\u2028"
    case 0x2029 => "\\u2029"
    case _ => if v < 32 then "\\u00" + [HEX[v / 16], HEX[v % 16]] else Encode(v)
  }

  function WrittenAll(points: seq<int>): string
    requires Scalars(points)
  {
    if points == [] then "" else Written(points[0]) + WrittenAll(points[1..])
  }

  // ---- the escapes ----

  lemma ShortLetters()
    ensures EscapeUnit([8 as char]) == "\\b" && EscapeUnit([9 as char]) == "\\t" && EscapeUnit([10 as char]) == "\\n"
    ensures EscapeUnit([12 as char]) == "\\f" && EscapeUnit([13 as char]) == "\\r"
    ensures EscapeUnit([34 as char]) == "\\\"" && EscapeUnit([92 as char]) == "\\\\"
  {
    hide NeedsUnicodeEscape, HexDigit;
  }

  lemma DigitsAreHex(n: nat)
    requires n < 16
    ensures HexDigit(n) == HEX[n]
  {
  }

  lemma AngleAndAmpersand()
    ensures EscapeUnit([38 as char]) == "\\u0026" && EscapeUnit([60 as char]) == "\\u003c"
            && EscapeUnit([62 as char]) == "\\u003e"
  {
    hide EscapeUnit;
    LowUnit(38 as char);
    LowUnit(60 as char);
    LowUnit(62 as char);
  }

  lemma ControlEscapes(v: int)
    requires 0 <= v < 32 && v !in {8, 9, 10, 12, 13}
    ensures EscapeUnit([Byte(v)]) == "\\u00" + [HEX[v / 16], HEX[v % 16]]
  {
    hide EscapeUnit, HexDigit, HEX;
    LowUnit(Byte(v));
    DigitsAreHex(v / 16);
    DigitsAreHex(v % 16);
  }

  lemma PlainUnit(u: string)
    requires u != "" && (u[0] as int >= 32 && u[0] !in {'"', '\\', '&', '<', '>'})
    requires u != LINE_SEPARATOR && u != PARAGRAPH_SEPARATOR
    ensures EscapeUnit(u) == u
  {
  }

  lemma Separators()
    ensures Encode(0x2028) == LINE_SEPARATOR && Encode(0x2029) == PARAGRAPH_SEPARATOR
  {
  }

  lemma Decoded(v: int)
    requires Scalar(v)
    ensures CanonicalUtf8Length(Encode(v), 0) == |Encode(v)| && CodePoint(Encode(v), 0, |Encode(v)|) == v
  {
    assert EncodedAt(Encode(v), 0, v);
    EncodedIsRecognised(Encode(v), 0, v);
  }

  // The canonical spelling of a character is the one written for its scalar value.
  lemma EscapesAreLiteral(v: int)
    requires Scalar(v)
    ensures Unit(Encode(v)) && EscapeUnit(Encode(v)) == Written(v)
  {
    hide EscapeUnit, CanonicalUtf8Length, CodePoint, Written, HEX;
    Decoded(v);
    ShortLetters();
    AngleAndAmpersand();
    Separators();
    SeparatorEscapes();
    if v in {8, 9, 10, 12, 13, 34, 92, 38, 60, 62} {
      WrittenShort(v);
    } else if v == 0x2028 || v == 0x2029 {
      WrittenShort(v);
    } else if v < 32 {
      ControlEscapes(v);
      WrittenPlain(v);
    } else {
      Distinct(v, 0x2028);
      Distinct(v, 0x2029);
      FirstByte(v);
      PlainUnit(Encode(v));
      WrittenPlain(v);
    }
  }

  lemma Distinct(v: int, w: int)
    requires Scalar(v) && Scalar(w) && v != w
    ensures Encode(v) != Encode(w)
  {
    Decoded(v);
    Decoded(w);
  }

  lemma FirstByte(v: int)
    requires Scalar(v) && v >= 32 && v !in {34, 92, 38, 60, 62}
    ensures Encode(v)[0] as int >= 32 && Encode(v)[0] !in {'"', '\\', '&', '<', '>'}
  {
  }

  lemma WrittenShort(v: int)
    requires v in {8, 9, 10, 12, 13, 34, 92, 38, 60, 62, 0x2028, 0x2029}
    ensures Written(v) == if v == 8 then "\\b" else if v == 9 then "\\t" else if v == 10 then "\\n"
                          else if v == 12 then "\\f" else if v == 13 then "\\r" else if v == 34 then "\\\""
                          else if v == 92 then "\\\\" else if v == 38 then "\\u0026" else if v == 60 then "\\u003c"
                          else if v == 62 then "\\u003e" else if v == 0x2028 then "\\u2028" else "\\u2029"
  {
  }

  lemma WrittenPlain(v: int)
    requires Scalar(v) && v !in {8, 9, 10, 12, 13, 34, 92, 38, 60, 62, 0x2028, 0x2029}
    ensures Written(v) == if v < 32 then "\\u00" + [HEX[v / 16], HEX[v % 16]] else Encode(v)
  {
  }

  // ---- strings ----

  lemma {:induction false} TextIsUtf8(points: seq<int>)
    requires Scalars(points)
    ensures ValidUtf8(Text(points)) && Escaped(Text(points)) == WrittenAll(points)
  {
    hide Unit, EscapeUnit, Written, Encode, ValidUtf8, FirstUnit, Escaped;
    if points == [] {
      EmptyText();
    } else {
      EscapesAreLiteral(points[0]);
      TextIsUtf8(points[1..]);
      UnitPrepended(Encode(points[0]), Text(points[1..]));
    }
  }

  lemma EmptyText()
    ensures ValidUtf8("") && Escaped("") == ""
  {
  }

  lemma {:induction false} Utf8IsText(s: string) returns (points: seq<int>)
    requires ValidUtf8(s)
    ensures Scalars(points) && Text(points) == s
  {
    hide CanonicalUtf8Length, CodePoint, Encode;
    if s == "" {
      points := [];
    } else {
      FirstIsUnit(s);
      RecognisedIsEncoded(s, 0);
      var n := CanonicalUtf8Length(s, 0);
      var rest := Utf8IsText(s[n..]);
      points := [CodePoint(s, 0, n)] + rest;
      assert points[1..] == rest;
      assert s[0..0 + n] == s[..n];
    }
  }

  // The quoted form of a text, by its scalar values.
  function QuotedPoints(points: seq<int>): string
    requires Scalars(points)
  {
    "\"" + WrittenAll(points) + "\""
  }

  // A string of the file reads as a text exactly when the text is UTF-8 and what
  // stands there is a quote, its scalar values as they are written, and a quote.
  lemma StringIsLiteral(bytes: string, position: nat, d: string, end: nat)
    requires position <= |bytes|
    ensures StringAt(bytes, position) == Some((d, end))
            <==> exists points :: Scalars(points) && d == Text(points) && end == position + |QuotedPoints(points)|
                                  && StartsAt(bytes, position, QuotedPoints(points))
  {
    hide StringAt, StartsAt, ValidUtf8, Escaped, WrittenAll, Scalars;
    StringSpelling(bytes, position, d, end);
    if ValidUtf8(d) {
      var points := Utf8IsText(d);
      TextIsUtf8(points);
      assert QuotedPoints(points) == Quoted(d);
    }
    forall points | Scalars(points) && d == Text(points)
      ensures ValidUtf8(d) && QuotedPoints(points) == Quoted(d)
    {
      TextIsUtf8(points);
    }
  }

  // ---- identities ----

  const WHITE_SPACE: set<int> := {
    0x09, 0x0A, 0x0B, 0x0C, 0x0D, 0x20, 0x85, 0xA0, 0x1680,
    0x2000, 0x2001, 0x2002, 0x2003, 0x2004, 0x2005, 0x2006, 0x2007, 0x2008, 0x2009, 0x200A,
    0x2028, 0x2029, 0x202F, 0x205F, 0x3000}

  lemma SpaceIsListed(v: int)
    ensures SpaceCodePoint(v) <==> v in WHITE_SPACE
  {
  }

  lemma {:induction false} EndsOfText(points: seq<int>)
    requires Scalars(points) && points != []
    ensures Text(points) != "" && ValidUtf8(Text(points)) && CanonicalUtf8Length(Text(points), 0) > 0
    ensures CodePoint(Text(points), 0, CanonicalUtf8Length(Text(points), 0)) == points[0]
    ensures LastPoint(Text(points)) == points[|points| - 1]
  {
    hide Encode, CanonicalUtf8Length, CodePoint, ValidUtf8, Escaped, WrittenAll;
    TextIsUtf8(points);
    var first, rest := Encode(points[0]), Text(points[1..]);
    var text := Text(points);
    assert text[0..0 + |first|] == first;
    assert EncodedAt(text, 0, points[0]);
    EncodedIsRecognised(text, 0, points[0]);
    assert text[|first|..] == rest;
    if |points| > 1 {
      EndsOfText(points[1..]);
    }
  }

  lemma {:induction false} NoNul(points: seq<int>)
    requires Scalars(points)
    ensures (0 as char) in Text(points) <==> 0 in points
  {
    if points != [] {
      NulIsZero(points[0]);
      hide Encode;
      NoNul(points[1..]);
      assert points == [points[0]] + points[1..];
    }
  }

  lemma NulIsZero(v: int)
    requires Scalar(v)
    ensures (0 as char) in Encode(v) <==> v == 0
  {
    if v == 0 { assert Encode(v)[0] == 0 as char; }
  }

  // An identity is accepted exactly when it is the UTF-8 text of scalar values
  // none of which is zero, the first and the last of which are no white space,
  // and takes at least one and at most the allowed number of bytes.
  lemma IdentityIsLiteral(value: string, maximum: nat)
    ensures CanonicalIdentity(value, maximum)
            <==> exists points :: Scalars(points) && points != [] && value == Text(points) && |value| <= maximum
                                  && 0 !in points && points[0] !in WHITE_SPACE && points[|points| - 1] !in WHITE_SPACE
  {
    hide Encode, CanonicalUtf8Length, CodePoint, SpaceCodePoint, WHITE_SPACE, ValidUtf8, LastPoint;
    if CanonicalIdentity(value, maximum) {
      var points := Utf8IsText(value);
      NoNul(points);
      EndsOfText(points);
      SpaceIsListed(points[0]);
      SpaceIsListed(points[|points| - 1]);
    }
    forall points | Scalars(points) && points != [] && value == Text(points) && |value| <= maximum
                    && 0 !in points && points[0] !in WHITE_SPACE && points[|points| - 1] !in WHITE_SPACE
      ensures CanonicalIdentity(value, maximum)
    {
      NoNul(points);
      EndsOfText(points);
      SpaceIsListed(points[0]);
      SpaceIsListed(points[|points| - 1]);
    }
  }

  // ---- the file ----

  // Characters that stand for themselves.
  predicate Plain(s: string) {
    forall i :: 0 <= i < |s| ==> 32 <= s[i] as int < 127 && s[i] !in {'"', '\\', '&', '<', '>'}
  }

  lemma {:induction false} PlainIsWritten(s: string)
    requires Plain(s)
    ensures ValidUtf8(s) && Escaped(s) == s
  {
    hide CanonicalUtf8Length, EscapeUnit, Escaped, ValidUtf8, FirstUnit, Unit;
    if s == "" {
      EmptyText();
    } else {
      PlainUnit([s[0]]);
      AsciiUnit(s[0]);
      PlainIsWritten(s[1..]);
      UnitPrepended([s[0]], s[1..]);
      assert [s[0]] + s[1..] == s;
    }
  }

  lemma AsciiUnit(c: char)
    requires c as int <= 0x7F
    ensures Unit([c])
  {
  }

  predicate IdentitiesAreUtf8(st: EpochFenceState) {
    ValidUtf8(st.jobId) && ValidUtf8(st.sessionId) && ValidUtf8(st.targetId)
  }

  function InQuotes(s: string): string { "\"" + s + "\"" }

  // The file of a state: one line.
  function StateText(st: EpochFenceState): string
    requires IdentitiesAreUtf8(st)
  {
    "{\"epochId\":" + InQuotes(Decimal(st.epoch))
    + ",\"jobId\":" + Quoted(st.jobId)
    + ",\"policySha256\":" + InQuotes(st.policySha256)
    + ",\"schema\":" + InQuotes("xgc.session-clock-policy.epoch-state.v1")
    + ",\"sessionContractSha256\":" + InQuotes(st.sessionContractSha256)
    + ",\"sessionId\":" + Quoted(st.sessionId)
    + ",\"targetId\":" + Quoted(st.targetId)
    + "}\n"
  }

  lemma DigestIsPlain(s: string)
    requires IsLowerHexDigest(s)
    ensures Plain(s)
  {
  }

  lemma EpochIsPlain(n: nat)
    ensures Plain(Decimal(n))
  {
    SpellingIsCanonical(n);
    hide Decimal;
  }

  lemma SchemaIsPlain()
    ensures SCHEMA == "xgc.session-clock-policy.epoch-state.v1" && Plain(SCHEMA)
  {
  }

  // The next pair of a lead and a quoted value moves to the text before it.
  lemma PrintsNext(before: string, leads: seq<string>, values: seq<string>, k: nat)
    requires |leads| == |values| && AllUtf8(values) && k < |leads|
    ensures before + PrintFields(leads[k..], values[k..])
            == before + leads[k] + Quoted(values[k]) + PrintFields(leads[k + 1..], values[k + 1..])
  {
    hide Quoted, ValidUtf8;
    assert leads[k..][1..] == leads[k + 1..] && values[k..][1..] == values[k + 1..];
  }

  lemma PrintsSeven(leads: seq<string>, values: seq<string>)
    requires |leads| == 7 == |values| && AllUtf8(values)
    ensures PrintFields(leads, values)
            == "" + leads[0] + Quoted(values[0]) + leads[1] + Quoted(values[1]) + leads[2] + Quoted(values[2])
               + leads[3] + Quoted(values[3]) + leads[4] + Quoted(values[4]) + leads[5] + Quoted(values[5])
               + leads[6] + Quoted(values[6])
  {
    hide Quoted, ValidUtf8, PrintFields;
    assert leads[0..] == leads && values[0..] == values;
    var t0 := "";
    assert t0 + PrintFields(leads, values) == PrintFields(leads, values);
    var t1 := t0 + leads[0] + Quoted(values[0]);
    var t2 := t1 + leads[1] + Quoted(values[1]);
    var t3 := t2 + leads[2] + Quoted(values[2]);
    var t4 := t3 + leads[3] + Quoted(values[3]);
    var t5 := t4 + leads[4] + Quoted(values[4]);
    var t6 := t5 + leads[5] + Quoted(values[5]);
    PrintsNext(t0, leads, values, 0);
    PrintsNext(t1, leads, values, 1);
    PrintsNext(t2, leads, values, 2);
    PrintsNext(t3, leads, values, 3);
    PrintsNext(t4, leads, values, 4);
    PrintsNext(t5, leads, values, 5);
    PrintsNext(t6, leads, values, 6);
    PrintsNothing(leads[7..], values[7..]);
    assert t6 + leads[6] + Quoted(values[6]) + "" == t6 + leads[6] + Quoted(values[6]);
  }

  lemma PrintsNothing(leads: seq<string>, values: seq<string>)
    requires leads == [] == values
    ensures PrintFields(leads, values) == ""
  {
  }

  lemma LeadsAreLiteral()
    ensures LEADS == ["{\"epochId\":", ",\"jobId\":", ",\"policySha256\":", ",\"schema\":",
                      ",\"sessionContractSha256\":", ",\"sessionId\":", ",\"targetId\":"]
    ensures CLOSE == "}\n"
  {
  }

  lemma PrintIsLiteral(st: EpochFenceState)
    requires AllUtf8(ValuesOf(st)) && IdentitiesAreUtf8(st)
    requires IsLowerHexDigest(st.policySha256) && IsLowerHexDigest(st.sessionContractSha256)
    ensures Print(st) == StateText(st)
  {
    hide ValidUtf8, Escaped, PrintFields, LEADS, CLOSE, SCHEMA, Plain, IsLowerHexDigest, Decimal;
    LeadsAreLiteral();
    SchemaIsPlain();
    DigestIsPlain(st.policySha256);
    DigestIsPlain(st.sessionContractSha256);
    EpochIsPlain(st.epoch);
    PlainIsWritten(Decimal(st.epoch));
    PlainIsWritten(st.policySha256);
    PlainIsWritten(SCHEMA);
    PlainIsWritten(st.sessionContractSha256);
    PrintsSeven(LEADS, ValuesOf(st));
    assert "" + LEADS[0] == LEADS[0];
  }

  // The parser reads a state from exactly one text: the epoch is positive, the job
  // and the target are identities of at most 64 and 128 bytes, both digests are 64
  // lower-case hexadecimal digits, the Session identity is UTF-8 of at most 64 bytes,
  // and the text is the file of that state.
  lemma EpochFileIsLiteral(bytes: string, st: EpochFenceState)
    ensures ParseEpochState(bytes) == Some(st)
            <==> && st.epoch > 0 && CanonicalIdentity(st.jobId, 64) && CanonicalIdentity(st.targetId, 128)
                 && IsLowerHexDigest(st.policySha256) && IsLowerHexDigest(st.sessionContractSha256)
                 && 0 < |st.sessionId| <= 64 && ValidUtf8(st.sessionId)
                 && bytes == StateText(st)
  {
    hide ParseEpochState, Print, StateText, ValuesOf, CanonicalIdentity, IsLowerHexDigest, ValidUtf8;
    EpochStateSpelling(bytes, st);
    if ValidState(st) {
      IdentityIsUtf8(st.jobId, 64);
      IdentityIsUtf8(st.targetId, 128);
      PrintIsLiteral(st);
    }
  }

  lemma IdentityIsUtf8(value: string, maximum: nat)
    requires CanonicalIdentity(value, maximum)
    ensures ValidUtf8(value)
  {
  }
}
