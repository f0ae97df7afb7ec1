// The canonical epoch state: one accepted byte string per value
// (src/core/epoch_fence.cpp:135-270 and 405-462). The cursor is a class that
// advances in place; the printer below has no counterpart in the program, and
// is what its parser is proved to invert.
module EpochState {
  import opened Numbers
  import opened Types
  import opened Policy
  import opened Decimals
  import opened Utf8

  const SCHEMA := "xgc.session-clock-policy.epoch-state.v1"
  const MAX_BYTES := 65536

  datatype EpochFenceState = EpochFenceState(
    epoch: u64,
    jobId: string,
    policySha256: string,
    sessionContractSha256: string,
    sessionId: string,
    targetId: string)

  // ---- well-formed text ----

  // A single character of UTF-8.
  predicate Unit(u: string) { u != "" && CanonicalUtf8Length(u, 0) == |u| }

  predicate ValidUtf8(s: string) {
    s == "" || (CanonicalUtf8Length(s, 0) > 0 && ValidUtf8(s[CanonicalUtf8Length(s, 0)..]))
  }

  function FirstUnit(s: string): (u: string)
    requires s != "" && ValidUtf8(s)
    ensures u != ""
  {
    s[..CanonicalUtf8Length(s, 0)]
  }

  // ---- the printer ----

  function HexDigit(n: nat): char
    requires n < 16
  {
    if n < 10 then ('0' as int + n) as char else ('a' as int + (n - 10)) as char
  }

  predicate NeedsUnicodeEscape(c: char) {
    (c as int < 0x20 && c as int !in {0x08, 0x09, 0x0A, 0x0C, 0x0D}) || c == '<' || c == '>' || c == '&'
  }

  const LINE_SEPARATOR: string := [Byte(0xE2), Byte(0x80), Byte(0xA8)]
  const PARAGRAPH_SEPARATOR: string := [Byte(0xE2), Byte(0x80), Byte(0xA9)]

  // The canonical spelling of one character inside a JSON string.
  function EscapeUnit(u: string): (e: string)
    requires u != ""
    ensures 1 <= |e| <= |u| + 5
  {
    if u == "\"" then "\\\""
    else if u == "\\" then "\\\\"
    else if u == [8 as char] then "\\b"
    else if u == [12 as char] then "\\f"
    else if u == "\n" then "\\n"
    else if u == "\r" then "\\r"
    else if u == "\t" then "\\t"
    else if |u| == 1 && NeedsUnicodeEscape(u[0]) then "\\u00" + [HexDigit(u[0] as int / 16 % 16), HexDigit(u[0] as int % 16)]
    else if u == LINE_SEPARATOR then "\\u2028"
    else if u == PARAGRAPH_SEPARATOR then "\\u2029"
    else u
  }

  function Escaped(s: string): string
    requires ValidUtf8(s)
  {
    if s == "" then "" else EscapeUnit(FirstUnit(s)) + Escaped(s[|FirstUnit(s)|..])
  }

  function Quoted(s: string): string
    requires ValidUtf8(s)
  {
    "\"" + Escaped(s) + "\""
  }

  // ---- what the cursor reads ----

  predicate StartsAt(bytes: string, position: nat, expected: string) {
    position + |expected| <= |bytes| && bytes[position..position + |expected|] == expected
  }

  function HexValue(c: char): (r: Option<nat>)
    ensures r.Some? ==> r.value < 16
  {
    if '0' <= c <= '9' then Some(c as int - '0' as int)
    else if 'a' <= c <= 'f' then Some(10 + (c as int - 'a' as int))
    else None
  }

  // The number four lower-case hexadecimal digits spell.
  function HexNumber(digits: string): Option<nat> {
    if digits == "" then Some(0)
    else
      match (HexNumber(digits[..|digits| - 1]), HexValue(digits[|digits| - 1]))
      case (Some(n), Some(d)) => Some(n * 16 + d)
      case _ => None
  }

  lemma HexNumberBound(digits: string)
    requires HexNumber(digits).Some? && |digits| == 4
    ensures HexNumber(digits).value < 0x10000
  {
    var a, b, c := digits[..3], digits[..2], digits[..1];
    assert a[..2] == b && a[..1] == c && b[..1] == c && c[..0] == "" && digits[..0] == "";
    assert HexNumber(c).Some? && HexNumber(c).value < 16;
    assert HexNumber(b).Some? && HexNumber(b).value < 256;
    assert HexNumber(a).Some? && HexNumber(a).value < 4096;
  }

  predicate UnicodeEscapeAllowed(spelling: string, codePoint: nat) {
    || spelling == "003c" || spelling == "003e" || spelling == "0026"
    || spelling == "2028" || spelling == "2029"
    || (codePoint < 0x20 && codePoint !in {0x08, 0x09, 0x0A, 0x0C, 0x0D}
        && |spelling| >= 2 && spelling[0] == '0' && spelling[1] == '0')
  }

  // What an escape decodes to and how long it is.
  function EscapeAt(bytes: string, position: nat): (r: Option<(string, nat)>)
    requires position < |bytes|
    ensures r.Some? ==> 2 <= r.value.1 && position + r.value.1 <= |bytes|
  {
    if position + 1 >= |bytes| then None
    else
      match bytes[position + 1]
      case '"' => Some(("\"", 2))
      case '\\' => Some(("\\", 2))
      case 'b' => Some(([8 as char], 2))
      case 'f' => Some(([12 as char], 2))
      case 'n' => Some(("\n", 2))
      case 'r' => Some(("\r", 2))
      case 't' => Some(("\t", 2))
      case 'u' =>
        if position + 6 > |bytes| then None
        else UnicodeEscape(bytes[position + 2..position + 6])
      case _ => None
  }

  function UnicodeEscape(spelling: string): (r: Option<(string, nat)>)
    requires |spelling| == 4
    ensures r.Some? ==> r.value.1 == 6
  {
    match HexNumber(spelling)
    case None => None
    case Some(codePoint) =>
      HexNumberBound(spelling);
      if UnicodeEscapeAllowed(spelling, codePoint) then Some((AppendUtf8("", codePoint), 6)) else None
  }

  // What the next character of a string decodes to and how long it is.
  function UnitAt(bytes: string, position: nat): (r: Option<(string, nat)>)
    requires position < |bytes|
    ensures r.Some? ==> 1 <= r.value.1 && position + r.value.1 <= |bytes|
  {
    var c := bytes[position];
    if c == '\\' then EscapeAt(bytes, position)
    else if c as int < 0x20 || c == '<' || c == '>' || c == '&' then None
    else
      var n := CanonicalUtf8Length(bytes, position);
      if n == 0 then None
      else
        var u := bytes[position..position + n];
        if u == LINE_SEPARATOR || u == PARAGRAPH_SEPARATOR then None else Some((u, n))
  }

  // The rest of a string up to its closing quote, and the position after it.
  function TailAt(bytes: string, position: nat): (r: Option<(string, nat)>)
    requires position <= |bytes|
    ensures r.Some? ==> position < r.value.1 <= |bytes|
    decreases |bytes| - position
  {
    if position == |bytes| then None
    else if bytes[position] == '"' then Some(("", position + 1))
    else
      match UnitAt(bytes, position)
      case None => None
      case Some((u, n)) => Prefixed(u, TailAt(bytes, position + n))
  }

  function Prefixed(u: string, r: Option<(string, nat)>): Option<(string, nat)> {
    match r
    case None => None
    case Some((d, end)) => Some((u + d, end))
  }

  function StringAt(bytes: string, position: nat): (r: Option<(string, nat)>)
    requires position <= |bytes|
    ensures r.Some? ==> position < r.value.1 <= |bytes|
  {
    if StartsAt(bytes, position, "\"") then TailAt(bytes, position + 1) else None
  }

  // ---- the cursor ----

  class CanonicalJsonCursor {
    const bytes: string
    var position: nat

    ghost predicate Valid() reads this { position <= |bytes| }

    constructor (input: string)
      ensures Valid() && bytes == input && position == 0
    {
      bytes := input;
      position := 0;
    }

    method Literal(expected: string) returns (ok: bool)
      requires Valid()
      modifies this
      ensures Valid()
      ensures ok <==> StartsAt(bytes, old(position), expected)
      ensures position == old(position) + (if ok then |expected| else 0)
    {
      if position + |expected| > |bytes| || bytes[position..position + |expected|] != expected {
        return false;
      }
      position := position + |expected|;
      return true;
    }

    // What the string at the position decodes to; nothing when it is refused.
    method StringValue() returns (r: Option<string>)
      requires Valid()
      modifies this
      ensures Valid()
      ensures match StringAt(bytes, old(position))
              case None => r == None
              case Some((d, end)) => r == Some(d) && position == end
    {
      hide UnitAt;
      var open := Literal("\"");
      if !open {
        return None;
      }
      var decoded := "";
      ghost var start := position;
      PrefixedByNothing(TailAt(bytes, start));
      while position < |bytes|
        invariant start <= position <= |bytes|
        invariant TailAt(bytes, start) == Prefixed(decoded, TailAt(bytes, position))
        decreases |bytes| - position
      {
        if bytes[position] == '"' {
          position := position + 1;
          assert decoded + "" == decoded;
          return Some(decoded);
        }
        var unit := NextUnit();
        if unit.None? {
          return None;
        }
        PrefixedTwice(decoded, unit.value, TailAt(bytes, position));
        decoded := decoded + unit.value;
      }
      return None;
    }

    // A literal and the string value after it.
    method Field(lead: string) returns (r: Option<string>)
      requires Valid()
      modifies this
      ensures Valid()
      ensures match FieldAt(bytes, old(position), lead)
              case None => r == None
              case Some((d, end)) => r == Some(d) && position == end
    {
      hide StringAt;
      var ok := Literal(lead);
      if !ok {
        return None;
      }
      r := StringValue();
    }

    method NextUnit() returns (r: Option<string>)
      requires Valid() && position < |bytes|
      modifies this
      ensures Valid()
      ensures match UnitAt(bytes, old(position))
              case None => r == None
              case Some((u, n)) => r == Some(u) && position == old(position) + n
    {
      hide CanonicalUtf8Length, EscapeAt;
      var c := bytes[position];
      if c == '\\' {
        r := ParseEscape();
        return;
      }
      if c as int < 0x20 || c == '<' || c == '>' || c == '&' {
        return None;
      }
      var length := CanonicalUtf8Length(bytes, position);
      if length == 0 {
        return None;
      }
      var unit := bytes[position..position + length];
      if unit == LINE_SEPARATOR || unit == PARAGRAPH_SEPARATOR {
        return None;
      }
      position := position + length;
      return Some(unit);
    }

    method ParseEscape() returns (r: Option<string>)
      requires Valid() && position < |bytes|
      modifies this
      ensures Valid()
      ensures match EscapeAt(bytes, old(position))
              case None => r == None
              case Some((u, n)) => r == Some(u) && position == old(position) + n
    {
      hide AppendUtf8, UnicodeEscapeAllowed, UnicodeEscape;
      position := position + 1;
      if position >= |bytes| {
        return None;
      }
      var escape := bytes[position];
      position := position + 1;
      match escape {
        case '"' => return Some("\"");
        case '\\' => return Some("\\");
        case 'b' => return Some([8 as char]);
        case 'f' => return Some([12 as char]);
        case 'n' => return Some("\n");
        case 'r' => return Some("\r");
        case 't' => return Some("\t");
        case 'u' => 
        case _ => return None;
      }
      r := ParseHex();
    }

    // The four digits of a unicode escape.
    method ParseHex() returns (r: Option<string>)
      requires Valid()
      modifies this
      ensures Valid()
      ensures var before := old(position);
              if before + 4 > |bytes| || UnicodeEscape(bytes[before..before + 4]).None? then r == None
              else r == Some(UnicodeEscape(bytes[before..before + 4]).value.0) && position == before + 4
    {
      hide AppendUtf8, UnicodeEscapeAllowed;
      if position + 4 > |bytes| {
        return None;
      }
      var spelling := bytes[position..position + 4];
      var codePoint: nat := 0;
      for index := 0 to 4
        invariant Some(codePoint) == HexNumber(spelling[..index])
      {
        var digit := HexValue(bytes[position + index]);
        assert spelling[..index + 1][..index] == spelling[..index];
        if digit.None? {
          HexNumberFails(spelling, index);
          return None;
        }
        codePoint := codePoint * 16 + digit.value;
      }
      assert spelling[..4] == spelling;
      position := position + 4;
      if !UnicodeEscapeAllowed(spelling, codePoint) {
        return None;
      }
      HexNumberBound(spelling);
      return Some(AppendUtf8("", codePoint));
    }
  }

  lemma PrefixedByNothing(r: Option<(string, nat)>)
    ensures Prefixed("", r) == r
  {
    if r.Some? { assert "" + r.value.0 == r.value.0; }
  }

  lemma PrefixedTwice(a: string, b: string, r: Option<(string, nat)>)
    ensures Prefixed(a, Prefixed(b, r)) == Prefixed(a + b, r)
  {
    if r.Some? { assert a + (b + r.value.0) == a + b + r.value.0; }
  }

  lemma {:induction false} HexNumberFails(digits: string, index: nat)
    requires index < |digits| && HexValue(digits[index]).None?
    ensures HexNumber(digits).None?
  {
    if index < |digits| - 1 {
      HexNumberFails(digits[..|digits| - 1], index);
    }
  }

  // ---- one character ----

  // The length at a position depends only on the character that starts there.
  lemma LengthIsLocal(input: string, position: nat, s: string)
    requires s != "" && StartsAt(input, position, s) && CanonicalUtf8Length(s, 0) > 0
    ensures position < |input| && CanonicalUtf8Length(input, position) == CanonicalUtf8Length(s, 0)
  {
    assert forall k :: 0 <= k < |s| ==> s[k] == input[position + k];
  }

  lemma UnitOfSlice(input: string, position: nat)
    requires position < |input| && CanonicalUtf8Length(input, position) > 0
    ensures Unit(input[position..position + CanonicalUtf8Length(input, position)])
  {
    var n := CanonicalUtf8Length(input, position);
    var u := input[position..position + n];
    assert forall k :: 0 <= k < n ==> u[k] == input[position + k];
  }

  lemma HexDigitsInvert(c: char)
    requires HexValue(c).Some?
    ensures HexDigit(HexValue(c).value) == c
  {
  }

  lemma FourHexDigits(spelling: string)
    requires |spelling| == 4 && HexNumber(spelling).Some?
    ensures forall k :: 0 <= k < 4 ==> HexValue(spelling[k]).Some?
    ensures HexNumber(spelling).value == ((HexValue(spelling[0]).value * 16 + HexValue(spelling[1]).value) * 16
                                          + HexValue(spelling[2]).value) * 16 + HexValue(spelling[3]).value
  {
    var a, b, c := spelling[..3], spelling[..2], spelling[..1];
    assert a[..2] == b && b[..1] == c && c[..0] == "";
    LastHexDigit(spelling);
    LastHexDigit(a);
    LastHexDigit(b);
    LastHexDigit(c);
    hide HexNumber, HexValue;
    assert HexNumber("") == Some(0) by { NoHexDigits(); }
  }

  lemma NoHexDigits()
    ensures HexNumber("") == Some(0)
  {
  }

  // A number's digits but the last spell a number too.
  lemma LastHexDigit(digits: string)
    requires digits != "" && HexNumber(digits).Some?
    ensures var front, last := digits[..|digits| - 1], HexValue(digits[|digits| - 1]);
            HexNumber(front).Some? && last.Some? && HexNumber(digits).value == HexNumber(front).value * 16 + last.value
  {
  }

  lemma SeparatorBytes()
    ensures AppendUtf8("", 0x2028) == LINE_SEPARATOR && AppendUtf8("", 0x2029) == PARAGRAPH_SEPARATOR
    ensures HexNumber("2028") == Some(0x2028) && HexNumber("2029") == Some(0x2029)
    ensures HexNumber("003c") == Some(0x3C) && HexNumber("003e") == Some(0x3E) && HexNumber("0026") == Some(0x26)
    ensures Unit(LINE_SEPARATOR) && Unit(PARAGRAPH_SEPARATOR)
    ensures EscapeUnit(LINE_SEPARATOR) == "\\u2028" && EscapeUnit(PARAGRAPH_SEPARATOR) == "\\u2029"
  {
    hide HexNumber, EscapeUnit, AppendUtf8, Unit;
    SeparatorDigits();
    SeparatorUnits();
    SeparatorEscapes();
  }

  lemma SeparatorDigits()
    ensures HexNumber("2028") == Some(0x2028) && HexNumber("2029") == Some(0x2029)
    ensures HexNumber("003c") == Some(0x3C) && HexNumber("003e") == Some(0x3E) && HexNumber("0026") == Some(0x26)
  {
    hide HexNumber;
    HexOf('2', '0', '2', '8');
    HexOf('2', '0', '2', '9');
    HexOf('0', '0', '3', 'c');
    HexOf('0', '0', '3', 'e');
    HexOf('0', '0', '2', '6');
  }

  lemma SeparatorUnits()
    ensures AppendUtf8("", 0x2028) == LINE_SEPARATOR && AppendUtf8("", 0x2029) == PARAGRAPH_SEPARATOR
    ensures Unit(LINE_SEPARATOR) && Unit(PARAGRAPH_SEPARATOR)
  {
  }

  lemma SeparatorEscapes()
    ensures EscapeUnit(LINE_SEPARATOR) == "\\u2028" && EscapeUnit(PARAGRAPH_SEPARATOR) == "\\u2029"
  {
  }

  // The escape of a character that needs one spells its own code.
  lemma LowEscapeSound(spelling: string, n: nat)
    requires |spelling| == 4 && HexNumber(spelling) == Some(n)
    requires n < 0x40 && spelling[0] == '0' && spelling[1] == '0' && NeedsUnicodeEscape(n as char)
    ensures Unit([n as char]) && EscapeUnit([n as char]) == "\\u" + spelling
  {
    hide HexNumber, HexDigit, HexValue, Unit, EscapeUnit, NeedsUnicodeEscape;
    LowHexDigits(spelling, n);
    LowUnit(n as char);
    assert "\\u" + spelling == "\\u00" + [spelling[2], spelling[3]];
  }

  // Four digits that start with two zeros are the two digits of a small code.
  lemma LowHexDigits(spelling: string, n: nat)
    requires |spelling| == 4 && HexNumber(spelling) == Some(n)
    requires n < 0x40 && spelling[0] == '0' && spelling[1] == '0'
    ensures spelling[2] == HexDigit(n / 16 % 16) && spelling[3] == HexDigit(n % 16)
  {
    FourHexDigits(spelling);
    hide HexNumber;
    assert HexValue('0') == Some(0);
    HexDigitsInvert(spelling[2]);
    HexDigitsInvert(spelling[3]);
    hide HexDigit, HexValue;
    assert n == HexValue(spelling[2]).value * 16 + HexValue(spelling[3]).value;
  }

  lemma LowUnit(c: char)
    requires NeedsUnicodeEscape(c)
    ensures Unit([c]) && EscapeUnit([c]) == "\\u00" + [HexDigit(c as int / 16 % 16), HexDigit(c as int % 16)]
  {
    hide HexDigit;
    assert [c][0] == c;
  }

  // An accepted unicode escape is the canonical spelling of what it decodes to.
  lemma UnicodeEscapeSound(spelling: string)
    requires |spelling| == 4 && UnicodeEscape(spelling).Some?
    ensures var u := UnicodeEscape(spelling).value.0;
            Unit(u) && EscapeUnit(u) == "\\u" + spelling
  {
    SeparatorBytes();
    hide HexNumber, EscapeUnit, Unit;
    if spelling != "2028" && spelling != "2029" {
      var n := HexNumber(spelling).value;
      LowEscapeSound(spelling, n);
      assert AppendUtf8("", n) == [n as char];
    }
  }

  lemma EscapeSound(bytes: string, position: nat)
    requires position < |bytes| && bytes[position] == '\\' && EscapeAt(bytes, position).Some?
    ensures var (u, n) := EscapeAt(bytes, position).value;
            Unit(u) && EscapeUnit(u) == bytes[position..position + n]
  {
    hide UnicodeEscape, NeedsUnicodeEscape, EscapeUnit, Unit;
    if bytes[position + 1] == 'u' {
      var spelling := bytes[position + 2..position + 6];
      UnicodeEscapeSound(spelling);
      assert bytes[position..position + 6] == "\\u" + spelling;
    } else {
      ShortEscapeSound(bytes, position);
    }
  }

  lemma ShortEscapeSound(bytes: string, position: nat)
    requires position < |bytes| && bytes[position] == '\\' && EscapeAt(bytes, position).Some?
    requires bytes[position + 1] != 'u'
    ensures var (u, n) := EscapeAt(bytes, position).value;
            n == 2 && Unit(u) && EscapeUnit(u) == bytes[position..position + 2]
  {
    hide UnicodeEscape, NeedsUnicodeEscape, EscapeUnit, Unit;
    var (u, _) := EscapeAt(bytes, position).value;
    ShortEscape(u, bytes[position + 1]);
    assert bytes[position..position + 2] == [bytes[position], bytes[position + 1]];
  }

  // The characters with an escape of one letter.
  lemma ShortEscape(u: string, c: char)
    requires (u, c) in {("\"", '"'), ("\\", '\\'), ([8 as char], 'b'), ([12 as char], 'f'),
                        ("\n", 'n'), ("\r", 'r'), ("\t", 't')}
    ensures Unit(u) && EscapeUnit(u) == ['\\', c]
  {
    hide NeedsUnicodeEscape;
  }

  // A character read from the bytes is spelled exactly as it stands there.
  lemma UnitSound(bytes: string, position: nat)
    requires position < |bytes| && bytes[position] != '"' && UnitAt(bytes, position).Some?
    ensures var (u, n) := UnitAt(bytes, position).value;
            Unit(u) && EscapeUnit(u) == bytes[position..position + n]
  {
    hide EscapeAt;
    if bytes[position] == '\\' {
      EscapeSound(bytes, position);
    } else {
      UnitOfSlice(bytes, position);
      hide CanonicalUtf8Length;
      assert bytes[position..position + UnitAt(bytes, position).value.1][0] == bytes[position];
    }
  }

  // The canonical spelling of a character reads back as that character.
  lemma UnitComplete(bytes: string, position: nat, u: string)
    requires Unit(u) && StartsAt(bytes, position, EscapeUnit(u))
    ensures position < |bytes| && bytes[position] != '"'
    ensures UnitAt(bytes, position) == Some((u, |EscapeUnit(u)|))
  {
    var e := EscapeUnit(u);
    assert e[0] == bytes[position];
    if e == u {
      assert u[0] == bytes[position];
      LengthIsLocal(bytes, position, u);
    } else if |u| == 1 && NeedsUnicodeEscape(u[0]) {
      assert u == [u[0]];
      EscapeComplete(bytes, position, u[0]);
    } else if u == LINE_SEPARATOR {
      SeparatorComplete(bytes, position, "2028", u);
    } else if u == PARAGRAPH_SEPARATOR {
      SeparatorComplete(bytes, position, "2029", u);
    } else {
      assert e[1] == bytes[position + 1];
    }
  }

  lemma HexOf(a: char, b: char, c: char, d: char)
    requires HexValue(a).Some? && HexValue(b).Some? && HexValue(c).Some? && HexValue(d).Some?
    ensures HexNumber([a, b, c, d]) ==
            Some(((HexValue(a).value * 16 + HexValue(b).value) * 16 + HexValue(c).value) * 16 + HexValue(d).value)
  {
    assert [a, b, c, d][..3] == [a, b, c] && [a, b, c][..2] == [a, b] && [a, b][..1] == [a] && [a][..0] == "";
    assert HexNumber([a]) == Some(HexValue(a).value);
    assert HexNumber([a, b]) == Some(HexValue(a).value * 16 + HexValue(b).value);
    assert HexNumber([a, b, c]) == Some((HexValue(a).value * 16 + HexValue(b).value) * 16 + HexValue(c).value);
  }

  lemma EscapeComplete(bytes: string, position: nat, c: char)
    requires c as int < 0x80 && NeedsUnicodeEscape(c)
    requires StartsAt(bytes, position, "\\u00" + [HexDigit(c as int / 16 % 16), HexDigit(c as int % 16)])
    ensures UnitAt(bytes, position) == Some(([c], 6))
  {
    hide HexDigit, UnicodeEscape, NeedsUnicodeEscape;
    var high, low := HexDigit(c as int / 16 % 16), HexDigit(c as int % 16);
    var e := "\\u00" + [high, low];
    assert forall k :: 0 <= k < 6 ==> e[k] == bytes[position + k];
    assert bytes[position + 2..position + 6] == ['0', '0', high, low];
    LowEscapeComplete(c);
  }

  lemma LowEscapeComplete(c: char)
    requires c as int < 0x80 && NeedsUnicodeEscape(c)
    ensures UnicodeEscape(['0', '0', HexDigit(c as int / 16 % 16), HexDigit(c as int % 16)]) == Some(([c], 6))
  {
    hide HexNumber, HexDigit, HexValue, UnicodeEscapeAllowed;
    LowCodeSpelled(c);
    LowCodeAllowed(c);
    assert AppendUtf8("", c as int) == [c];
  }

  lemma LowCodeSpelled(c: char)
    requires c as int < 0x80
    ensures HexNumber(['0', '0', HexDigit(c as int / 16 % 16), HexDigit(c as int % 16)]) == Some(c as int)
  {
    hide HexNumber, HexDigit;
    assert HexValue('0') == Some(0);
    DigitsHexInvert(c as int / 16 % 16);
    DigitsHexInvert(c as int % 16);
    hide HexValue;
    HexOf('0', '0', HexDigit(c as int / 16 % 16), HexDigit(c as int % 16));
  }

  lemma DigitsHexInvert(n: nat)
    requires n < 16
    ensures HexValue(HexDigit(n)) == Some(n)
  {
  }

  lemma LowCodeAllowed(c: char)
    requires c as int < 0x80 && NeedsUnicodeEscape(c)
    ensures UnicodeEscapeAllowed(['0', '0', HexDigit(c as int / 16 % 16), HexDigit(c as int % 16)], c as int)
  {
  }

  lemma SeparatorComplete(bytes: string, position: nat, spelling: string, u: string)
    requires (spelling == "2028" && u == LINE_SEPARATOR) || (spelling == "2029" && u == PARAGRAPH_SEPARATOR)
    requires StartsAt(bytes, position, "\\u" + spelling)
    ensures UnitAt(bytes, position) == Some((u, 6))
  {
    SeparatorBytes();
    hide HexNumber, AppendUtf8;
    var e := "\\u" + spelling;
    assert forall k :: 0 <= k < 6 ==> e[k] == bytes[position + k];
    assert bytes[position + 2..position + 6] == spelling;
  }

  // ---- strings ----

  lemma UnitPrepended(u: string, d: string)
    requires Unit(u) && ValidUtf8(d)
    ensures ValidUtf8(u + d) && FirstUnit(u + d) == u && Escaped(u + d) == EscapeUnit(u) + Escaped(d)
  {
    assert StartsAt(u + d, 0, u);
    LengthIsLocal(u + d, 0, u);
    hide CanonicalUtf8Length, EscapeUnit;
    assert (u + d)[|u|..] == d && (u + d)[..|u|] == u;
  }

  lemma FirstIsUnit(d: string)
    requires d != "" && ValidUtf8(d)
    ensures Unit(FirstUnit(d)) && ValidUtf8(d[|FirstUnit(d)|..])
    ensures d == FirstUnit(d) + d[|FirstUnit(d)|..]
  {
    UnitOfSlice(d, 0);
    hide CanonicalUtf8Length;
    assert d[..CanonicalUtf8Length(d, 0)] == d[0..0 + CanonicalUtf8Length(d, 0)];
  }

  // What a string decodes to is valid UTF-8, and its canonical spelling stands
  // in the bytes.
  lemma {:induction false} TailSound(bytes: string, position: nat)
    requires position <= |bytes| && TailAt(bytes, position).Some?
    ensures var (d, end) := TailAt(bytes, position).value;
            ValidUtf8(d) && bytes[position..end] == Escaped(d) + "\""
    decreases |bytes| - position
  {
    hide UnitAt, CanonicalUtf8Length, EscapeUnit;
    if bytes[position] == '"' {
      assert bytes[position..position + 1] == "\"";
    } else {
      UnitSound(bytes, position);
      var (u, n) := UnitAt(bytes, position).value;
      TailSound(bytes, position + n);
      var (d, end) := TailAt(bytes, position + n).value;
      UnitPrepended(u, d);
      assert bytes[position..end] == bytes[position..position + n] + bytes[position + n..end];
    }
  }

  // The canonical spelling of valid UTF-8 reads back as it.
  lemma {:induction false} TailComplete(bytes: string, position: nat, d: string)
    requires ValidUtf8(d) && StartsAt(bytes, position, Escaped(d) + "\"")
    ensures position <= |bytes| && TailAt(bytes, position) == Some((d, position + |Escaped(d)| + 1))
    decreases |d|
  {
    hide UnitAt, CanonicalUtf8Length, EscapeUnit, Unit, StartsAt, ValidUtf8;
    StartsInside(bytes, position, Escaped(d) + "\"");
    if d == "" {
      StartsWithQuote(bytes, position);
    } else {
      FirstIsUnit(d);
      var u, rest := FirstUnit(d), d[|FirstUnit(d)|..];
      var e := EscapeUnit(u);
      assert Escaped(d) + "\"" == e + (Escaped(rest) + "\"");
      StartsWithBoth(bytes, position, e, Escaped(rest) + "\"");
      UnitComplete(bytes, position, u);
      TailComplete(bytes, position + |e|, rest);
    }
  }

  // Text that is two pieces stands at a position exactly when the first piece
  // does and the second stands right after it.
  lemma StartsWithBoth(bytes: string, position: nat, a: string, b: string)
    ensures StartsAt(bytes, position, a + b) <==> StartsAt(bytes, position, a) && StartsAt(bytes, position + |a|, b)
  {
    if position + |a| + |b| <= |bytes| {
      var here := bytes[position..position + |a| + |b|];
      assert here[..|a|] == bytes[position..position + |a|];
      assert here[|a|..] == bytes[position + |a|..position + |a| + |b|];
      assert (a + b)[..|a|] == a && (a + b)[|a|..] == b;
      assert here == here[..|a|] + here[|a|..];
    }
  }

  lemma StartsInside(bytes: string, position: nat, s: string)
    requires StartsAt(bytes, position, s)
    ensures position + |s| <= |bytes| && bytes[position..position + |s|] == s
  {
  }

  lemma StartsWithQuote(bytes: string, position: nat)
    requires StartsAt(bytes, position, "" + "\"")
    ensures position < |bytes| && bytes[position] == '"'
  {
    assert bytes[position..position + 1][0] == bytes[position];
  }

  // A string is read as d exactly when its one canonical spelling stands there.
  lemma StringSpelling(bytes: string, position: nat, d: string, end: nat)
    requires position <= |bytes|
    ensures StringAt(bytes, position) == Some((d, end))
            <==> ValidUtf8(d) && end == position + |Quoted(d)| && StartsAt(bytes, position, Quoted(d))
  {
    hide TailAt, ValidUtf8, Escaped;
    if StringAt(bytes, position) == Some((d, end)) {
      TailSound(bytes, position + 1);
      assert bytes[position..end] == bytes[position..position + 1] + bytes[position + 1..end];
    }
    if ValidUtf8(d) && StartsAt(bytes, position, Quoted(d)) {
      hide StartsAt;
      assert Quoted(d) == "\"" + (Escaped(d) + "\"");
      StartsWithBoth(bytes, position, "\"", Escaped(d) + "\"");
      TailComplete(bytes, position + 1, d);
    }
  }

  // ---- the object ----

  // The literals of the state object, each before one string value.
  const LEADS: seq<string> := [
    "{\"epochId\":", ",\"jobId\":", ",\"policySha256\":", ",\"schema\":",
    ",\"sessionContractSha256\":", ",\"sessionId\":", ",\"targetId\":"]
  const CLOSE := "}\n"

  function PrintFields(leads: seq<string>, values: seq<string>): string
    requires |leads| == |values| && AllUtf8(values)
  {
    if leads == [] then "" else leads[0] + Quoted(values[0]) + PrintFields(leads[1..], values[1..])
  }

  predicate AllUtf8(values: seq<string>) { forall i :: 0 <= i < |values| ==> ValidUtf8(values[i]) }

  function FieldAt(bytes: string, position: nat, lead: string): (r: Option<(string, nat)>)
    requires position <= |bytes|
    ensures r.Some? ==> position <= r.value.1 <= |bytes|
  {
    if !StartsAt(bytes, position, lead) then None else StringAt(bytes, position + |lead|)
  }

  function FieldsAt(bytes: string, position: nat, leads: seq<string>): (r: Option<(seq<string>, nat)>)
    requires position <= |bytes|
    ensures r.Some? ==> |r.value.0| == |leads| && position <= r.value.1 <= |bytes|
    decreases |leads|
  {
    if leads == [] then Some(([], position))
    else
      match FieldAt(bytes, position, leads[0])
      case None => None
      case Some((d, next)) =>
        match FieldsAt(bytes, next, leads[1..])
        case None => None
        case Some((rest, end)) => Some(([d] + rest, end))
  }

  lemma {:induction false} FieldsSound(bytes: string, position: nat, leads: seq<string>)
    requires position <= |bytes| && FieldsAt(bytes, position, leads).Some?
    ensures var (values, end) := FieldsAt(bytes, position, leads).value;
            |values| == |leads| && AllUtf8(values) && bytes[position..end] == PrintFields(leads, values)
    decreases |leads|
  {
    hide StringAt, Quoted, ValidUtf8;
    if leads != [] {
      var middle := position + |leads[0]|;
      var (d, next) := StringAt(bytes, middle).value;
      StringSpelling(bytes, middle, d, next);
      FieldsSound(bytes, next, leads[1..]);
      var (rest, end) := FieldsAt(bytes, next, leads[1..]).value;
      var values := [d] + rest;
      assert values[1..] == rest;
      assert bytes[position..end] == bytes[position..middle] + bytes[middle..next] + bytes[next..end];
    }
  }

  lemma {:induction false} FieldsComplete(bytes: string, position: nat, leads: seq<string>, values: seq<string>)
    requires |leads| == |values| && AllUtf8(values)
    requires position <= |bytes| && StartsAt(bytes, position, PrintFields(leads, values))
    ensures FieldsAt(bytes, position, leads) == Some((values, position + |PrintFields(leads, values)|))
    decreases |leads|
  {
    hide StringAt, Quoted, ValidUtf8, StartsAt;
    if leads != [] {
      var lead, q, rest := leads[0], Quoted(values[0]), PrintFields(leads[1..], values[1..]);
      assert PrintFields(leads, values) == lead + (q + rest);
      StartsWithBoth(bytes, position, lead, q + rest);
      StartsWithBoth(bytes, position + |lead|, q, rest);
      StartsInside(bytes, position + |lead| + |q|, rest);
      StringSpelling(bytes, position + |lead|, values[0], position + |lead| + |q|);
      FieldsComplete(bytes, position + |lead| + |q|, leads[1..], values[1..]);
      assert [values[0]] + values[1..] == values;
    }
  }

  // ---- identities ----

  function LastPoint(s: string): int
    requires s != "" && ValidUtf8(s)
  {
    var n := CanonicalUtf8Length(s, 0);
    if s[n..] == "" then CodePoint(s, 0, n) else LastPoint(s[n..])
  }

  // Bounded UTF-8 without NUL, neither starting nor ending in white space.
  predicate CanonicalIdentity(value: string, maximum: nat) {
    && 0 < |value| <= maximum
    && (0 as char) !in value
    && ValidUtf8(value)
    && !SpaceCodePoint(CodePoint(value, 0, CanonicalUtf8Length(value, 0)))
    && !SpaceCodePoint(LastPoint(value))
  }

  lemma LengthInSuffix(input: string, position: nat)
    requires position < |input|
    ensures CanonicalUtf8Length(input[position..], 0) == CanonicalUtf8Length(input, position)
    ensures CanonicalUtf8Length(input, position) > 0 ==>
              CodePoint(input[position..], 0, CanonicalUtf8Length(input, position))
              == CodePoint(input, position, CanonicalUtf8Length(input, position))
  {
    var n := CanonicalUtf8Length(input, position);
    if n > 0 {
      CodePointForms(input, position, n);
      CodePointForms(input[position..], 0, n);
      hide CodePoint;
    }
  }

  method CheckIdentity(value: string, maximum: nat) returns (ok: bool)
    ensures ok <==> CanonicalIdentity(value, maximum)
  {
    hide CanonicalUtf8Length, CodePoint, SpaceCodePoint;
    if value == "" || |value| > maximum || (0 as char) in value {
      return false;
    }
    var position, first, last := 0, 0, 0;
    while position < |value|
      invariant position <= |value|
      invariant ValidUtf8(value) <==> ValidUtf8(value[position..])
      invariant position == 0 ==> value[position..] == value
      invariant position > 0 ==> CanonicalUtf8Length(value, 0) > 0
      invariant position > 0 ==> first == CodePoint(value, 0, CanonicalUtf8Length(value, 0))
      invariant position > 0 && ValidUtf8(value) ==>
                  LastPoint(value) == if position == |value| then last else LastPoint(value[position..])
      decreases |value| - position
    {
      LengthInSuffix(value, position);
      var length := CanonicalUtf8Length(value, position);
      if length == 0 {
        return false;
      }
      var codePoint := Utf8CodePoint(value, position, length);
      if position == 0 {
        first := codePoint;
      }
      last := codePoint;
      assert value[position..][length..] == value[position + length..];
      position := position + length;
    }
    assert value[position..] == "";
    ok := !SpaceCodePoint(first) && !SpaceCodePoint(last);
  }

  // ---- the whole state ----

  predicate ValidState(st: EpochFenceState) {
    && st.epoch > 0
    && CanonicalIdentity(st.jobId, 64)
    && CanonicalIdentity(st.targetId, 128)
    && IsLowerHexDigest(st.policySha256)
    && IsLowerHexDigest(st.sessionContractSha256)
    && 0 < |st.sessionId| <= 64 && ValidUtf8(st.sessionId)
  }

  function ValuesOf(st: EpochFenceState): seq<string> {
    [Decimal(st.epoch), st.jobId, st.policySha256, SCHEMA, st.sessionContractSha256, st.sessionId, st.targetId]
  }

  function Print(st: EpochFenceState): string
    requires AllUtf8(ValuesOf(st))
  {
    PrintFields(LEADS, ValuesOf(st)) + CLOSE
  }

  // What seven decoded strings amount to.
  function StateOf(values: seq<string>): Option<EpochFenceState>
    requires |values| == 7
  {
    match ParseEpochId(values[0])
    case None => None
    case Some(epoch) =>
      if values[3] == SCHEMA && CanonicalIdentity(values[1], 64) && CanonicalIdentity(values[6], 128)
         && IsLowerHexDigest(values[2]) && IsLowerHexDigest(values[4]) && 0 < |values[5]| <= 64
      then Some(EpochFenceState(epoch, values[1], values[2], values[4], values[5], values[6]))
      else None
  }

  function ParseEpochState(bytes: string): Option<EpochFenceState> {
    if bytes == "" || |bytes| > MAX_BYTES || bytes[|bytes| - 1] != '\n' then None
    else
      match FieldsAt(bytes, 0, LEADS)
      case None => None
      case Some((values, end)) =>
        if !StartsAt(bytes, end, CLOSE) || end + |CLOSE| != |bytes| then None else StateOf(values)
  }

  lemma {:induction false} AsciiIsUtf8(s: string)
    requires forall i :: 0 <= i < |s| ==> s[i] as int <= 0x7F
    ensures ValidUtf8(s)
  {
    if s != "" { AsciiIsUtf8(s[1..]); }
  }

  lemma DecimalIsUtf8(n: nat)
    ensures ValidUtf8(Decimal(n))
  {
    SpellingIsCanonical(n);
    hide ValidUtf8, Decimal;
    AsciiIsUtf8(Decimal(n));
  }

  lemma DigestIsUtf8(s: string)
    requires IsLowerHexDigest(s)
    ensures ValidUtf8(s)
  {
    hide ValidUtf8;
    AsciiIsUtf8(s);
  }

  lemma SchemaIsUtf8()
    ensures ValidUtf8(SCHEMA)
  {
    hide ValidUtf8;
    AsciiIsUtf8(SCHEMA);
  }

  lemma ValuesAreUtf8(st: EpochFenceState)
    requires ValidState(st)
    ensures AllUtf8(ValuesOf(st))
  {
    hide ValidUtf8, Decimal, IsLowerHexDigest, SCHEMA;
    DecimalIsUtf8(st.epoch);
    DigestIsUtf8(st.policySha256);
    DigestIsUtf8(st.sessionContractSha256);
    SchemaIsUtf8();
    assert ValidUtf8(st.jobId) && ValidUtf8(st.targetId);
  }

  // Seven strings amount to a state exactly when they are its values.
  lemma StateSpelling(values: seq<string>, st: EpochFenceState)
    requires |values| == 7 && AllUtf8(values)
    ensures StateOf(values) == Some(st) <==> ValidState(st) && values == ValuesOf(st)
  {
    hide CanonicalIdentity, IsLowerHexDigest, ValidUtf8, Decimal, ParseEpochId;
    EpochSpelling(values[0], st.epoch);
    assert ValidUtf8(values[5]);
    if StateOf(values) == Some(st) {
      assert values == ValuesOf(st);
    }
  }

  // ---- every printed state fits ----

  lemma {:induction false} EscapedLength(s: string)
    requires ValidUtf8(s)
    ensures |Escaped(s)| <= 6 * |s|
  {
    hide EscapeUnit, CanonicalUtf8Length;
    if s != "" { EscapedLength(s[|FirstUnit(s)|..]); }
  }

  lemma {:induction false} PrintedLength(leads: seq<string>, values: seq<string>)
    requires |leads| == |values| && AllUtf8(values)
    requires forall i :: 0 <= i < |leads| ==> |leads[i]| <= 30 && |values[i]| <= 128
    ensures |PrintFields(leads, values)| <= 800 * |leads|
  {
    hide Escaped, ValidUtf8;
    if leads != [] {
      EscapedLength(values[0]);
      PrintedLength(leads[1..], values[1..]);
    }
  }

  function Power10(k: nat): nat { if k == 0 then 1 else 10 * Power10(k - 1) }

  lemma {:induction false} DecimalLength(n: nat, k: nat)
    requires k > 0 && n < Power10(k)
    ensures |Decimal(n)| <= k
  {
    if n >= 10 { DecimalLength(n / 10, k - 1); }
  }

  lemma EpochLength(n: u64)
    ensures |Decimal(n)| <= 20
  {
    assert Power10(4) == 10000;
    assert Power10(8) == 100000000;
    assert Power10(12) == 1000000000000;
    assert Power10(16) == 10000000000000000;
    assert Power10(20) == 100000000000000000000;
    DecimalLength(n, 20);
  }

  lemma PrintedFits(st: EpochFenceState)
    requires ValidState(st) && AllUtf8(ValuesOf(st))
    ensures |Print(st)| <= MAX_BYTES && Print(st) != "" && Print(st)[|Print(st)| - 1] == '\n'
  {
    EpochLength(st.epoch);
    hide ValidUtf8, Decimal, PrintFields;
    PrintedLength(LEADS, ValuesOf(st));
  }

  // The parser accepts exactly the printed forms of valid states: every
  // accepted byte string is the one canonical spelling of the state it parses
  // to, and every valid state's spelling parses back to it.
  lemma EpochStateSpelling(bytes: string, st: EpochFenceState)
    ensures ValidState(st) ==> AllUtf8(ValuesOf(st))
    ensures ParseEpochState(bytes) == Some(st) <==> ValidState(st) && bytes == Print(st)
  {
    hide FieldsAt, PrintFields, StateOf, ValidState, ValuesOf, StartsAt;
    if ValidState(st) {
      ValuesAreUtf8(st);
      if bytes == Print(st) {
        PrintedFits(st);
        PrintedParses(st);
      }
    }
    if ParseEpochState(bytes) == Some(st) {
      ParsedIsPrinted(bytes, st);
    }
  }

  lemma PrintedParses(st: EpochFenceState)
    requires ValidState(st) && AllUtf8(ValuesOf(st))
    ensures var p := Print(st);
            && FieldsAt(p, 0, LEADS) == Some((ValuesOf(st), |p| - |CLOSE|))
            && StartsAt(p, |p| - |CLOSE|, CLOSE)
            && StateOf(ValuesOf(st)) == Some(st)
  {
    hide FieldsAt, PrintFields, StateOf, ValidState, ValuesOf, ValidUtf8, LEADS;
    SevenFields(st);
    var p, fields := Print(st), PrintFields(LEADS, ValuesOf(st));
    assert StartsAt(p, 0, p);
    StartsWithBoth(p, 0, fields, CLOSE);
    FieldsComplete(p, 0, LEADS, ValuesOf(st));
    StateSpelling(ValuesOf(st), st);
  }

  lemma SevenFields(st: EpochFenceState)
    ensures |ValuesOf(st)| == 7 == |LEADS|
  {
  }

  lemma ParsedIsPrinted(bytes: string, st: EpochFenceState)
    requires ParseEpochState(bytes) == Some(st)
    ensures ValidState(st) && AllUtf8(ValuesOf(st)) && bytes == Print(st)
  {
    hide FieldsAt, PrintFields, StateOf, ValidState, ValuesOf, ValidUtf8, LEADS;
    SevenFields(st);
    var (values, end) := FieldsAt(bytes, 0, LEADS).value;
    FieldsSound(bytes, 0, LEADS);
    StateSpelling(values, st);
    assert bytes == bytes[0..end] + bytes[end..|bytes|];
  }

  // ---- the parser ----

  // Reading the fields one by one reads them all.
  ghost predicate Progress(bytes: string, k: nat, values: seq<string>, position: nat)
    requires k <= |LEADS| && position <= |bytes|
  {
    |values| == k && FieldsAt(bytes, 0, LEADS) == Joined(values, FieldsAt(bytes, position, LEADS[k..]))
  }

  function Joined(values: seq<string>, r: Option<(seq<string>, nat)>): Option<(seq<string>, nat)> {
    match r
    case None => None
    case Some((rest, end)) => Some((values + rest, end))
  }

  lemma ProgressStarts(bytes: string)
    ensures Progress(bytes, 0, [], 0)
  {
    assert LEADS[0..] == LEADS;
    match FieldsAt(bytes, 0, LEADS)
    case None =>
    case Some((rest, end)) => assert [] + rest == rest;
  }

  lemma ProgressSteps(bytes: string, k: nat, values: seq<string>, position: nat)
    requires k < |LEADS| && position <= |bytes| && Progress(bytes, k, values, position)
    ensures match FieldAt(bytes, position, LEADS[k])
            case None => FieldsAt(bytes, 0, LEADS) == None
            case Some((d, end)) => Progress(bytes, k + 1, values + [d], end)
  {
    hide FieldAt, LEADS;
    assert LEADS[k..][1..] == LEADS[k + 1..] && LEADS[k..][0] == LEADS[k];
    match FieldAt(bytes, position, LEADS[k])
    case None =>
    case Some((d, next)) =>
      match FieldsAt(bytes, next, LEADS[k + 1..])
      case None =>
      case Some((rest, end)) => assert values + ([d] + rest) == values + [d] + rest;
  }

  method ParseCanonicalEpochState(bytes: string) returns (r: Option<EpochFenceState>)
    ensures r == ParseEpochState(bytes)
  {
    hide FieldsAt, FieldAt, StartsAt, StateOf, LEADS, Progress;
    assert |LEADS| == 7 by { SevenFields(EpochFenceState(0, "", "", "", "", "")); }
    if bytes == "" || |bytes| > MAX_BYTES || bytes[|bytes| - 1] != '\n' {
      return None;
    }
    var cursor := new CanonicalJsonCursor(bytes);
    ProgressStarts(bytes);
    var values: seq<string> := [];
    ProgressSteps(bytes, 0, values, cursor.position);
    var epochText := cursor.Field(LEADS[0]);
    if epochText.None? { return None; }
    values := values + [epochText.value];
    ProgressSteps(bytes, 1, values, cursor.position);
    var jobId := cursor.Field(LEADS[1]);
    if jobId.None? { return None; }
    values := values + [jobId.value];
    ProgressSteps(bytes, 2, values, cursor.position);
    var policySha256 := cursor.Field(LEADS[2]);
    if policySha256.None? { return None; }
    values := values + [policySha256.value];
    ProgressSteps(bytes, 3, values, cursor.position);
    var schema := cursor.Field(LEADS[3]);
    if schema.None? { return None; }
    values := values + [schema.value];
    ProgressSteps(bytes, 4, values, cursor.position);
    var sessionContractSha256 := cursor.Field(LEADS[4]);
    if sessionContractSha256.None? { return None; }
    values := values + [sessionContractSha256.value];
    ProgressSteps(bytes, 5, values, cursor.position);
    var sessionId := cursor.Field(LEADS[5]);
    if sessionId.None? { return None; }
    values := values + [sessionId.value];
    ProgressSteps(bytes, 6, values, cursor.position);
    var targetId := cursor.Field(LEADS[6]);
    if targetId.None? { return None; }
    values := values + [targetId.value];
    ProgressEnds(bytes, values, cursor.position);
    var closed := cursor.Literal(CLOSE);
    if !closed || cursor.position != |bytes| {
      return None;
    }
    r := CheckedState(values);
  }

  // The checks on the seven decoded strings.
  method CheckedState(values: seq<string>) returns (r: Option<EpochFenceState>)
    requires |values| == 7
    ensures r == StateOf(values)
  {
    hide CanonicalIdentity, IsLowerHexDigest, ParseEpochId;
    var epoch := ParseEpochId(values[0]);
    if epoch.None? {
      return None;
    }
    var jobOk := CheckIdentity(values[1], 64);
    var targetOk := CheckIdentity(values[6], 128);
    if values[3] != SCHEMA || !jobOk || !targetOk
       || !IsLowerHexDigest(values[2]) || !IsLowerHexDigest(values[4])
       || values[5] == "" || |values[5]| > 64 {
      return None;
    }
    return Some(EpochFenceState(epoch.value, values[1], values[2], values[4], values[5], values[6]));
  }

  lemma ProgressEnds(bytes: string, values: seq<string>, position: nat)
    requires position <= |bytes| && |LEADS| == 7 && Progress(bytes, 7, values, position)
    ensures |values| == 7 && FieldsAt(bytes, 0, LEADS) == Some((values, position))
  {
    hide LEADS;
    assert LEADS[7..] == [];
    assert FieldsAt(bytes, position, []) == Some(([], position));
    assert values + [] == values;
  }
}
