// Canonical unsigned decimal spelling: the epoch identity
// (src/core/types.cpp:112-140) and the unsigned fields of the frozen policy
// (src/core/frozen_config.cpp:76-102).
module Decimals {
  import opened Numbers
  import opened Types
  import opened Policy

  predicate AllDigits(s: string) { forall i :: 0 <= i < |s| ==> AsciiDigit(s[i]) }

  function DigitOf(n: nat): (c: char)
    requires n < 10
    ensures AsciiDigit(c) && ValueOf(c) == n
  {
    ('0' as int + n) as char
  }

  function ValueOf(c: char): (n: nat)
    requires AsciiDigit(c)
    ensures n < 10
  {
    c as int - '0' as int
  }

  // The number a string of digits denotes.
  function DecimalValue(s: string): nat
    requires AllDigits(s)
  {
    if s == "" then 0 else DecimalValue(s[..|s| - 1]) * 10 + ValueOf(s[|s| - 1])
  }

  // The shortest spelling of a number.
  function Decimal(n: nat): string {
    if n < 10 then [DigitOf(n)] else Decimal(n / 10) + [DigitOf(n % 10)]
  }

  predicate CanonicalDecimal(s: string) {
    AllDigits(s) && s != "" && (|s| > 1 ==> s[0] != '0')
  }

  lemma {:induction false} SpellingIsCanonical(n: nat)
    ensures CanonicalDecimal(Decimal(n)) && DecimalValue(Decimal(n)) == n
    ensures n > 0 ==> Decimal(n)[0] != '0'
  {
    if n >= 10 {
      SpellingIsCanonical(n / 10);
      assert Decimal(n)[..|Decimal(n)| - 1] == Decimal(n / 10);
    }
  }

  lemma {:induction false} CanonicalIsSpelling(s: string)
    requires CanonicalDecimal(s)
    ensures Decimal(DecimalValue(s)) == s
    ensures s[0] != '0' ==> DecimalValue(s) > 0
  {
    var front := s[..|s| - 1];
    assert s == front + [s[|s| - 1]];
    if |s| > 1 {
      CanonicalIsSpelling(front);
      assert DecimalValue(s) / 10 == DecimalValue(front) && DecimalValue(s) % 10 == ValueOf(s[|s| - 1]);
    } else {
      assert DecimalValue(front) == 0;
    }
  }

  function ParseUnsigned(s: string): Option<u64> {
    if CanonicalDecimal(s) && DecimalValue(s) <= U64_MAX then Some(DecimalValue(s)) else None
  }

  function ParseUint32(s: string): Option<u32> {
    match ParseUnsigned(s)
    case None => None
    case Some(n) => if n > U32_MAX then None else Some(n)
  }

  function ParseEpochId(text: string): Option<u64> {
    if text == "" || !('1' <= text[0] <= '9') || !AllDigits(text) then None
    else if DecimalValue(text) > U64_MAX || DecimalValue(text) == 0 then None
    else Some(DecimalValue(text))
  }

  function ParseRosPrivateEpochId(text: string): Option<u64> {
    if text != "" && (text[0] == '"' || text[|text| - 1] == '"') then
      if |text| < 3 || text[0] != '"' || text[|text| - 1] != '"' then None
      else ParseEpochId(text[1..|text| - 1])
    else ParseEpochId(text)
  }

  // Every unsigned value has exactly one accepted spelling.
  lemma UnsignedSpelling(s: string, n: u64)
    ensures ParseUnsigned(s) == Some(n) <==> s == Decimal(n)
  {
    SpellingIsCanonical(n);
    if CanonicalDecimal(s) { CanonicalIsSpelling(s); }
  }

  lemma Uint32Spelling(s: string, n: u32)
    ensures ParseUint32(s) == Some(n) <==> s == Decimal(n)
  {
    UnsignedSpelling(s, n);
  }

  // Every nonzero epoch has exactly one accepted spelling, and a ROS parameter
  // may wrap it in one pair of double quotes.
  lemma EpochSpelling(s: string, n: u64)
    ensures ParseEpochId(s) == Some(n) <==> n > 0 && s == Decimal(n)
    ensures ParseRosPrivateEpochId(s) == Some(n) <==> n > 0 && (s == Decimal(n) || s == "\"" + Decimal(n) + "\"")
  {
    PlainEpoch(s, n);
    SpellingIsCanonical(n);
    if |s| >= 3 && s[0] == '"' && s[|s| - 1] == '"' {
      PlainEpoch(s[1..|s| - 1], n);
      assert s == "\"" + s[1..|s| - 1] + "\"";
    }
    var quoted := "\"" + Decimal(n) + "\"";
    assert quoted[1..|quoted| - 1] == Decimal(n);
  }

  lemma PlainEpoch(s: string, n: u64)
    ensures ParseEpochId(s) == Some(n) <==> n > 0 && s == Decimal(n)
  {
    SpellingIsCanonical(n);
    if CanonicalDecimal(s) { CanonicalIsSpelling(s); }
  }
}
