// Canonical fixed-decimal spelling of the policy's floating-point fields
// (src/core/frozen_config.cpp:104-184). What the C library's reader and the
// stream's formatter do with a double is a parameter; everything the program
// itself does around them is modelled.
module Floats {
  import opened Types
  import opened Policy
  import opened Decimals

  // read: the finite double a whole text denotes, if it denotes one.
  // general: a double in general notation at a precision.
  datatype Codec = Codec(read: string -> Option<real>, general: (real, nat) -> string)

  const MAX_PRECISION := 17

  // ---- from general to fixed notation ----

  function Zeros(n: nat): (s: string)
    ensures |s| == n && AllDigits(s)
  {
    if n == 0 then "" else Zeros(n - 1) + "0"
  }

  function FirstOf(s: string, chars: set<char>): (i: nat)
    ensures i <= |s|
    ensures i < |s| ==> s[i] in chars
    ensures forall j :: 0 <= j < i ==> s[j] !in chars
  {
    if s == "" then 0 else if s[0] in chars then 0 else 1 + FirstOf(s[1..], chars)
  }

  // A signed decimal exponent.
  function Exponent(s: string): Option<int> {
    if s == "" then None
    else if s[0] == '-' then
      if |s| > 1 && AllDigits(s[1..]) then Some(0 - DecimalValue(s[1..]) as int) else None
    else
      var digits := if s[0] == '+' then s[1..] else s;
      if digits != "" && AllDigits(digits) then Some(DecimalValue(digits)) else None
  }

  function FixedFromGeneral(value: string): Option<string> {
    var exponentAt := FirstOf(value, {'e', 'E'});
    if exponentAt == |value| then Some(value)
    else
      match Exponent(value[exponentAt + 1..])
      case None => None
      case Some(exponent) => Some(Shifted(value[..exponentAt], exponent))
  }

  // A mantissa with its decimal point moved.
  function Shifted(mantissa: string, exponent: int): string {
    var point := FirstOf(mantissa, {'.'});
    var digits := if point == |mantissa| then mantissa else mantissa[..point] + mantissa[point + 1..];
    WithPoint(digits, point + exponent)
  }

  function WithPoint(digits: string, target: int): string {
    if target <= 0 then "0." + Zeros(-target) + digits
    else if target >= |digits| then digits + Zeros(target - |digits|)
    else digits[..target] + "." + digits[target..]
  }

  // ---- moving the point keeps the value ----

  function Power(x: int): (p: real)
    ensures p > 0.0
    decreases if x < 0 then -x else x
  {
    if x == 0 then 1.0 else if x > 0 then Power(x - 1) * 10.0 else Power(x + 1) / 10.0
  }

  lemma {:induction false} PowersAdd(x: int, y: int)
    ensures Power(x + y) == Power(x) * Power(y)
    decreases if y < 0 then -y else y
  {
    hide Power;
    if y > 0 {
      PowersAdd(x, y - 1);
      PowerNext(x + y - 1);
      PowerNext(y - 1);
      ProductsScale(Power(x), Power(y - 1), Power(y), Power(x + y - 1), Power(x + y));
    } else if y < 0 {
      PowersAdd(x, y + 1);
      PowerNext(x + y);
      PowerNext(y);
      ProductsScale(Power(x), Power(y), Power(y + 1), Power(x + y), Power(x + y + 1));
    } else {
      PowerZero();
    }
  }

  // Scaling one factor by ten scales the product by ten, and back.
  lemma ProductsScale(a: real, b: real, b10: real, p: real, p10: real)
    requires b10 == b * 10.0 && p10 == p * 10.0
    ensures p10 == a * b10 <==> p == a * b
  {
    Associates(a, b);
  }

  lemma Associates(a: real, b: real)
    ensures (a * b) * 10.0 == a * (b * 10.0)
  {
  }

  lemma PowerZero()
    ensures Power(0) == 1.0
  {
  }

  lemma PowerNext(x: int)
    ensures Power(x + 1) == Power(x) * 10.0
  {
  }

  // A text of digits with or without a point.
  function PointText(whole: string, fraction: Option<string>): string {
    match fraction
    case None => whole
    case Some(f) => whole + "." + f
  }

  predicate Digital(whole: string, fraction: Option<string>) {
    AllDigits(whole) && (fraction.Some? ==> AllDigits(fraction.value))
  }

  // The number such a text denotes.
  function PointValue(whole: string, fraction: Option<string>): real
    requires Digital(whole, fraction)
  {
    match fraction
    case None => DecimalValue(whole) as real
    case Some(f) => DecimalValue(whole + f) as real * Power(-|f|)
  }

  lemma {:induction false} LeadingZeros(zeros: nat, digits: string)
    requires AllDigits(digits)
    ensures AllDigits("0" + Zeros(zeros) + digits) && DecimalValue("0" + Zeros(zeros) + digits) == DecimalValue(digits)
    decreases zeros + |digits|
  {
    var s := "0" + Zeros(zeros) + digits;
    if digits != "" {
      var front := digits[..|digits| - 1];
      LeadingZeros(zeros, front);
      assert s[..|s| - 1] == "0" + Zeros(zeros) + front;
    } else if zeros > 0 {
      LeadingZeros(zeros - 1, "");
      assert s[..|s| - 1] == "0" + Zeros(zeros - 1) + "";
    } else {
      assert s == "0" && s[..0] == "";
    }
  }

  lemma {:induction false} TrailingZeros(digits: string, zeros: nat)
    requires AllDigits(digits)
    ensures AllDigits(digits + Zeros(zeros))
    ensures DecimalValue(digits + Zeros(zeros)) as real == DecimalValue(digits) as real * Power(zeros)
  {
    hide Power, DecimalValue, AllDigits;
    if zeros == 0 {
      PowerZero();
      assert digits + Zeros(0) == digits;
    } else {
      TrailingZeros(digits, zeros - 1);
      PowerNext(zeros - 1);
      var before, s := digits + Zeros(zeros - 1), digits + Zeros(zeros);
      assert s == before + "0";
      AppendZero(before);
      ProductsScale(DecimalValue(digits) as real, Power(zeros - 1), Power(zeros),
                    DecimalValue(before) as real, DecimalValue(s) as real);
    }
  }

  lemma AppendZero(s: string)
    requires AllDigits(s)
    ensures AllDigits(s + "0") && DecimalValue(s + "0") == DecimalValue(s) * 10
  {
    assert (s + "0")[..|s|] == s;
  }

  lemma FirstIs(s: string, chars: set<char>, i: nat)
    requires i <= |s| && (forall j :: 0 <= j < i ==> s[j] !in chars) && (i < |s| ==> s[i] in chars)
    ensures FirstOf(s, chars) == i
  {
  }

  lemma PointIsFound(whole: string, fraction: Option<string>)
    requires Digital(whole, fraction)
    ensures FirstOf(PointText(whole, fraction), {'.'}) == |whole|
    ensures FirstOf(PointText(whole, fraction), {'e', 'E'}) == |PointText(whole, fraction)|
  {
    var t := PointText(whole, fraction);
    forall i | 0 <= i < |t| ensures t[i] == (if i < |whole| then whole[i] else if i == |whole| then '.' else fraction.value[i - |whole| - 1]) {
    }
    FirstIs(t, {'.'}, |whole|);
    FirstIs(t, {'e', 'E'}, |t|);
  }

  lemma PowersCombine(d: real, x: int, y: int)
    ensures d * Power(x) * Power(y) == d * Power(x + y)
  {
    PowersAdd(x, y);
    hide Power;
    Regroup(d, Power(x), Power(y));
  }

  lemma Regroup(a: real, b: real, c: real)
    ensures a * b * c == a * (b * c)
  {
  }

  // Moving the point by the exponent multiplies the value by that power of ten,
  // and the result is again digits with at most one point.
  lemma ShiftKeepsValue(whole: string, fraction: Option<string>, exponent: int) returns (w: string, f: Option<string>)
    requires Digital(whole, fraction)
    ensures Digital(w, f) && Shifted(PointText(whole, fraction), exponent) == PointText(w, f)
    ensures PointValue(w, f) == PointValue(whole, fraction) * Power(exponent)
  {
    hide Power, AllDigits, DecimalValue, FirstOf, Shifted, WithPoint, PointText, PointValue;
    var digits := whole + if fraction.Some? then fraction.value else "";
    DigitsJoin(whole, if fraction.Some? then fraction.value else "");
    hide Digital;
    ShiftedDigits(whole, fraction, exponent);
    ValueOfDigits(whole, fraction);
    PowersCombine(DecimalValue(digits) as real, |whole| - |digits|, exponent);
    w, f := Placed(digits, |whole| + exponent);
  }

  // Digits with the point placed after the first `target` of them.
  lemma Placed(digits: string, target: int) returns (w: string, f: Option<string>)
    requires AllDigits(digits)
    ensures Digital(w, f) && WithPoint(digits, target) == PointText(w, f)
    ensures PointValue(w, f) == DecimalValue(digits) as real * Power(target - |digits|)
  {
    hide Power, AllDigits, DecimalValue;
    if target <= 0 {
      w, f := "0", Some(Zeros(-target) + digits);
      LeadingZeros(-target, digits);
      DigitsJoin(Zeros(-target), digits);
      ZeroIsDigit();
      assert w + f.value == "0" + Zeros(-target) + digits;
      assert "0." == "0" + ".";
      assert WithPoint(digits, target) == PointText(w, f);
    } else if target >= |digits| {
      w, f := digits + Zeros(target - |digits|), None;
      TrailingZeros(digits, target - |digits|);
    } else {
      w, f := digits[..target], Some(digits[target..]);
      DigitsSplit(digits, target);
      assert w + f.value == digits;
    }
  }

  lemma ShiftedDigits(whole: string, fraction: Option<string>, exponent: int)
    requires Digital(whole, fraction)
    ensures Shifted(PointText(whole, fraction), exponent)
            == WithPoint(whole + if fraction.Some? then fraction.value else "", |whole| + exponent)
  {
    PointIsFound(whole, fraction);
    hide FirstOf, AllDigits, WithPoint;
    var text := PointText(whole, fraction);
    if fraction.Some? {
      assert text[..|whole|] + text[|whole| + 1..] == whole + fraction.value;
    } else {
      assert whole + "" == whole;
    }
  }

  lemma ValueOfDigits(whole: string, fraction: Option<string>)
    requires Digital(whole, fraction) && AllDigits(whole + if fraction.Some? then fraction.value else "")
    ensures var digits := whole + if fraction.Some? then fraction.value else "";
            PointValue(whole, fraction) == DecimalValue(digits) as real * Power(|whole| - |digits|)
  {
    hide Power, DecimalValue, AllDigits;
    PowerZero();
    if fraction.None? { assert whole + "" == whole; }
  }

  lemma ZeroIsDigit() ensures AllDigits("0") {
  }

  lemma DigitsJoin(a: string, b: string)
    requires AllDigits(a) && AllDigits(b)
    ensures AllDigits(a + b)
  {
  }

  lemma DigitsSplit(s: string, i: nat)
    requires AllDigits(s) && i <= |s|
    ensures AllDigits(s[..i]) && AllDigits(s[i..])
  {
  }

  // General notation with an exponent becomes fixed notation of the same number.
  lemma FixedKeepsValue(whole: string, fraction: Option<string>, mark: char, exponent: string)
    returns (w: string, f: Option<string>)
    requires Digital(whole, fraction) && mark in {'e', 'E'} && Exponent(exponent).Some?
    ensures Digital(w, f)
    ensures FixedFromGeneral(PointText(whole, fraction) + [mark] + exponent) == Some(PointText(w, f))
    ensures PointValue(w, f) == PointValue(whole, fraction) * Power(Exponent(exponent).value)
  {
    hide FirstOf, PointText, Power, PointValue, Digital, Exponent, Shifted;
    var text := PointText(whole, fraction);
    ExponentIsFound(text, mark, exponent) by { PointIsFound(whole, fraction); }
    w, f := ShiftKeepsValue(whole, fraction, Exponent(exponent).value);
  }

  lemma ExponentIsFound(text: string, mark: char, exponent: string)
    requires FirstOf(text, {'e', 'E'}) == |text| && mark in {'e', 'E'}
    ensures var value := text + [mark] + exponent;
            FirstOf(value, {'e', 'E'}) == |text| && value[..|text|] == text && value[|text| + 1..] == exponent
  {
    var value := text + [mark] + exponent;
    forall j | 0 <= j < |text| ensures value[j] !in {'e', 'E'} {
      assert value[j] == text[j];
    }
    FirstIs(value, {'e', 'E'}, |text|);
  }

  // ---- canonical spelling ----

  // A precision whose fixed spelling reads back as the value.
  predicate Reproduces(codec: Codec, value: real, precision: nat) {
    var fixed := FixedFromGeneral(codec.general(value, precision));
    fixed.Some? && codec.read(fixed.value) == Some(value)
  }

  function SpellingFrom(codec: Codec, value: real, precision: nat): (r: Option<string>)
    ensures r.Some? ==> codec.read(r.value) == Some(value)
    decreases MAX_PRECISION + 1 - precision
  {
    if precision > MAX_PRECISION then None
    else if FixedFromGeneral(codec.general(value, precision)).None? then None
    else if Reproduces(codec, value, precision) then FixedFromGeneral(codec.general(value, precision))
    else SpellingFrom(codec, value, precision + 1)
  }

  // The spelling at the least precision that reproduces the value.
  function Spelling(codec: Codec, value: real): (r: Option<string>)
    ensures r.Some? ==> codec.read(r.value) == Some(value)
  {
    SpellingFrom(codec, value, 1)
  }

  // The spelling is that of the least precision that reproduces the value, and
  // there is one exactly when the formatter's text is usable up to there.
  lemma SpellingIsLeast(codec: Codec, value: real, s: string)
    ensures Spelling(codec, value) == Some(s) <==> exists p :: LeastSpelling(codec, value, 1, p, s)
  {
    LeastFrom(codec, value, 1, s);
  }

  // Precision p spells the value as s, and no smaller one from `first` on
  // reproduces it, though each has a fixed spelling.
  predicate LeastSpelling(codec: Codec, value: real, first: nat, p: nat, s: string) {
    && first <= p <= MAX_PRECISION
    && Reproduces(codec, value, p) && FixedFromGeneral(codec.general(value, p)) == Some(s)
    && forall q :: first <= q < p ==> !Reproduces(codec, value, q) && FixedFromGeneral(codec.general(value, q)).Some?
  }

  lemma {:induction false} LeastFrom(codec: Codec, value: real, first: nat, s: string)
    ensures SpellingFrom(codec, value, first) == Some(s) <==> exists p :: LeastSpelling(codec, value, first, p, s)
    decreases MAX_PRECISION + 1 - first
  {
    hide FixedFromGeneral;
    if first <= MAX_PRECISION {
      LeastFrom(codec, value, first + 1, s);
      if SpellingFrom(codec, value, first) == Some(s) {
        if Reproduces(codec, value, first) {
          assert LeastSpelling(codec, value, first, first, s);
        } else {
          var p :| LeastSpelling(codec, value, first + 1, p, s);
          assert LeastSpelling(codec, value, first, p, s);
        }
      }
      if p: nat :| LeastSpelling(codec, value, first, p, s) {
        if p > first { assert LeastSpelling(codec, value, first + 1, p, s); }
      }
    }
  }

  method CanonicalFloating(codec: Codec, value: real) returns (r: Option<string>)
    ensures r == Spelling(codec, value)
  {
    for precision := 1 to MAX_PRECISION + 1
      invariant Spelling(codec, value) == SpellingFrom(codec, value, precision)
    {
      var candidate := FixedFromGeneral(codec.general(value, precision));
      if candidate.None? {
        return None;
      }
      var reparsed := codec.read(candidate.value);
      if reparsed == Some(value) {
        return candidate;
      }
    }
    return None;
  }

  // Digits with at most one point.
  predicate FixedDecimalText(s: string) {
    && s != ""
    && (forall i :: 0 <= i < |s| ==> AsciiDigit(s[i]) || s[i] == '.')
    && (forall i, j :: 0 <= i < j < |s| ==> !(s[i] == '.' && s[j] == '.'))
  }

  function ParsePositiveDouble(codec: Codec, s: string): Option<real> {
    if !FixedDecimalText(s) then None
    else
      match codec.read(s)
      case None => None
      case Some(v) => if v <= 0.0 || Spelling(codec, v) != Some(s) then None else Some(v)
  }

  // The value has a canonical spelling the parser admits.
  predicate Spellable(codec: Codec, v: real) {
    v > 0.0 && Spelling(codec, v).Some? && FixedDecimalText(Spelling(codec, v).value)
  }

  // Every positive value with a canonical spelling is read from that spelling
  // and no other.
  lemma DoubleSpelling(codec: Codec, s: string, v: real)
    ensures ParsePositiveDouble(codec, s) == Some(v) <==> Spellable(codec, v) && Spelling(codec, v) == Some(s)
  {
    hide SpellingFrom, FixedDecimalText;
    if ParsePositiveDouble(codec, s) == Some(v) {
      assert Spelling(codec, v) == Some(s);
    }
    if Spellable(codec, v) && Spelling(codec, v) == Some(s) {
      assert codec.read(s) == Some(v);
    }
  }
}
