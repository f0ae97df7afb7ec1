// UTF-8 as the epoch state's strings use it (src/core/epoch_fence.cpp:52-134).
// A string is a sequence of bytes: a character above 255 cannot occur in the
// program and is never accepted here. The program's shifts and masks are
// written as divisions and remainders by powers of two.
module Utf8 {

  // The Unicode scalar values of section 3 of RFC 3629.
  predicate Scalar(v: int) { 0 <= v < 0xD800 || 0xE000 <= v <= 0x10FFFF }

  function Byte(n: nat): (c: char)
    requires n < 256
    ensures c as int == n
  {
    n as char
  }

  // The encoding of section 3 of RFC 3629, in its one shortest form.
  function Encode(v: int): (s: string)
    requires Scalar(v)
    ensures 1 <= |s| <= 4
  {
    if v < 0x80 then [Byte(v)]
    else if v < 0x800 then [Byte(0xC0 + v / 64), Byte(0x80 + v % 64)]
    else if v < 0x10000 then [Byte(0xE0 + v / 4096), Byte(0x80 + v / 64 % 64), Byte(0x80 + v % 64)]
    else [Byte(0xF0 + v / 262144), Byte(0x80 + v / 4096 % 64), Byte(0x80 + v / 64 % 64), Byte(0x80 + v % 64)]
  }

  predicate Continuation(c: char) { 0x80 <= c as int <= 0xBF }

  // The length of the character that starts at a position, zero if none does.
  function CanonicalUtf8Length(input: string, position: nat): (n: nat)
    requires position < |input|
    ensures n <= 4 && position + n <= |input|
  {
    var lead := input[position] as int;
    if lead <= 0x7F then 1
    else if 0xC2 <= lead <= 0xDF && position + 1 < |input| && Continuation(input[position + 1]) then 2
    else if 0xE0 <= lead <= 0xEF && position + 2 < |input|
            && Continuation(input[position + 1]) && Continuation(input[position + 2])
            && !(lead == 0xE0 && input[position + 1] as int < 0xA0)
            && !(lead == 0xED && input[position + 1] as int >= 0xA0) then 3
    else if 0xF0 <= lead <= 0xF4 && position + 3 < |input|
            && Continuation(input[position + 1]) && Continuation(input[position + 2]) && Continuation(input[position + 3])
            && !(lead == 0xF0 && input[position + 1] as int < 0x90)
            && !(lead == 0xF4 && input[position + 1] as int > 0x8F) then 4
    else 0
  }

  // The scalar value a character of a given length carries.
  function CodePoint(input: string, position: nat, length: nat): int
    requires 1 <= length <= 4 && position + length <= |input|
  {
    var first := input[position] as int;
    if length == 1 then first
    else Gathered(input, position, length,
                  first % (if length == 2 then 0x20 else if length == 3 then 0x10 else 0x08))
  }

  function Gathered(input: string, position: nat, length: nat, lead: int): int
    requires 1 <= length && position + length <= |input|
  {
    if length == 1 then lead
    else Gathered(input, position, length - 1, lead) * 64 + input[position + length - 1] as int % 64
  }

  method Utf8CodePoint(input: string, position: nat, length: nat) returns (result: int)
    requires 1 <= length <= 4 && position + length <= |input|
    ensures result == CodePoint(input, position, length)
  {
    var first := input[position] as int;
    if length == 1 {
      return first;
    }
    ghost var lead := first % (if length == 2 then 0x20 else if length == 3 then 0x10 else 0x08);
    result := first % (if length == 2 then 0x20 else if length == 3 then 0x10 else 0x08);
    for index := 1 to length
      invariant result == Gathered(input, position, index, lead)
    {
      result := result * 64 + input[position + index] as int % 64;
    }
  }

  // The encoding of v stands at the position.
  predicate EncodedAt(input: string, position: nat, v: int) {
    Scalar(v) && position + |Encode(v)| <= |input| && input[position..position + |Encode(v)|] == Encode(v)
  }

  // The code point of each length, written out.
  lemma CodePointForms(input: string, position: nat, n: nat)
    requires 1 <= n <= 4 && position + n <= |input|
    ensures var v := CodePoint(input, position, n);
            var at := (k: nat) requires position + k < |input| => input[position + k] as int;
            && (n == 1 ==> v == at(0))
            && (n == 2 ==> v == at(0) % 0x20 * 64 + at(1) % 64)
            && (n == 3 ==> v == (at(0) % 0x10 * 64 + at(1) % 64) * 64 + at(2) % 64)
            && (n == 4 ==> v == ((at(0) % 0x08 * 64 + at(1) % 64) * 64 + at(2) % 64) * 64 + at(3) % 64)
  {
    if n > 1 {
      var lead := input[position] as int % (if n == 2 then 0x20 else if n == 3 then 0x10 else 0x08);
      assert Gathered(input, position, 1, lead) == lead;
      assert Gathered(input, position, 2, lead) == lead * 64 + input[position + 1] as int % 64;
      if n > 2 {
        assert Gathered(input, position, 3, lead) == Gathered(input, position, 2, lead) * 64 + input[position + 2] as int % 64;
      }
    }
  }

  // Six-bit digits determine a number and are determined by it.
  lemma SixBitDigits(a: int, b: int, c: int, d: int)
    requires 0 <= b < 64 && 0 <= c < 64 && 0 <= d < 64
    ensures (a * 64 + d) / 64 == a && (a * 64 + d) % 64 == d
    ensures var v := (a * 64 + c) * 64 + d; v / 4096 == a && v / 64 % 64 == c && v % 64 == d
    ensures var v := ((a * 64 + b) * 64 + c) * 64 + d;
            v / 262144 == a && v / 4096 % 64 == b && v / 64 % 64 == c && v % 64 == d
  {
    ThreeDigits(a, c, d);
    FourDigits(a, b, c, d);
  }

  lemma ThreeDigits(a: int, c: int, d: int)
    requires 0 <= c < 64 && 0 <= d < 64
    ensures var v := (a * 64 + c) * 64 + d; v / 4096 == a && v / 64 == a * 64 + c && v / 64 % 64 == c && v % 64 == d
  {
    var v := (a * 64 + c) * 64 + d;
    assert v / 64 == a * 64 + c;
    assert v == a * 4096 + (c * 64 + d);
  }

  lemma FourDigits(a: int, b: int, c: int, d: int)
    requires 0 <= b < 64 && 0 <= c < 64 && 0 <= d < 64
    ensures var v := ((a * 64 + b) * 64 + c) * 64 + d;
            v / 262144 == a && v / 4096 % 64 == b && v / 64 % 64 == c && v % 64 == d
  {
    ThreeDigits(a * 64 + b, c, d);
    var v := ((a * 64 + b) * 64 + c) * 64 + d;
    assert v / 4096 == a * 64 + b;
    assert v == a * 262144 + (b * 4096 + c * 64 + d);
  }

  // What each form of the encoding looks like, byte by byte.
  predicate Two(b0: int, b1: int, v: int) {
    0xC2 <= b0 <= 0xDF && 0x80 <= b1 <= 0xBF && v == b0 % 0x20 * 64 + b1 % 64
  }

  predicate Three(b0: int, b1: int, b2: int, v: int) {
    && 0xE0 <= b0 <= 0xEF && 0x80 <= b1 <= 0xBF && 0x80 <= b2 <= 0xBF
    && (b0 == 0xE0 ==> b1 >= 0xA0) && (b0 == 0xED ==> b1 < 0xA0)
    && v == (b0 % 0x10 * 64 + b1 % 64) * 64 + b2 % 64
  }

  predicate Four(b0: int, b1: int, b2: int, b3: int, v: int) {
    && 0xF0 <= b0 <= 0xF4 && 0x80 <= b1 <= 0xBF && 0x80 <= b2 <= 0xBF && 0x80 <= b3 <= 0xBF
    && (b0 == 0xF0 ==> b1 >= 0x90) && (b0 == 0xF4 ==> b1 <= 0x8F)
    && v == ((b0 % 0x08 * 64 + b1 % 64) * 64 + b2 % 64) * 64 + b3 % 64
  }

  lemma TwoForm(v: int)
    requires 0x80 <= v < 0x800
    ensures Two(0xC0 + v / 64, 0x80 + v % 64, v)
  {
  }

  lemma TwoValue(b0: int, b1: int, v: int)
    requires Two(b0, b1, v)
    ensures 0x80 <= v < 0x800 && b0 == 0xC0 + v / 64 && b1 == 0x80 + v % 64
  {
    SixBitDigits(b0 % 0x20, 0, 0, b1 % 64);
  }

  lemma ThreeForm(v: int)
    requires 0x800 <= v < 0x10000 && Scalar(v)
    ensures Three(0xE0 + v / 4096, 0x80 + v / 64 % 64, 0x80 + v % 64, v)
  {
    var a, c, d := v / 4096, v / 64 % 64, v % 64;
    assert v == (a * 64 + c) * 64 + d && 0 <= a < 16 && 0 <= c < 64 && 0 <= d < 64;
    assert a == 13 ==> c < 32;
    assert a == 0 ==> c >= 32;
  }

  lemma ThreeValue(b0: int, b1: int, b2: int, v: int)
    requires Three(b0, b1, b2, v)
    ensures 0x800 <= v < 0x10000 && Scalar(v)
    ensures b0 == 0xE0 + v / 4096 && b1 == 0x80 + v / 64 % 64 && b2 == 0x80 + v % 64
  {
    var a, c, d := b0 - 0xE0, b1 - 0x80, b2 - 0x80;
    assert b0 % 0x10 == a && b1 % 64 == c && b2 % 64 == d;
    ThreeDigits(a, c, d);
  }

  lemma FourForm(v: int)
    requires 0x10000 <= v <= 0x10FFFF
    ensures Four(0xF0 + v / 262144, 0x80 + v / 4096 % 64, 0x80 + v / 64 % 64, 0x80 + v % 64, v)
  {
    var a, b, c, d := v / 262144, v / 4096 % 64, v / 64 % 64, v % 64;
    FourParts(v);
    assert 0 <= a <= 4;
    assert a == 0 ==> b >= 16;
    assert a == 4 ==> b < 16;
  }

  lemma FourParts(v: int)
    requires v >= 0
    ensures v == ((v / 262144 * 64 + v / 4096 % 64) * 64 + v / 64 % 64) * 64 + v % 64
  {
    var w := v / 64;
    assert v == w * 64 + v % 64;
    var x := w / 64;
    assert w == x * 64 + w % 64 && x == v / 4096;
    assert x == x / 64 * 64 + x % 64 && x / 64 == v / 262144;
  }

  lemma FourValue(b0: int, b1: int, b2: int, b3: int, v: int)
    requires Four(b0, b1, b2, b3, v)
    ensures 0x10000 <= v <= 0x10FFFF
    ensures b0 == 0xF0 + v / 262144 && b1 == 0x80 + v / 4096 % 64 && b2 == 0x80 + v / 64 % 64 && b3 == 0x80 + v % 64
  {
    var a, b, c, d := b0 - 0xF0, b1 - 0x80, b2 - 0x80, b3 - 0x80;
    Masked(b1);
    Masked(b2);
    Masked(b3);
    assert b0 % 0x08 == a;
    FourDigits(a, b, c, d);
    FourRange(a, b, c, d);
  }

  lemma Masked(b: int)
    requires 0x80 <= b <= 0xBF
    ensures b % 64 == b - 0x80
  {
  }

  lemma FourRange(a: int, b: int, c: int, d: int)
    requires 0 <= a <= 4 && 0 <= b < 64 && 0 <= c < 64 && 0 <= d < 64 && (a == 0 ==> b >= 16) && (a == 4 ==> b < 16)
    ensures 0x10000 <= ((a * 64 + b) * 64 + c) * 64 + d <= 0x10FFFF
  {
  }

  lemma EncodedIsRecognised(input: string, position: nat, v: int)
    requires position < |input| && EncodedAt(input, position, v)
    ensures CanonicalUtf8Length(input, position) == |Encode(v)|
    ensures CodePoint(input, position, |Encode(v)|) == v
  {
    var e := Encode(v);
    var here := input[position..position + |e|];
    assert here[0] == input[position] && |here| == |e|;
    assert |e| > 1 ==> here[1] == input[position + 1];
    assert |e| > 2 ==> here[2] == input[position + 2];
    assert |e| > 3 ==> here[3] == input[position + 3];
    CodePointForms(input, position, |e|);
    hide CodePoint, Two, Three, Four;
    if v >= 0x10000 {
      FourForm(v);
      FourRecognised(input, position, v);
    } else if v >= 0x800 {
      ThreeForm(v);
      ThreeRecognised(input, position, v);
    } else if v >= 0x80 {
      TwoForm(v);
      TwoRecognised(input, position, v);
    }
  }

  lemma TwoRecognised(input: string, position: nat, v: int)
    requires position + 1 < |input| && Two(input[position] as int, input[position + 1] as int, v)
    ensures CanonicalUtf8Length(input, position) == 2 && CodePoint(input, position, 2) == v
  {
    CodePointForms(input, position, 2);
    hide CodePoint;
  }

  lemma ThreeRecognised(input: string, position: nat, v: int)
    requires position + 2 < |input|
    requires Three(input[position] as int, input[position + 1] as int, input[position + 2] as int, v)
    ensures CanonicalUtf8Length(input, position) == 3 && CodePoint(input, position, 3) == v
  {
    CodePointForms(input, position, 3);
    hide CodePoint;
  }

  lemma FourRecognised(input: string, position: nat, v: int)
    requires position + 3 < |input|
    requires Four(input[position] as int, input[position + 1] as int, input[position + 2] as int, input[position + 3] as int, v)
    ensures CanonicalUtf8Length(input, position) == 4 && CodePoint(input, position, 4) == v
  {
    CodePointForms(input, position, 4);
    hide CodePoint;
  }

  lemma RecognisedIsEncoded(input: string, position: nat)
    requires position < |input| && CanonicalUtf8Length(input, position) > 0
    ensures EncodedAt(input, position, CodePoint(input, position, CanonicalUtf8Length(input, position)))
    ensures |Encode(CodePoint(input, position, CanonicalUtf8Length(input, position)))| == CanonicalUtf8Length(input, position)
  {
    var n := CanonicalUtf8Length(input, position);
    var v := CodePoint(input, position, n);
    CodePointForms(input, position, n);
    hide CodePoint, Encode, EncodedAt;
    if n == 2 {
      assert Two(input[position] as int, input[position + 1] as int, v);
      TwoEncoded(input, position, v);
    } else if n == 3 {
      assert Three(input[position] as int, input[position + 1] as int, input[position + 2] as int, v);
      ThreeEncoded(input, position, v);
    } else if n == 4 {
      assert Four(input[position] as int, input[position + 1] as int, input[position + 2] as int, input[position + 3] as int, v);
      FourEncoded(input, position, v);
    } else {
      OneEncoded(input, position, v);
    }
  }

  lemma OneEncoded(input: string, position: nat, v: int)
    requires position < |input| && input[position] as int == v <= 0x7F
    ensures EncodedAt(input, position, v) && |Encode(v)| == 1
  {
    assert input[position..position + 1] == [input[position]];
  }

  lemma TwoEncoded(input: string, position: nat, v: int)
    requires position + 1 < |input| && Two(input[position] as int, input[position + 1] as int, v)
    ensures EncodedAt(input, position, v) && |Encode(v)| == 2
  {
    hide Two;
    TwoValue(input[position] as int, input[position + 1] as int, v);
    assert input[position..position + 2] == [input[position], input[position + 1]];
  }

  lemma ThreeEncoded(input: string, position: nat, v: int)
    requires position + 2 < |input|
    requires Three(input[position] as int, input[position + 1] as int, input[position + 2] as int, v)
    ensures EncodedAt(input, position, v) && |Encode(v)| == 3
  {
    hide Three;
    ThreeValue(input[position] as int, input[position + 1] as int, input[position + 2] as int, v);
    assert input[position..position + 3] == [input[position], input[position + 1], input[position + 2]];
  }

  lemma FourEncoded(input: string, position: nat, v: int)
    requires position + 3 < |input|
    requires Four(input[position] as int, input[position + 1] as int, input[position + 2] as int, input[position + 3] as int, v)
    ensures EncodedAt(input, position, v) && |Encode(v)| == 4
  {
    hide Four;
    FourValue(input[position] as int, input[position + 1] as int, input[position + 2] as int, input[position + 3] as int, v);
    assert input[position..position + 4] == [input[position], input[position + 1], input[position + 2], input[position + 3]];
  }

  // The recognised length is positive exactly when the encoding of a scalar
  // value starts at the position; it is then that encoding's length, and the
  // code point read there is that scalar value and no other.
  lemma LengthRecognisesEncodings(input: string, position: nat, n: nat, v: int)
    requires position < |input| && n > 0
    ensures CanonicalUtf8Length(input, position) == n && CodePoint(input, position, n) == v
            <==> EncodedAt(input, position, v) && |Encode(v)| == n
  {
    if CanonicalUtf8Length(input, position) == n { RecognisedIsEncoded(input, position); }
    if EncodedAt(input, position, v) { EncodedIsRecognised(input, position, v); }
  }

  // What the escape parser appends for a code point below 0x10000.
  function AppendUtf8(output: string, codePoint: nat): string
    requires codePoint < 0x10000
  {
    if codePoint <= 0x7F then output + [Byte(codePoint)]
    else if codePoint <= 0x7FF then output + [Byte(0xC0 + codePoint / 64), Byte(0x80 + codePoint % 64)]
    else output + [Byte(0xE0 + codePoint / 4096), Byte(0x80 + codePoint / 64 % 64), Byte(0x80 + codePoint % 64)]
  }

  // On the scalar values of the basic plane it appends their encoding, and on a
  // surrogate it appends bytes that are not an encoding at all.
  lemma AppendsEncodings(output: string, codePoint: nat)
    requires codePoint < 0x10000
    ensures Scalar(codePoint) ==> AppendUtf8(output, codePoint) == output + Encode(codePoint)
    ensures !Scalar(codePoint) ==> CanonicalUtf8Length(AppendUtf8(output, codePoint), |output|) == 0
  {
  }

  // Unicode White_Space.
  predicate SpaceCodePoint(v: int) {
    || 0x0009 <= v <= 0x000D || v == 0x0020 || v == 0x0085 || v == 0x00A0 || v == 0x1680
    || 0x2000 <= v <= 0x200A || v == 0x2028 || v == 0x2029 || v == 0x202F || v == 0x205F || v == 0x3000
  }
}
