// Fixed-width integers and the rounding and saturating helpers shared by the
// mapper, the guard and the admission check.
module Numbers {
  const U64_MAX: int := 0xFFFF_FFFF_FFFF_FFFF
  const U32_MAX: int := 0xFFFF_FFFF
  const I64_MAX: int := 0x7FFF_FFFF_FFFF_FFFF
  const I64_MIN: int := -0x8000_0000_0000_0000

  type u64 = x: int | 0 <= x <= 0xFFFF_FFFF_FFFF_FFFF
  type u32 = x: int | 0 <= x <= 0xFFFF_FFFF
  type i64 = x: int | -0x8000_0000_0000_0000 <= x <= 0x7FFF_FFFF_FFFF_FFFF

  function Magnitude(x: int): nat {
    if x >= 0 then x else -x
  }

  function Min(a: int, b: int): int {
    if a <= b then a else b
  }

  function Clamp(x: int, low: int, high: int): int {
    if x < low then low else if x > high then high else x
  }

  function SaturatingAdd(left: u64, right: u64): u64 {
    if right > U64_MAX - left then U64_MAX else left + right
  }

  // A counter of a 32-bit field that sticks at its maximum.
  function SaturatingIncrement(x: u32): u32 {
    if x < U32_MAX then x + 1 else x
  }

  // The difference of two unsigned stamps, clamped symmetrically so that it
  // never produces the most negative value.
  function SignedDifference(left: u64, right: u64): i64 {
    if left >= right then Min(left - right, I64_MAX) else -Min(right - left, I64_MAX)
  }

  // The difference of two signed values, clamped to the signed range.
  function ClampedDifference(left: i64, right: i64): i64 {
    Clamp(left - right, I64_MIN, I64_MAX)
  }

  // Nearest integer, ties away from zero.
  function RoundHalfAway(v: real): int {
    if v >= 0.0 then (v + 0.5).Floor else -((-v + 0.5).Floor)
  }

  function RoundedUnsigned(v: real): u64 {
    if v <= 0.0 then 0
    else if v >= U64_MAX as real then U64_MAX
    else RoundsInside(v, 0, U64_MAX); RoundHalfAway(v)
  }

  function RoundedSigned(v: real): i64 {
    if v <= I64_MIN as real then I64_MIN
    else if v >= I64_MAX as real then I64_MAX
    else RoundsInside(v, I64_MIN, I64_MAX); RoundHalfAway(v)
  }

  function RealMagnitude(v: real): real {
    if v >= 0.0 then v else -v
  }

  // Rounding moves a value by at most one half.
  lemma RoundsByHalf(v: real)
    ensures RealMagnitude(RoundHalfAway(v) as real - v) <= 0.5
  {
  }

  // Rounding gives the nearest integer, and of two the one farther from zero.
  lemma RoundsToNearest(v: real, n: int)
    ensures RoundHalfAway(v) == n <==>
              var distance := RealMagnitude(n as real - v);
              distance < 0.5 || (distance == 0.5 && RealMagnitude(n as real) > RealMagnitude(v))
  {
    RoundsByHalf(v);
    var r := RoundHalfAway(v);
    assert r != n ==> RealMagnitude(r as real - n as real) >= 1.0;
  }

  // Rounding cannot leave an interval with integer ends.
  lemma RoundsInside(v: real, low: int, high: int)
    requires low as real <= v <= high as real
    ensures low <= RoundHalfAway(v) <= high
  {
    RoundsByHalf(v);
    var n := RoundHalfAway(v);
    assert n < low ==> n as real <= low as real - 1.0;
    assert n > high ==> n as real >= high as real + 1.0;
  }

  // The comparison "magnitude of the clamped difference against a limit"
  // decides the comparison on the true difference for every pair of stamps
  // exactly when the limit is below the clamp, or so large that nothing
  // exceeds it.
  lemma ClampedStampCheckIsExact(limit: u64)
    ensures (forall a: u64, b: u64 ::
               Magnitude(SignedDifference(a, b)) <= limit <==> Magnitude(a - b) <= limit)
            <==> (limit < I64_MAX || limit == U64_MAX)
  {
    if !(limit < I64_MAX || limit == U64_MAX) {
      var a: u64, b: u64 := U64_MAX, 0;
      assert Magnitude(SignedDifference(a, b)) <= limit && Magnitude(a - b) > limit;
    }
  }

  lemma ClampedErrorCheckIsExact(limit: u64)
    ensures (forall a: i64, b: i64 ::
               Magnitude(ClampedDifference(a, b)) <= limit <==> Magnitude(a - b) <= limit)
            <==> (limit < I64_MAX || limit == U64_MAX)
  {
    if !(limit < I64_MAX || limit == U64_MAX) {
      var a: i64, b: i64 := I64_MAX, I64_MIN;
      assert Magnitude(ClampedDifference(a, b)) <= limit && Magnitude(a - b) > limit;
    }
  }
}
