/** The numeric helper clamp, over reals. */
module MathUtil {

  /** The larger of two numbers, as Math.max returns it. */
  function Max(a: real, b: real): (r: real)
    ensures r >= a && r >= b
    ensures r == a || r == b
  {
    if a >= b then a else b
  }

  /** The smaller of two numbers, as Math.min returns it. */
  function Min(a: real, b: real): (r: real)
    ensures r <= a && r <= b
    ensures r == a || r == b
  {
    if a <= b then a else b
  }

  /** Pins num into [min, max]: first raised to at least min, then lowered
      to at most max. The lowering comes last, so when the bounds are
      crossed (min > max) the upper bound wins. */
  function Clamp(num: real, min: real, max: real): (r: real)
    ensures r <= max
    ensures min <= max ==> min <= r
    ensures min <= num <= max ==> r == num
    ensures min <= max && num < min ==> r == min
    ensures num > max ==> r == max
    ensures min > max ==> r == max
  {
    Min(Max(num, min), max)
  }

  /** Clamping twice with the same bounds is clamping once. */
  lemma ClampIdempotent(num: real, min: real, max: real)
    ensures Clamp(Clamp(num, min, max), min, max) == Clamp(num, min, max)
  {
  }

  /** Clamping preserves order between inputs. */
  lemma ClampMonotone(a: real, b: real, min: real, max: real)
    requires a <= b
    ensures Clamp(a, min, max) <= Clamp(b, min, max)
  {
  }
}
