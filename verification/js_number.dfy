/** The three pieces of JavaScript number arithmetic the route-time code
    relies on, stated over exact reals and unbounded integers:
    `Math.floor`, `Math.round` and the `%` operator on integers. */
module JsNumber {

  /** `Math.floor(x)`: the greatest integer not above `x`. */
  function Floor(x: real): (r: int)
    ensures r as real <= x < r as real + 1.0
  {
    x.Floor
  }

  /** `Math.round(x)`: the nearest integer, halves rounded towards +infinity
      (so 1.5 becomes 2 and -1.5 becomes -1). */
  function Round(x: real): (r: int)
    ensures r as real - 0.5 <= x < r as real + 0.5
  {
    (x + 0.5).Floor
  }

  /** The integer quotient rounded towards zero, the `q` in the ECMAScript
      definition of `n % d` as `n - d * q`. */
  function TruncDiv(a: int, b: int): int
    requires b > 0
  {
    if 0 <= a then a / b else -((-a) / b)
  }

  /** `a % b` on integers with a positive divisor (the code only ever
      divides by 60): what is left after taking away the quotient rounded
      towards zero, so it carries the sign of the dividend (unlike Dafny's
      Euclidean `%`). */
  function Rem(a: int, b: int): (r: int)
    requires b > 0
    ensures a == TruncDiv(a, b) * b + r
    ensures 0 <= a ==> 0 <= r < b && r == a % b
    ensures a < 0 ==> -b < r <= 0
  {
    if 0 <= a then a % b else -((-a) % b)
  }

  /** The hour split the formatters perform: a non-negative minute count is
      whole hours times sixty plus the JavaScript remainder. */
  lemma HourSplit(minutes: int)
    requires 0 <= minutes
    ensures Floor(minutes as real / 60.0) * 60 + Rem(minutes, 60) == minutes
    ensures 0 <= Rem(minutes, 60) < 60
    ensures Floor(minutes as real / 60.0) == minutes / 60
  {
  }

  /** Floor and round never differ by more than one: rounding to nearest
      either keeps the floor or moves up by exactly one, and moves up exactly
      when the fractional part is at least a half. */
  lemma RoundIsFloorOrNext(x: real)
    ensures Round(x) == Floor(x) || Round(x) == Floor(x) + 1
    ensures Round(x) == Floor(x) + 1 <==> x - Floor(x) as real >= 0.5
  {
  }
}
