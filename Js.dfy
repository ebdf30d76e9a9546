/** The arithmetic of JavaScript numbers that the model needs, on integers. */
module Js {
  /** JavaScript's `%` by a positive divisor: the remainder takes the sign of the
      dividend (truncating division), unlike Dafny's Euclidean `%`. */
  function Rem(a: int, b: int): (r: int)
    requires b > 0
    ensures a >= 0 ==> 0 <= r < b
    ensures a < 0 ==> -b < r <= 0
  {
    if a >= 0 then a % b else -((-a) % b)
  }

  /** Where the dividend is not negative, JavaScript and Dafny agree. */
  lemma RemAgreesOnNatural(a: int, b: int)
    requires a >= 0 && b > 0
    ensures Rem(a, b) == a % b
  {
  }

  /** Below twice the divisor, `%` subtracts the divisor at most once. */
  lemma ModOnce(x: int, n: int)
    requires n > 0 && 0 <= x < 2 * n
    ensures x % n == (if x < n then x else x - n)
  {
    if x >= n {
      assert x == 1 * n + (x - n);
    }
  }
}
