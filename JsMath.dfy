/**
 * `Math.round`, `Math.max` and `Math.min` on the integer quotients the application
 * rounds. JavaScript computes `a / b` in floating point before rounding; here the
 * quotient is exact, so `Round(n, d)` is the integer nearest the rational `n / d`,
 * with halves rounded up as `Math.round` does.
 */
module JsMath {

  /** `Math.round(n / d)` for a positive divisor. */
  function Round(n: int, d: int): (r: int)
    requires d > 0
    ensures 2 * d * r - d <= 2 * n < 2 * d * r + d
  {
    var q := (2 * n + d) / (2 * d);
    assert 2 * d * q <= 2 * n + d < 2 * d * q + 2 * d;
    q
  }

  /** `Math.round(n / d * 100)`: the percentage `n` is of `d`. */
  function Percent(n: int, d: int): int
    requires d > 0
  {
    Round(100 * n, d)
  }

  /** A share of a whole is between 0 and 100 percent; none is 0 and all is 100. */
  lemma PercentOfShare(n: int, d: int)
    requires d > 0 && 0 <= n <= d
    ensures 0 <= Percent(n, d) <= 100
    ensures n == 0 ==> Percent(n, d) == 0
    ensures n == d ==> Percent(n, d) == 100
  {
    RoundBetween(100 * n, d, 0, 100);
    RoundExact(0, d);
    RoundExact(100, d);
  }

  /** The sign of a product with a positive factor is the sign of the other factor. */
  lemma MulSign(d: int, x: int)
    requires d > 0
    ensures x > 0 ==> d * x > 0
    ensures x < 0 ==> d * x < 0
  {
  }

  /** A quotient between two whole numbers rounds to a whole number between them. */
  lemma RoundBetween(n: int, d: int, lo: int, hi: int)
    requires d > 0
    requires lo * d <= n <= hi * d
    ensures lo <= Round(n, d) <= hi
  {
    RoundAtLeast(n, d, lo);
    RoundAtMost(n, d, hi);
  }

  lemma RoundAtLeast(n: int, d: int, lo: int)
    requires d > 0
    requires lo * d <= n
    ensures lo <= Round(n, d)
  {
    MulSign(d, 2 * lo - 2 * Round(n, d) - 1);
  }

  lemma RoundAtMost(n: int, d: int, hi: int)
    requires d > 0
    requires n <= hi * d
    ensures Round(n, d) <= hi
  {
    MulSign(d, 2 * Round(n, d) - 2 * hi - 1);
  }

  /** A whole quotient is its own rounding. */
  lemma RoundExact(k: int, d: int)
    requires d > 0
    ensures Round(k * d, d) == k
  {
    var r := Round(k * d, d);
    MulSign(d, 2 * k - 2 * r - 1);
    MulSign(d, 2 * r - 2 * k - 1);
  }

  lemma MulSucc(a: int, n: int)
    ensures a * (n + 1) == a * n + a
  {
  }

  function Max(a: int, b: int): (m: int)
    ensures m >= a && m >= b && (m == a || m == b)
  {
    if a >= b then a else b
  }

  function Min(a: int, b: int): (m: int)
    ensures m <= a && m <= b && (m == a || m == b)
  {
    if a <= b then a else b
  }
}
