/** `Math.round` applied to a ratio of integers, computed exactly. */
module Rounding {

  /** `Math.round(n / d)` for d > 0: the integer nearest to n/d, halves rounded up. */
  function RoundDiv(n: int, d: int): (r: int)
    requires d > 0
    ensures 2 * d * r <= 2 * n + d < 2 * d * r + 2 * d
  {
    var q := (2 * n + d) / (2 * d);
    DivBounds(2 * n + d, 2 * d);
    q
  }

  lemma DivBounds(a: int, b: int)
    requires b > 0
    ensures b * (a / b) <= a < b * (a / b) + b
  {
  }

  /** The rounding is exact when d divides n. */
  lemma {:induction false} RoundDivExact(k: int, d: int)
    requires d > 0
    ensures RoundDiv(k * d, d) == k
  {
    var r := RoundDiv(k * d, d);
    assert 2 * d * r <= 2 * d * k + d;
    assert 2 * d * k + d < 2 * d * r + 2 * d;
    if r > k {
      assert 2 * d * r >= 2 * d * (k + 1) by { MulMonotone(2 * d, k + 1, r); }
    } else if r < k {
      assert 2 * d * (r + 1) <= 2 * d * k by { MulMonotone(2 * d, r + 1, k); }
    }
  }

  lemma MulMonotone(c: int, a: int, b: int)
    requires c >= 0 && a <= b
    ensures c * a <= c * b
  {
  }

  /** RoundDiv does not decrease as the numerator grows. */
  lemma {:induction false} RoundDivMonotone(n: int, m: int, d: int)
    requires d > 0 && n <= m
    ensures RoundDiv(n, d) <= RoundDiv(m, d)
  {
    var a, b := RoundDiv(n, d), RoundDiv(m, d);
    if a > b {
      MulMonotone(2 * d, b + 1, a);
      assert false;
    }
  }

  /** `Math.round((n / d) * 100)`: a whole percentage. */
  function Percent(n: int, d: int): (p: int)
    requires d > 0
    ensures 0 <= n <= d ==> 0 <= p <= 100
    ensures 2 * d * p <= 200 * n + d < 2 * d * p + 2 * d
  {
    PercentBounds(n, d);
    RoundDiv(100 * n, d)
  }

  lemma PercentBounds(n: int, d: int)
    requires d > 0
    ensures 0 <= n <= d ==> 0 <= RoundDiv(100 * n, d) <= 100
  {
    if 0 <= n <= d {
      RoundDivExact(0, d);
      RoundDivExact(100, d);
      RoundDivMonotone(0, 100 * n, d);
      MulMonotone(100, n, d);
      RoundDivMonotone(100 * n, 100 * d, d);
    }
  }

  /** `Math.round(x / 1000)`: a salary in whole thousands. */
  function Thousands(x: int): (k: int)
    ensures 1000 * k - 500 <= x < 1000 * k + 500
  {
    RoundDiv(x, 1000)
  }
}
