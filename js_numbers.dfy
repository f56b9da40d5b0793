/** The JavaScript number operations the application relies on, stated over exact integers.

    Every score in the application is `Math.round(a / b * 100)` or `Math.round(a / b)` for
    non-negative counts a and b. For b > 0 that is floor(a / b + 1/2), which is computed here
    without floating point as (2a + b) / (2b). For b = 0 JavaScript yields NaN (0 / 0) or
    Infinity (a / 0 with a > 0), and those outcomes are kept as values. */
module JsNumbers {

  /** The value of a rounded ratio: a whole number, NaN, or positive Infinity. */
  datatype Rounded = Whole(n: nat) | NaN | Infinity

  function Min(a: int, b: int): int { if a <= b then a else b }

  /** `Math.round(p / q)` for p >= 0 and q > 0: the whole number nearest to p / q, halves upward. */
  function RoundDiv(p: nat, q: nat): (r: nat)
    requires q > 0
    ensures 2 * q * r <= 2 * p + q < 2 * q * r + 2 * q
  {
    (2 * p + q) / (2 * q)
  }

  lemma MulCancelStrict(k: int, a: int, b: int)
    requires k > 0 && k * a < k * b
    ensures a < b
  {
  }

  /** The rounding bracket determines the rounded value: RoundDiv is the only whole number
      within one half of p / q (halves upward). */
  lemma RoundDivUnique(p: nat, q: nat, r: int)
    requires q > 0
    requires 2 * q * r <= 2 * p + q < 2 * q * r + 2 * q
    ensures r == RoundDiv(p, q)
  {
    var s := RoundDiv(p, q);
    assert 2 * q * (s + 1) == 2 * q * s + 2 * q;
    assert 2 * q * (r + 1) == 2 * q * r + 2 * q;
    MulCancelStrict(2 * q, r, s + 1);
    MulCancelStrict(2 * q, s, r + 1);
  }

  /** Rounding an exact quotient gives the quotient back. */
  lemma RoundDivExact(k: nat, q: nat)
    requires q > 0
    ensures RoundDiv(k * q, q) == k
  {
    assert 2 * q * k == 2 * (k * q);
    RoundDivUnique(k * q, q, k);
  }

  /** If p / q is at most m then so is its rounded value. */
  lemma RoundDivAtMost(p: nat, q: nat, m: nat)
    requires q > 0 && p <= m * q
    ensures RoundDiv(p, q) <= m
  {
    var r := RoundDiv(p, q);
    assert 2 * q * r <= 2 * p + q;
    assert 2 * p + q < 2 * q * (m + 1) by {
      assert 2 * q * (m + 1) == 2 * (m * q) + 2 * q;
    }
    MulCancelStrict(2 * q, r, m + 1);
  }

  /** `Math.round(c / n * 100)` for counts c and n. */
  function RoundPercent(c: nat, n: nat): (r: Rounded)
    ensures n == 0 ==> (r == NaN <==> c == 0) && (r == Infinity <==> c > 0)
    ensures n > 0 ==> r.Whole? && 2 * n * r.n <= 200 * c + n < 2 * n * r.n + 2 * n
    ensures n > 0 && c <= n ==> r.Whole? && r.n <= 100
  {
    if n == 0 then
      (if c == 0 then NaN else Infinity)
    else
      PercentAtMostHundred(c, n);
      Whole(RoundDiv(100 * c, n))
  }

  lemma PercentAtMostHundred(c: nat, n: nat)
    requires n > 0
    ensures c <= n ==> RoundDiv(100 * c, n) <= 100
  {
    if c <= n {
      assert 100 * c <= 100 * n;
      RoundDivAtMost(100 * c, n, 100);
    }
  }
}
