/** The two JavaScript number operations the File model uses, on exact
    rationals `n / d`: `Math.round` and `Number.prototype.toFixed(1)`. */
module JsNumbers {
  import Strings

  /** `Math.round(n / d)` for `n >= 0`: the integer nearest to `n / d`,
      a half rounding upwards. */
  function RoundDiv(n: nat, d: nat): (r: nat)
    requires d > 0
    ensures 2 * n - d < 2 * (d * r) <= 2 * n + d
  {
    var r := (2 * n + d) / (2 * d);
    assert (2 * d) * r <= 2 * n + d < (2 * d) * r + 2 * d;
    assert (2 * d) * r == 2 * (d * r);
    r
  }

  /** The rounding bound of RoundDiv has exactly one integer solution. */
  lemma RoundDivUnique(n: nat, d: nat, k: int)
    requires d > 0
    requires 2 * n - d < 2 * (d * k) <= 2 * n + d
    ensures k == RoundDiv(n, d)
  {
    RoundBoundUnique(n, d, k, RoundDiv(n, d));
  }

  /** Two integers within the same rounding bound of `n / d` are equal. */
  lemma RoundBoundUnique(n: nat, d: nat, k: int, r: int)
    requires d > 0
    requires 2 * n - d < 2 * (d * k) <= 2 * n + d
    requires 2 * n - d < 2 * (d * r) <= 2 * n + d
    ensures k == r
  {
    var q := k - r;
    var e: int := d;
    assert d * q == d * k - d * r;
    assert -e < d * q < e;
    MulCancelLess(d, q, 1);
    MulCancelLess(d, -1, q);
  }

  /** Multiplying by a non-negative factor keeps an inequality. */
  lemma MulMono(c: nat, a: int, b: int)
    requires a <= b
    ensures c * a <= c * b
  {
  }

  /** Cancelling a positive factor from a strict inequality. */
  lemma MulCancelLess(c: nat, a: int, b: int)
    requires c > 0 && c * a < c * b
    ensures a < b
  {
    if b <= a { MulMono(c, b, a); }
  }

  /** `(n / d).toFixed(1)` for `n >= 0` whose quotient is an exact double:
      the integer part, a point and one decimal, `t` tenths where `t` is
      the nearest integer to `10 * n / d` and a tie picks the larger one. */
  function FixedOne(n: nat, d: nat): (r: string)
    requires d > 0
    ensures |r| >= 3 && r[|r| - 2] == '.' && '0' <= r[|r| - 1] <= '9'
    ensures Strings.IsDigits(r[..|r| - 2]) && (|r| > 3 ==> r[0] != '0')
    ensures 10 * Strings.DecimalValue(r[..|r| - 2]) + (r[|r| - 1] as int - '0' as int) == RoundDiv(10 * n, d)
  {
    var t := RoundDiv(10 * n, d);
    var whole := Strings.NatToString(t / 10);
    Strings.NatToStringDigits(t / 10);
    Strings.NatToStringRoundTrip(t / 10);
    var r := whole + "." + [Strings.DigitChar(t % 10)];
    assert r[..|r| - 2] == whole;
    r
  }
}
