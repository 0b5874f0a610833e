/** The machine integers of the program: 64-bit `long long`, 32-bit `int`, and the
    truncating division of C++. */
module Int64 {

  const MAX: int := 0x7FFF_FFFF_FFFF_FFFF
  const MIN: int := -0x8000_0000_0000_0000
  const INT32_MAX: int := 0x7FFF_FFFF

  type int64 = x: int | MIN <= x <= MAX
  type int32 = x: int | -INT32_MAX - 1 <= x <= INT32_MAX

  predicate Fits(x: int) {
    MIN <= x <= MAX
  }

  /** C++ division: the quotient is rounded toward zero. */
  function CDiv(a: int, b: int): int
    requires b != 0
  {
    if a >= 0 then a / b else -((-a) / b)
  }

  /** `CDiv` is the truncated quotient: what is left over is smaller than the divisor and has the
      sign of the dividend. */
  lemma CDivTruncates(a: int, b: int)
    requires b != 0
    ensures var r := a - CDiv(a, b) * b;
            && (if r < 0 then -r else r) < (if b < 0 then -b else b)
            && (a >= 0 ==> r >= 0) && (a <= 0 ==> r <= 0)
  {
    var n := if a >= 0 then a else -a;
    var q := n / b;
    assert n == q * b + n % b;
    assert (-q) * b == -(q * b);
  }
}
