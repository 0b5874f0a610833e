/** The overflow-checked arithmetic of src/safe_arithmetic.hpp on 64-bit integers. */
module SafeArithmetic {
  import opened Int64
  import opened Wrappers

  /** Some guard of `SafeMultiply` fires. */
  predicate MultiplyGuard(a: int64, b: int64) {
    || (a > 0 && b > 0 && a > CDiv(MAX, b))
    || (a < 0 && b < 0 && a < CDiv(MAX, b))
    || (a > 0 && b < 0 && b < CDiv(MIN, a))
    || (a < 0 && b > 0 && a < CDiv(MIN, b))
  }

  lemma Scale(x: int, z: int, y: int)
    requires x <= z && y >= 0
    ensures x * y <= z * y
  {
    assert z * y == x * y + (z - x) * y;
  }

  lemma QuotientOf(n: int, y: int)
    requires y > 0
    ensures (n / y) * y <= n < (n / y + 1) * y
  {
    assert n == (n / y) * y + n % y;
    assert (n / y + 1) * y == (n / y) * y + y;
  }

  lemma QuotientGuard(x: int, y: int, n: int)
    requires x >= 0 && y > 0 && n >= 0
    ensures x > n / y <==> x * y > n
  {
    var q := n / y;
    QuotientOf(n, y);
    if x > q {
      Scale(q + 1, x, y);
    } else {
      Scale(x, q, y);
    }
  }

  lemma NegatedProducts(x: int, y: int)
    ensures (-x) * (-y) == x * y && (-y) * x == -(x * y) && (-x) * y == -(x * y)
  {
  }

  lemma NegativeDivisor(n: int, b: int)
    requires n >= 0 && b < 0
    ensures CDiv(n, b) == -(n / -b)
  {
  }

  /** The guards divide with truncation, in all four combinations of signs, and fire exactly when
      the true product is out of range. */
  lemma MultiplyFits(a: int64, b: int64)
    ensures MultiplyGuard(a, b) <==> !Fits(a * b)
  {
    var x: int, y: int := a, b;
    NegatedProducts(x, y);
    if x > 0 && y > 0 {
      QuotientGuard(x, y, MAX);
    } else if x < 0 && y < 0 {
      QuotientGuard(-x, -y, MAX);
      NegativeDivisor(MAX, y);
    } else if x > 0 && y < 0 {
      QuotientGuard(-y, x, -MIN);
    } else if x < 0 && y > 0 {
      QuotientGuard(-x, y, -MIN);
    }
  }

  function SafeMultiply(a: int64, b: int64): Result<int64> {
    if a > 0 && b > 0 && a > CDiv(MAX, b) then Failure("Overflow in multiplication")
    else if a < 0 && b < 0 && a < CDiv(MAX, b) then Failure("Overflow in multiplication")
    else if a > 0 && b < 0 && b < CDiv(MIN, a) then Failure("Underflow in multiplication")
    else if a < 0 && b > 0 && a < CDiv(MIN, b) then Failure("Underflow in multiplication")
    else
      MultiplyFits(a, b);
      Success(a * b)
  }

  function SafeAdd(a: int64, b: int64): Result<int64> {
    if b > 0 && a > MAX - b then Failure("Overflow in addition")
    else if b < 0 && a < MIN - b then Failure("Underflow in addition")
    else Success(a + b)
  }

  function SafeSubtract(a: int64, b: int64): Result<int64> {
    if b < 0 && a > MAX + b then Failure("Overflow in subtraction")
    else if b > 0 && a < MIN + b then Failure("Underflow in subtraction")
    else Success(a - b)
  }

  /** Each operation gives the true result when it fits and an error when it does not. */
  lemma ExactOrError(a: int64, b: int64)
    ensures SafeMultiply(a, b).Success? <==> Fits(a * b)
    ensures SafeAdd(a, b).Success? <==> Fits(a + b)
    ensures SafeSubtract(a, b).Success? <==> Fits(a - b)
    ensures SafeMultiply(a, b).Success? ==> SafeMultiply(a, b).value == a * b
    ensures SafeAdd(a, b).Success? ==> SafeAdd(a, b).value == a + b
    ensures SafeSubtract(a, b).Success? ==> SafeSubtract(a, b).value == a - b
  {
    MultiplyFits(a, b);
  }
}
