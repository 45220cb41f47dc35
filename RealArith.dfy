/**
 * Facts about products of real numbers that the remainder bounds of the time codec rest on,
 * kept apart so that their proofs see only real arithmetic.
 */
module RealArith {
  /** A positive scale `b` keeps a fraction strictly between minus one and one within `b` of zero, with its sign. */
  lemma ScaleBounds(b: real, x: real)
    requires b > 0.0 && -1.0 < x < 1.0
    ensures -b < b * x < b
    ensures x >= 0.0 ==> b * x >= 0.0
    ensures x <= 0.0 ==> b * x <= 0.0
  {
    assert b - b * x == b * (1.0 - x) && b + b * x == b * (1.0 + x);
    if x < 0.0 {
      assert b * -x == -(b * x);
    }
  }

  /** The same bounds for a number `m` known to be that product. */
  lemma ScaledFraction(m: real, b: real, x: real)
    requires b > 0.0 && m == b * x && -1.0 < x < 1.0
    ensures -b < m < b
    ensures x >= 0.0 ==> m >= 0.0
    ensures x <= 0.0 ==> m <= 0.0
  {
    ScaleBounds(b, x);
  }
}
