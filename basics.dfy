/**
 * Small value types shared by the DIAMetric model: an optional value, the
 * single-precision sentinel +infinity that the run-level minimum trackers
 * start from, and the outcome of the one division that can be 0/0.
 */
module Basics {

  datatype Option<+T> = None | Some(value: T)

  /** A tracker value that is either a finite number or the +infinity sentinel. */
  datatype ExtReal = Finite(value: real) | PositiveInfinity

  /** IEEE comparison `x < e` for a finite `x`: every finite number is below +infinity. */
  predicate Below(x: real, e: ExtReal)
  {
    match e
    case Finite(v) => x < v
    case PositiveInfinity => true
  }

  /** `e <= x`: the tracker has reached a finite value at or below `x`. */
  predicate AtMost(e: ExtReal, x: real)
  {
    e.Finite? && e.value <= x
  }

  /** The bounds of C#'s `int` (System.Int32). */
  const INT32_MIN: int := -0x8000_0000
  const INT32_MAX: int := 0x7FFF_FFFF

  /** A quotient that is NaN when the source divides 0 by 0. */
  datatype Average = NotANumber | Value(value: real)

  /** C#'s integer division truncates toward zero; Dafny's `/` is Euclidean. */
  function TruncDiv(a: int, b: int): (q: int)
    requires b > 0
    ensures a >= 0 ==> 0 <= a - q * b < b
    ensures a < 0 ==> -b < a - q * b <= 0
  {
    if a >= 0 then a / b else -((-a) / b)
  }
}
