/**
 * The Java `double` values the expectimax bots and the `minimax` package can produce: finite
 * values, the two infinities (`Double.NEGATIVE_INFINITY` / `POSITIVE_INFINITY`) and NaN. The
 * operations follow IEEE 754 as Java applies it; finite values are exact reals (no rounding).
 */
module Doubles {
  datatype Double = NegInf | Finite(r: real) | PosInf | NaN

  /** `x < y`: false whenever a NaN is involved. */
  predicate Lt(x: Double, y: Double)
  {
    match (x, y)
    case (Finite(a), Finite(b)) => a < b
    case (NegInf, Finite(_)) => true
    case (NegInf, PosInf) => true
    case (Finite(_), PosInf) => true
    case _ => false
  }

  /** `x > y`. */
  predicate Gt(x: Double, y: Double) { Lt(y, x) }

  /** `x <= y`: false whenever a NaN is involved. */
  predicate Le(x: Double, y: Double)
  {
    !x.NaN? && !y.NaN? && !Lt(y, x)
  }

  /** `x * k` for a finite factor `k`: an infinity times zero is NaN. */
  function Mul(x: Double, k: real): (r: Double)
    ensures x.NaN? ==> r.NaN?
    ensures x.Finite? ==> r == Finite(x.r * k)
  {
    if x.Finite? then Finite(x.r * k)
    else match x
    case NaN => NaN
    case PosInf => if k > 0.0 then PosInf else if k < 0.0 then NegInf else NaN
    case NegInf => if k > 0.0 then NegInf else if k < 0.0 then PosInf else NaN
    case Finite(_) => NaN
  }

  /** `x + y`: opposite infinities give NaN. */
  function Add(x: Double, y: Double): (r: Double)
    ensures x.NaN? || y.NaN? ==> r.NaN?
    ensures x.Finite? && y.Finite? ==> r == Finite(x.r + y.r)
  {
    match (x, y)
    case (NaN, _) => NaN
    case (_, NaN) => NaN
    case (PosInf, NegInf) => NaN
    case (NegInf, PosInf) => NaN
    case (PosInf, _) => PosInf
    case (_, PosInf) => PosInf
    case (NegInf, _) => NegInf
    case (_, NegInf) => NegInf
    case (Finite(a), Finite(b)) => Finite(a + b)
  }

  /** `x / n` for a count `n` converted to `double`: 0 / 0 is NaN, a non-zero finite value over 0 an infinity. */
  function DivCount(x: Double, n: nat): (r: Double)
    ensures x.Finite? && n > 0 ==> r == Finite(x.r / n as real)
    ensures x == Finite(0.0) && n == 0 ==> r.NaN?
  {
    match x
    case NaN => NaN
    case PosInf => PosInf
    case NegInf => NegInf
    case Finite(a) =>
      if n > 0 then Finite(a / n as real)
      else if a > 0.0 then PosInf else if a < 0.0 then NegInf else NaN
  }

  /** `Math.max`: NaN if either argument is NaN. */
  function MathMax(x: Double, y: Double): (r: Double)
    ensures x.NaN? || y.NaN? ==> r.NaN?
    ensures !x.NaN? && !y.NaN? ==> (r == x || r == y) && Le(x, r) && Le(y, r)
  {
    if x.NaN? || y.NaN? then NaN else if Lt(x, y) then y else x
  }

  /** `Math.min`: NaN if either argument is NaN. */
  function MathMin(x: Double, y: Double): (r: Double)
    ensures x.NaN? || y.NaN? ==> r.NaN?
    ensures !x.NaN? && !y.NaN? ==> (r == x || r == y) && Le(r, x) && Le(r, y)
  {
    if x.NaN? || y.NaN? then NaN else if Lt(y, x) then y else x
  }

  /** A value that is NaN or a finite real in [lo, hi]. */
  predicate NaNOrWithin(x: Double, lo: real, hi: real)
  {
    x.NaN? || (x.Finite? && lo <= x.r <= hi)
  }
}
