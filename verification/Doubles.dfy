/** C++ doubles as the controller uses them: exact reals, with infinity and NaN as explicit
    cases wherever the code tests for them. */
module Doubles {

  datatype Double = Fin(r: real) | PosInf | NegInf | NaN

  /** `a < b`: false whenever either side is NaN. */
  predicate Lt(a: Double, b: Double) {
    if a.NaN? || b.NaN? then false
    else if a.Fin? && b.Fin? then a.r < b.r
    else a != b && (a.NegInf? || b.PosInf?)
  }

  function Neg(a: Double): Double {
    match a
    case Fin(r) => Fin(-r)
    case PosInf => NegInf
    case NegInf => PosInf
    case NaN => NaN
  }

  function Add(a: Double, b: Double): Double {
    if a.NaN? || b.NaN? then NaN
    else if a.Fin? && b.Fin? then Fin(a.r + b.r)
    else if a.Fin? then b
    else if b.Fin? || a == b then a
    else NaN
  }

  function Sub(a: Double, b: Double): Double { Add(a, Neg(b)) }

  function Abs(a: Double): Double {
    if Lt(a, Fin(0.0)) then Neg(a) else a
  }

  /** `std::min(a, b)`: yields `a` unless `b < a` holds. */
  function Min(a: Double, b: Double): Double {
    if Lt(b, a) then b else a
  }

  /** `k * a` for a finite factor other than zero. */
  function Times(k: real, a: Double): Double
    requires k != 0.0
  {
    match a
    case Fin(r) => Fin(k * r)
    case NaN => NaN
    case _ => if k > 0.0 then a else Neg(a)
  }

  function RealMin(a: real, b: real): real { if b < a then b else a }
}
