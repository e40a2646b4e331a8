/** JavaScript numbers as the workout code sees them: an exact real, or one of
    the three non-finite values a form field can turn into (`+"abc"` is NaN,
    `+"1e999"` is Infinity). Rounding is not modelled; arithmetic on finite
    values is exact. */
module Numbers {

  datatype Num = Finite(v: real) | PosInf | NegInf | NaN

  /** `Number.isFinite(x)` */
  predicate IsFinite(x: Num) {
    x.Finite?
  }

  /** `x > 0` (false for NaN, true for +Infinity) */
  predicate IsPositive(x: Num) {
    (x.Finite? && x.v > 0.0) || x.PosInf?
  }

  /** `validInputs(...inputs)`: every input is finite */
  predicate ValidInputs(inputs: seq<Num>) {
    forall i :: 0 <= i < |inputs| ==> IsFinite(inputs[i])
  }

  /** `allPositives(...inputs)`: every input is greater than zero */
  predicate AllPositives(inputs: seq<Num>) {
    forall i :: 0 <= i < |inputs| ==> IsPositive(inputs[i])
  }

  function Negate(x: Num): Num {
    match x
    case Finite(a) => Finite(-a)
    case PosInf => NegInf
    case NegInf => PosInf
    case NaN => NaN
  }

  /** The IEEE 754 quotient `a / b`, with exact division on finite operands.
      Zero is unsigned here, so `x / 0` takes the sign of `x`. */
  function Div(a: Num, b: Num): (r: Num)
    ensures IsFinite(a) && IsFinite(b) && b.v != 0.0 ==> r.Finite? && r.v * b.v == a.v
    ensures a.NaN? || b.NaN? ==> r.NaN?
  {
    match (a, b)
    case (NaN, _) => NaN
    case (_, NaN) => NaN
    case (Finite(x), Finite(y)) =>
      if y != 0.0 then Finite(x / y)
      else if x == 0.0 then NaN
      else if x > 0.0 then PosInf
      else NegInf
    case (Finite(_), _) => Finite(0.0)
    case (_, Finite(y)) => if y >= 0.0 then a else Negate(a)
    case (_, _) => NaN
  }
}
