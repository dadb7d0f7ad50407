/** JavaScript `number` arithmetic as the arbitrage engine uses it. Finite values
    are exact reals (rounding is not modelled); what is kept is IEEE division by
    zero and the way NaN and the infinities behave under `<`, `-` and scaling. */
module Numbers {

  datatype Num = Finite(value: real) | PosInfinity | NegInfinity | NaN

  /** `x / y` on two finite numbers. */
  function Div(x: real, y: real): (r: Num)
    ensures y != 0.0 ==> r == Finite(x / y)
    ensures y == 0.0 ==> !r.Finite?
  {
    if y != 0.0 then Finite(x / y)
    else if x > 0.0 then PosInfinity
    else if x < 0.0 then NegInfinity
    else NaN
  }

  /** `x < y`: false whenever NaN is involved. */
  predicate Less(x: Num, y: Num) {
    if x.NaN? || y.NaN? then false
    else if x.Finite? && y.Finite? then x.value < y.value
    else (x.NegInfinity? && !y.NegInfinity?) || (y.PosInfinity? && !x.PosInfinity?)
  }

  /** `<` is a strict order: it never holds both ways. */
  lemma LessAsymmetric(x: Num, y: Num)
    ensures !(Less(x, y) && Less(y, x))
  {
  }

  /** `x - c` for a finite `c`. */
  function Minus(x: Num, c: real): Num {
    match x
    case Finite(v) => Finite(v - c)
    case _ => x
  }

  /** `x * c` for a finite positive `c`. */
  function Times(x: Num, c: real): Num
    requires c > 0.0
  {
    match x
    case Finite(v) => Finite(v * c)
    case _ => x
  }

  /** `x / c` for a finite positive `c`. */
  function Over(x: Num, c: real): Num
    requires c > 0.0
  {
    match x
    case Finite(v) => Finite(v / c)
    case _ => x
  }
}
