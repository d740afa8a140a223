/** The floating-point results the programs rely on beyond the reals:
    Python and numpy produce infinities and NaN where real arithmetic has no
    value, and later comparisons treat them by IEEE 754 rules. */
module Extended {

  /** A float as far as the model needs it: a finite value, or one of the
      non-finite values. */
  datatype Float = Finite(value: real) | PosInf | NegInf | NaN

  /** Division of numpy floats (`a / b` on `float64`): a zero divisor gives
      an infinity of the dividend's sign, or NaN when the dividend is zero as
      well; nothing is raised. */
  function Divide(a: real, b: real): (q: Float)
    ensures q.Finite? <==> b != 0.0
    ensures q.Finite? ==> q.value * b == a
    ensures q == PosInf <==> b == 0.0 && a > 0.0
    ensures q == NegInf <==> b == 0.0 && a < 0.0
    ensures q == NaN <==> b == 0.0 && a == 0.0
  {
    if b != 0.0 then Finite(a / b)
    else if a > 0.0 then PosInf
    else if a < 0.0 then NegInf
    else NaN
  }

  /** `x < c` for a finite bound `c`: +inf and NaN are below nothing, -inf is
      below everything. */
  predicate LessThan(x: Float, c: real)
  {
    match x
    case Finite(v) => v < c
    case PosInf => false
    case NegInf => true
    case NaN => false
  }
}
