/** JavaScript values the workout tracker reads and computes: optional
    values (a property that is `undefined`, a `null` entry) and numbers
    with their non-finite cases. */
module Numbers {

  /** `None` stands for a JavaScript `undefined` (or `null`) value. */
  datatype Option<T> = None | Some(value: T)

  /** Every entry of `xs` is defined. */
  predicate AllPresent<T>(xs: seq<Option<T>>)
  {
    forall i :: 0 <= i < |xs| ==> xs[i].Some?
  }

  /** A JavaScript number: a finite value, one of the two infinities, or
      NaN. Finite values are exact reals: IEEE-754 rounding and the sign of
      zero are not modelled. */
  datatype Num = Finite(value: real) | PosInf | NegInf | NaN

  /** `Number.isFinite(n)` */
  predicate IsFinite(n: Num)
  {
    n.Finite?
  }

  /** `n > 0`: false for NaN and negative infinity, true for positive
      infinity. */
  predicate IsPositive(n: Num)
  {
    match n
    case Finite(v) => v > 0.0
    case PosInf => true
    case _ => false
  }

  /** `a / b` on two finite numbers: the exact quotient, or the infinity
      (or NaN, for `0 / 0`) that division by zero yields. */
  function Quotient(a: real, b: real): (q: Num)
    ensures q.Finite? <==> b != 0.0
    ensures q.Finite? ==> q.value * b == a
    ensures q == PosInf <==> b == 0.0 && a > 0.0
    ensures q == NegInf <==> b == 0.0 && a < 0.0
    ensures q == NaN <==> b == 0.0 && a == 0.0
  {
    if b != 0.0 then Finite(a / b)
    else if a > 0.0 then PosInf
    else if a < 0.0 then NegInf
    else NaN
  }
}
