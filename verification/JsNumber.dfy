/**
 * JavaScript numbers, with the three values that are not finite kept apart.
 * Finite values are exact reals: IEEE rounding is not part of this model.
 */
module JsNumber {

  datatype Num = NaN | NegInf | PosInf | Fin(v: real)

  /** `a <= b`, which is false as soon as either side is NaN. */
  predicate Leq(a: Num, b: Num) {
    match (a, b)
    case (NaN, _) => false
    case (_, NaN) => false
    case (NegInf, _) => true
    case (_, PosInf) => true
    case (Fin(x), Fin(y)) => x <= y
    case (_, _) => false
  }

  predicate Less(a: Num, b: Num) {
    Leq(a, b) && a != b
  }

  /** `(a + b) / 2`. Infinities of opposite sign cancel to NaN. */
  function Midpoint(a: Num, b: Num): Num {
    match (a, b)
    case (NaN, _) => NaN
    case (_, NaN) => NaN
    case (Fin(x), Fin(y)) => Fin((x + y) / 2.0)
    case (Fin(_), _) => b
    case (_, Fin(_)) => a
    case (_, _) => if a == b then a else NaN
  }

  /** The order of the numbers, told by where they stand: minus infinity, the reals, infinity. */
  predicate AtMost(a: Num, b: Num) {
    && a != NaN && b != NaN
    && (a == NegInf || b == PosInf || (a.Fin? && b.Fin? && a.v <= b.v))
  }

  lemma LeqIsAtMost(a: Num, b: Num)
    ensures Leq(a, b) <==> AtMost(a, b)
  {
  }
}
