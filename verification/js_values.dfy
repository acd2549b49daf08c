/**
 * The few pieces of JavaScript value semantics the model needs: `null` and
 * `undefined` as an absent value, and the double-precision comparisons and
 * addition the path finder's cost computation relies on, including
 * `Infinity` and `NaN`.
 */
module JsValues {

  /** An absent value (`null`, or an array read past its end) or a present one. */
  datatype Option<+T> = None | Some(value: T)

  /**
   * A double as far as the cost computation can produce one: a finite value,
   * `Infinity`, or `NaN`. Finite values are modelled by unbounded reals.
   */
  datatype Num = Finite(r: real) | PosInf | NaN

  /** `x < y` on doubles: every comparison that involves NaN is false. */
  predicate Less(x: Num, y: Num)
  {
    match (x, y)
    case (Finite(a), Finite(b)) => a < b
    case (Finite(_), PosInf) => true
    case _ => false
  }

  /** `x > y` on doubles. */
  predicate Greater(x: Num, y: Num)
  {
    Less(y, x)
  }

  /** `x + y` on doubles: NaN absorbs everything, Infinity absorbs finite values. */
  function Add(x: Num, y: Num): Num
  {
    match (x, y)
    case (Finite(a), Finite(b)) => Finite(a + b)
    case (NaN, _) => NaN
    case (_, NaN) => NaN
    case _ => PosInf
  }

  /** No double is strictly below itself. */
  lemma LessIrreflexive(x: Num)
    ensures !Less(x, x)
  {
  }

  /**
   * A running minimum stays a lower bound: if `x` was not below the old
   * minimum `m` and the new minimum `c` is below `m`, then `x` is not below `c`.
   */
  lemma NotLessAcrossNewMinimum(x: Num, m: Num, c: Num)
    requires !Less(x, m) && Less(c, m)
    ensures !Less(x, c)
  {
  }
}
