/**
 * Python numbers as the backend receives them. Coordinates and scale factors are
 * modelled with `real`; where the source tests `math.isfinite` the input is a `Float`,
 * which may also be NaN or an infinity.
 */
module Numbers {

  /** A Python float: a finite value, NaN, or one of the two infinities. */
  datatype Float = Finite(value: real) | NaN | PosInf | NegInf

  /** A value handed to a check of the form `isinstance(v, (int, float))`. */
  datatype FactorArg = NotANumber | Number(number: Float)

  /** `v >= lo` under IEEE comparison: false for NaN, true for +inf, false for -inf. */
  predicate AtLeast(v: Float, lo: real)
  {
    match v
    case Finite(x) => lo <= x
    case NaN => false
    case PosInf => true
    case NegInf => false
  }

  /** `v <= hi` under IEEE comparison: false for NaN, false for +inf, true for -inf. */
  predicate AtMost(v: Float, hi: real)
  {
    match v
    case Finite(x) => x <= hi
    case NaN => false
    case PosInf => false
    case NegInf => true
  }

  /** Python's chained comparison `lo <= v <= hi`. */
  predicate Within(v: Float, lo: real, hi: real)
  {
    AtLeast(v, lo) && AtMost(v, hi)
  }

  /** `v <= 0` under IEEE comparison. */
  predicate AtMostZero(v: Float)
  {
    AtMost(v, 0.0)
  }

  /** A closed range with finite bounds admits only finite values: NaN and both infinities fail it. */
  lemma WithinIsFiniteAndBounded(v: Float, lo: real, hi: real)
    ensures Within(v, lo, hi) <==> v.Finite? && lo <= v.value <= hi
  {
  }
}
