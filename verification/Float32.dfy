/**
 * An `f32` is a real number or one of the three non-finite values. Rounding is
 * not modelled; comparisons follow IEEE 754 section 5.11, so every comparison
 * with NaN is false.
 */
module Float32 {
  datatype F32 = Finite(r: real) | NaN | PosInf | NegInf

  predicate Lt(a: F32, b: F32) {
    match (a, b)
    case (NaN, _) => false
    case (_, NaN) => false
    case (PosInf, _) => false
    case (_, NegInf) => false
    case (NegInf, _) => true
    case (_, PosInf) => true
    case (Finite(x), Finite(y)) => x < y
  }

  predicate Gt(a: F32, b: F32) {
    Lt(b, a)
  }

  predicate Ge(a: F32, b: F32) {
    !a.NaN? && !b.NaN? && !Lt(a, b)
  }
}
