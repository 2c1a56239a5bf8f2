/**
 * The doubles held in the plugin's joint buffers. The plugin only ever tests a
 * value for NaN, negates it, copies it or sets it to zero, so a value is either
 * NaN or an ordinary number.
 */
module Values {
  datatype Value = NaN | Num(x: real)

  /** The value `0` that on_activate writes into a joint's buffers. */
  const Zero: Value := Num(0.0)

  /** `std::isnan`. */
  predicate IsNaN(v: Value) {
    v.NaN?
  }

  /** Unary minus on a double: NaN stays NaN, a number changes sign. */
  function Neg(v: Value): (r: Value)
    ensures IsNaN(r) <==> IsNaN(v)
    ensures r.Num? ==> r.x + v.x == 0.0
  {
    match v
    case NaN => NaN
    case Num(x) => Num(-x)
  }

  /** Negating twice gives back the original value. */
  lemma NegInvolutive(v: Value)
    ensures Neg(Neg(v)) == v
  {
  }
}
