/** Shared value types of the parasite-drag model. */
module Values {

  datatype Option<T> = None | Some(value: T)

  /** A double-precision quantity that may be not-a-number.
      Only the finite/NaN distinction the drag build-up tests with `isnan`
      is kept; the finite part is an exact real. */
  datatype Value = Num(x: real) | NaN

  /** IEEE multiplication restricted to the two cases kept: any NaN factor
      makes the product NaN. */
  function Times(a: Value, b: Value): (r: Value)
    ensures r.NaN? <==> a.NaN? || b.NaN?
    ensures r.Num? ==> r.x == a.x * b.x
  {
    match (a, b)
    case (Num(p), Num(q)) => Num(p * q)
    case _ => NaN
  }
}
