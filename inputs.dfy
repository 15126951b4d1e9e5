/** Parsed field values and the `parseFloat(text) || fallback` coercion used for every
    numeric field of the calculator. A field whose text does not parse is `None`
    (JavaScript's NaN); parsing itself is not modelled. */
module Inputs {

  datatype Option<T> = None | Some(value: T)

  /** `parseFloat(text) || fallback`: both NaN and zero are falsy in JavaScript, so either
      gives the fallback; any other parsed number is kept as it is (negatives included). */
  function OrDefault(x: Option<real>, fallback: real): (r: real)
    ensures r == fallback || x == Some(r)
    ensures x.Some? && x.value != 0.0 ==> r == x.value
    ensures r == 0.0 ==> fallback == 0.0
  {
    match x
    case None => fallback
    case Some(v) => if v == 0.0 then fallback else v
  }
}
