/** Values as JavaScript hands them to the cart code, after JSON decoding.
    Strings that may be missing are modelled as `""` (both are falsy), and a
    numeric field is the result of `Number(x)`: either NaN or a finite number in
    the model's integer unit (cents for prices, pieces for quantities). */
module JsValues {

  datatype Option<+T> = None | Some(value: T) {
    function GetOr(default: T): T {
      match this
      case Some(v) => v
      case None => default
    }
  }

  /** The result of `Number(x)` on a decoded JSON field. */
  datatype Numeric = NaN | Num(value: int)

  /** `Number(x) || d`: NaN and zero are falsy, so both give the default. */
  function OrDefault(n: Numeric, d: int): int {
    match n
    case NaN => d
    case Num(v) => if v != 0 then v else d
  }

  /** JavaScript truthiness of a string. */
  predicate Truthy(s: string) {
    s != ""
  }
}
