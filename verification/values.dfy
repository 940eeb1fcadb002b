/** Provider JSON values as the Ruby code converts them, and the exceptions
    those conversions raise. */
module Values {
  import opened Wrappers

  /** A Ruby exception: its class name and message. */
  datatype Exception = Exception(className: string, message: string)

  /** The text `"#{e.class}: #{e.message}"` stored in `sync_error`. */
  function Describe(e: Exception): (r: string)
    ensures |r| == |e.className| + 2 + |e.message|
    ensures r[..|e.className|] == e.className && r[|e.className| + 2..] == e.message
  {
    e.className + ": " + e.message
  }

  /** The `NoMethodError` raised by calling `to_f` on a JSON boolean, array or object. */
  const NoToF := Exception("NoMethodError", "undefined method 'to_f'")

  /** A JSON field that the code reads as a number.
      `NumericString` carries the value `String#to_f` gives for it (0.0 when no
      numeric prefix); `Unconvertible` is a boolean, array or object, which has no `to_f`. */
  datatype Scalar = Null | Number(n: real) | NumericString(asFloat: real) | Unconvertible

  /** `v.to_f`, where `nil.to_f` is 0.0; also `v&.to_f || 0.0`, which agrees with it. */
  function ToF(v: Scalar): (r: Result<real, Exception>)
    ensures r.Err? <==> v.Unconvertible?
    ensures v.Null? ==> r == Ok(0.0)
    ensures v.Number? ==> r == Ok(v.n)
    ensures v.NumericString? ==> r == Ok(v.asFloat)
  {
    match v
    case Null => Ok(0.0)
    case Number(n) => Ok(n)
    case NumericString(f) => Ok(f)
    case Unconvertible => Err(NoToF)
  }

  /** `v&.to_f`: nil stays nil. */
  function SafeToF(v: Scalar): (r: Result<Option<real>, Exception>)
    ensures r.Err? <==> v.Unconvertible?
    ensures r == Ok(None) <==> v.Null?
    ensures r.Ok? && r.value.Some? ==> ToF(v) == Ok(r.value.value)
  {
    match v
    case Null => Ok(None)
    case Number(n) => Ok(Some(n))
    case NumericString(f) => Ok(Some(f))
    case Unconvertible => Err(NoToF)
  }
}
