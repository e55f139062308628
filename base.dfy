/** Small value types shared by every module of the model. */
module Base {

  /** A value that may be missing (an `end()` iterator, a residual that could not be computed). */
  datatype Option<T> = None | Some(value: T)

  /** The outcome of an operation that the source can abort with an exception. */
  datatype Result<T, E> = Ok(value: T) | Err(error: E)

  /** `fabs` on the model's reals. */
  function Abs(x: real): (r: real)
    ensures r >= 0.0
    ensures r == x || r == -x
  {
    if x < 0.0 then -x else x
  }
}
