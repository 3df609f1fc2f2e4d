/** Failure-carrying return values: the draw from an empty shoe and the
    rejected configuration are values, not exceptions. */
module Results {

  /** A value that may be absent, as `Array.prototype.pop` on an empty array gives `undefined`. */
  datatype Option<+T> = None | Some(value: T)

  /** Either a value or the error that replaced it. */
  datatype Result<+T, +E> = Ok(value: T) | Err(error: E)
}
