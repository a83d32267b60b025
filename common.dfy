/** Option and Result, the two wrappers the rest of the model returns. */
module Common {

  /** A value that may be missing: `undefined` / `null` / an absent row in the source. */
  datatype Option<+T> = None | Some(value: T)

  /** The outcome of an operation that either returns a value or throws. */
  datatype Result<+T, +E> = Ok(value: T) | Err(error: E)
}
