/** Small failure-carrying datatypes shared by the modules of this model. */
module Common {

  /** A value that may be absent: an unset environment variable, a tracker that assigned no ids. */
  datatype Option<+T> = None | Some(value: T)

  /** The outcome of an operation that either returns a value or raises an error. */
  datatype Result<+T, +E> = Ok(value: T) | Err(error: E)
}
