/** Values for absent fields and for errors the scripts throw. */
module Results {

  /** An optional value: a field that may be missing from a record. */
  datatype Option<+T> = None | Some(value: T)

  /** The outcome of an operation that may throw: a value, or the error it throws. */
  datatype Result<+T, +E> = Ok(value: T) | Err(error: E)
}
