/** Small failure-carrying datatypes shared by the other modules. */
module Results {

  /** A value that may be absent, used for parsers that can reject their input. */
  datatype Option<+T> = None | Some(value: T)

  /** The outcome of an operation that raises an exception in `proxy.py`. */
  datatype Result<+T, +E> = Ok(value: T) | Err(error: E)
}
