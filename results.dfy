/** Option and Result: the model's stand-ins for Python's None and for raised exceptions. */
module Results {

  datatype Option<+T> = None | Some(value: T)

  /** An operation that either produced a value or stopped with an error (a raised exception or an error dialog). */
  datatype Result<+T, +E> = Ok(value: T) | Err(error: E)
}
