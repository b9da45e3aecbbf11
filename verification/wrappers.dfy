/** Option and Result, the two failure-carrying datatypes the model uses. */
module Wrappers {

  /** A value that may be absent: a JSON null, a missing key or an unparsable field. */
  datatype Option<+T> = None | Some(value: T)

  /** The outcome of a database operation: a value, or the error that rolled it back. */
  datatype Result<+T, +E> = Ok(value: T) | Err(error: E)
}
