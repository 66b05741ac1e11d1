/** Option and Result datatypes shared by the other modules. */
module Wrappers {

  /** A Java reference that may be null, or a query parameter that may be absent. */
  datatype Option<+T> = None | Some(value: T)

  /** A value, or the exception the Java code would throw instead of returning it. */
  datatype Result<+T, +E> = Ok(value: T) | Err(error: E)
}
