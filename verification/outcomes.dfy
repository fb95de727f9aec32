/** Option and Result: a possibly-absent value (Java's null) and an operation that
    either succeeds or fails with an error (Java's thrown exception). */
module Outcomes {

  datatype Option<+T> = None | Some(value: T)

  datatype Result<+T, +E> = Ok(value: T) | Err(error: E)
}
