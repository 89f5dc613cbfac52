/** Failure-compatible wrappers: `Option` stands for a Java `Optional` or a
    possibly-null reference, `Result` for a value or a thrown exception. */
module Wrappers {

  datatype Option<+T> = None | Some(value: T)

  datatype Result<+T, +E> = Ok(value: T) | Err(error: E)
}
