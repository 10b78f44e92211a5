/** Failure-carrying values shared by the other modules: the model writes the
    exceptions of the reverse router as explicit results. */
module Wrappers {

  /** A value that may be absent (a Kotlin nullable). */
  datatype Option<+T> = None | Some(value: T)

  /** Either a value or the error the source would have thrown. */
  datatype Result<+T, +E> = Success(value: T) | Failure(error: E)

  /** An operation that returns nothing, or the error it would have thrown. */
  datatype Outcome<+E> = Pass | Fail(error: E)
}
