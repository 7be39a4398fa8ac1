/** Option and Result: a missing cell and a step that can raise. */
module Wrappers {

  /** A table cell that may be missing (pandas NaN / NaT). */
  datatype Option<+T> = None | Some(value: T)

  /** The outcome of a step that either yields a value or raises an error. */
  datatype Result<+T, +E> = Success(value: T) | Failure(error: E)
}
