/** Option and Result, used for the source's `undefined` capture groups and
    for the exception the constructor throws on a failed match. */
module Wrappers {

  /** A value that may be absent (`undefined` in the source). */
  datatype Option<T> = None | Some(value: T)

  /** Either a value or an error message. */
  datatype Result<T, E> = Success(value: T) | Failure(error: E)
}
