/** Result shapes shared by the other modules. */
module Wrappers {
  datatype Option<+T> = None | Some(value: T)

  datatype Result<+T, +E> = Success(value: T) | Failure(error: E)

  /** The error kinds of the library's `Result` that the modelled code produces. */
  datatype ErrorType = InvalidArgument | NotFound | TimedOut | Unknown
}
