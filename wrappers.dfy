/** Result types shared by the validators, the sanitizer and the resolvers. */
module Wrappers {

  /** A resolved value, or the absence of one (the source returns `null`). */
  datatype Option<+T> = None | Some(value: T)

  /** A value, or the error the source would throw or return instead. */
  datatype Result<+R, +E> = Success(value: R) | Failure(error: E)
}
