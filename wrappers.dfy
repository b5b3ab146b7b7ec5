/** Option and Result, used for JavaScript's null-or-value and for error returns. */
module Wrappers {

  datatype Option<+T> = None | Some(value: T)

  datatype Result<+T, +E> = Success(value: T) | Failure(error: E)

  /** An HTTP error answer: the status code and the `error` message of the JSON body. */
  datatype HttpError = HttpError(status: int, message: string)
}
