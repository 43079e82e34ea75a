/** Option and Result, the two failure-carrying shapes the model uses. */
module Wrappers {

  /** A parsed input field: `None` stands for an empty or unparseable text (NaN). */
  datatype Option<+T> = None | Some(value: T)

  /** The outcome of an operation that may be rejected with an error. */
  datatype Result<+R, +E> = Success(value: R) | Failure(error: E)
}
