/** Option and Result: the two failure-carrying shapes the transcript model needs. */
module Wrappers {

  /** An optional value: None stands for "no match". */
  datatype Option<+T> = None | Some(value: T)

  /** A value or an error: Failure stands for a raised exception. */
  datatype Result<+R, +E> = Success(value: R) | Failure(error: E)
}
