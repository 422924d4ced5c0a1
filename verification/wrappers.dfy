/** Optional values and failure-carrying results, usable with `:-`. */
module Wrappers {

  /** The model of `std::optional`. */
  datatype Option<+T> = None | Some(value: T)

  /** Either a value or an error; the error side replaces `exit(EXIT_FAILURE)`. */
  datatype Result<+T, +E> = Success(value: T) | Failure(error: E) {

    predicate IsFailure() {
      Failure?
    }

    function PropagateFailure<U>(): Result<U, E>
      requires Failure?
    {
      Failure(error)
    }

    function Extract(): T
      requires Success?
    {
      value
    }
  }
}
