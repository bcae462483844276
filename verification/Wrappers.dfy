/** Optional values, failure-compatible results and bytes, shared by the other modules. */
module Wrappers {
  /** A value that may be absent, as the source's `Option`. */
  datatype Option<+T> = None | Some(value: T)

  /** A success value or an error, as the source's `Result`. */
  datatype Result<+T, +E> = Success(value: T) | Failure(error: E) {
    predicate IsFailure() {
      Failure?
    }

    function PropagateFailure<U>(): Result<U, E>
      requires Failure?
    {
      Failure(error)
    }

    function Extract(): T
      requires Success?
    {
      value
    }
  }

  type Byte = b: int | 0 <= b < 256
}
