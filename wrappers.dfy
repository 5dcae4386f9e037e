/** Option and Result, used wherever the Java code returns null or throws. */
module Wrappers {

  datatype Option<+T> = None | Some(value: T)

  /** `Failure(e)` stands for a thrown exception whose kind is `e`. */
  datatype Result<+T, +E> = Success(value: T) | Failure(error: E) {
    predicate IsFailure() {
      Failure?
    }

    function PropagateFailure<U>(): Result<U, E>
      requires Failure?
    {
      Failure(error)
    }

    function Extract(): T
      requires Success?
    {
      value
    }
  }
}
