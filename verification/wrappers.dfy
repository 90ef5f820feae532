/** Failure-compatible wrappers used across the model. */
module Wrappers {

  /** A value that may be absent: Java's `null`, or an org.json getter that throws. */
  datatype Option<+T> = None | Some(value: T) {
    predicate IsFailure() { None? }

    function PropagateFailure<U>(): Option<U>
      requires None?
    {
      None
    }

    function Extract(): T
      requires Some?
    {
      value
    }
  }

  /** Either a value or the exception an operation raises. */
  datatype Result<+R, +E> = Success(value: R) | Failure(error: E)
}
