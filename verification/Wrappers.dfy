/** Failure-compatible datatypes shared by the other modules. */
module Wrappers {

  datatype Option<+T> = None | Some(value: T)

  /** What an operation returns when Postgres may raise an error in the middle of it. */
  datatype Result<+T> = Success(value: T) | Failure(error: Error) {
    predicate IsFailure() { Failure? }

    function PropagateFailure<U>(): Result<U>
      requires Failure?
    { Failure(error) }

    function Extract(): T
      requires Success?
    { value }
  }

  datatype Error = RelationFull
}
