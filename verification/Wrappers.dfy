/** Failure-compatible result types shared by all modules. */
module Wrappers {

  datatype Option<+T> = None | Some(value: T)

  /** A value, or the error that a Rust `Err`, a Rust panic or a Solidity revert carries. */
  datatype Result<+T, +E> = Success(value: T) | Failure(error: E) {
    predicate IsFailure() {
      Failure?
    }

    function PropagateFailure<U>(): (r: Result<U, E>)
      requires Failure?
    {
      Failure(error)
    }

    function Extract(): T
      requires Success?
    {
      value
    }
  }

  /** A check that carries no value: a Solidity `require`, or a Rust `assert!`. */
  datatype Outcome<+E> = Pass | Fail(error: E) {
    predicate IsFailure() {
      Fail?
    }

    function PropagateFailure<U>(): (r: Result<U, E>)
      requires Fail?
    {
      Failure(error)
    }
  }

  function Need<E>(condition: bool, error: E): (r: Outcome<E>)
  {
    if condition then Pass else Fail(error)
  }
}
