/** Optional values and typed failures shared by every module of the model. */
module Wrappers {

  /** A value that may be absent: JavaScript's `undefined` / `null`. */
  datatype Option<+T> = None | Some(value: T) {

    /** The value, or `default` when absent (JavaScript's `??`). */
    function GetOr(default: T): T {
      match this
      case Some(v) => v
      case None => default
    }
  }

  /** The outcome of an operation that either returns a value or throws. */
  datatype Result<+R, +E> = Ok(value: R) | Err(error: E) {

    predicate IsFailure() {
      Err?
    }

    function PropagateFailure<U>(): Result<U, E>
      requires Err?
    {
      Err(error)
    }

    function Extract(): R
      requires Ok?
    {
      value
    }
  }
}
