/** Failure-compatible wrappers shared by every module of the dashboard model.
    - Option<T>: a value that may be absent (JavaScript `null`/`undefined`).
    - Outcome<T>: the settled result of a promise supplied as an input to the model,
      either fulfilled with a value or rejected. */
module Wrappers {

  datatype Option<+T> = None | Some(value: T) {

    /** Returns the value, or `default` when absent (JavaScript `x ?? default`). */
    function GetOr(default: T): T {
      match this
      case Some(v) => v
      case None => default
    }
  }

  /** The settled state of one awaited producer: fulfilled with a value, or rejected. */
  datatype Outcome<+T> = Success(value: T) | Failure {

    function ToOption(): Option<T> {
      match this
      case Success(v) => Some(v)
      case Failure => None
    }
  }
}
