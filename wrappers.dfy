/** Option and Result, used for nullable columns and for thrown errors. */
module Wrappers {

  /** A nullable value: `None` is SQL/JavaScript null. */
  datatype Option<+T> = None | Some(value: T) {

    /** The value, or `default` when null. */
    function GetOr(default: T): T {
      if Some? then value else default
    }
  }

  /** The outcome of an operation that may throw: `Failure` carries the thrown error. */
  datatype Result<+R, +E> = Success(value: R) | Failure(error: E)
}
