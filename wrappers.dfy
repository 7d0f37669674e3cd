/** Option and Result values shared by every module of the model. */
module Wrappers {

  /** A value that may be absent: an optional field, a search that can miss. */
  datatype Option<T> = None | Some(value: T) {

    /** The carried value, or `default` when there is none. */
    function GetOr(default: T): T {
      if Some? then value else default
    }
  }

  /** The outcome of an operation that either yields a value or fails with an error. */
  datatype Result<T, E> = Success(value: T) | Failure(error: E)
}
