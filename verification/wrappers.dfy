/** Option and Result, the two failure-carrying shapes the model uses for
    C# nullable references and for exceptions thrown along a call path. */
module Wrappers {

  /** A C# reference that may be null. */
  datatype Option<+T> = None | Some(value: T) {

    /** The value, or `default` when null (the `??` operator). */
    function GetOr(default: T): T {
      match this
      case Some(v) => v
      case None => default
    }
  }

  /** Either a value, or the exception that ended the computation. */
  datatype Result<+T, +E> = Success(value: T) | Failure(error: E)
}
