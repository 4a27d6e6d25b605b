/** Option and Result, the two stock wrappers the model uses for JavaScript's
    `undefined` and for errors the source raises. */
module Wrappers {

  /** `None` stands for JavaScript's `undefined` (or `null`) where the source
      tests for a missing value. */
  datatype Option<+T> = None | Some(value: T) {
    function GetOr(default: T): T {
      match this
      case Some(v) => v
      case None => default
    }
  }

  /** The errors the modelled code can raise at run time. */
  datatype Error =
    | TypeError(property: string)   // a property read on `undefined`

  datatype Result<+R> = Success(value: R) | Failure(error: Error)
}
