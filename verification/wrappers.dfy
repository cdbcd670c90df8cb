/** Optional values and results with an error, as used by every module of the model. */
module Wrappers {

  /** A value that may be absent: a JSON field that was not sent, or a nullable column. */
  datatype Option<+T> = None | Some(value: T) {

    /** The value, or `default` when absent. */
    function GetOr(default: T): T {
      match this
      case Some(v) => v
      case None => default
    }
  }

  /** How a request handler fails: HTTP 404, or any error the handler turns into HTTP 500. */
  datatype Error = NotFound | Failed

  /** The outcome of a request handler. */
  datatype Result<+R> = Success(value: R) | Failure(error: Error)
}
