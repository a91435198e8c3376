/** Optional values and failure-carrying results shared by the pipeline modules. */
module Wrappers {

  /** A value that may be missing (pandas NaN / None / NaT at the level of one field). */
  datatype Option<+T> = None | Some(value: T) {
    function GetOr(default: T): T {
      match this
      case Some(v) => v
      case None => default
    }
  }

  /** The outcome of a step that raises instead of returning (a KeyError, a failed cast). */
  datatype Result<+R, +E> = Success(value: R) | Failure(error: E)
}
