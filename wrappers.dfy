/** Optional values, used wherever the source may find nothing (a missing
    key, a failed read, a parse that was discarded), and results that may
    be an error instead (an exception the source throws). */
module Wrappers {

  datatype Option<+T> = None | Some(value: T) {

    function GetOr(default: T): T {
      match this
      case Some(v) => v
      case None => default
    }
  }

  datatype Result<+T> = Success(value: T) | Failure(error: string)
}
