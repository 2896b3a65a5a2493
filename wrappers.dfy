/** Optional values (a cell left empty by a left merge) and results with an
    error (a missing column that makes the source raise). */
module Wrappers {

  datatype Option<+T> = None | Some(value: T) {
    function GetOr(default: T): T {
      match this
      case Some(v) => v
      case None => default
    }
  }

  datatype Result<+T> = Success(value: T) | Failure(error: string)
}
