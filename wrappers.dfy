/** Optional values and fallible results, used wherever the Python code returns
    `None` or raises a validation error. */
module Wrappers {

  datatype Option<+T> = None | Some(value: T) {
    function GetOr(default: T): T {
      match this
      case Some(v) => v
      case None => default
    }
  }

  /** `Failure` carries the names of the fields that failed validation. */
  datatype Result<+T> = Success(value: T) | Failure(fields: seq<string>)
}
