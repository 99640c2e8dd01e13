// Optional values and typed results, the two shapes the library's Swift code
// uses for "may be absent" (Swift optionals) and "succeeded or failed"
// (Swift's Result type).
module Wrappers {

  datatype Option<+T> = None | Some(value: T) {
    function GetOr(default: T): T {
      match this
      case Some(v) => v
      case None => default
    }
  }

  datatype Result<+R, +E> = Success(value: R) | Failure(error: E)
}
