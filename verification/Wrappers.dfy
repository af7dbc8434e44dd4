/** Result types shared by the models. */
module Wrappers {

  datatype Option<+T> = None | Some(value: T) {
    function GetOr(default: T): T {
      match this
      case Some(v) => v
      case None => default
    }
  }

  datatype Result<+T> = Success(value: T) | Failure

  /** What a call to a remote server gives back: an answer, an error the caller may
      handle, or the end of the process in the middle of the call. */
  datatype Reply<+T> = Answer(value: T) | Error | Crash

  /** Any element of a set that has one. */
  method PickAny<T(==)>(s: set<T>) returns (x: T)
    requires s != {}
    ensures x in s
  {
    x :| x in s;
  }
}
