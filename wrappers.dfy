/** Optional values and the service layer's two ways of failing: an AppError
    carrying a message and an HTTP status code, and a Fault, i.e. an uncaught
    runtime error (reading a field of a row that does not exist) or an error
    raised by a collaborator that the service lets propagate. */
module Wrappers {

  datatype Option<+T> = None | Some(value: T) {
    function GetOr(default: T): T {
      match this
      case Some(v) => v
      case None => default
    }
  }

  datatype Failure =
    | AppError(message: string, statusCode: int)
    | Fault(reason: string)

  datatype Result<+T> = Ok(value: T) | Err(error: Failure) {
    predicate IsFailure() { Err? }
    function PropagateFailure<U>(): Result<U>
      requires Err?
    {
      Err(error)
    }
    function Extract(): T
      requires Ok?
    {
      value
    }
  }

  /** JavaScript truthiness of an optional string: undefined, null and "" are falsy. */
  predicate PresentText(s: Option<string>) {
    s.Some? && s.value != ""
  }

  /** `s || null` on an optional string. */
  function TextOrNull(s: Option<string>): (r: Option<string>)
    ensures r.Some? <==> PresentText(s)
    ensures r.Some? ==> r == s
  {
    if PresentText(s) then s else None
  }
}
