/** Option and Result values, and the failures the services raise.
    An HTTP error thrown with SvelteKit's `error(status, message)`, a redirect thrown with
    `redirect(status, location)` and a plain `throw new Error(...)` are the three kinds. */
module Wrappers {

  datatype Option<+T> = None | Some(value: T) {
    function GetOr(default: T): T {
      match this
      case Some(v) => v
      case None => default
    }
  }

  datatype Failure =
    | HttpError(status: int, message: string)
    | Redirect(status: int, location: string)
    | Internal(message: string)

  datatype Result<+T> = Ok(value: T) | Err(failure: Failure) {
    predicate IsFailure() { Err? }

    function PropagateFailure<U>(): Result<U>
      requires Err?
    {
      Err(failure)
    }

    function Extract(): T
      requires Ok?
    {
      value
    }
  }

}
