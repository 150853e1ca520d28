/** Shared vocabulary of the model: optional values, the error taxonomy the
    controllers and services raise, and the abstract clock. */
module Common {

  /** A nullable Java reference: `None` is `null`. */
  datatype Option<+T> = None | Some(value: T) {
    function GetOr(default: T): T
    {
      match this
      case Some(v) => v
      case None => default
    }
  }

  /** The failures of the request layer, named after the exception raised.
      NotFound is the NotFoundException; BadRequest, Unauthorized, Forbidden and
      Conflict are ResponseStatusExceptions carrying 400, 401, 403 and 409;
      IllegalState and IllegalArgument are the Java exceptions of those names,
      and Internal is every other failure (a refused write, a failed call, a
      null dereference). Which status reaches the client is decided by the
      exception handlers, which are not part of this model. */
  datatype Error =
    | NotFound
    | BadRequest
    | Unauthorized
    | Forbidden
    | Conflict
    | IllegalState
    | IllegalArgument
    | Internal

  datatype Result<+T> = Ok(value: T) | Err(error: Error) {
    predicate IsFailure() { Err? }
    function PropagateFailure<U>(): Result<U>
      requires Err?
    {
      Err(error)
    }
    function Extract(): T
      requires Ok?
    {
      value
    }
  }

  /** `(int) d` / `Double.intValue()`: truncation toward zero. */
  function Truncate(r: real): (i: int)
    ensures r >= 0.0 ==> 0.0 <= i as real <= r < i as real + 1.0
    ensures r < 0.0 ==> i as real - 1.0 < r <= i as real <= 0.0
  {
    if r >= 0.0 then r.Floor else -((-r).Floor)
  }

  /** `Math.round(d)`: the nearest integer, halves rounded up. */
  function Round(r: real): (i: int)
    ensures i as real - 0.5 <= r < i as real + 0.5
  {
    (r + 0.5).Floor
  }

  /** `LocalDateTime`, abstracted as an instant on an integer time line. The
      clock (`LocalDateTime.now()`) is always a parameter. */
  type Time = int
}
