/**
 Go's error values and the two result shapes the repository code returns.

 An `Error` is either a plain message (`errors.New`, or an error produced by
 the database driver) or a message prefix wrapped around a cause with
 `fmt.Errorf("<prefix> : %w", cause)`. Wrapping keeps the cause reachable
 through `errors.Unwrap` and `errors.Is`. Errors are compared by value here;
 Go compares the errors on a chain with `==`.
 */
module Outcomes {

  datatype Option<+T> = None | Some(value: T)

  datatype Error =
    | Message(text: string)
    | Wrapped(prefix: string, cause: Error)

  /** A value or the error that replaced it (a Go `(*T, error)` pair with a nil `*T` on error). */
  datatype Result<+T> = Ok(value: T) | Err(error: Error)

  /** `errors.Unwrap`: the cause of a wrapped error, nothing for a plain one. */
  function Unwrap(e: Error): Option<Error>
  {
    match e
    case Message(_) => None
    case Wrapped(_, c) => Some(c)
  }

  /** `errors.Is`: `target` is `e` itself or somewhere on its chain of causes. */
  predicate Is(e: Error, target: Error)
  {
    e == target || (e.Wrapped? && Is(e.cause, target))
  }

  /**
   `errors.Is` follows whole chains: an error that is `mid` is also every
   error that `mid` is, so wrapping an already wrapped error loses nothing.
   */
  lemma {:induction false} IsTransitive(e: Error, mid: Error, target: Error)
    requires Is(e, mid) && Is(mid, target)
    ensures Is(e, target)
    decreases e
  {
    if e != mid {
      IsTransitive(e.cause, mid, target);
    }
  }
}
