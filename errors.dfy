/**
 * Go's error values, as far as the loader needs them: sentinel errors, errors that wrap a
 * single cause (`fmt.Errorf` with `%w`), and plain messages. Go compares `errors.New` values
 * by identity; here a sentinel is identified by its name, so two sentinels are the same error
 * exactly when their names agree. `Is` follows a single-cause unwrap chain; custom `Is`
 * methods and errors that unwrap to several causes are not modelled.
 */
module Errors {

  datatype Error =
    | Sentinel(name: string)                  // a package-level `var X = errors.New(...)`
    | Wrapped(context: string, cause: Error)  // an error that unwraps to `cause`
    | Message(text: string)                   // an error with no cause

  /** `errors.Is(err, target)`: `err` is `target` or unwraps, step by step, to it. */
  predicate Is(err: Error, target: Error)
  {
    err == target || (err.Wrapped? && Is(err.cause, target))
  }

  /** Wraps `err` in `depth` layers of context. */
  function WrapN(err: Error, context: string, depth: nat): Error
  {
    if depth == 0 then err else Wrapped(context, WrapN(err, context, depth - 1))
  }

  /** However deeply a sentinel is wrapped, `errors.Is` still finds it. */
  lemma {:induction false} IsThroughWrapping(err: Error, target: Error, context: string, depth: nat)
    requires Is(err, target)
    ensures Is(WrapN(err, context, depth), target)
  {
    if depth > 0 {
      IsThroughWrapping(err, target, context, depth - 1);
    }
  }
}
