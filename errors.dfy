/** Error values of the install engine and the `errors.Is` test that sees
    through wrapping (errorx.Errorf wraps with `%w`). */
module Errors {

  datatype Option<T> = None | Some(value: T)

  datatype Error =
    | NoopStrategy                    // strategy.ErrNoopStrategy: "nothing to do"
    | UnknownStrategy                 // strategy.ErrUnknownStrategy
    | NoLock                          // strategy.ErrNoLock
    | GitFailed(command: string)      // a git command reported failure
    | ScriptFailed(script: string)    // a lifecycle script or executor failed
    | FsFailed(reason: string)        // a filesystem operation failed
    | Wrapped(context: string, inner: Error)  // errorx.Errorf(inner, context)

  /** The innermost error under any number of wrappings. */
  function Root(e: Error): Error
  {
    if e.Wrapped? then Root(e.inner) else e
  }

  /** `errors.Is(e, target)`: e or one of the errors it wraps equals target. */
  predicate Is(e: Error, target: Error)
  {
    e == target || (e.Wrapped? && Is(e.inner, target))
  }

  /** For a sentinel (a target that is not itself a wrapping), `errors.Is`
      holds exactly when the innermost error is that sentinel. */
  lemma {:induction false} IsSentinel(e: Error, target: Error)
    requires !target.Wrapped?
    ensures Is(e, target) <==> Root(e) == target
  {
    if e.Wrapped? {
      IsSentinel(e.inner, target);
    }
  }
}
