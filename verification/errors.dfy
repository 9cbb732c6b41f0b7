/**
  Error values as the tunnel passes them around: the sentinels the code tests
  for with `errors.Is`, opaque failures from the transport and the operating
  system, and the `[label] file:line: ...` wrapping that `er` puts around an
  error before it is reported.
 */
module Errors {

  datatype Option<+T> = None | Some(value: T)

  datatype Result<+T> = Ok(value: T) | Err(error: Error)

  /** An error value. `Wrapped` is what `er` produces: it keeps the wrapped
      error reachable through `%w`, so `errors.Is` still sees it. */
  datatype Error =
    | ContextCanceled                       // context.Canceled
    | Eof                                   // io.EOF
    | Failure(text: string)                 // any other error, by its message
    | Wrapped(tag: string, inner: Error)    // er(ctx, inner), tag = label(ctx)

  /** Go's `errors.Is(err, target)` for a sentinel `target`: `err` is the
      target or unwraps to it. */
  predicate Is(err: Error, target: Error)
  {
    err == target || (err.Wrapped? && Is(err.inner, target))
  }

  /** The innermost error of a wrapping chain: the one `er` was first given. */
  function Root(err: Error): (r: Error)
    ensures !r.Wrapped?
    ensures Is(err, r)
  {
    if err.Wrapped? then Root(err.inner) else err
  }

  /** Wrapping never hides a sentinel: `errors.Is` looks through any number
      of `er` layers, and only through them. */
  lemma {:induction false} IsSeesThroughWrapping(err: Error, target: Error)
    requires !target.Wrapped?
    ensures Is(err, target) <==> Root(err) == target
  {
    if err.Wrapped? {
      IsSeesThroughWrapping(err.inner, target);
    }
  }
}
