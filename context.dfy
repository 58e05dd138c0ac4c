/** The part of Go's `context` package the lab02 code relies on: the error `ctx.Err()`
    reports once a context is done. A context that is not done reports `nil` (`None`). */
module GoContext {
  import opened Wrappers

  /** `context.Canceled` ("context canceled") after `cancel()`, and
      `context.DeadlineExceeded` ("context deadline exceeded") after the deadline. */
  datatype ContextError = Canceled | DeadlineExceeded

  /** The context's error after it ends for `cause`: a context that is already done keeps
      the error it first reported. */
  function Ended(err: Option<ContextError>, cause: ContextError): (r: Option<ContextError>)
    ensures r.Some?
    ensures err.Some? ==> r == err
    ensures err.None? ==> r == Some(cause)
  {
    if err.Some? then err else Some(cause)
  }
}
