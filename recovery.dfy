/** The fail-safe response the dispatcher writes when a handler panics
    (service.go): cancellation of the request's context is not an error and
    is marked with 418 and no body; any other panic becomes a 500 carrying
    an internal error, with the goroutine's stack when the service is
    configured to expose it. */
module Recovery {
  import opened Http
  import opened Logging

  /** At most `size` leading characters of `stack`. */
  function Truncate(stack: string, size: nat): (t: string)
    ensures |t| <= |stack| && t == stack[..|t|]
    ensures |t| == if |stack| > size then size else |stack|
  {
    if |stack| > size then stack[..size] else stack
  }

  /** The status and body written for a recovered panic. */
  function Recovered(p: Panic, stacks: bool, stackSize: nat, stack: string): (r: (int, Body))
    ensures p.Canceled? <==> r.0 == StatusTeapot
    ensures p.Canceled? ==> r.1 == NoBody
    ensures p.Failure? ==>
      && r.0 == StatusInternalServerError
      && r.1.ErrorBody? && r.1.error.code == EcodeInternal && r.1.error.arg == PanicArg(p)
      && |r.1.error.stack| <= |stack| && r.1.error.stack == stack[..|r.1.error.stack|]
      && (!stacks ==> r.1.error.stack == "")
      && (stacks ==> |r.1.error.stack| == if |stack| > stackSize then stackSize else |stack|)
  {
    match p
    case Canceled => (StatusTeapot, NoBody)
    case Failure(_) =>
      var s := if stacks then Truncate(stack, stackSize) else "";
      (StatusInternalServerError, ErrorBody(ApiError(EcodeInternal, PanicArg(p), s)))
  }

  /** A cancelled request is logged at info, any other panic at error. */
  lemma RecoveredSeverity(p: Panic, stacks: bool, stackSize: nat, stack: string)
    ensures Severity(Recovered(p, stacks, stackSize, stack).0) == if p.Canceled? then InfoLevel else ErrorLevel
  {
  }

  /** The whole stack is exposed when it fits in `stackSize`; a longer one is
      cut to exactly `stackSize` characters. */
  lemma StackExposure(p: Panic, stackSize: nat, stack: string)
    requires p.Failure?
    ensures |stack| <= stackSize ==> Recovered(p, true, stackSize, stack).1.error.stack == stack
    ensures |stack| > stackSize ==> Recovered(p, true, stackSize, stack).1.error.stack == stack[..stackSize]
  {
  }
}
