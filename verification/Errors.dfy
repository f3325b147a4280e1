/** The errors of the resolution flow: pkg/common/errors.go. */
module Errors {
  import opened Lifecycle

  /** Go's error values, as far as the flow tells them apart. */
  datatype GoError =
    | Plain(text: string)
    | Reasoned(reason: string, original: GoError)
    | InvalidResourceKey(key: string, original: GoError)
    | InvalidRequest(key: string, text: string)
    | GettingResource(resolver: string, key: string, original: GoError)
    | UpdatingRequest(key: string, original: GoError)
  {
    function Message(): string {
      match this
      case Plain(text) => text
      case Reasoned(_, original) => original.Message()
      case InvalidResourceKey(key, original) => "invalid resource key " + key + ": " + original.Message()
      case InvalidRequest(key, text) => "invalid resource request " + key + ": " + text
      case GettingResource(resolver, key, original) =>
        "error getting " + resolver + " " + key + ": " + original.Message()
      case UpdatingRequest(key, original) =>
        "error updating resource request " + key + " with data: " + original.Message()
    }
  }

  /** Only an outermost `common.Error` shows its reason; nothing is unwrapped on the way. */
  function ReasonError(e: GoError): (string, GoError) {
    match e
    case Reasoned(reason, original) => (reason, original)
    case _ => (REASON_FAILED, e)
  }

  /** What ends a resolution without a resource. */
  datatype Failure =
    | ParamsRejected(error: GoError)
    | ResolveFailed(resolver: string, error: GoError)
    | ContextEnded(text: string)
    | PatchFailed(error: GoError)

  /** The error the framework hands to `OnError` in each case. */
  function Reported(f: Failure, key: string): GoError {
    match f
    case ParamsRejected(error) => InvalidRequest(key, error.Message())
    case ResolveFailed(resolver, error) => GettingResource(resolver, key, error)
    case ContextEnded(text) => Plain(text)
    case PatchFailed(error) => UpdatingRequest(key, error)
  }

  /** Each error the framework reports ends with the words of what went wrong. */
  lemma CauseEndsMessage(f: Failure, key: string)
    ensures var cause := match f
                         case ParamsRejected(e) => e.Message()
                         case ResolveFailed(_, e) => e.Message()
                         case ContextEnded(text) => text
                         case PatchFailed(e) => e.Message();
            var message := Reported(f, key).Message();
            |cause| <= |message| && message[|message| - |cause|..] == cause
  {
  }

  /**
   Whatever reason a resolver attaches to its error, the request fails with
   the general one: the framework wraps the error before the reason is looked
   for.  In particular no resolver can claim the core controller's time-out.
   */
  lemma ReportedReasonIsGeneral(f: Failure, key: string)
    ensures ReasonError(Reported(f, key)) == (REASON_FAILED, Reported(f, key))
    ensures ReasonError(Reported(f, key)).0 != REASON_TIMED_OUT
  {
    assert |REASON_FAILED| != |REASON_TIMED_OUT|;
  }
}
