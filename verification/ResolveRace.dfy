/**
 The race inside the framework's `resolve`: a worker goroutine, a deadline and
 a select over two unbuffered channels (pkg/resolver/framework/reconciler.go).
 As in Protocol, a step that is not enabled changes nothing.
 */
module ResolveRace {
  import opened Common
  import opened Errors
  import opened Protocol

  /** The worker, by what it does next; `Sending*` block until the select receives. */
  datatype Worker =
    | Validating
    | Fetching
    | SendingError(error: Option<GoError>)
    | SendingResource(resource: Resource)
    | Returned

  /** What the select statement led to; `UnknownError` is the return after it. */
  datatype Verdict =
    | OnError(error: GoError)
    | WriteData(resource: Resource)
    | UnknownError

  /**
   `context` is the resolution context's error once it is done.  The other
   fields record what happened: whether the parameters were accepted, the
   `Resolve` calls made, and the verdicts the select delivered.
   */
  datatype Race = Race(key: string, worker: Worker, context: Option<string>,
                       accepted: bool, resolved: seq<Option<Resource>>, verdicts: seq<Verdict>)

  datatype RaceStep =
    | Validated(rejection: Option<GoError>)                // ValidateParams returns
    | ResolveReturns(resolver: string, resource: Option<Resource>, error: GoError)   // Resolve returns
    | Expire(text: string)                                 // deadline or cancellation
    | ReceiveError
    | ReceiveDone
    | ReceiveResource

  function Start(key: string): Race {
    Race(key, Validating, None, false, [], [])
  }

  predicate Selecting(r: Race) { r.verdicts == [] }

  /** `if err != nil { return OnError }`, else fall through to the last return. */
  function IfError(e: Option<GoError>): Verdict {
    match e
    case Some(error) => OnError(error)
    case None => UnknownError
  }

  function Step(r: Race, s: RaceStep): Race {
    match s
    case Validated(rejection) =>
      if !r.worker.Validating? then r
      else if rejection.Some? then
        r.(worker := SendingError(Some(Reported(ParamsRejected(rejection.value), r.key))))
      else r.(worker := Fetching, accepted := true)
    case ResolveReturns(resolver, resource, error) =>
      if !r.worker.Fetching? then r
      else if resource.Some? then r.(worker := SendingResource(resource.value), resolved := r.resolved + [resource])
      else
        r.(worker := SendingError(Some(Reported(ResolveFailed(resolver, error), r.key))),
           resolved := r.resolved + [None])
    case Expire(text) => if r.context.None? then r.(context := Some(text)) else r
    case ReceiveError =>
      if Selecting(r) && r.worker.SendingError? then
        r.(worker := Returned, verdicts := r.verdicts + [IfError(r.worker.error)])
      else r
    case ReceiveDone =>
      if Selecting(r) && r.context.Some? then
        r.(verdicts := r.verdicts + [IfError(Some(Reported(ContextEnded(r.context.value), r.key)))])
      else r
    case ReceiveResource =>
      if Selecting(r) && r.worker.SendingResource? then
        r.(worker := Returned, verdicts := r.verdicts + [WriteData(r.worker.resource)])
      else r
  }

  function Run(r: Race, steps: seq<RaceStep>): Race
    decreases |steps|
  {
    if steps == [] then r else Step(Run(r, steps[..|steps| - 1]), steps[|steps| - 1])
  }

  /** The errors the framework itself can end a resolution with. */
  ghost predicate IsReported(e: GoError, key: string) {
    exists f: Failure :: !f.PatchFailed? && e == Reported(f, key)
  }

  ghost predicate RaceInv(r: Race) {
    && |r.verdicts| <= 1
    && |r.resolved| <= 1
    && (r.resolved != [] ==> r.accepted)
    && (r.worker.Validating? ==> !r.accepted)
    && (r.worker.Fetching? ==> r.accepted)
    && (r.worker.Validating? || r.worker.Fetching? ==> r.resolved == [])
    && (r.worker.SendingError? ==>
          r.worker.error.Some? && IsReported(r.worker.error.value, r.key))
    && (r.worker.SendingResource? ==> r.resolved == [Some(r.worker.resource)])
    && (r.worker.Returned? ==> r.verdicts != [])
    && (forall v | v in r.verdicts :: VerdictOk(r, v))
  }

  ghost predicate VerdictOk(r: Race, v: Verdict) {
    match v
    case OnError(e) => IsReported(e, r.key)
    case WriteData(resource) => r.resolved == [Some(resource)]
    case UnknownError => false
  }

  lemma StepKeepsInv(r: Race, s: RaceStep)
    requires RaceInv(r)
    ensures RaceInv(Step(r, s))
    ensures Step(r, s).key == r.key
  {
    match s
    case Validated(rejection) =>
      if rejection.Some? {
        assert IsReported(Reported(ParamsRejected(rejection.value), r.key), r.key);
      }
    case ResolveReturns(resolver, _, error) =>
      assert IsReported(Reported(ResolveFailed(resolver, error), r.key), r.key);
    case ReceiveDone =>
      if r.context.Some? {
        assert IsReported(Reported(ContextEnded(r.context.value), r.key), r.key);
      }
    case _ =>
  }

  lemma {:induction false} RunKeepsInv(key: string, steps: seq<RaceStep>)
    ensures RaceInv(Run(Start(key), steps))
    ensures Run(Start(key), steps).key == key
    decreases |steps|
  {
    if steps != [] {
      RunKeepsInv(key, steps[..|steps| - 1]);
      StepKeepsInv(Run(Start(key), steps[..|steps| - 1]), steps[|steps| - 1]);
    }
  }

  /**
   In every interleaving of worker, deadline and select: `Resolve` is called at
   most once, and only on accepted parameters; at most one verdict is
   delivered; data is written only if `Resolve` returned it; an error is one
   of the framework's own; and the "unknown error" return is never reached.
   */
  lemma RaceIsSafe(key: string, steps: seq<RaceStep>)
    ensures var r := Run(Start(key), steps);
            && |r.resolved| <= 1 && (r.resolved != [] ==> r.accepted)
            && |r.verdicts| <= 1
            && (forall x | WriteData(x) in r.verdicts :: r.resolved == [Some(x)])
            && (forall e | OnError(e) in r.verdicts :: IsReported(e, key))
            && UnknownError !in r.verdicts
  {
    RunKeepsInv(key, steps);
    var r := Run(Start(key), steps);
    forall x | WriteData(x) in r.verdicts ensures r.resolved == [Some(x)] {
      assert VerdictOk(r, WriteData(x));
    }
    forall e | OnError(e) in r.verdicts ensures IsReported(e, key) {
      assert VerdictOk(r, OnError(e));
    }
  }

  /** A verdict is never replaced: a result that loses to the deadline is never written. */
  lemma {:induction false} VerdictIsFinal(r: Race, more: seq<RaceStep>)
    requires !Selecting(r)
    ensures Run(r, more).verdicts == r.verdicts
    decreases |more|
  {
    if more != [] {
      VerdictIsFinal(r, more[..|more| - 1]);
    }
  }

  /** The deadline alone always leads to a verdict, whatever the worker does. */
  lemma DeadlineDecides(r: Race, text: string)
    ensures !Selecting(Run(r, [Expire(text), ReceiveDone]))
  {
    var steps := [Expire(text), ReceiveDone];
    assert steps[..1] == [Expire(text)] && steps[..1][..0] == [];
    assert Run(r, steps[..1]) == Step(r, Expire(text));
  }

  predicate IsSending(w: Worker) { w.SendingError? || w.SendingResource? }

  lemma {:induction false} LateWorkerStaysBlocked(r: Race, more: seq<RaceStep>)
    requires !Selecting(r) && IsSending(r.worker)
    ensures Run(r, more).worker == r.worker && !Selecting(Run(r, more))
    decreases |more|
  {
    if more != [] {
      LateWorkerStaysBlocked(r, more[..|more| - 1]);
    }
  }

  lemma RunOne(r: Race, steps: seq<RaceStep>)
    requires |steps| == 1
    ensures Run(r, steps) == Step(r, steps[0])
  {
    assert Run(r, steps[..0]) == r;
  }

  /**
   The channels are unbuffered: a worker with something to send can still
   return if and only if the select has not been decided.
   */
  lemma WorkerReturnsIffSelecting(r: Race)
    requires IsSending(r.worker)
    ensures (exists more :: Run(r, more).worker.Returned?) <==> Selecting(r)
  {
    if Selecting(r) {
      var receive := if r.worker.SendingError? then ReceiveError else ReceiveResource;
      var more := [receive];
      RunOne(r, more);
      assert Run(r, more).worker.Returned?;
    } else {
      forall more ensures !Run(r, more).worker.Returned? {
        LateWorkerStaysBlocked(r, more);
      }
    }
  }

  // Which outcome leads to which verdict.

  /** What the worker is about to send, or has had taken from it, after its calls returned. */
  ghost predicate Holds(r: Race, v: Verdict) {
    && (Selecting(r) ==>
          match v
          case WriteData(x) => r.worker == SendingResource(x)
          case OnError(e) => r.worker == SendingError(Some(e))
          case UnknownError => false)
    && (!Selecting(r) ==>
          r.verdicts == [v] || exists text :: r.context == Some(text) && r.verdicts == [OnError(Plain(text))])
  }

  lemma StepHolds(r: Race, v: Verdict, s: RaceStep)
    requires Holds(r, v)
    ensures Holds(Step(r, s), v)
  {
    var r' := Step(r, s);
    if !Selecting(r) {
      assert r'.verdicts == r.verdicts;
    } else if s.ReceiveDone? && r.context.Some? {
      assert r'.context == r.context && r'.verdicts == [OnError(Plain(r.context.value))];
    }
  }

  lemma {:induction false} RunHolds(r: Race, v: Verdict, more: seq<RaceStep>)
    requires Holds(r, v)
    ensures Holds(Run(r, more), v)
    decreases |more|
  {
    if more != [] {
      RunHolds(r, v, more[..|more| - 1]);
      StepHolds(Run(r, more[..|more| - 1]), v, more[|more| - 1]);
    }
  }

  /** The verdict that what a worker's call returned must lead to, unless the context ends first. */
  function Due(key: string, s: RaceStep): Option<Verdict> {
    match s
    case Validated(Some(rejection)) => Some(OnError(InvalidRequest(key, rejection.Message())))
    case ResolveReturns(_, Some(resource), _) => Some(WriteData(resource))
    case ResolveReturns(resolver, None, error) => Some(OnError(GettingResource(resolver, key, error)))
    case _ => None
  }

  /** The worker is waiting for just this call to return. */
  predicate Awaits(r: Race, s: RaceStep) {
    (s.Validated? && r.worker.Validating?) || (s.ResolveReturns? && r.worker.Fetching?)
  }

  /**
   Every call that returns while the select is open decides what the worker
   delivers: a rejection its message, a failed `Resolve` its error, and a
   resource the resource itself.  However the race goes on, the verdict is
   that one or the context's own error.  As long as there is none, the select
   can receive that one and nothing else from the worker.
   */
  lemma ReturnedInTimeIsDelivered(key: string, steps: seq<RaceStep>, s: RaceStep, more: seq<RaceStep>)
    requires Selecting(Run(Start(key), steps)) && Awaits(Run(Start(key), steps), s) && Due(key, s).Some?
    ensures var v, r := Due(key, s).value, Run(Step(Run(Start(key), steps), s), more);
            && (Selecting(r) ==>
                  && Step(r, if v.WriteData? then ReceiveResource else ReceiveError).verdicts == [v]
                  && Step(r, if v.WriteData? then ReceiveError else ReceiveResource) == r)
            && (!Selecting(r) ==>
                  r.verdicts == [v] || exists text :: r.context == Some(text) && r.verdicts == [OnError(Plain(text))])
  {
    RunKeepsInv(key, steps);
    var before := Run(Start(key), steps);
    assert Holds(Step(before, s), Due(key, s).value);
    RunHolds(Step(before, s), Due(key, s).value, more);
  }

  /** While the select is open, the worker holds what `Resolve` returned. */
  predicate KnowsOutcome(r: Race) {
    Selecting(r) && r.resolved != [] ==>
      if r.resolved[0].Some? then r.worker == SendingResource(r.resolved[0].value) else r.worker.SendingError?
  }

  lemma {:induction false} OutcomeIsKnown(key: string, steps: seq<RaceStep>)
    ensures KnowsOutcome(Run(Start(key), steps))
    decreases |steps|
  {
    RunKeepsInv(key, steps);
    if steps != [] {
      RunKeepsInv(key, steps[..|steps| - 1]);
      OutcomeIsKnown(key, steps[..|steps| - 1]);
    }
  }

  /** A resource that `Resolve` returned is what an open select receives from the worker, and never an error. */
  lemma OpenSelectReceivesResource(key: string, steps: seq<RaceStep>, x: Resource)
    ensures var r := Run(Start(key), steps);
            Selecting(r) && r.resolved == [Some(x)] ==>
              Step(r, ReceiveResource).verdicts == [WriteData(x)] && Step(r, ReceiveError) == r
  {
    OutcomeIsKnown(key, steps);
  }

  /** What happened, as a verdict's cause. */
  ghost predicate Caused(key: string, steps: seq<RaceStep>, v: Verdict) {
    match v
    case WriteData(x) => exists n, e :: ResolveReturns(n, Some(x), e) in steps
    case OnError(InvalidRequest(k, text)) =>
      k == key && exists e: GoError :: e.Message() == text && Validated(Some(e)) in steps
    case OnError(GettingResource(n, k, e)) => k == key && ResolveReturns(n, None, e) in steps
    case OnError(Plain(text)) => Expire(text) in steps
    case _ => false
  }

  ghost predicate AllCaused(key: string, steps: seq<RaceStep>, r: Race) {
    && r.key == key
    && (r.worker.SendingResource? ==> Caused(key, steps, WriteData(r.worker.resource)))
    && (r.worker.SendingError? ==> r.worker.error.Some? && Caused(key, steps, OnError(r.worker.error.value)))
    && (r.context.Some? ==> Expire(r.context.value) in steps)
    && (forall v | v in r.verdicts :: Caused(key, steps, v))
  }

  lemma CauseStays(key: string, steps: seq<RaceStep>, s: RaceStep, v: Verdict)
    requires Caused(key, steps, v)
    ensures Caused(key, steps + [s], v)
  {
  }

  lemma StepIsCaused(key: string, steps: seq<RaceStep>, r: Race, s: RaceStep)
    requires AllCaused(key, steps, r)
    ensures AllCaused(key, steps + [s], Step(r, s))
  {
    var r' := Step(r, s);
    assert s in steps + [s];
    forall v | Caused(key, steps, v) ensures Caused(key, steps + [s], v) {
      CauseStays(key, steps, s, v);
    }
    match s
    case ResolveReturns(n, Some(x), e) => assert Caused(key, steps + [s], WriteData(x));
    case Validated(Some(e)) => assert Caused(key, steps + [s], OnError(InvalidRequest(key, e.Message())));
    case _ =>
  }

  /**
   No verdict without its cause: data was returned by `Resolve`; an invalid
   request was rejected with that message; a resource that could not be got
   failed with that error; and any other error is the text with which the
   context ended.
   */
  lemma {:induction false} VerdictHasItsCause(key: string, steps: seq<RaceStep>)
    ensures AllCaused(key, steps, Run(Start(key), steps))
    decreases |steps|
  {
    if steps != [] {
      var front, last := steps[..|steps| - 1], steps[|steps| - 1];
      VerdictHasItsCause(key, front);
      StepIsCaused(key, front, Run(Start(key), front), last);
      assert steps == front + [last];
    }
  }

  /** The plain course of a resolution: accepted, resolved, received. */
  lemma AcceptedAndResolvedIsWritten(key: string, resolver: string, x: Resource, e: GoError)
    ensures Run(Start(key), [Validated(None), ResolveReturns(resolver, Some(x), e), ReceiveResource]).verdicts
            == [WriteData(x)]
  {
    var steps := [Validated(None), ResolveReturns(resolver, Some(x), e), ReceiveResource];
    assert steps[..2][..1][..0] == [] && steps[..2][..1] == [Validated(None)];
    assert Run(Start(key), steps[..2][..1]) == Step(Start(key), Validated(None));
    assert Run(Start(key), steps[..2]) == Step(Run(Start(key), steps[..2][..1]), steps[1]);
  }
}
