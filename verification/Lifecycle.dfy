/**
 The status of a ResolutionRequest and the core controller's pass over it:
 pkg/apis/resolution/v1alpha1/resolution_request_lifecycle.go,
 pkg/reconciler/resolutionrequest/resolutionrequest.go and the knative
 processing around them.  Times and durations are in nanoseconds.
 */
module Lifecycle {
  import opened Common

  const SECOND: int := 1_000_000_000
  const MINUTE: int := 60 * SECOND

  const REASON_IN_PROGRESS := "ResolutionInProgress"
  const REASON_FAILED := "ResolutionFailed"
  const REASON_TIMED_OUT := "ResolutionTimedOut"
  const REASON_GENERATION_BUMP := "NewObservedGenFailure"

  const MESSAGE_WAITING := "waiting for resolver"
  const MESSAGE_TIMED_OUT := "resolution took longer than global timeout of 1m0s"
  const MESSAGE_GENERATION_BUMP := "unsuccessfully observed a new generation"

  /** A request's spec is never edited, so its generation keeps its first value. */
  const GENERATION: nat := 1

  /** The Succeeded condition; `Absent` is Go's nil condition. */
  datatype Condition =
    | Absent
    | Unknown(reason: string, message: string)
    | Succeeded
    | Failed(reason: string, message: string)

  /**
   The transition time is not part of the model: it is a VolatileTime, which
   the semantic equality deciding on writes ignores.  Absent and empty
   annotations are one value, as they are in stored JSON.
   */
  datatype Status = Status(condition: Condition, data: string, annotations: map<string, string>,
                           observedGeneration: nat)

  const EMPTY_STATUS := Status(Absent, "", map[], 0)

  predicate IsDone(s: Status) {
    s.condition.Succeeded? || s.condition.Failed?
  }

  predicate Observed(s: Status) {
    s.observedGeneration == GENERATION
  }

  /** The resolver's patch applied to a status, under section 2 of RFC 7396. */
  function Merge(stored: map<string, string>, patch: Option<map<string, string>>): map<string, string> {
    match patch
    case None => map[]
    case Some(changes) => stored + changes
  }

  // The value the core controller's pass computes, step by step.

  function PreProcess(s: Status): Status {
    if !Observed(s) then s.(condition := Unknown(REASON_GENERATION_BUMP, MESSAGE_GENERATION_BUMP))
    else if s.condition.Absent? then s.(condition := Unknown("", ""))
    else s
  }

  function Decide(s: Status, age: int): Condition {
    if s.data != "" then Succeeded
    else if age > MINUTE then Failed(REASON_TIMED_OUT, MESSAGE_TIMED_OUT)
    else Unknown(REASON_IN_PROGRESS, MESSAGE_WAITING)
  }

  function Reconciled(s: Status, age: int): Status {
    if IsDone(s) then s else s.(condition := Decide(s, age))
  }

  /** What the core controller wants stored, given a snapshot and the request's age. */
  function Desired(s: Status, age: int): Status {
    Reconciled(PreProcess(s), age).(observedGeneration := GENERATION)
  }

  /** A settled snapshot, already observed, is wanted as it is; any other is decided afresh. */
  lemma DesiredIsDecided(s: Status, age: int)
    ensures IsDone(s) && Observed(s) ==> Desired(s, age) == s
    ensures !(IsDone(s) && Observed(s)) ==>
              Desired(s, age) == s.(condition := Decide(s, age), observedGeneration := GENERATION)
  {
  }

  /** The same in full: the four cases, with every reason, message and limit as stored. */
  lemma DesiredInFull(s: Status, age: int)
    ensures Desired(s, age) ==
            if s.observedGeneration == 1 && (s.condition.Succeeded? || s.condition.Failed?) then s
            else if |s.data| > 0 then Status(Succeeded, s.data, s.annotations, 1)
            else if age > 60_000_000_000 then
              Status(Failed("ResolutionTimedOut", "resolution took longer than global timeout of 1m0s"),
                     s.data, s.annotations, 1)
            else Status(Unknown("ResolutionInProgress", "waiting for resolver"), s.data, s.annotations, 1)
    ensures EMPTY_STATUS == Status(Absent, "", map[], 0)
  {
    DesiredIsDecided(s, age);
  }

  datatype Event = Settled | RequeueAfter(delay: int)

  /** The object a reconcile pass works on: a deep copy, changed in place. */
  class ResolutionRequest {
    const created: int
    var condition: Condition
    var data: string
    var annotations: map<string, string>
    var observedGeneration: nat

    function Value(): Status
      reads this
    {
      Status(condition, data, annotations, observedGeneration)
    }

    constructor (created: int, s: Status)
      ensures Value() == s && this.created == created
    {
      this.created := created;
      condition, data := s.condition, s.data;
      annotations, observedGeneration := s.annotations, s.observedGeneration;
    }

    method InitializeConditions()
      modifies this`condition
      ensures condition == if old(condition).Absent? then Unknown("", "") else old(condition)
    {
      if condition == Absent {
        condition := Unknown("", "");
      }
    }

    method MarkFailed(reason: string, message: string)
      modifies this`condition
      ensures condition == Failed(reason, message)
    {
      condition := Failed(reason, message);
    }

    method MarkSucceeded()
      modifies this`condition
      ensures condition == Succeeded
    {
      condition := Succeeded;
    }

    method MarkInProgress(message: string)
      modifies this`condition
      ensures condition == Unknown(REASON_IN_PROGRESS, message)
    {
      condition := Unknown(REASON_IN_PROGRESS, message);
    }

    method PreProcessReconcile()
      modifies this`condition
      ensures Value() == PreProcess(old(Value()))
    {
      InitializeConditions();
      if observedGeneration != GENERATION {
        condition := Unknown(REASON_GENERATION_BUMP, MESSAGE_GENERATION_BUMP);
      }
    }

    /** The clock is read once for the deadline and again for the delay. */
    method ReconcileKind(firstRead: int, secondRead: int) returns (event: Event)
      modifies this`condition
      ensures Value() == Reconciled(old(Value()), firstRead - created)
      ensures event == if IsDone(Value()) then Settled else RequeueAfter(created + MINUTE - secondRead)
    {
      event := Settled;
      if IsDone(Value()) {
        return;
      }
      if condition == Absent {
        InitializeConditions();
      }
      if data != "" {
        MarkSucceeded();
      } else if firstRead - created > MINUTE {
        MarkFailed(REASON_TIMED_OUT, MESSAGE_TIMED_OUT);
      } else {
        MarkInProgress(MESSAGE_WAITING);
        event := RequeueAfter(MINUTE - (secondRead - created));
      }
    }

    method PostProcessReconcile()
      modifies this`observedGeneration
      ensures observedGeneration == GENERATION
    {
      observedGeneration := GENERATION;
    }

    /** One pass of the generated reconciler over its copy, before any write. */
    method Process(firstRead: int, secondRead: int) returns (event: Event)
      modifies this
      ensures Value() == Desired(old(Value()), firstRead - created)
      ensures event == if IsDone(Value()) then Settled else RequeueAfter(created + MINUTE - secondRead)
    {
      PreProcessReconcile();
      event := ReconcileKind(firstRead, secondRead);
      PostProcessReconcile();
    }
  }
}

/** A request nobody resolves times out: the core controller's own requeues see to it. */
module Convergence {
  import opened Lifecycle

  /** The two clock readings of one pass. */
  datatype Pass = Pass(first: int, second: int)

  function DelayAfter(created: int, p: Pass): int {
    MINUTE - (p.second - created)
  }

  /**
   A chain of passes, each started by the previous one's requeue: the clock
   strictly advances, and the work queue waits out a non-negative delay.
   */
  predicate DrivenByRequeues(created: int, passes: seq<Pass>) {
    && (forall i | 0 <= i < |passes| :: passes[i].first < passes[i].second)
    && (forall i | 0 < i < |passes| ::
          passes[i - 1].second < passes[i].first
          && passes[i - 1].second + DelayAfter(created, passes[i - 1]) <= passes[i].first)
  }

  /** The stored status after the passes, every write having succeeded. */
  function After(s: Status, created: int, passes: seq<Pass>): Status
    decreases |passes|
  {
    if passes == [] then s
    else
      var last := |passes| - 1;
      Desired(After(s, created, passes[..last]), passes[last].first - created)
  }

  lemma {:induction false} AfterKeepsData(s: Status, created: int, passes: seq<Pass>)
    requires s.data == ""
    ensures After(s, created, passes).data == ""
    ensures passes != [] ==> Observed(After(s, created, passes))
    decreases |passes|
  {
    if passes != [] {
      AfterKeepsData(s, created, passes[..|passes| - 1]);
    }
  }

  /** A requeue aims exactly at one minute after creation, whenever the clock was read. */
  lemma RequeueAimsAtDeadline(created: int, p: Pass)
    ensures p.second + DelayAfter(created, p) == created + MINUTE
  {
  }

  /**
   With no data, at most two passes of such a chain leave the request in
   progress: after three it is Done, and stays so.
   */
  lemma DoneByThirdPass(s: Status, created: int, passes: seq<Pass>)
    requires s.data == "" && DrivenByRequeues(created, passes) && |passes| >= 3
    ensures IsDone(After(s, created, passes))
  {
    var last := |passes| - 1;
    AfterKeepsData(s, created, passes[..last]);
    RequeueAimsAtDeadline(created, passes[last - 1]);
    RequeueAimsAtDeadline(created, passes[last - 2]);
    assert passes[last - 1].first >= created + MINUTE;
    assert passes[last].first > created + MINUTE;
    DesiredIsDecided(After(s, created, passes[..last]), passes[last].first - created);
  }

  /** Two is the best bound: a second pass may start exactly on the deadline. */
  lemma TwoPassesMayNotSuffice(created: int)
    ensures var passes := [Pass(created, created + 1), Pass(created + MINUTE, created + MINUTE + 1)];
            DrivenByRequeues(created, passes) && !IsDone(After(EMPTY_STATUS, created, passes))
  {
    var passes := [Pass(created, created + 1), Pass(created + MINUTE, created + MINUTE + 1)];
    assert passes[..1] == [passes[0]] && passes[..1][..0] == [];
    assert After(EMPTY_STATUS, created, passes[..1]) == Desired(EMPTY_STATUS, 0);
  }
}
