/**
 The two controllers as written: each method makes its API calls one after the
 other while other clients keep writing.  Its effect on the stored history is
 specified by driving the Protocol's transitions of one run through the same
 circumstances.
 */
module Drivers {
  import opened Lifecycle
  import opened Errors
  import opened Protocol

  datatype Fault =
    | Healthy
    | Refused(error: GoError)     // the call fails and has no effect
    | Lost(error: GoError)        // the call takes effect, but an error comes back

  /** What an API call meets: the versions other clients store before it, and its fault. */
  datatype Circumstance = Circumstance(before: seq<Status>, fault: Fault)

  function First(schedule: seq<Circumstance>): Circumstance {
    if schedule == [] then Circumstance([], Healthy) else schedule[0]
  }

  function Rest(schedule: seq<Circumstance>): seq<Circumstance> {
    if schedule == [] then [] else schedule[1..]
  }

  /** The history after a core run has been driven to its end. */
  function DriveCore(versions: seq<Status>, schedule: seq<Circumstance>, r: CoreRun): seq<Status>
    requires versions != [] && !r.Listed?
    decreases MAX_ATTEMPTS - r.attempt, if r.Writing? then 0 else 1
  {
    var vs, fault := versions + First(schedule).before, First(schedule).fault;
    if fault.Refused? then vs
    else if r.Writing? then
      if r.existing == |vs| - 1 then vs + [r.desired]
      else if fault.Healthy? && Conflicted(r).Some? then DriveCore(vs, Rest(schedule), Conflicted(r).value)
      else vs
    else
      if fault.Lost? || r.desired == vs[|vs| - 1] then vs
      else DriveCore(vs, Rest(schedule), Writing(r.snapshot, r.readAt, r.desired, r.attempt, |vs| - 1))
  }

  /** Whether the code driving the run learns that the status is as desired. */
  predicate CoreAcknowledged(versions: seq<Status>, schedule: seq<Circumstance>, r: CoreRun)
    requires versions != [] && !r.Listed?
    decreases MAX_ATTEMPTS - r.attempt, if r.Writing? then 0 else 1
  {
    var vs := versions + First(schedule).before;
    First(schedule).fault.Healthy? &&
    if r.Writing? then
      r.existing == |vs| - 1
      || (Conflicted(r).Some? && CoreAcknowledged(vs, Rest(schedule), Conflicted(r).value))
    else
      r.desired == vs[|vs| - 1]
      || CoreAcknowledged(vs, Rest(schedule), Writing(r.snapshot, r.readAt, r.desired, r.attempt, |vs| - 1))
  }

  /** What is acknowledged is stored: the history driven to its end ends in the desired status. */
  lemma {:induction false} AcknowledgedIsStored(versions: seq<Status>, schedule: seq<Circumstance>, r: CoreRun)
    requires versions != [] && !r.Listed? && CoreAcknowledged(versions, schedule, r)
    ensures var vs := DriveCore(versions, schedule, r);
            vs != [] && vs[|vs| - 1] == r.desired
    decreases MAX_ATTEMPTS - r.attempt, if r.Writing? then 0 else 1
  {
    var vs := versions + First(schedule).before;
    if r.Writing? {
      if r.existing != |vs| - 1 {
        AcknowledgedIsStored(vs, Rest(schedule), Conflicted(r).value);
      }
    } else if r.desired != vs[|vs| - 1] {
      AcknowledgedIsStored(vs, Rest(schedule), Writing(r.snapshot, r.readAt, r.desired, r.attempt, |vs| - 1));
    }
  }

  /** The history after a resolver run with an outcome has been driven to its end. */
  function DriveResolver(versions: seq<Status>, schedule: seq<Circumstance>, r: ResolverRun, key: string): seq<Status>
    requires versions != []
    decreases match r case Resolving => 0 case Marking(_, _) => 1 case Failing(_) => 2 case Patching(_) => 3
  {
    var vs, fault := versions + First(schedule).before, First(schedule).fault;
    var last := |vs| - 1;
    match r
    case Resolving => versions
    case Patching(resource) =>
      if fault.Healthy? then vs + [Patched(vs[last], resource)]
      else
        DriveResolver(if fault.Lost? then vs + [Patched(vs[last], resource)] else vs, Rest(schedule),
                      Failing(Reported(PatchFailed(fault.error), key)), key)
    case Failing(error) =>
      if !fault.Healthy? || IsDone(vs[last]) then vs
      else DriveResolver(vs, Rest(schedule), Marking(last, error), key)
    case Marking(existing, error) =>
      if !fault.Refused? && existing == last then vs + [FailedWith(vs[last], error)] else vs
  }

  lemma {:induction false} PatchAcknowledged(versions: seq<Status>, schedule: seq<Circumstance>, resource: Resource,
                                             key: string)
    requires versions != [] && First(schedule).fault.Healthy?
    ensures var vs := versions + First(schedule).before;
            DriveResolver(versions, schedule, Patching(resource), key) == vs + [Patched(vs[|vs| - 1], resource)]
  {
  }

  /** A patch that is not acknowledged, stored or not, leaves the run failing. */
  lemma {:induction false} PatchGoesWrong(versions: seq<Status>, schedule: seq<Circumstance>, resource: Resource,
                                          key: string, after: seq<Status>)
    requires versions != [] && !First(schedule).fault.Healthy?
    requires var vs := versions + First(schedule).before;
             after == if First(schedule).fault.Lost? then vs + [Patched(vs[|vs| - 1], resource)] else vs
    ensures DriveResolver(versions, schedule, Patching(resource), key) ==
            DriveResolver(after, Rest(schedule), Failing(UpdatingRequest(key, First(schedule).fault.error)), key)
  {
  }
}

module Controllers {
  import opened Common
  import opened Lifecycle
  import opened Errors
  import opened Protocol
  import opened Drivers
  import opened ResolveRace

  datatype Reply = Accepted | Conflict | Broken(error: GoError)

  /** A call made, with the version that was the newest when it arrived. */
  datatype Call =
    | GetCall(fault: Fault, newest: nat, status: Status)
    | UpdateCall(fault: Fault, newest: nat, named: nat, status: Status)
    | PatchCall(fault: Fault, newest: nat, resource: Resource)

  /** Something was stored, whether or not the caller was told. */
  predicate Stores(c: Call) {
    !c.fault.Refused? && (c.PatchCall? || (c.UpdateCall? && c.named == c.newest))
  }

  /** What a call stored is the version after the one it met. */
  predicate Recorded(versions: seq<Status>, c: Call) {
    Stores(c) ==>
      && c.newest + 1 < |versions|
      && (c.PatchCall? ==> versions[c.newest + 1] == Patched(versions[c.newest], c.resource))
      && (c.UpdateCall? ==> versions[c.newest + 1] == c.status)
  }

  /** The stored object, and what the rest of the cluster will do around each call. */
  class ApiServer {
    var versions: seq<Status>
    var schedule: seq<Circumstance>
    ghost var calls: seq<Call>       // the calls this client has made

    ghost predicate Valid()
      reads this
    {
      versions != [] && forall i | 0 <= i < |calls| :: Recorded(versions, calls[i])
    }

    constructor (versions: seq<Status>, schedule: seq<Circumstance>)
      requires versions != []
      ensures Valid() && this.versions == versions && this.schedule == schedule && calls == []
    {
      this.versions, this.schedule, calls := versions, schedule, [];
    }

    method Begin() returns (fault: Fault)
      requires Valid()
      modifies this
      ensures Valid()
      ensures versions == old(versions) + First(old(schedule)).before
      ensures schedule == Rest(old(schedule)) && fault == First(old(schedule)).fault
      ensures calls == old(calls)
    {
      versions, schedule, fault := versions + First(schedule).before, Rest(schedule), First(schedule).fault;
    }

    method Get() returns (reply: Reply, version: nat, status: Status)
      requires Valid()
      modifies this
      ensures Valid()
      ensures versions == old(versions) + First(old(schedule)).before && schedule == Rest(old(schedule))
      ensures calls == old(calls) + [GetCall(First(old(schedule)).fault, version, status)]
      ensures version == |versions| - 1 && status == versions[version]
      ensures reply.Accepted? <==> First(old(schedule)).fault.Healthy?
      ensures !reply.Conflict?
    {
      var fault := Begin();
      version, status := |versions| - 1, versions[|versions| - 1];
      calls := calls + [GetCall(fault, version, status)];
      reply := if fault.Healthy? then Accepted else Broken(fault.error);
    }

    /** An update is stored only over the version it names. */
    method UpdateStatus(version: nat, status: Status) returns (reply: Reply)
      requires Valid()
      modifies this
      ensures Valid() && schedule == Rest(old(schedule))
      ensures var vs, fault := old(versions) + First(old(schedule)).before, First(old(schedule)).fault;
              && versions == (if !fault.Refused? && version == |vs| - 1 then vs + [status] else vs)
              && calls == old(calls) + [UpdateCall(fault, |vs| - 1, version, status)]
              && reply == if !fault.Healthy? then Broken(fault.error)
                          else if version == |vs| - 1 then Accepted else Conflict
    {
      var fault := Begin();
      calls := calls + [UpdateCall(fault, |versions| - 1, version, status)];
      var current := version == |versions| - 1;
      if !fault.Refused? && current {
        versions := versions + [status];
      }
      reply := if !fault.Healthy? then Broken(fault.error) else if current then Accepted else Conflict;
    }

    /** A merge patch names no version. */
    method Patch(resource: Resource) returns (reply: Reply)
      requires Valid()
      modifies this
      ensures Valid() && schedule == Rest(old(schedule))
      ensures var vs, fault := old(versions) + First(old(schedule)).before, First(old(schedule)).fault;
              && versions == (if fault.Refused? then vs else vs + [Patched(vs[|vs| - 1], resource)])
              && calls == old(calls) + [PatchCall(fault, |vs| - 1, resource)]
              && reply == if fault.Healthy? then Accepted else Broken(fault.error)
    {
      var fault := Begin();
      calls := calls + [PatchCall(fault, |versions| - 1, resource)];
      if !fault.Refused? {
        versions := versions + [Patched(versions[|versions| - 1], resource)];
      }
      reply := if fault.Healthy? then Accepted else Broken(fault.error);
    }
  }

  // The core controller.

  /** The attempt this call belongs to succeeded. */
  predicate Settles(c: Call, desired: Status) {
    c.fault.Healthy? &&
    match c
    case GetCall(_, _, status) => status == desired
    case UpdateCall(_, newest, named, _) => named == newest
    case PatchCall(_, _, _) => false
  }

  /** The update was refused because another version is stored by now. */
  predicate IsConflict(c: Call) {
    c.fault.Healthy? && c.UpdateCall? && c.named != c.newest
  }

  /** `updateStatus` has not finished with this call. */
  predicate GoesOn(c: Call, desired: Status) {
    IsConflict(c) || (c.fault.Healthy? && c.GetCall? && c.status != desired)
  }

  predicate TurnAt(calls: seq<Call>, i: nat, original: nat, desired: Status)
    requires i < |calls|
  {
    if i % 2 == 1 then calls[i].GetCall?
    else calls[i].UpdateCall? && calls[i].status == desired
         && calls[i].named == if i == 0 then original else calls[i - 1].newest
  }

  /**
   Updates and re-reads in turn.  Each update carries the desired status and
   names the version just read, the first one the cached version; and only
   conflicts and other statuses lead to a further call.
   */
  predicate InTurn(calls: seq<Call>, original: nat, desired: Status) {
    && (forall i | 0 <= i < |calls| :: TurnAt(calls, i, original, desired))
    && (forall i | 0 <= i < |calls| - 1 :: GoesOn(calls[i], desired))
  }

  /** All the calls of an `updateStatus` that had something to write: it gives up after five conflicts. */
  predicate UpdateCalls(calls: seq<Call>, original: nat, desired: Status) {
    && InTurn(calls, original, desired)
    && 1 <= |calls| <= 9
    && (GoesOn(calls[|calls| - 1], desired) ==> |calls| == 9)
  }

  /**
   When the update returns nil, in terms of what its calls met.  With healthy
   calls: whenever it stored something, or a re-read found the desired status;
   it fails only after five updates that all met a conflict.  A fault in any
   call fails it.
   */
  lemma NilIffSettled(calls: seq<Call>, original: nat, desired: Status, done: bool)
    requires UpdateMade(calls, original, desired, done)
    ensures (exists c :: c in calls && !c.fault.Healthy?) ==> !done
    ensures (forall c | c in calls :: c.fault.Healthy?) && (exists c :: c in calls && Stores(c)) ==> done
    ensures (exists c :: c in calls && c.GetCall? && c.fault.Healthy? && c.status == desired) ==> done
    ensures (forall c | c in calls :: c.fault.Healthy?) && !done ==>
              |calls| == 9 && forall i | 0 <= i < 5 :: IsConflict(calls[2 * i])
  {
    var last := |calls| - 1;
    forall c | c in calls && !GoesOn(c, desired) ensures c == calls[last] {
      var i :| 0 <= i < |calls| && calls[i] == c;
    }
    if (forall c | c in calls :: c.fault.Healthy?) && !done {
      assert calls[last] in calls;
      assert TurnAt(calls, last, original, desired);
      assert GoesOn(calls[last], desired);
      forall i | 0 <= i < 5 ensures IsConflict(calls[2 * i]) {
        assert TurnAt(calls, 2 * i, original, desired) && (2 * i) % 2 == 0 && GoesOn(calls[2 * i], desired);
      }
    }
  }

  /** The history after `updateStatus`, given the cached version and what is wanted. */
  function AfterUpdate(versions: seq<Status>, schedule: seq<Circumstance>, original: nat, cached: Status,
                       readAt: int, desired: Status): seq<Status>
    requires versions != []
  {
    if cached == desired then versions
    else DriveCore(versions, schedule, Writing(original, readAt, desired, 0, original))
  }

  /** Whether `updateStatus` returns without an error. */
  predicate UpdateReturnsNil(versions: seq<Status>, schedule: seq<Circumstance>, original: nat, cached: Status,
                             readAt: int, desired: Status)
    requires versions != []
  {
    cached == desired || CoreAcknowledged(versions, schedule, Writing(original, readAt, desired, 0, original))
  }

  /** The run an attempt of the update stands for. */
  function Attempt(original: nat, readAt: int, desired: Status, attempts: nat): CoreRun {
    if attempts == 0 then Writing(original, readAt, desired, 0, original)
    else Refetching(original, readAt, desired, attempts)
  }

  /** The history once the attempts from this one on have been made. */
  function AfterAttempts(versions: seq<Status>, schedule: seq<Circumstance>, original: nat, readAt: int,
                         desired: Status, attempts: nat): seq<Status>
    requires versions != []
  {
    if attempts < MAX_ATTEMPTS then DriveCore(versions, schedule, Attempt(original, readAt, desired, attempts))
    else versions
  }

  predicate AttemptsSucceed(versions: seq<Status>, schedule: seq<Circumstance>, original: nat, readAt: int,
                            desired: Status, attempts: nat)
    requires versions != []
  {
    attempts < MAX_ATTEMPTS && CoreAcknowledged(versions, schedule, Attempt(original, readAt, desired, attempts))
  }

  /** The calls of an `updateStatus` that had something to write, and when they amount to a nil return. */
  predicate UpdateMade(made: seq<Call>, original: nat, desired: Status, done: bool) {
    UpdateCalls(made, original, desired) && (done <==> Settles(made[|made| - 1], desired))
  }

  /** One attempt: an update of the cached version, or a re-read and, if it shows another status, an update of that. */
  predicate Tried(made: seq<Call>, attempts: nat, original: nat, desired: Status, reply: Reply) {
    && 1 <= |made| <= (if attempts == 0 then 1 else 2)
    && var last := made[|made| - 1];
    && (attempts > 0 ==> made[0].GetCall? && (|made| == 2 <==> GoesOn(made[0], desired)))
    && (attempts == 0 || |made| == 2 ==>
          last.UpdateCall? && last.status == desired
          && last.named == if attempts == 0 then original else made[0].newest)
    && (reply == Accepted <==> Settles(last, desired))
    && (reply == Conflict <==> IsConflict(last))
  }

  lemma TurnsJoin(calls: seq<Call>, more: seq<Call>, original: nat, desired: Status)
    requires InTurn(calls, original, desired) && 1 <= |more| <= 2
    requires calls != [] ==>
               && |calls| % 2 == 1 && GoesOn(calls[|calls| - 1], desired)
               && more[0].GetCall?
               && (|more| == 2 ==> more[1].UpdateCall? && more[1].status == desired && more[1].named == more[0].newest
                                   && GoesOn(more[0], desired))
    requires calls == [] ==>
               |more| == 1 && more[0].UpdateCall? && more[0].status == desired && more[0].named == original
    ensures InTurn(calls + more, original, desired)
  {
    var all, n := calls + more, |calls|;
    forall i | 0 <= i < |all| ensures TurnAt(all, i, original, desired) {
      assert i < n ==> TurnAt(calls, i, original, desired);
    }
    forall i | 0 <= i < |all| - 1 ensures GoesOn(all[i], desired) {
      assert i < n ==> all[i] == calls[i];
      assert n <= i ==> all[i] == more[i - n];
    }
  }

  /** What the attempts before this one left: updates and re-reads that all came to nothing. */
  predicate AllConflicted(calls: seq<Call>, attempts: nat, original: nat, desired: Status) {
    && InTurn(calls, original, desired)
    && |calls| == (if attempts == 0 then 0 else 2 * attempts - 1)
    && (attempts > 0 ==> IsConflict(calls[|calls| - 1]))
  }

  lemma AttemptEnds(calls: seq<Call>, made: seq<Call>, attempts: nat, original: nat, desired: Status, reply: Reply)
    requires AllConflicted(calls, attempts, original, desired) && attempts < MAX_ATTEMPTS
    requires Tried(made, attempts, original, desired, reply)
    ensures reply == Conflict ==> AllConflicted(calls + made, attempts + 1, original, desired)
    ensures reply != Conflict ==> UpdateMade(calls + made, original, desired, reply == Accepted)
    ensures attempts + 1 == MAX_ATTEMPTS && reply == Conflict ==> UpdateMade(calls + made, original, desired, false)
  {
    TurnsJoin(calls, made, original, desired);
    assert (calls + made)[|calls + made| - 1] == made[|made| - 1];
  }

  /** An attempt that gets as far as its update is a run about to write. */
  lemma {:induction false} WritingAttempt(versions: seq<Status>, schedule: seq<Circumstance>, original: nat,
                                          readAt: int, desired: Status, attempts: nat)
    requires versions != [] && attempts < MAX_ATTEMPTS
    ensures attempts == 0 ==>
              var r := Writing(original, readAt, desired, 0, original);
              && AfterAttempts(versions, schedule, original, readAt, desired, 0) == DriveCore(versions, schedule, r)
              && (AttemptsSucceed(versions, schedule, original, readAt, desired, 0) <==>
                    CoreAcknowledged(versions, schedule, r))
    ensures var vs := versions + First(schedule).before;
            attempts > 0 && First(schedule).fault.Healthy? && vs[|vs| - 1] != desired ==>
              var r := Writing(original, readAt, desired, attempts, |vs| - 1);
              && AfterAttempts(versions, schedule, original, readAt, desired, attempts) ==
                 DriveCore(vs, Rest(schedule), r)
              && (AttemptsSucceed(versions, schedule, original, readAt, desired, attempts) <==>
                    CoreAcknowledged(vs, Rest(schedule), r))
  {
  }

  /** What its update makes of the history, and when the attempts end well. */
  lemma {:induction false} WriteOutcome(versions: seq<Status>, schedule: seq<Circumstance>, original: nat,
                                        readAt: int, desired: Status, attempts: nat, version: nat)
    requires versions != [] && attempts < MAX_ATTEMPTS
    ensures var vs, fault := versions + First(schedule).before, First(schedule).fault;
            var r := Writing(original, readAt, desired, attempts, version);
            && DriveCore(versions, schedule, r) ==
               (if !fault.Refused? && version == |vs| - 1 then vs + [desired]
                else if fault.Healthy?
                then AfterAttempts(vs, Rest(schedule), original, readAt, desired, attempts + 1)
                else vs)
            && (CoreAcknowledged(versions, schedule, r) <==>
                  fault.Healthy? && (version == |vs| - 1 || AttemptsSucceed(vs, Rest(schedule), original, readAt,
                                                                            desired, attempts + 1)))
  {
  }

  /**
   The closure that `updateStatus` hands to `RetryUpdateConflicts`: the first
   attempt updates the cached version; each further one re-reads the object
   and overwrites its status with the same desired one.
   */
  method TryUpdate(api: ApiServer, attempts: nat, original: nat, readAt: int, desired: Status)
    returns (reply: Reply, ghost made: seq<Call>)
    requires api.Valid() && attempts < MAX_ATTEMPTS
    modifies api
    ensures api.Valid()
    ensures AfterAttempts(old(api.versions), old(api.schedule), original, readAt, desired, attempts) ==
            if reply == Conflict
            then AfterAttempts(api.versions, api.schedule, original, readAt, desired, attempts + 1)
            else api.versions
    ensures AttemptsSucceed(old(api.versions), old(api.schedule), original, readAt, desired, attempts) <==>
            reply == Accepted ||
            (reply == Conflict && AttemptsSucceed(api.versions, api.schedule, original, readAt, desired, attempts + 1))
    ensures api.calls == old(api.calls) + made
    ensures Tried(made, attempts, original, desired, reply)
  {
    var version := original;
    made := [];
    if attempts > 0 {
      var status;
      reply, version, status := api.Get();
      made := [api.calls[|api.calls| - 1]];
      if reply != Accepted || status == desired {
        return;
      }
    }
    WritingAttempt(old(api.versions), old(api.schedule), original, readAt, desired, attempts);
    WriteOutcome(api.versions, api.schedule, original, readAt, desired, attempts, version);
    reply := api.UpdateStatus(version, desired);
    made := made + [api.calls[|api.calls| - 1]];
  }

  /** `updateStatus`: nothing to do for an unchanged status; otherwise attempts until no conflict is met. */
  method UpdateStatus(api: ApiServer, original: nat, cached: Status, readAt: int, desired: Status)
    returns (done: bool, ghost made: seq<Call>)
    requires api.Valid()
    modifies api
    ensures api.Valid()
    ensures api.versions == AfterUpdate(old(api.versions), old(api.schedule), original, cached, readAt, desired)
    ensures done == UpdateReturnsNil(old(api.versions), old(api.schedule), original, cached, readAt, desired)
    ensures api.calls == old(api.calls) + made
    ensures if cached == desired then made == [] && done else UpdateMade(made, original, desired, done)
  {
    made := [];
    if cached == desired {
      return true, made;
    }
    var attempts := 0;
    while attempts < MAX_ATTEMPTS
      invariant api.Valid() && attempts <= MAX_ATTEMPTS
      invariant AfterAttempts(old(api.versions), old(api.schedule), original, readAt, desired, 0)
                == AfterAttempts(api.versions, api.schedule, original, readAt, desired, attempts)
      invariant AttemptsSucceed(old(api.versions), old(api.schedule), original, readAt, desired, 0)
                == AttemptsSucceed(api.versions, api.schedule, original, readAt, desired, attempts)
      invariant api.calls == old(api.calls) + made
      invariant AllConflicted(made, attempts, original, desired)
      invariant attempts == MAX_ATTEMPTS ==> UpdateMade(made, original, desired, false)
    {
      var reply;
      ghost var more;
      reply, more := TryUpdate(api, attempts, original, readAt, desired);
      AttemptEnds(made, more, attempts, original, desired, reply);
      made := made + more;
      if reply != Conflict {
        return reply == Accepted, made;
      }
      attempts := attempts + 1;
    }
    return false, made;
  }

  /** What the generated `Reconcile` returns: its method's event, or the error of a failed write. */
  datatype CoreReturn = EventOf(event: Event) | UpdateFailed

  /**
   The generated `Reconcile` for a leader: process a deep copy of the cached
   version, and write only if the pass changed the status.  A write that fails
   takes the place of the event.
   */
  method ReconcileCore(api: ApiServer, created: int, original: nat, firstRead: int, secondRead: int)
    returns (ret: CoreReturn, ghost made: seq<Call>)
    requires api.Valid() && original < |api.versions|
    modifies api
    ensures api.Valid()
    ensures var cached := old(api.versions)[original];
            var desired := Desired(cached, firstRead - created);
            && api.versions == AfterUpdate(old(api.versions), old(api.schedule), original, cached, firstRead, desired)
            && ret == if !UpdateReturnsNil(old(api.versions), old(api.schedule), original, cached, firstRead, desired)
                      then UpdateFailed
                      else if IsDone(desired) then EventOf(Settled)
                      else EventOf(RequeueAfter(created + MINUTE - secondRead))
    ensures api.calls == old(api.calls) + made
    ensures var cached := old(api.versions)[original];
            var desired := Desired(cached, firstRead - created);
            if cached == desired then made == [] && ret != UpdateFailed
            else UpdateMade(made, original, desired, ret != UpdateFailed)
  {
    made := [];
    var cached := api.versions[original];
    var resource := new ResolutionRequest(created, cached);
    var event := resource.Process(firstRead, secondRead);
    if resource.Value() != cached {
      var done;
      done, made := UpdateStatus(api, original, cached, firstRead, resource.Value());
      if !done {
        return UpdateFailed, made;
      }
    }
    ret := EventOf(event);
  }

  // The resolver framework.

  /** The condition a failure is stored with. */
  function FailureCondition(error: GoError): Condition {
    if error.Reasoned? then Lifecycle.Failed(error.reason, error.original.Message())
    else Lifecycle.Failed("ResolutionFailed", error.Message())
  }

  /**
   The calls of `MarkFailed`: a read, and if that finds an unsettled request,
   one update over the version read, which changes the condition only.
   */
  predicate MarkMade(made: seq<Call>, error: GoError, marked: bool) {
    && 1 <= |made| <= 2
    && made[0].GetCall?
    && (|made| == 2 <==> made[0].fault.Healthy? && !IsDone(made[0].status))
    && (|made| == 2 ==>
          && made[1].UpdateCall? && made[1].named == made[0].newest
          && made[1].status == FailedWith(made[0].status, error))
    && (marked <==> |made| == 2 && made[1].fault.Healthy? && made[1].named == made[1].newest)
  }

  /** The calls of `writeResolvedData`: the patch, and when that is not acknowledged those of `MarkFailed`. */
  predicate WriteMade(made: seq<Call>, resource: Resource, key: string, patched: bool, marked: bool) {
    && made != [] && made[0].PatchCall? && made[0].resource == resource
    && (patched <==> made[0].fault.Healthy?)
    && if patched then |made| == 1 && !marked
       else MarkMade(made[1..], UpdatingRequest(key, made[0].fault.error), marked)
  }

  lemma WriteGoesWrong(c: Call, more: seq<Call>, resource: Resource, key: string, marked: bool)
    requires c.PatchCall? && c.resource == resource && !c.fault.Healthy?
    requires MarkMade(more, UpdatingRequest(key, c.fault.error), marked)
    ensures WriteMade([c] + more, resource, key, false, marked)
  {
    assert ([c] + more)[1..] == more;
  }

  /** The versions the calls stored. */
  function StoredBy(made: seq<Call>): seq<nat> {
    if made == [] then []
    else if Stores(made[0]) then [made[0].newest + 1] + StoredBy(made[1..])
    else StoredBy(made[1..])
  }

  lemma StoredAfterRead(made: seq<Call>)
    requires 1 <= |made| <= 2 && made[0].GetCall?
    ensures StoredBy(made) == if |made| == 2 && Stores(made[1]) then [made[1].newest + 1] else []
  {
    if |made| == 2 {
      assert made[1..][1..] == [];
      assert StoredBy(made[1..]) == if Stores(made[1]) then [made[1].newest + 1] else [];
    } else {
      assert made[1..] == [];
    }
  }

  /**
   One resolver run stores both the data and a failure exactly when the patch
   is stored but its reply lost, the run then reads an unsettled version, and
   no other writer comes before its update.
   */
  lemma StoresBothIffLost(versions: seq<Status>, made: seq<Call>, resource: Resource, key: string,
                          patched: bool, marked: bool)
    requires WriteMade(made, resource, key, patched, marked)
    requires forall i | 0 <= i < |made| :: Recorded(versions, made[i])
    ensures |StoredBy(made)| <= 2
    ensures |StoredBy(made)| == 2 <==>
            made[0].fault.Lost? && made[1].fault.Healthy? && !IsDone(made[1].status)
            && !made[2].fault.Refused? && made[2].named == made[2].newest
    ensures |StoredBy(made)| == 2 ==>
              var (data, failure) := (StoredBy(made)[0], StoredBy(made)[1]);
              && 0 < data < |versions| && versions[data] == Patched(versions[data - 1], resource)
              && 0 < failure < |versions|
              && versions[failure] == FailedWith(made[1].status, UpdatingRequest(key, made[0].fault.error))
  {
    if patched {
      assert made[1..] == [];
    } else {
      StoredAfterRead(made[1..]);
      assert |made| == 3 ==> made[1..][1] == made[2] && Recorded(versions, made[2]);
      assert Recorded(versions, made[0]);
    }
  }

  /** The status only lost its condition to a failure. */
  predicate OnlyFails(before: Status, after: Status) {
    && after.data == before.data && after.annotations == before.annotations
    && after.observedGeneration == before.observedGeneration && after.condition.Failed?
  }

  /** What is stored on a failure: the condition with the error's reason and message, all else as it was. */
  lemma FailedWithOnlyFails(s: Status, error: GoError)
    ensures OnlyFails(s, FailedWith(s, error)) && FailedWith(s, error) == s.(condition := FailureCondition(error))
  {
  }

  /** `MarkFailed`: read the stored object, leave a settled one alone, update the other. */
  method MarkFailed(api: ApiServer, error: GoError, key: string) returns (marked: bool, ghost made: seq<Call>)
    requires api.Valid()
    modifies api
    ensures api.Valid()
    ensures api.versions == DriveResolver(old(api.versions), old(api.schedule), Failing(error), key)
    ensures marked ==> |api.versions| > 1 && !IsDone(api.versions[|api.versions| - 2])
                       && api.versions[|api.versions| - 1] == FailedWith(api.versions[|api.versions| - 2], error)
                       && OnlyFails(api.versions[|api.versions| - 2], api.versions[|api.versions| - 1])
    ensures api.calls == old(api.calls) + made && MarkMade(made, error, marked)
  {
    marked := false;
    var reply, version, status := api.Get();
    made := [api.calls[|api.calls| - 1]];
    if reply != Accepted {
      return;
    }
    if IsDone(status) {
      return;
    }
    FailedWithOnlyFails(status, error);
    var answer := api.UpdateStatus(version, FailedWith(status, error));
    made := made + [api.calls[|api.calls| - 1]];
    marked := answer == Accepted;
  }

  /** What the framework's `Reconcile` returns to the work queue. */
  datatype Return = Nil | Permanent(error: GoError)

  method OnError(api: ApiServer, error: GoError, key: string)
    returns (ret: Return, marked: bool, ghost made: seq<Call>)
    requires api.Valid()
    modifies api
    ensures api.Valid()
    ensures api.versions == DriveResolver(old(api.versions), old(api.schedule), Failing(error), key)
    ensures ret == Permanent(error)
    ensures api.calls == old(api.calls) + made && MarkMade(made, error, marked)
  {
    marked, made := MarkFailed(api, error, key);
    ret := Permanent(error);
  }

  method WriteResolvedData(api: ApiServer, resource: Resource, key: string)
    returns (ret: Return, patched: bool, marked: bool, ghost made: seq<Call>)
    requires api.Valid()
    modifies api
    ensures api.Valid()
    ensures api.versions == DriveResolver(old(api.versions), old(api.schedule), Patching(resource), key)
    ensures patched <==> ret == Nil
    ensures !(patched && marked)
    ensures patched ==> |api.versions| > 1
                        && api.versions[|api.versions| - 1] == Patched(api.versions[|api.versions| - 2], resource)
    ensures api.calls == old(api.calls) + made && WriteMade(made, resource, key, patched, marked)
    ensures !patched ==> ret == Permanent(UpdatingRequest(key, made[0].fault.error))
  {
    var reply := api.Patch(resource);
    made := [api.calls[|api.calls| - 1]];
    if reply.Broken? {
      patched := false;
      assert DriveResolver(old(api.versions), old(api.schedule), Patching(resource), key) ==
             DriveResolver(api.versions, api.schedule, Failing(UpdatingRequest(key, reply.error)), key) by {
        PatchGoesWrong(old(api.versions), old(api.schedule), resource, key, api.versions);
      }
      var error := UpdatingRequest(key, reply.error);
      ghost var more;
      ret, marked, more := OnError(api, error, key);
      WriteGoesWrong(made[0], more, resource, key, marked);
      made := made + more;
      return;
    }
    PatchAcknowledged(old(api.versions), old(api.schedule), resource, key);
    ret, patched, marked := Nil, true, false;
  }

  /** The resolver run a verdict of the race leads to. */
  function AfterVerdict(v: Verdict): ResolverRun
    requires !v.UnknownError?
  {
    match v
    case OnError(error) => Failing(error)
    case WriteData(resource) => Patching(resource)
  }

  /** Whether the framework's `Reconcile` gets as far as resolving. */
  predicate Resolves(keyError: Option<GoError>, cached: Option<Status>) {
    keyError.None? && cached.Some? && !IsDone(cached.value)
  }

  /** The history after the framework's `Reconcile`. */
  function AfterReconcile(versions: seq<Status>, schedule: seq<Circumstance>, keyError: Option<GoError>,
                          cached: Option<Status>, verdict: Verdict, key: string): seq<Status>
    requires versions != [] && !verdict.UnknownError?
  {
    if Resolves(keyError, cached) then DriveResolver(versions, schedule, AfterVerdict(verdict), key) else versions
  }

  /**
   The framework's `Reconcile` on a cached version, the race having given its
   verdict.  Every run ends in nil or a permanent error, and none both gets
   its patch acknowledged and marks the request failed.
   */
  method ReconcileResolver(api: ApiServer, keyError: Option<GoError>, cached: Option<Status>,
                           verdict: Verdict, key: string)
    returns (ret: Return, patched: bool, marked: bool, ghost made: seq<Call>)
    requires api.Valid() && !verdict.UnknownError?
    modifies api
    ensures api.Valid()
    ensures keyError.Some? ==> ret == Permanent(InvalidResourceKey(key, keyError.value))
    ensures keyError.None? && cached.None? ==> ret.Permanent? && ret.error.GettingResource?
    ensures api.versions == AfterReconcile(old(api.versions), old(api.schedule), keyError, cached, verdict, key)
    ensures !(patched && marked)
    ensures ret == Nil <==> keyError.None? && cached.Some? && (IsDone(cached.value) || patched)
    ensures api.calls == old(api.calls) + made
    ensures if keyError.Some? || cached.None? || IsDone(cached.value) then made == [] && !patched && !marked
            else match verdict
                 case OnError(error) => MarkMade(made, error, marked) && !patched && ret == Permanent(error)
                 case WriteData(resource) => WriteMade(made, resource, key, patched, marked)
  {
    patched, marked, made := false, false, [];
    if keyError.Some? {
      return Permanent(InvalidResourceKey(key, keyError.value)), false, false, [];
    }
    if cached.None? {
      return Permanent(GettingResource("resolutionrequest", key, Plain("not found"))), false, false, [];
    }
    if IsDone(cached.value) {
      return Nil, false, false, [];
    }
    match verdict
    case OnError(error) =>
      ret, marked, made := OnError(api, error, key);
    case WriteData(resource) =>
      ret, patched, marked, made := WriteResolvedData(api, resource, key);
  }
}
