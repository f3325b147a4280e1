/**
 One ResolutionRequest shared by the core controller, any number of resolver
 runs and any number of callers.  The API server keeps every version; readers
 of an informer cache may see any past one.  Each step is at most one API call,
 so every interleaving of the parties is a sequence of steps.  A step that is
 not enabled changes nothing, which makes every sequence of steps a run.
 */
module Protocol {
  import opened Common
  import opened Lifecycle
  import opened Errors
  import opened Base64

  /** What a resolver's `Resolve` returns. */
  datatype Resource = Resource(data: Bytes, annotations: Option<map<string, string>>)

  /** `retry.DefaultRetry.Steps`. */
  const MAX_ATTEMPTS: nat := 5

  /** A reconcile run of the core controller, between its API calls. */
  datatype CoreRun =
    | Listed(snapshot: nat)
    | Writing(snapshot: nat, readAt: int, desired: Status, attempt: nat, existing: nat)
    | Refetching(snapshot: nat, readAt: int, desired: Status, attempt: nat)

  /** A reconcile run of the resolver framework, between its API calls. */
  datatype ResolverRun =
    | Resolving
    | Patching(resource: Resource)
    | Failing(error: GoError)
    | Marking(existing: nat, error: GoError)

  /**
   `versions[v]` is the status stored under resourceVersion `v`.  The stored
   creation time is the birth truncated to whole seconds.
   */
  datatype World = World(versions: seq<Status>, born: int, now: int,
                         core: map<nat, CoreRun>, resolvers: map<nat, ResolverRun>,
                         results: set<Resource>)
  {
    predicate Exists() { versions != [] }

    function Newest(): nat
      requires Exists()
    {
      |versions| - 1
    }

    function Latest(): Status
      requires Exists()
    {
      versions[Newest()]
    }

    function Created(): int { born - born % SECOND }

    function Age(): int { now - Created() }
  }

  datatype Step =
    | Tick(elapsed: nat)                          // time passes
    | Touch                                       // some write that leaves the status alone
    | CoreList(run: nat, version: nat)            // the lister answers, from a cache of any age
    | CoreProcess(run: nat)                       // the pass over the copy, reading the clock
    | CorePut(run: nat)                           // UpdateStatus, checked against a version
    | CoreGet(run: nat)                           // the re-read before a retry
    | CoreDrop(run: nat)                          // the run ends: crash, or another error
    | ResolverList(run: nat, version: nat)        // the lister answers the resolver
    | Resolve(run: nat, resource: Resource)       // Resolve returned in time
    | Fail(run: nat, failure: Failure, key: string)           // or something ended it
    | Patch(run: nat)                             // the merge patch, accepted
    | PatchError(run: nat, applied: bool, error: GoError, key: string)   // an error came back; it may have been applied
    | FailGet(run: nat)                           // MarkFailed reads the stored object
    | FailPut(run: nat)                           // and updates it, checked against that version
    | ResolverDrop(run: nat)                      // the run ends

  function Create(born: int): World {
    World([EMPTY_STATUS], born, born, map[], map[], {})
  }

  function Patched(s: Status, r: Resource): Status {
    s.(data := Encode(r.data), annotations := Merge(s.annotations, r.annotations))
  }

  function FailedWith(s: Status, e: GoError): Status {
    var (reason, inner) := ReasonError(e);
    s.(condition := Lifecycle.Failed(reason, inner.Message()))
  }

  predicate PutAccepted(w: World, run: nat)
    requires w.Exists()
  {
    run in w.core && w.core[run].Writing? && w.core[run].existing == w.Newest()
  }

  predicate MarkAccepted(w: World, run: nat)
    requires w.Exists()
  {
    run in w.resolvers && w.resolvers[run].Marking? && w.resolvers[run].existing == w.Newest()
  }

  predicate IsPatching(w: World, run: nat) {
    run in w.resolvers && w.resolvers[run].Patching?
  }

  /** The version a step stores, if any. */
  function Stored(w: World, s: Step): Option<Status>
    requires w.Exists()
  {
    match s
    case Touch => Some(w.Latest())
    case CorePut(run) => if PutAccepted(w, run) then Some(w.core[run].desired) else None
    case Patch(run) => if IsPatching(w, run) then Some(Patched(w.Latest(), w.resolvers[run].resource)) else None
    case PatchError(run, applied, _, _) =>
      if IsPatching(w, run) && applied then Some(Patched(w.Latest(), w.resolvers[run].resource)) else None
    case FailPut(run) =>
      if MarkAccepted(w, run) then Some(FailedWith(w.Latest(), w.resolvers[run].error)) else None
    case _ => None
  }

  function VersionsAfter(w: World, s: Step): (vs: seq<Status>)
    requires w.Exists()
    ensures w.versions <= vs
  {
    match Stored(w, s)
    case Some(x) => w.versions + [x]
    case None => w.versions
  }

  /** A listed run computes what it wants; with nothing to change, it ends. */
  function Processed(w: World, r: CoreRun): Option<CoreRun>
    requires r.Listed? && r.snapshot < |w.versions|
  {
    var desired := Desired(w.versions[r.snapshot], w.Age());
    if desired == w.versions[r.snapshot] then None
    else Some(Writing(r.snapshot, w.now, desired, 0, r.snapshot))
  }

  /** A run whose update was refused re-reads, unless its attempts are used up. */
  function Conflicted(r: CoreRun): Option<CoreRun>
    requires r.Writing?
  {
    if r.attempt + 1 < MAX_ATTEMPTS then Some(Refetching(r.snapshot, r.readAt, r.desired, r.attempt + 1)) else None
  }

  /** A run that re-read the object overwrites it, unless it already is as wanted. */
  function Refetched(w: World, r: CoreRun): Option<CoreRun>
    requires w.Exists() && r.Refetching?
  {
    if r.desired == w.Latest() then None
    else Some(Writing(r.snapshot, r.readAt, r.desired, r.attempt, w.Newest()))
  }

  function Update<V>(m: map<nat, V>, run: nat, v: Option<V>): map<nat, V> {
    match v
    case Some(x) => m[run := x]
    case None => m - {run}
  }

  function CoreAfter(w: World, s: Step): map<nat, CoreRun>
    requires w.Exists()
  {
    match s
    case CoreList(run, version) =>
      if run !in w.core && version < |w.versions| then w.core[run := Listed(version)] else w.core
    case CoreProcess(run) =>
      if run in w.core && w.core[run].Listed? && w.core[run].snapshot < |w.versions|
      then Update(w.core, run, Processed(w, w.core[run]))
      else w.core
    case CorePut(run) =>
      if run in w.core && w.core[run].Writing?
      then Update(w.core, run, if PutAccepted(w, run) then None else Conflicted(w.core[run]))
      else w.core
    case CoreGet(run) =>
      if run in w.core && w.core[run].Refetching?
      then Update(w.core, run, Refetched(w, w.core[run]))
      else w.core
    case CoreDrop(run) => w.core - {run}
    case _ => w.core
  }

  function ResolversAfter(w: World, s: Step): map<nat, ResolverRun>
    requires w.Exists()
  {
    match s
    case ResolverList(run, version) =>
      if run !in w.resolvers && version < |w.versions| && !IsDone(w.versions[version])
      then w.resolvers[run := Resolving]
      else w.resolvers
    case Resolve(run, resource) =>
      if run in w.resolvers && w.resolvers[run].Resolving? then w.resolvers[run := Patching(resource)] else w.resolvers
    case Fail(run, failure, key) =>
      if run in w.resolvers && w.resolvers[run].Resolving? then w.resolvers[run := Failing(Reported(failure, key))]
      else w.resolvers
    case Patch(run) => if IsPatching(w, run) then w.resolvers - {run} else w.resolvers
    case PatchError(run, _, error, key) =>
      if IsPatching(w, run) then w.resolvers[run := Failing(Reported(PatchFailed(error), key))] else w.resolvers
    case FailGet(run) =>
      if run in w.resolvers && w.resolvers[run].Failing? then
        if IsDone(w.Latest()) then w.resolvers - {run}
        else w.resolvers[run := Marking(w.Newest(), w.resolvers[run].error)]
      else w.resolvers
    case FailPut(run) =>
      if run in w.resolvers && w.resolvers[run].Marking? then w.resolvers - {run} else w.resolvers
    case ResolverDrop(run) => w.resolvers - {run}
    case _ => w.resolvers
  }

  function ResultsAfter(w: World, s: Step): set<Resource> {
    if s.Resolve? && s.run in w.resolvers && w.resolvers[s.run].Resolving? then w.results + {s.resource} else w.results
  }

  function Next(w: World, s: Step): (w': World)
    requires w.Exists()
    ensures w'.Exists()
  {
    World(VersionsAfter(w, s), w.born, if s.Tick? then w.now + s.elapsed else w.now,
          CoreAfter(w, s), ResolversAfter(w, s), ResultsAfter(w, s))
  }

  /** The world after a run. */
  function Exec(w: World, steps: seq<Step>): (w': World)
    requires w.Exists()
    ensures w'.Exists()
    decreases |steps|
  {
    if steps == [] then w else Next(Exec(w, steps[..|steps| - 1]), steps[|steps| - 1])
  }

  lemma {:induction false} ExecSplits(w: World, a: seq<Step>, b: seq<Step>)
    requires w.Exists()
    ensures Exec(w, a + b) == Exec(Exec(w, a), b)
    decreases |b|
  {
    if b == [] {
      assert a + b == a;
    } else {
      var front, last := b[..|b| - 1], b[|b| - 1];
      assert (a + b)[..|a + b| - 1] == a + front;
      ExecSplits(w, a, front);
    }
  }

  /** One more step of a run. */
  lemma ExecThen(w: World, steps: seq<Step>, here: World, s: Step, there: World)
    requires w.Exists() && Exec(w, steps) == here && Next(here, s) == there
    ensures Exec(w, steps + [s]) == there
  {
    assert (steps + [s])[..|steps|] == steps;
  }

  lemma ExecOne(w: World, steps: seq<Step>, w1: World)
    requires w.Exists() && |steps| == 1 && Next(w, steps[0]) == w1
    ensures Exec(w, steps) == w1
  {
    ExecThen(w, steps[..0], w, steps[0], w1);
    assert steps[..0] + [steps[0]] == steps;
  }

  lemma ExecTwo(w: World, steps: seq<Step>, w1: World, w2: World)
    requires w.Exists() && |steps| == 2 && Next(w, steps[0]) == w1 && Next(w1, steps[1]) == w2
    ensures Exec(w, steps) == w2
  {
    ExecOne(w, steps[..1], w1);
  }

  lemma {:induction false} HistoryGrows(w: World, steps: seq<Step>)
    requires w.Exists()
    ensures w.versions <= Exec(w, steps).versions
    ensures w.now <= Exec(w, steps).now
    ensures w.born == Exec(w, steps).born
    decreases |steps|
  {
    if steps != [] {
      HistoryGrows(w, steps[..|steps| - 1]);
    }
  }

  // What one resolver call does to the status.

  /** A stored failure changes the condition and nothing else. */
  lemma FailureKeepsData(w: World, id: nat)
    requires w.Exists()
    ensures var s, s' := w.Latest(), Next(w, FailPut(id)).Latest();
            && s'.data == s.data && s'.annotations == s.annotations && s'.observedGeneration == s.observedGeneration
            && (s'.condition == s.condition || s'.condition.Failed?)
  {
  }

  /** A patch changes data and annotations and nothing else; no other key of the annotations is touched. */
  lemma PatchKeepsTheRest(s: Status, r: Resource)
    ensures var s' := Patched(s, r);
            && s'.condition == s.condition && s'.observedGeneration == s.observedGeneration
            && s'.data == Encode(r.data)
            && (r.annotations.None? ==> s'.annotations == map[])
            && forall k :: r.annotations.Some? ==>
                 && (k in s'.annotations <==> k in s.annotations || k in r.annotations.value)
                 && (k in r.annotations.value ==> s'.annotations[k] == r.annotations.value[k])
                 && (k in s.annotations && k !in r.annotations.value ==> s'.annotations[k] == s.annotations[k])
  {
  }

  // What one core call does to its own run.

  lemma PutEffect(w: World, id: nat)
    requires w.Exists() && id in w.core && w.core[id].Writing?
    ensures var r, w' := w.core[id], Next(w, CorePut(id));
            if r.existing == w.Newest() then w'.versions == w.versions + [r.desired] && id !in w'.core
            else
              && w'.versions == w.versions
              && (id in w'.core <==> Conflicted(r).Some?)
              && (id in w'.core ==> Conflicted(r) == Some(w'.core[id]))
  {
  }

  lemma GetEffect(w: World, id: nat)
    requires w.Exists() && id in w.core && w.core[id].Refetching?
    ensures var r, w' := w.core[id], Next(w, CoreGet(id));
            && w'.versions == w.versions
            && (id in w'.core <==> Refetched(w, r).Some?)
            && (id in w'.core ==> Refetched(w, r) == Some(w'.core[id]))
  {
  }

  // What a caller sees.

  datatype Answer = InProgress | Found(status: Status) | Error(reason: string, message: string)

  /** `CRDRequester.Submit`, once the lister finds the object. */
  function Submit(cached: Status): Answer {
    match cached.condition
    case Absent => InProgress
    case Unknown(_, _) => InProgress
    case Succeeded => Found(cached)
    case Failed(_, message) => Answer.Error(REASON_FAILED, message)
  }

  /**
   What a caller is told: it has to wait exactly while the request is not
   settled, a missing condition included; what it finds is the version read;
   and an error carries the general reason and the stored message, whatever
   reason was stored.
   */
  lemma SubmitTellsTheStatus(s: Status)
    ensures Submit(s).InProgress? <==> s.condition.Absent? || s.condition.Unknown?
    ensures Submit(s).InProgress? <==> !IsDone(s)
    ensures Submit(s).Found? <==> s.condition.Succeeded?
    ensures Submit(s).Found? ==> Submit(s).status == s
    ensures s.condition.Failed? ==> Submit(s) == Answer.Error("ResolutionFailed", s.condition.message)
    ensures Submit(Create(0).Latest()) == InProgress
  {
  }

  /** `readOnlyResolutionRequest.Data`. */
  function Data(found: Status): Option<Bytes> {
    Decode(found.data)
  }
}
