/**
 The controllers' code and the protocol agree: when what happens around a
 method's API calls is itself made of protocol steps, the history the method
 leaves behind is the history of a protocol run.  So everything proved of all
 runs holds of the code.
 */
module Refinement {
  import opened Common
  import opened Lifecycle
  import opened Errors
  import opened Protocol
  import opened Drivers
  import opened Controllers
  import opened Finality
  import ResolveRace

  /** The steps of other parties before one API call, and that call's fault. */
  datatype Gap = Gap(steps: seq<Step>, fault: Fault)

  function FirstGap(gaps: seq<Gap>): Gap {
    if gaps == [] then Gap([], Healthy) else gaps[0]
  }

  function OtherGaps(gaps: seq<Gap>): seq<Gap> {
    if gaps == [] then [] else gaps[1..]
  }

  function NewVersions(w: World, steps: seq<Step>): seq<Status>
    requires w.Exists()
  {
    HistoryGrows(w, steps);
    Exec(w, steps).versions[|w.versions|..]
  }

  lemma NewVersionsAreNew(w: World, steps: seq<Step>)
    requires w.Exists()
    ensures Exec(w, steps).versions == w.versions + NewVersions(w, steps)
  {
    HistoryGrows(w, steps);
  }

  // A core run.

  predicate IsCoreStepOf(s: Step, id: nat) {
    (s.CoreList? || s.CoreProcess? || s.CorePut? || s.CoreGet? || s.CoreDrop?) && s.run == id
  }

  predicate SparesCore(steps: seq<Step>, id: nat) {
    forall i | 0 <= i < |steps| :: !IsCoreStepOf(steps[i], id)
  }

  predicate GapsSpareCore(gaps: seq<Gap>, id: nat) {
    forall i | 0 <= i < |gaps| :: SparesCore(gaps[i].steps, id)
  }

  lemma NextSparesCore(w: World, s: Step, id: nat)
    requires w.Exists() && !IsCoreStepOf(s, id)
    ensures id in Next(w, s).core <==> id in w.core
    ensures id in w.core ==> Next(w, s).core[id] == w.core[id]
  {
  }

  lemma {:induction false} OthersSpareCore(w: World, steps: seq<Step>, id: nat)
    requires w.Exists() && SparesCore(steps, id) && id in w.core
    ensures id in Exec(w, steps).core && Exec(w, steps).core[id] == w.core[id]
    decreases |steps|
  {
    if steps != [] {
      OthersSpareCore(w, steps[..|steps| - 1], id);
      NextSparesCore(Exec(w, steps[..|steps| - 1]), steps[|steps| - 1], id);
    }
  }

  /** The protocol step an API call of the core's code amounts to. */
  function CoreCall(r: CoreRun, fault: Fault, id: nat): Step {
    if fault.Refused? || (r.Refetching? && fault.Lost?) then CoreDrop(id)
    else if r.Writing? then CorePut(id)
    else CoreGet(id)
  }

  /** The world after the others' steps and the run's own call. */
  function AfterCoreCall(w: World, id: nat, gap: Gap): World
    requires w.Exists() && id in w.core
  {
    Next(Exec(w, gap.steps), CoreCall(w.core[id], gap.fault, id))
  }

  /** The version and the state one call of the core's code leaves, from the world it meets. */
  function CoreOutcome(last: Status, newest: nat, r: CoreRun, fault: Fault): (Option<Status>, Option<CoreRun>)
    requires !r.Listed?
  {
    if fault.Refused? then (None, None)
    else if r.Writing? then
      if r.existing == newest then (Some(r.desired), None)
      else (None, if fault.Healthy? then Conflicted(r) else None)
    else if fault.Lost? || r.desired == last then (None, None)
    else (None, Some(Writing(r.snapshot, r.readAt, r.desired, r.attempt, newest)))
  }

  lemma CoreOutcomeInWorld(w: World, id: nat, fault: Fault)
    requires w.Exists() && id in w.core && !w.core[id].Listed?
    ensures var (x, r') := CoreOutcome(w.Latest(), w.Newest(), w.core[id], fault);
            var w' := Next(w, CoreCall(w.core[id], fault, id));
            && w'.versions == (if x.Some? then w.versions + [x.value] else w.versions)
            && (r'.Some? ==> id in w'.core && w'.core[id] == r'.value)
  {
    if w.core[id].Writing? {
      PutEffect(w, id);
    } else {
      GetEffect(w, id);
    }
  }

  lemma {:induction false} CoreOutcomeInDriver(vs: seq<Status>, c: Circumstance, rest: seq<Circumstance>, r: CoreRun)
    requires vs != [] && !r.Listed?
    ensures var now := vs + c.before;
            var (x, r') := CoreOutcome(now[|now| - 1], |now| - 1, r, c.fault);
            var after := if x.Some? then now + [x.value] else now;
            DriveCore(vs, [c] + rest, r) ==
            if r'.Some? && !r'.value.Listed? then DriveCore(after, rest, r'.value) else after
  {
    assert ([c] + rest)[1..] == rest;
  }

  function CoreMeasure(r: CoreRun): nat {
    if r.Listed? then 0
    else 2 * (if r.attempt < MAX_ATTEMPTS then MAX_ATTEMPTS - r.attempt else 0) + if r.Writing? then 0 else 1
  }

  lemma CoreOutcomeDescends(last: Status, newest: nat, r: CoreRun, fault: Fault)
    requires !r.Listed?
    ensures var r' := CoreOutcome(last, newest, r, fault).1;
            r'.Some? ==> !r'.value.Listed? && CoreMeasure(r'.value) < CoreMeasure(r)
  {
  }

  /** The run still has calls to make; an error other than a conflict ends it. */
  predicate CoreGoesOn(w: World, id: nat, gap: Gap)
    requires w.Exists() && id in w.core && !w.core[id].Listed?
  {
    var w1 := Exec(w, gap.steps);
    CoreOutcome(w1.Latest(), w1.Newest(), w.core[id], gap.fault).1.Some?
  }

  /** The others' steps and the call, seen from the run. */
  lemma CoreCallEffect(w: World, id: nat, gap: Gap)
    requires w.Exists() && id in w.core && !w.core[id].Listed? && SparesCore(gap.steps, id)
    ensures var w1, w2 := Exec(w, gap.steps), AfterCoreCall(w, id, gap);
            var (x, r') := CoreOutcome(w1.Latest(), w1.Newest(), w.core[id], gap.fault);
            && w2.versions == (if x.Some? then w1.versions + [x.value] else w1.versions)
            && (r'.Some? ==> id in w2.core && w2.core[id] == r'.value && !r'.value.Listed?
                             && CoreMeasure(r'.value) < CoreMeasure(w.core[id]))
  {
    var w1 := Exec(w, gap.steps);
    OthersSpareCore(w, gap.steps, id);
    CoreOutcomeInWorld(w1, id, gap.fault);
    CoreOutcomeDescends(w1.Latest(), w1.Newest(), w.core[id], gap.fault);
  }

  /** What the code meets when the others take the given steps around its calls. */
  function CoreSchedule(w: World, id: nat, gaps: seq<Gap>): seq<Circumstance>
    requires w.Exists() && id in w.core && !w.core[id].Listed? && GapsSpareCore(gaps, id)
    decreases CoreMeasure(w.core[id])
  {
    var gap := FirstGap(gaps);
    [Circumstance(NewVersions(w, gap.steps), gap.fault)] +
    if CoreGoesOn(w, id, gap) then
      CoreCallEffect(w, id, gap);
      CoreSchedule(AfterCoreCall(w, id, gap), id, OtherGaps(gaps))
    else []
  }

  /** And the protocol run that is. */
  function CoreStory(w: World, id: nat, gaps: seq<Gap>): seq<Step>
    requires w.Exists() && id in w.core && !w.core[id].Listed? && GapsSpareCore(gaps, id)
    decreases CoreMeasure(w.core[id])
  {
    var gap := FirstGap(gaps);
    gap.steps + [CoreCall(w.core[id], gap.fault, id)] +
    if CoreGoesOn(w, id, gap) then
      CoreCallEffect(w, id, gap);
      CoreStory(AfterCoreCall(w, id, gap), id, OtherGaps(gaps))
    else []
  }

  /** The history right after the call, as the driver sees it. */
  lemma DrivenOnce(w: World, id: nat, gap: Gap, rest: seq<Circumstance>)
    requires w.Exists() && id in w.core && !w.core[id].Listed? && SparesCore(gap.steps, id)
    ensures var w2 := AfterCoreCall(w, id, gap);
            DriveCore(w.versions, [Circumstance(NewVersions(w, gap.steps), gap.fault)] + rest, w.core[id]) ==
            if CoreGoesOn(w, id, gap) && id in w2.core && !w2.core[id].Listed?
            then DriveCore(w2.versions, rest, w2.core[id])
            else w2.versions
  {
    NewVersionsAreNew(w, gap.steps);
    CoreCallEffect(w, id, gap);
    CoreOutcomeInDriver(w.versions, Circumstance(NewVersions(w, gap.steps), gap.fault), rest, w.core[id]);
  }

  lemma ToldOnce(w: World, id: nat, gap: Gap, rest: seq<Step>)
    requires w.Exists() && id in w.core
    ensures Exec(w, gap.steps + [CoreCall(w.core[id], gap.fault, id)] + rest) == Exec(AfterCoreCall(w, id, gap), rest)
  {
    var call := CoreCall(w.core[id], gap.fault, id);
    ExecThen(w, gap.steps, Exec(w, gap.steps), call, AfterCoreCall(w, id, gap));
    ExecSplits(w, gap.steps + [call], rest);
  }

  /** The core's code, amid any protocol steps of others, makes a protocol run. */
  lemma {:induction false} CoreCodeIsARun(w: World, id: nat, gaps: seq<Gap>)
    requires w.Exists() && id in w.core && !w.core[id].Listed? && GapsSpareCore(gaps, id)
    ensures DriveCore(w.versions, CoreSchedule(w, id, gaps), w.core[id])
            == Exec(w, CoreStory(w, id, gaps)).versions
    decreases CoreMeasure(w.core[id])
  {
    var gap, gaps' := FirstGap(gaps), OtherGaps(gaps);
    var w2 := AfterCoreCall(w, id, gap);
    CoreCallEffect(w, id, gap);
    if CoreGoesOn(w, id, gap) {
      CoreCodeIsARun(w2, id, gaps');
      DrivenOnce(w, id, gap, CoreSchedule(w2, id, gaps'));
      ToldOnce(w, id, gap, CoreStory(w2, id, gaps'));
    } else {
      DrivenOnce(w, id, gap, []);
      ToldOnce(w, id, gap, []);
    }
  }

  /**
   The whole `Reconcile` of the core controller, from the cached version it
   lists to its last attempt: exactly what the method's contract says it
   leaves stored is what a protocol run leaves stored.
   */
  lemma CoreReconcileIsARun(w: World, id: nat, v: nat, gaps: seq<Gap>)
    returns (schedule: seq<Circumstance>, story: seq<Step>)
    requires w.Exists() && id !in w.core && v < |w.versions| && GapsSpareCore(gaps, id)
    ensures var desired := Desired(w.versions[v], w.Age());
            && AfterUpdate(w.versions, schedule, v, w.versions[v], w.now, desired) == Exec(w, story).versions
            && (desired == w.versions[v] ==> story == [])
            && (desired != w.versions[v] ==>
                  var ready := Exec(w, Look(id, v));
                  && id in ready.core && ready.core[id].Writing?
                  && schedule == CoreSchedule(ready, id, gaps)
                  && story == Look(id, v) + CoreStory(ready, id, gaps))
  {
    var desired := Desired(w.versions[v], w.Age());
    if desired == w.versions[v] {
      schedule, story := [], [];
    } else {
      LookPrepares(w, id, v);
      var ready := Exec(w, Look(id, v));
      schedule, story := CoreSchedule(ready, id, gaps), Look(id, v) + CoreStory(ready, id, gaps);
      CoreCodeIsARun(ready, id, gaps);
      ExecSplits(w, Look(id, v), CoreStory(ready, id, gaps));
    }
  }

  // A resolver run.

  predicate IsResolverStepOf(s: Step, id: nat) {
    && (s.ResolverList? || s.Resolve? || s.Fail? || s.Patch? || s.PatchError?
        || s.FailGet? || s.FailPut? || s.ResolverDrop?)
    && s.run == id
  }

  predicate SparesResolver(steps: seq<Step>, id: nat) {
    forall i | 0 <= i < |steps| :: !IsResolverStepOf(steps[i], id)
  }

  predicate GapsSpareResolver(gaps: seq<Gap>, id: nat) {
    forall i | 0 <= i < |gaps| :: SparesResolver(gaps[i].steps, id)
  }

  lemma NextSparesResolver(w: World, s: Step, id: nat)
    requires w.Exists() && !IsResolverStepOf(s, id)
    ensures id in Next(w, s).resolvers <==> id in w.resolvers
    ensures id in w.resolvers ==> Next(w, s).resolvers[id] == w.resolvers[id]
  {
  }

  lemma {:induction false} OthersSpareResolver(w: World, steps: seq<Step>, id: nat)
    requires w.Exists() && SparesResolver(steps, id) && id in w.resolvers
    ensures id in Exec(w, steps).resolvers && Exec(w, steps).resolvers[id] == w.resolvers[id]
    decreases |steps|
  {
    if steps != [] {
      OthersSpareResolver(w, steps[..|steps| - 1], id);
      NextSparesResolver(Exec(w, steps[..|steps| - 1]), steps[|steps| - 1], id);
    }
  }

  /** The protocol step an API call of the framework's code amounts to. */
  function ResolverCall(r: ResolverRun, fault: Fault, id: nat, key: string): Step {
    match r
    case Resolving => ResolverDrop(id)
    case Patching(_) => if fault.Healthy? then Patch(id) else PatchError(id, fault.Lost?, fault.error, key)
    case Failing(_) => if fault.Healthy? then FailGet(id) else ResolverDrop(id)
    case Marking(_, _) => if fault.Refused? then ResolverDrop(id) else FailPut(id)
  }

  function AfterResolverCall(w: World, id: nat, gap: Gap, key: string): World
    requires w.Exists() && id in w.resolvers
  {
    Next(Exec(w, gap.steps), ResolverCall(w.resolvers[id], gap.fault, id, key))
  }

  function ResolverMeasure(r: ResolverRun): nat {
    match r case Resolving => 0 case Marking(_, _) => 1 case Failing(_) => 2 case Patching(_) => 3
  }

  /** The version and the state one call of the framework's code leaves, from the world it meets. */
  function CallOutcome(last: Status, newest: nat, r: ResolverRun, fault: Fault, key: string)
    : (Option<Status>, Option<ResolverRun>)
  {
    match r
    case Resolving => (None, None)
    case Patching(resource) =>
      (if fault.Refused? then None else Some(Patched(last, resource)),
       if fault.Healthy? then None else Some(Failing(Reported(PatchFailed(fault.error), key))))
    case Failing(error) => (None, if !fault.Healthy? || IsDone(last) then None else Some(Marking(newest, error)))
    case Marking(existing, error) =>
      (if !fault.Refused? && existing == newest then Some(FailedWith(last, error)) else None, None)
  }

  lemma CallOutcomeInWorld(w: World, id: nat, fault: Fault, key: string)
    requires w.Exists() && id in w.resolvers
    ensures var (x, r') := CallOutcome(w.Latest(), w.Newest(), w.resolvers[id], fault, key);
            var w' := Next(w, ResolverCall(w.resolvers[id], fault, id, key));
            && w'.versions == (if x.Some? then w.versions + [x.value] else w.versions)
            && (id in w'.resolvers <==> r'.Some?)
            && (r'.Some? ==> w'.resolvers[id] == r'.value)
  {
  }

  lemma {:induction false} CallOutcomeInDriver(vs: seq<Status>, c: Circumstance, rest: seq<Circumstance>,
                                               r: ResolverRun, key: string)
    requires vs != [] && !r.Resolving?
    ensures var now := vs + c.before;
            var (x, r') := CallOutcome(now[|now| - 1], |now| - 1, r, c.fault, key);
            var after := if x.Some? then now + [x.value] else now;
            DriveResolver(vs, [c] + rest, r, key) ==
            if r'.Some? then DriveResolver(after, rest, r'.value, key) else after
  {
    assert ([c] + rest)[1..] == rest;
  }

  lemma CallOutcomeDescends(last: Status, newest: nat, r: ResolverRun, fault: Fault, key: string)
    ensures var r' := CallOutcome(last, newest, r, fault, key).1;
            r'.Some? ==> !r'.value.Resolving? && ResolverMeasure(r'.value) < ResolverMeasure(r)
  {
  }

  /** The others' steps and the call, seen from the run. */
  lemma ResolverCallEffect(w: World, id: nat, gap: Gap, key: string)
    requires w.Exists() && id in w.resolvers && SparesResolver(gap.steps, id)
    ensures var w1, w2 := Exec(w, gap.steps), AfterResolverCall(w, id, gap, key);
            var (x, r') := CallOutcome(w1.Latest(), w1.Newest(), w.resolvers[id], gap.fault, key);
            && w2.versions == (if x.Some? then w1.versions + [x.value] else w1.versions)
            && (id in w2.resolvers <==> r'.Some?)
            && (r'.Some? ==> w2.resolvers[id] == r'.value && !r'.value.Resolving?
                             && ResolverMeasure(r'.value) < ResolverMeasure(w.resolvers[id]))
  {
    var w1 := Exec(w, gap.steps);
    OthersSpareResolver(w, gap.steps, id);
    CallOutcomeInWorld(w1, id, gap.fault, key);
    CallOutcomeDescends(w1.Latest(), w1.Newest(), w.resolvers[id], gap.fault, key);
  }

  function ResolverSchedule(w: World, id: nat, gaps: seq<Gap>, key: string): seq<Circumstance>
    requires w.Exists() && id in w.resolvers && !w.resolvers[id].Resolving? && GapsSpareResolver(gaps, id)
    decreases ResolverMeasure(w.resolvers[id])
  {
    var gap := FirstGap(gaps);
    var w2 := AfterResolverCall(w, id, gap, key);
    ResolverCallEffect(w, id, gap, key);
    [Circumstance(NewVersions(w, gap.steps), gap.fault)] +
    if id in w2.resolvers then ResolverSchedule(w2, id, OtherGaps(gaps), key) else []
  }

  function ResolverStory(w: World, id: nat, gaps: seq<Gap>, key: string): seq<Step>
    requires w.Exists() && id in w.resolvers && !w.resolvers[id].Resolving? && GapsSpareResolver(gaps, id)
    decreases ResolverMeasure(w.resolvers[id])
  {
    var gap := FirstGap(gaps);
    var w2 := AfterResolverCall(w, id, gap, key);
    ResolverCallEffect(w, id, gap, key);
    gap.steps + [ResolverCall(w.resolvers[id], gap.fault, id, key)] +
    if id in w2.resolvers then ResolverStory(w2, id, OtherGaps(gaps), key) else []
  }

  lemma ResolverToldOnce(w: World, id: nat, gap: Gap, key: string, rest: seq<Step>)
    requires w.Exists() && id in w.resolvers
    ensures Exec(w, gap.steps + [ResolverCall(w.resolvers[id], gap.fault, id, key)] + rest)
            == Exec(AfterResolverCall(w, id, gap, key), rest)
  {
    var call := ResolverCall(w.resolvers[id], gap.fault, id, key);
    ExecThen(w, gap.steps, Exec(w, gap.steps), call, AfterResolverCall(w, id, gap, key));
    ExecSplits(w, gap.steps + [call], rest);
  }

  lemma ResolverDrivenOnce(w: World, id: nat, gap: Gap, key: string, rest: seq<Circumstance>)
    requires w.Exists() && id in w.resolvers && !w.resolvers[id].Resolving? && SparesResolver(gap.steps, id)
    ensures var w2 := AfterResolverCall(w, id, gap, key);
            var c := Circumstance(NewVersions(w, gap.steps), gap.fault);
            DriveResolver(w.versions, [c] + rest, w.resolvers[id], key) ==
            if id in w2.resolvers then DriveResolver(w2.versions, rest, w2.resolvers[id], key) else w2.versions
  {
    NewVersionsAreNew(w, gap.steps);
    ResolverCallEffect(w, id, gap, key);
    CallOutcomeInDriver(w.versions, Circumstance(NewVersions(w, gap.steps), gap.fault), rest, w.resolvers[id], key);
  }

  /** The framework's code, amid any protocol steps of others, makes a protocol run. */
  lemma {:induction false} ResolverCodeIsARun(w: World, id: nat, gaps: seq<Gap>, key: string)
    requires w.Exists() && id in w.resolvers && !w.resolvers[id].Resolving? && GapsSpareResolver(gaps, id)
    ensures DriveResolver(w.versions, ResolverSchedule(w, id, gaps, key), w.resolvers[id], key)
            == Exec(w, ResolverStory(w, id, gaps, key)).versions
    decreases ResolverMeasure(w.resolvers[id])
  {
    var gap, gaps' := FirstGap(gaps), OtherGaps(gaps);
    var w2 := AfterResolverCall(w, id, gap, key);
    ResolverCallEffect(w, id, gap, key);
    if id in w2.resolvers {
      ResolverCodeIsARun(w2, id, gaps', key);
      ResolverDrivenOnce(w, id, gap, key, ResolverSchedule(w2, id, gaps', key));
      ResolverToldOnce(w, id, gap, key, ResolverStory(w2, id, gaps', key));
    } else {
      ResolverDrivenOnce(w, id, gap, key, []);
      ResolverToldOnce(w, id, gap, key, []);
    }
  }

  /** Whatever the race inside `resolve` decides is a protocol step of its resolver run. */
  lemma VerdictIsAStep(key: string, race: seq<ResolveRace.RaceStep>, w: World, id: nat) returns (s: Step)
    requires w.Exists() && id in w.resolvers && w.resolvers[id] == Resolving
    requires ResolveRace.Run(ResolveRace.Start(key), race).verdicts != []
    ensures var v := ResolveRace.Run(ResolveRace.Start(key), race).verdicts[0];
            && !v.UnknownError?
            && id in Next(w, s).resolvers && Next(w, s).resolvers[id] == AfterVerdict(v)
            && Next(w, s).versions == w.versions
  {
    ResolveRace.RaceIsSafe(key, race);
    var v := ResolveRace.Run(ResolveRace.Start(key), race).verdicts[0];
    if v.WriteData? {
      s := Resolve(id, v.resource);
    } else {
      assert ResolveRace.OnError(v.error) in ResolveRace.Run(ResolveRace.Start(key), race).verdicts;
      var f: Failure :| !f.PatchFailed? && v.error == Reported(f, key);
      s := Fail(id, f, key);
    }
  }

  /** The same circumstances, for code that began before the first `extra` versions were stored. */
  function BegunEarlier(extra: seq<Status>, schedule: seq<Circumstance>): seq<Circumstance>
    requires schedule != []
  {
    [schedule[0].(before := extra + schedule[0].before)] + schedule[1..]
  }

  /** The driver sees only the history at its first call, not when it was stored. */
  lemma DrivenFromNow(vs: seq<Status>, c: Circumstance, vs': seq<Status>, c': Circumstance,
                      rest: seq<Circumstance>, r: ResolverRun, key: string)
    requires vs != [] && vs' != [] && !r.Resolving?
    requires vs + c.before == vs' + c'.before && c.fault == c'.fault
    ensures DriveResolver(vs, [c] + rest, r, key) == DriveResolver(vs', [c'] + rest, r, key)
  {
    CallOutcomeInDriver(vs, c, rest, r, key);
    CallOutcomeInDriver(vs', c', rest, r, key);
  }

  lemma DrivenEarlier(vs: seq<Status>, extra: seq<Status>, schedule: seq<Circumstance>, r: ResolverRun, key: string)
    requires vs != [] && schedule != [] && !r.Resolving?
    ensures DriveResolver(vs, BegunEarlier(extra, schedule), r, key) == DriveResolver(vs + extra, schedule, r, key)
  {
    var c := schedule[0];
    assert schedule == [c] + schedule[1..];
    assert vs + (extra + c.before) == (vs + extra) + c.before;
    DrivenFromNow(vs, c.(before := extra + c.before), vs + extra, c, schedule[1..], r, key);
  }

  /** Listing a version and waiting, until the race inside `resolve` has its verdict. */
  lemma RaceIsRun(w: World, id: nat, v: nat, key: string, race: seq<ResolveRace.RaceStep>, during: seq<Step>)
    returns (s: Step)
    requires w.Exists() && id !in w.resolvers && v < |w.versions| && !IsDone(w.versions[v])
    requires SparesResolver(during, id) && ResolveRace.Run(ResolveRace.Start(key), race).verdicts != []
    ensures var verdict := ResolveRace.Run(ResolveRace.Start(key), race).verdicts[0];
            var ready := Exec(w, [ResolverList(id, v)] + during + [s]);
            && !verdict.UnknownError?
            && ready.versions == Exec(w, [ResolverList(id, v)] + during).versions
            && id in ready.resolvers && ready.resolvers[id] == AfterVerdict(verdict)
  {
    var start := Next(w, ResolverList(id, v));
    OneStep(w, ResolverList(id, v));
    ExecSplits(w, [ResolverList(id, v)], during);
    OthersSpareResolver(start, during, id);
    s := VerdictIsAStep(key, race, Exec(start, during), id);
    ExecThen(w, [ResolverList(id, v)] + during, Exec(start, during), s, Next(Exec(start, during), s));
  }

  /**
   The whole `Reconcile` of the framework, from the cached version it lists,
   through the race inside `resolve`, to its last call: exactly what the
   method's contract says it leaves stored is what a protocol run leaves
   stored.
   */
  lemma ResolverReconcileIsARun(w: World, id: nat, v: nat, key: string, race: seq<ResolveRace.RaceStep>,
                                during: seq<Step>, gaps: seq<Gap>)
    returns (schedule: seq<Circumstance>, story: seq<Step>)
    requires w.Exists() && id !in w.resolvers && v < |w.versions|
    requires SparesResolver(during, id) && GapsSpareResolver(gaps, id)
    requires ResolveRace.Run(ResolveRace.Start(key), race).verdicts != []
    ensures var verdict := ResolveRace.Run(ResolveRace.Start(key), race).verdicts[0];
            && !verdict.UnknownError?
            && AfterReconcile(w.versions, schedule, None, Some(w.versions[v]), verdict, key) == Exec(w, story).versions
    ensures IsDone(w.versions[v]) ==> story == []
    ensures !IsDone(w.versions[v]) ==>
              exists s :: var ready := Exec(w, [ResolverList(id, v)] + during + [s]);
                && id in ready.resolvers && !ready.resolvers[id].Resolving?
                && story == [ResolverList(id, v)] + during + [s] + ResolverStory(ready, id, gaps, key)
                && schedule == BegunEarlier(NewVersions(w, [ResolverList(id, v)] + during),
                                            ResolverSchedule(ready, id, gaps, key))
  {
    if IsDone(w.versions[v]) {
      ResolveRace.RaceIsSafe(key, race);
      schedule, story := [], [];
    } else {
      var s := RaceIsRun(w, id, v, key, race, during);
      var wait := [ResolverList(id, v)] + during;
      var ready := Exec(w, wait + [s]);
      story := wait + [s] + ResolverStory(ready, id, gaps, key);
      schedule := BegunEarlier(NewVersions(w, wait), ResolverSchedule(ready, id, gaps, key));
      ResolverCodeIsARun(ready, id, gaps, key);
      NewVersionsAreNew(w, wait);
      DrivenEarlier(w.versions, NewVersions(w, wait), ResolverSchedule(ready, id, gaps, key),
                    ready.resolvers[id], key);
      ExecSplits(w, wait + [s], ResolverStory(ready, id, gaps, key));
    }
  }
}
