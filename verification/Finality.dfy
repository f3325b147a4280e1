/**
 When a settled request stays settled.  Two things can undo it: a core run
 that retries with a status computed from an old snapshot, and the core
 controller's first look at a request that failed before it was observed.
 */
module Finality {
  import opened Common
  import opened Lifecycle
  import opened Errors
  import opened Base64
  import opened Protocol
  import opened Integrity
  import Tearing

  // Who may change a settled condition.

  /** A core update is accepted although its snapshot gave no reason to leave the condition alone. */
  predicate Undoes(w: World, s: Step)
    requires w.Exists()
  {
    s.CorePut? && PutAccepted(w, s.run) && w.core[s.run].snapshot < |w.versions| &&
    var r := w.core[s.run];
    !Observed(w.versions[r.snapshot]) || (r.attempt > 0 && !IsDone(w.versions[r.snapshot]))
  }

  lemma AcceptedPutUndoes(w: World, run: nat)
    requires Inv(w) && IsDone(w.Latest()) && PutAccepted(w, run)
    ensures w.core[run].desired.condition != w.Latest().condition ==> Undoes(w, CorePut(run))
  {
    var r := w.core[run];
    assert CoreRunOk(w, r);
    DesiredIsDecided(w.versions[r.snapshot], r.readAt - w.Created());
  }

  lemma OnlyCoreUndoes(w: World, s: Step)
    requires Inv(w) && IsDone(w.Latest())
    ensures Next(w, s).Latest().condition != w.Latest().condition ==> Undoes(w, s)
  {
    if s.CorePut? && PutAccepted(w, s.run) {
      AcceptedPutUndoes(w, s.run);
    } else if s.FailPut? && s.run in w.resolvers {
      assert ResolverRunOk(w, w.resolvers[s.run]);
    }
    assert Next(w, s).Latest() == if Stored(w, s).Some? then Stored(w, s).value else w.Latest();
  }

  /**
   Blame: in every run, the only step that changes the condition of a settled
   request is a core status update whose snapshot was not yet observed, or was
   not settled and is being retried after a conflict.
   */
  lemma Blame(born: int, steps: seq<Step>, s: Step)
    ensures var w := Exec(Create(born), steps);
            IsDone(w.Latest()) && Next(w, s).Latest().condition != w.Latest().condition ==> Undoes(w, s)
  {
    Reachable(born, steps);
    var w := Exec(Create(born), steps);
    if IsDone(w.Latest()) {
      OnlyCoreUndoes(w, s);
    }
  }

  // Runs in which every core update that is accepted is a first attempt.

  predicate FirstTry(w: World, s: Step)
    requires w.Exists()
  {
    s.CorePut? && PutAccepted(w, s.run) ==> w.core[s.run].attempt == 0
  }

  /** Step `i` of the run is not an accepted retry. */
  predicate FirstTryAt(w: World, steps: seq<Step>, i: nat)
    requires w.Exists() && i < |steps|
  {
    FirstTry(Exec(w, steps[..i]), steps[i])
  }

  predicate FirstTries(w: World, steps: seq<Step>)
    requires w.Exists()
  {
    forall i | 0 <= i < |steps| :: FirstTryAt(w, steps, i)
  }

  lemma FirstTryInPrefix(w: World, a: seq<Step>, b: seq<Step>, i: nat)
    requires w.Exists() && i < |a|
    ensures FirstTryAt(w, a + b, i) == FirstTryAt(w, a, i)
  {
    assert (a + b)[..i] == a[..i];
  }

  lemma FirstTryInSuffix(w: World, a: seq<Step>, mid: World, b: seq<Step>, i: nat)
    requires w.Exists() && Exec(w, a) == mid && |a| <= i < |a + b| && FirstTryAt(mid, b, i - |a|)
    ensures FirstTryAt(w, a + b, i)
  {
    assert (a + b)[..i] == a + b[..i - |a|];
    ExecSplits(w, a, b[..i - |a|]);
  }

  lemma FirstTriesInPrefix(w: World, a: seq<Step>, b: seq<Step>)
    requires w.Exists() && FirstTries(w, a)
    ensures forall i | 0 <= i < |a| :: FirstTryAt(w, a + b, i)
  {
    forall i | 0 <= i < |a| ensures FirstTryAt(w, a + b, i) {
      FirstTryInPrefix(w, a, b, i);
    }
  }

  lemma FirstTriesInSuffix(w: World, a: seq<Step>, mid: World, b: seq<Step>)
    requires w.Exists() && Exec(w, a) == mid && FirstTries(mid, b)
    ensures forall i | |a| <= i < |a + b| :: FirstTryAt(w, a + b, i)
  {
    forall i | |a| <= i < |a + b| ensures FirstTryAt(w, a + b, i) {
      assert FirstTryAt(mid, b, i - |a|);
      FirstTryInSuffix(w, a, mid, b, i);
    }
  }

  /** First attempts up to some point and from it on are first attempts throughout. */
  lemma FirstTriesJoin(w: World, a: seq<Step>, mid: World, b: seq<Step>)
    requires w.Exists() && Exec(w, a) == mid && FirstTries(w, a) && FirstTries(mid, b)
    ensures FirstTries(w, a + b)
  {
    FirstTriesInPrefix(w, a, b);
    FirstTriesInSuffix(w, a, mid, b);
  }

  lemma FirstTriesThen(w: World, steps: seq<Step>, here: World, s: Step)
    requires w.Exists() && FirstTries(w, steps) && Exec(w, steps) == here && FirstTry(here, s)
    ensures FirstTries(w, steps + [s])
  {
    assert [s][..0] == [];
    assert FirstTryAt(here, [s], 0);
    FirstTriesJoin(w, steps, here, [s]);
  }

  lemma FirstTriesBefore(w: World, steps: seq<Step>)
    requires w.Exists() && steps != [] && FirstTries(w, steps)
    ensures FirstTries(w, steps[..|steps| - 1])
    ensures FirstTry(Exec(w, steps[..|steps| - 1]), steps[|steps| - 1])
  {
    var front, last := steps[..|steps| - 1], steps[|steps| - 1];
    assert steps == front + [last];
    forall i | 0 <= i < |front| ensures FirstTryAt(w, front, i) {
      FirstTryInPrefix(w, front, [last], i);
    }
    assert FirstTryAt(w, steps, |front|);
  }

  lemma OtherStepsAreFirstTries(w: World, steps: seq<Step>)
    requires w.Exists() && forall i | 0 <= i < |steps| :: !steps[i].CorePut?
    ensures FirstTries(w, steps)
  {
  }

  lemma OneStep(w: World, s: Step)
    requires w.Exists()
    ensures Exec(w, [s]) == Next(w, s)
  {
    ExecOne(w, [s], Next(w, s));
  }

  lemma FirstTryKeepsSettled(w: World, s: Step)
    requires Inv(w) && IsDone(w.Latest()) && Observed(w.Latest()) && FirstTry(w, s)
    ensures Next(w, s).Latest().condition == w.Latest().condition
  {
    if s.CorePut? && PutAccepted(w, s.run) {
      assert CoreRunOk(w, w.core[s.run]);
    }
    OnlyCoreUndoes(w, s);
  }

  /** No writer ever takes the observed generation back. */
  lemma ObservedIsKept(w: World, s: Step)
    requires Inv(w) && Observed(w.Latest())
    ensures Observed(Next(w, s).Latest())
  {
    if s.CorePut? && PutAccepted(w, s.run) {
      assert CoreRunOk(w, w.core[s.run]);
    }
  }

  lemma {:induction false} FirstTriesKeepSettled(w: World, steps: seq<Step>)
    requires Inv(w) && IsDone(w.Latest()) && Observed(w.Latest()) && FirstTries(w, steps)
    ensures Exec(w, steps).Latest().condition == w.Latest().condition
    ensures Observed(Exec(w, steps).Latest())
    decreases |steps|
  {
    if steps != [] {
      var front := steps[..|steps| - 1];
      FirstTriesBefore(w, steps);
      FirstTriesKeepSettled(w, front);
      RunKeepsInv(w, front);
      FirstTryKeepsSettled(Exec(w, front), steps[|steps| - 1]);
      ObservedIsKept(Exec(w, front), steps[|steps| - 1]);
    }
  }

  /** No continuation made of first attempts changes the condition. */
  ghost predicate Final(w: World)
    requires w.Exists()
  {
    forall more :: FirstTries(w, more) ==> Exec(w, more).Latest().condition == w.Latest().condition
  }

  lemma FreshRun<V>(runs: map<nat, V>) returns (id: nat)
    ensures id !in runs
  {
    var ids := runs.Keys;
    id := 0;
    while ids != {}
      invariant forall k | k in runs && k !in ids :: k < id
      decreases ids
    {
      var k :| k in ids;
      ids := ids - {k};
      if k >= id { id := k + 1; }
    }
  }

  /** A core run lists version `v` and computes what it wants. */
  function Look(id: nat, v: nat): seq<Step> {
    [CoreList(id, v), CoreProcess(id)]
  }

  lemma ListStep(w: World, id: nat, v: nat)
    requires w.Exists() && id !in w.core && v < |w.versions|
    ensures Next(w, CoreList(id, v)) == w.(core := w.core[id := Listed(v)])
  {
  }

  lemma ProcessStep(w: World, id: nat, v: nat)
    requires w.Exists() && v < |w.versions| && Desired(w.versions[v], w.Age()) != w.versions[v]
    ensures Next(w.(core := w.core[id := Listed(v)]), CoreProcess(id)) ==
            w.(core := w.core[id := Writing(v, w.now, Desired(w.versions[v], w.Age()), 0, v)])
  {
    var r := Writing(v, w.now, Desired(w.versions[v], w.Age()), 0, v);
    assert w.core[id := Listed(v)][id := r] == w.core[id := r];
  }

  lemma LookEnds(w: World, id: nat, v: nat, look: seq<Step>, w1: World, w2: World)
    requires w.Exists() && look == Look(id, v)
    requires Next(w, CoreList(id, v)) == w1 && Next(w1, CoreProcess(id)) == w2
    ensures Exec(w, look) == w2 && FirstTries(w, look)
  {
    ExecTwo(w, look, w1, w2);
    OtherStepsAreFirstTries(w, look);
  }

  lemma LookPrepares(w: World, id: nat, v: nat)
    requires w.Exists() && id !in w.core && v < |w.versions|
    requires Desired(w.versions[v], w.Age()) != w.versions[v]
    ensures Exec(w, Look(id, v)) ==
            w.(core := w.core[id := Writing(v, w.now, Desired(w.versions[v], w.Age()), 0, v)])
    ensures FirstTries(w, Look(id, v))
  {
    ListStep(w, id, v);
    ProcessStep(w, id, v);
    LookEnds(w, id, v, Look(id, v), w.(core := w.core[id := Listed(v)]),
             w.(core := w.core[id := Writing(v, w.now, Desired(w.versions[v], w.Age()), 0, v)]));
  }

  /** A core run that works on the newest version and meets no other writer. */
  lemma FreshLookWrites(w: World, id: nat)
    requires w.Exists() && id !in w.core && Desired(w.Latest(), w.Age()) != w.Latest()
    ensures var look := Look(id, w.Newest()) + [CorePut(id)];
            FirstTries(w, look) &&
            Exec(w, look) == w.(versions := w.versions + [Desired(w.Latest(), w.Age())])
  {
    var look := Look(id, w.Newest());
    LookPrepares(w, id, w.Newest());
    var w' := Exec(w, look);
    PutStep(w, id, w'.core[id]);
    ExecThen(w, look, w', CorePut(id), Next(w', CorePut(id)));
    FirstTriesThen(w, look, w', CorePut(id));
  }

  lemma PutStep(w: World, id: nat, r: CoreRun)
    requires w.Exists() && id !in w.core && r.Writing? && r.existing == w.Newest()
    ensures Next(w.(core := w.core[id := r]), CorePut(id)) == w.(versions := w.versions + [r.desired])
  {
    assert w.core[id := r] - {id} == w.core;
  }

  /**
   Finality, exactly: when core updates commit on their first attempt, the
   condition of a settled request is final if and only if the core controller
   has observed the request.
   */
  lemma FinalIffObserved(born: int, steps: seq<Step>)
    requires IsDone(Exec(Create(born), steps).Latest())
    ensures var w := Exec(Create(born), steps);
            Final(w) <==> Observed(w.Latest())
  {
    Reachable(born, steps);
    var w := Exec(Create(born), steps);
    if Observed(w.Latest()) {
      forall more | FirstTries(w, more) ensures Exec(w, more).Latest().condition == w.Latest().condition {
        FirstTriesKeepSettled(w, more);
      }
    } else {
      var id := FreshRun(w.core);
      assert StatusOk(w, w.Latest());
      DesiredIsDecided(w.Latest(), w.Age());
      assert |REASON_FAILED| != |REASON_TIMED_OUT|;
      FreshLookWrites(w, id);
    }
  }

  /** Parameters are rejected before the core controller has seen the request. */
  function EarlyFailure(error: GoError): seq<Step> {
    [ResolverList(0, 0), Fail(0, ParamsRejected(error), "ns/name"), FailGet(0), FailPut(0)]
  }

  lemma EarlyRejection(born: int, error: GoError)
    ensures Exec(Create(born), EarlyFailure(error)[..2]) ==
            Create(born).(resolvers := map[0 := Failing(Reported(ParamsRejected(error), "ns/name"))])
  {
    var w0, steps := Create(born), EarlyFailure(error);
    var w1 := w0.(resolvers := map[0 := Resolving]);
    OneStep(w0, steps[0]);
    ExecThen(w0, [steps[0]], w1, steps[1], Next(w1, steps[1]));
    assert [steps[0]] + [steps[1]] == steps[..2];
  }

  lemma EarlyFailureRuns(born: int, error: GoError)
    ensures var e := Reported(ParamsRejected(error), "ns/name");
            Exec(Create(born), EarlyFailure(error)) ==
            Create(born).(versions := [EMPTY_STATUS, FailedWith(EMPTY_STATUS, e)])
  {
    var w0, steps := Create(born), EarlyFailure(error);
    var e := Reported(ParamsRejected(error), "ns/name");
    var w2 := w0.(resolvers := map[0 := Failing(e)]);
    var w3 := w0.(resolvers := map[0 := Marking(0, e)]);
    var w4 := w0.(versions := [EMPTY_STATUS, FailedWith(EMPTY_STATUS, e)]);
    EarlyRejection(born, error);
    ExecThen(w0, steps[..2], w2, steps[2], w3);
    assert steps[..2] + [steps[2]] == steps[..3];
    ExecThen(w0, steps[..3], w3, steps[3], w4);
    assert steps == steps[..3] + [steps[3]];
  }

  lemma RejectionIsRead(w: World, error: GoError)
    requires w.versions == [EMPTY_STATUS, FailedWith(EMPTY_STATUS, Reported(ParamsRejected(error), "ns/name"))]
    ensures Submit(w.Latest()) ==
            Answer.Error("ResolutionFailed", "invalid resource request " + "ns/name" + ": " + error.Message())
  {
  }

  /** What the caller then reads, in full. */
  lemma EarlyFailureIsRead(born: int, error: GoError)
    ensures Submit(Exec(Create(born), EarlyFailure(error)).Latest()) ==
            Answer.Error("ResolutionFailed", "invalid resource request " + "ns/name" + ": " + error.Message())
  {
    EarlyFailureRuns(born, error);
    RejectionIsRead(Exec(Create(born), EarlyFailure(error)), error);
  }

  /** Such a failure is stored, and is not final. */
  lemma EarlyFailureIsNotFinal(born: int, error: GoError)
    ensures var w := Exec(Create(born), EarlyFailure(error));
            w.Latest().condition.Failed? && !Final(w)
  {
    EarlyFailureRuns(born, error);
    FinalIffObserved(born, EarlyFailure(error));
  }

  // The whole history of a first-attempt run, as callers read it.

  predicate SettledFrom(vs: seq<Status>, i: nat, j: nat)
    requires i <= j < |vs|
  {
    Observed(vs[i]) ==> Observed(vs[j]) && (IsDone(vs[i]) ==> vs[j].condition == vs[i].condition)
  }

  lemma {:induction false} HistorySettles(born: int, steps: seq<Step>, i: nat, j: nat)
    requires FirstTries(Create(born), steps)
    requires i <= j < |Exec(Create(born), steps).versions|
    ensures SettledFrom(Exec(Create(born), steps).versions, i, j)
    decreases |steps|
  {
    if steps != [] {
      var front, last := steps[..|steps| - 1], steps[|steps| - 1];
      FirstTriesBefore(Create(born), steps);
      Reachable(born, front);
      var w := Exec(Create(born), front);
      if j < |w.versions| {
        HistorySettles(born, front, i, j);
      } else if i < |w.versions| {
        HistorySettles(born, front, i, w.Newest());
        if Observed(w.Latest()) {
          ObservedIsKept(w, last);
          if IsDone(w.Latest()) {
            FirstTryKeepsSettled(w, last);
          }
        }
      }
    }
  }

  predicate SameVerdict(a: Answer, b: Answer) {
    (a.Found? && b.Found?) || (a.Error? && a == b)
  }

  /**
   A caller whose cache never moves backwards, in a first-attempt run: a found
   resource stays found, and an error stays the same error unless it was read
   before the core controller had observed the request.
   */
  lemma AnswersAreStable(born: int, steps: seq<Step>, i: nat, j: nat)
    requires FirstTries(Create(born), steps)
    requires i <= j < |Exec(Create(born), steps).versions|
    ensures var vs := Exec(Create(born), steps).versions;
            Submit(vs[i]).Found? || (Submit(vs[i]).Error? && Observed(vs[i])) ==>
              SameVerdict(Submit(vs[i]), Submit(vs[j]))
  {
    Reachable(born, steps);
    var w := Exec(Create(born), steps);
    assert StatusOk(w, w.versions[i]);
    HistorySettles(born, steps, i, j);
  }

  /** The caller has to wait for an unsettled version, or reads the failure stored in it. */
  predicate WaitsOrFailed(s: Status) {
    if s.condition.Failed? then Submit(s) == Answer.Error("ResolutionFailed", s.condition.message)
    else !IsDone(s) && Submit(s) == InProgress
  }

  lemma UnobservedWaits(w: World, s: Status)
    requires StatusOk(w, s) && !Observed(s)
    ensures WaitsOrFailed(s)
  {
  }

  /**
   All the answers to such a caller: while it reads versions the core
   controller has not observed, nothing is found; after that come some number
   of "in progress" answers, and then one verdict only.  Found answers carry
   the same data if the run's calls all returned the same content.
   */
  lemma OneVerdictAtMost(born: int, steps: seq<Step>, seen: seq<nat>) returns (unobserved: nat, pending: nat)
    requires FirstTries(Create(born), steps)
    requires forall i | 0 <= i < |seen| :: seen[i] < |Exec(Create(born), steps).versions|
    requires forall i, j | 0 <= i <= j < |seen| :: seen[i] <= seen[j]
    ensures var vs := Exec(Create(born), steps).versions;
            && unobserved <= pending <= |seen|
            && (forall i | 0 <= i < unobserved :: !Observed(vs[seen[i]]) && WaitsOrFailed(vs[seen[i]]))
            && (forall i | unobserved <= i < pending :: Submit(vs[seen[i]]).InProgress?)
            && (forall i, j | pending <= i <= j < |seen| :: SameVerdict(Submit(vs[seen[i]]), Submit(vs[seen[j]])))
    ensures var w := Exec(Create(born), steps);
            (forall a, b | a in w.results && b in w.results :: a.data == b.data) ==>
              forall i, j | 0 <= i < |seen| && 0 <= j < |seen|
                            && w.versions[seen[i]].condition.Succeeded? && w.versions[seen[j]].condition.Succeeded? ::
                w.versions[seen[i]].data == w.versions[seen[j]].data
  {
    Reachable(born, steps);
    var w := Exec(Create(born), steps);
    var vs := w.versions;
    forall i | 0 <= i < |seen| ensures StatusOk(w, vs[seen[i]]) {}
    unobserved := 0;
    while unobserved < |seen| && !Observed(vs[seen[unobserved]])
      invariant unobserved <= |seen|
      invariant forall i | 0 <= i < unobserved :: !Observed(vs[seen[i]]) && WaitsOrFailed(vs[seen[i]])
    {
      UnobservedWaits(w, vs[seen[unobserved]]);
      unobserved := unobserved + 1;
    }
    pending := unobserved;
    while pending < |seen| && Submit(vs[seen[pending]]).InProgress?
      invariant unobserved <= pending <= |seen|
      invariant forall i | unobserved <= i < pending :: Submit(vs[seen[i]]).InProgress?
    {
      pending := pending + 1;
    }
    forall i, j | pending <= i <= j < |seen| ensures SameVerdict(Submit(vs[seen[i]]), Submit(vs[seen[j]])) {
      HistorySettles(born, steps, seen[unobserved], seen[pending]);
      AnswersAreStable(born, steps, seen[pending], seen[i]);
      AnswersAreStable(born, steps, seen[pending], seen[j]);
    }
  }

  /**
   A failure does not cost the data: if one resolver run has delivered before
   the core controller's first write and another then marks the request
   failed, an undisturbed core run still ends in that very resource.
   */
  lemma DataOutlivesFailure(w: World, id: nat) returns (more: seq<Step>)
    requires w.Exists() && MarkAccepted(w, id) && w.Latest().data != "" && !Observed(w.Latest())
    ensures var s := Exec(w, [FailPut(id)] + more).Latest();
            Submit(s) == Found(s) && s.data == w.Latest().data && s.annotations == w.Latest().annotations
  {
    var w1 := Next(w, FailPut(id));
    OneStep(w, FailPut(id));
    FailureKeepsData(w, id);
    var run := FreshRun(w1.core);
    DesiredIsDecided(w1.Latest(), w1.Age());
    FreshLookWrites(w1, run);
    more := Look(run, w1.Newest()) + [CorePut(run)];
    ExecSplits(w, [FailPut(id)], more);
  }

  /** No continuation made of first attempts changes the caller's verdict. */
  ghost predicate AnswerStays(w: World)
    requires w.Exists()
  {
    forall more :: FirstTries(w, more) ==> SameVerdict(Submit(w.Latest()), Submit(Exec(w, more).Latest()))
  }

  /** A resolver run that works from a stale cache and delivers. */
  function Delivery(id: nat, r: Resource): seq<Step> {
    [ResolverList(id, 0), Resolve(id, r), Patch(id)]
  }

  lemma ResolverListStep(w: World, id: nat)
    requires w.Exists() && w.versions[0] == EMPTY_STATUS && id !in w.resolvers
    ensures Next(w, ResolverList(id, 0)) == w.(resolvers := w.resolvers[id := Resolving])
  {
  }

  lemma ResolveStep(w: World, id: nat, r: Resource)
    requires w.Exists() && id !in w.resolvers
    ensures Next(w.(resolvers := w.resolvers[id := Resolving]), Resolve(id, r)) ==
            w.(resolvers := w.resolvers[id := Patching(r)], results := w.results + {r})
  {
    assert w.resolvers[id := Resolving][id := Patching(r)] == w.resolvers[id := Patching(r)];
  }

  lemma DeliveryResolves(w: World, id: nat, r: Resource)
    requires w.Exists() && w.versions[0] == EMPTY_STATUS && id !in w.resolvers
    ensures Exec(w, Delivery(id, r)[..2]) ==
            w.(resolvers := w.resolvers[id := Patching(r)], results := w.results + {r})
  {
    ResolverListStep(w, id);
    ResolveStep(w, id, r);
    ExecTwo(w, Delivery(id, r)[..2], w.(resolvers := w.resolvers[id := Resolving]),
            w.(resolvers := w.resolvers[id := Patching(r)], results := w.results + {r}));
  }

  lemma PatchStep(w: World, id: nat, r: Resource)
    requires w.Exists() && id !in w.resolvers
    ensures Next(w.(resolvers := w.resolvers[id := Patching(r)], results := w.results + {r}), Patch(id)) ==
            w.(versions := w.versions + [Patched(w.Latest(), r)], results := w.results + {r})
  {
    assert w.resolvers[id := Patching(r)] - {id} == w.resolvers;
  }

  lemma DeliveryPatches(w: World, id: nat, r: Resource)
    requires w.Exists() && w.versions[0] == EMPTY_STATUS && id !in w.resolvers
    ensures Exec(w, Delivery(id, r)) ==
            w.(versions := w.versions + [Patched(w.Latest(), r)], results := w.results + {r})
  {
    DeliveryResolves(w, id, r);
    PatchStep(w, id, r);
    DeliveryEnds(w, id, r, Delivery(id, r)[..2],
                 w.(resolvers := w.resolvers[id := Patching(r)], results := w.results + {r}),
                 w.(versions := w.versions + [Patched(w.Latest(), r)], results := w.results + {r}));
  }

  lemma DeliveryEnds(w: World, id: nat, r: Resource, front: seq<Step>, w2: World, w3: World)
    requires w.Exists() && front == Delivery(id, r)[..2] && Exec(w, front) == w2 && Next(w2, Patch(id)) == w3
    ensures Exec(w, Delivery(id, r)) == w3
  {
    ExecThen(w, front, w2, Patch(id), w3);
    assert front + [Patch(id)] == Delivery(id, r);
  }

  /** The core controller's first look at delivered data succeeds. */
  lemma FirstLookFinds(w: World) returns (more: seq<Step>)
    requires w.Exists() && w.Latest().data != "" && !Observed(w.Latest())
    ensures FirstTries(w, more) && Submit(Exec(w, more).Latest()).Found?
  {
    var id := FreshRun(w.core);
    DesiredIsDecided(w.Latest(), w.Age());
    FreshLookWrites(w, id);
    more := Look(id, w.Newest()) + [CorePut(id)];
  }

  /** The delivery as a run of which only its outcome matters. */
  lemma Delivered(w: World, r: Resource) returns (more: seq<Step>)
    requires w.Exists() && w.versions[0] == EMPTY_STATUS
    ensures FirstTries(w, more) && Tearing.ReturnsOnly(iset{r}, more)
    ensures Exec(w, more).versions == w.versions + [Patched(w.Latest(), r)]
  {
    var id := FreshRun(w.resolvers);
    DeliveryPatches(w, id, r);
    OtherStepsAreFirstTries(w, Delivery(id, r));
    more := Delivery(id, r);
  }

  lemma Delivers(w: World) returns (more: seq<Step>)
    requires w.Exists() && w.versions[0] == EMPTY_STATUS && !Observed(w.Latest())
    ensures FirstTries(w, more) && w.versions < Exec(w, more).versions
    ensures Exec(w, more).Latest().data != "" && !Observed(Exec(w, more).Latest())
  {
    var r := Resource([0], None);
    more := Delivered(w, r);
    DeliveryShows(w, Exec(w, more), r);
  }

  lemma DeliveryShows(w: World, w': World, r: Resource)
    requires w.Exists() && r.data != [] && w'.versions == w.versions + [Patched(w.Latest(), r)]
    ensures w.versions < w'.versions && w'.Latest().data != ""
    ensures Observed(w'.Latest()) == Observed(w.Latest())
  {
  }

  lemma JoinRuns(w: World, a: seq<Step>, mid: World, b: seq<Step>)
    requires w.Exists() && Exec(w, a) == mid && FirstTries(w, a) && FirstTries(mid, b) && w.versions < mid.versions
    ensures FirstTries(w, a + b) && Exec(w, a + b) == Exec(mid, b) && w.versions < Exec(w, a + b).versions
  {
    FirstTriesJoin(w, a, mid, b);
    ExecSplits(w, a, b);
    HistoryGrows(mid, b);
  }

  /**
   A caller can read an error and later find a resource: if the core
   controller has not observed the failed request, another resolver run may
   still deliver, and the core controller's first look then succeeds.
   */
  lemma UnobservedErrorTurnsFound(w: World) returns (more: seq<Step>)
    requires Inv(w) && Submit(w.Latest()).Error? && !Observed(w.Latest())
    ensures FirstTries(w, more) && Submit(Exec(w, more).Latest()).Found?
    ensures w.versions < Exec(w, more).versions
  {
    var delivery := Delivers(w);
    var look := FirstLookFinds(Exec(w, delivery));
    JoinRuns(w, delivery, Exec(w, delivery), look);
    more := delivery + look;
  }

  /**
   The caller's verdict, exactly: with first-attempt commits it never changes
   again if and only if the core controller has observed the request.
   */
  lemma AnswerStaysIffObserved(born: int, steps: seq<Step>)
    requires !Submit(Exec(Create(born), steps).Latest()).InProgress?
    ensures var w := Exec(Create(born), steps);
            AnswerStays(w) <==> Observed(w.Latest())
  {
    Reachable(born, steps);
    var w := Exec(Create(born), steps);
    assert StatusOk(w, w.Latest());
    if Observed(w.Latest()) {
      forall more | FirstTries(w, more)
        ensures SameVerdict(Submit(w.Latest()), Submit(Exec(w, more).Latest()))
      {
        FirstTriesKeepSettled(w, more);
      }
    } else {
      var more := UnobservedErrorTurnsFound(w);
    }
  }

  /** The same on whole histories: the caller that read the error reads on, and finds a resource. */
  lemma ErrorThenFound(born: int, steps: seq<Step>) returns (more: seq<Step>)
    requires FirstTries(Create(born), steps)
    requires Submit(Exec(Create(born), steps).Latest()).Error? && !Observed(Exec(Create(born), steps).Latest())
    ensures FirstTries(Create(born), steps + more)
    ensures Exec(Create(born), steps).versions < Exec(Create(born), steps + more).versions
    ensures Submit(Exec(Create(born), steps + more).Latest()).Found?
  {
    Reachable(born, steps);
    var w := Exec(Create(born), steps);
    more := UnobservedErrorTurnsFound(w);
    FirstTriesJoin(Create(born), steps, w, more);
    ExecSplits(Create(born), steps, more);
  }

  // The data a caller finds.

  /** The data found stays, in continuations whose calls return only the given resources. */
  ghost predicate DataStays(possible: iset<Resource>, w: World)
    requires w.Exists()
  {
    forall more :: FirstTries(w, more) && Tearing.ReturnsOnly(possible, more) ==>
      Exec(w, more).Latest().data == w.Latest().data
  }

  ghost predicate SameContent(possible: iset<Resource>, data: string) {
    forall r :: r in possible ==> Encode(r.data) == data
  }

  /** A settled, observed request whose data every possible result repeats. */
  ghost predicate DataFixed(possible: iset<Resource>, w: World, data: string) {
    && Inv(w) && IsDone(w.Latest()) && Observed(w.Latest()) && w.Latest().data == data
    && SameContent(possible, data)
    && (forall r | r in w.results :: r in possible)
  }

  lemma NoFirstTryOverSettled(w: World, run: nat)
    requires Inv(w) && IsDone(w.Latest()) && Observed(w.Latest())
    ensures !(PutAccepted(w, run) && w.core[run].attempt == 0)
  {
    if run in w.core {
      assert CoreRunOk(w, w.core[run]);
    }
  }

  lemma NextKeepsData(possible: iset<Resource>, w: World, data: string, s: Step)
    requires DataFixed(possible, w, data) && FirstTry(w, s) && (s.Resolve? ==> s.resource in possible)
    ensures DataFixed(possible, Next(w, s), data)
  {
    NextKeepsInv(w, s);
    FirstTryKeepsSettled(w, s);
    ObservedIsKept(w, s);
    if s.CorePut? {
      NoFirstTryOverSettled(w, s.run);
    } else if (s.Patch? || s.PatchError?) && IsPatching(w, s.run) {
      assert ResolverRunOk(w, w.resolvers[s.run]);
    }
  }

  lemma {:induction false} FirstTriesKeepData(possible: iset<Resource>, w: World, data: string, more: seq<Step>)
    requires DataFixed(possible, w, data) && FirstTries(w, more) && Tearing.ReturnsOnly(possible, more)
    ensures DataFixed(possible, Exec(w, more), data)
    decreases |more|
  {
    if more != [] {
      var front, last := more[..|more| - 1], more[|more| - 1];
      FirstTriesBefore(w, more);
      FirstTriesKeepData(possible, w, data, front);
      NextKeepsData(possible, Exec(w, front), data, last);
    }
  }

  lemma {:induction false} ResultsArePossible(possible: iset<Resource>, born: int, steps: seq<Step>)
    requires Tearing.ReturnsOnly(possible, steps)
    ensures forall r | r in Exec(Create(born), steps).results :: r in possible
    decreases |steps|
  {
    if steps != [] {
      ResultsArePossible(possible, born, steps[..|steps| - 1]);
    }
  }

  /**
   Found data, exactly: a late merge patch lands on a succeeded request too, so
   the data a caller has found never changes again, with first-attempt commits,
   if and only if every resource that may be returned has that content.
   */
  lemma FoundDataStaysIff(possible: iset<Resource>, born: int, steps: seq<Step>)
    requires Tearing.ReturnsOnly(possible, steps)
    requires Submit(Exec(Create(born), steps).Latest()).Found?
    ensures var w := Exec(Create(born), steps);
            DataStays(possible, w) <==> SameContent(possible, w.Latest().data)
  {
    Reachable(born, steps);
    var w := Exec(Create(born), steps);
    assert StatusOk(w, w.Latest());
    if SameContent(possible, w.Latest().data) {
      ResultsArePossible(possible, born, steps);
      forall more | FirstTries(w, more) && Tearing.ReturnsOnly(possible, more)
        ensures Exec(w, more).Latest().data == w.Latest().data
      {
        FirstTriesKeepData(possible, w, w.Latest().data, more);
      }
    }
    if DataStays(possible, w) {
      forall r | r in possible ensures Encode(r.data) == w.Latest().data {
        DeliveredContentIsFound(possible, w, r);
      }
    }
  }

  lemma DeliveredContentIsFound(possible: iset<Resource>, w: World, r: Resource)
    requires Inv(w) && DataStays(possible, w) && r in possible
    ensures Encode(r.data) == w.Latest().data
  {
    var more := Delivered(w, r);
    assert Tearing.ReturnsOnly(possible, more);
  }

  // Arbitrary runs: retries with old snapshots included.

  /** The request is settled, under whichever verdict, after every continuation. */
  ghost predicate StaysDone(w: World)
    requires w.Exists()
  {
    forall more :: IsDone(Exec(w, more).Latest())
  }

  /** A core run that cannot store an unsettled status computed before now. */
  predicate Harmless(w: World, r: CoreRun)
    requires w.Exists()
  {
    || r.Listed?
    || IsDone(r.desired)
    || (r.Writing? && r.existing != w.Newest() && r.attempt + 1 >= MAX_ATTEMPTS)
  }

  ghost predicate PastRecall(w: World) {
    && Inv(w)
    && IsDone(w.Latest())
    && w.Age() > MINUTE
    && (forall id | id in w.core :: Harmless(w, w.core[id]))
  }

  lemma OldRequestsAreDecided(s: Status, age: int)
    requires age > MINUTE
    ensures IsDone(Desired(s, age))
  {
    DesiredIsDecided(s, age);
  }

  lemma HarmlessStaysHarmless(w: World, s: Step, id: nat)
    requires PastRecall(w) && id in CoreAfter(w, s)
    ensures Harmless(Next(w, s), CoreAfter(w, s)[id])
  {
    CoreRunAfter(w, s, id);
    if id in w.core {
      assert CoreRunOk(w, w.core[id]) && Harmless(w, w.core[id]);
      if w.core[id].Listed? {
        OldRequestsAreDecided(w.versions[w.core[id].snapshot], w.Age());
      }
    }
  }

  lemma NextKeepsPastRecall(w: World, s: Step)
    requires PastRecall(w)
    ensures PastRecall(Next(w, s))
  {
    var w' := Next(w, s);
    NextKeepsInv(w, s);
    forall id | id in w'.core ensures Harmless(w', w'.core[id]) {
      HarmlessStaysHarmless(w, s, id);
    }
    if s.CorePut? && PutAccepted(w, s.run) {
      assert Harmless(w, w.core[s.run]);
    }
  }

  lemma {:induction false} PastRecallStaysDone(w: World, more: seq<Step>)
    requires PastRecall(w)
    ensures PastRecall(Exec(w, more))
    decreases |more|
  {
    if more != [] {
      PastRecallStaysDone(w, more[..|more| - 1]);
      NextKeepsPastRecall(Exec(w, more[..|more| - 1]), more[|more| - 1]);
    }
  }

  /** A run about to update succeeds at once, or after one re-read. */
  lemma WritingRunOverwrites(w: World, id: nat) returns (more: seq<Step>)
    requires w.Exists() && id in w.core && w.core[id].Writing? && w.core[id].desired != w.Latest()
    requires w.core[id].existing == w.Newest() || w.core[id].attempt + 1 < MAX_ATTEMPTS
    ensures Exec(w, more).Latest() == w.core[id].desired
  {
    more := [CorePut(id)];
    OneStep(w, CorePut(id));
    PutEffect(w, id);
    if w.core[id].existing != w.Newest() {
      var w1 := Exec(w, more);
      var rest := RefetchingRunOverwrites(w1, id);
      ExecSplits(w, [CorePut(id)], rest);
      more := [CorePut(id)] + rest;
    }
  }

  lemma RefetchingRunOverwrites(w: World, id: nat) returns (more: seq<Step>)
    requires w.Exists() && id in w.core && w.core[id].Refetching? && w.core[id].desired != w.Latest()
    ensures Exec(w, more).Latest() == w.core[id].desired
  {
    OneStep(w, CoreGet(id));
    GetEffect(w, id);
    var w1 := Exec(w, [CoreGet(id)]);
    OneStep(w1, CorePut(id));
    PutEffect(w1, id);
    ExecSplits(w, [CoreGet(id)], [CorePut(id)]);
    more := [CoreGet(id)] + [CorePut(id)];
  }

  /** A core run that listed a past version can store what it makes of it over anything. */
  lemma StaleRunStores(w: World, v: nat) returns (more: seq<Step>)
    requires w.Exists() && v < |w.versions| && Desired(w.versions[v], w.Age()) != w.versions[v]
    ensures Exec(w, more).Latest() == Desired(w.versions[v], w.Age())
  {
    if Desired(w.versions[v], w.Age()) == w.Latest() {
      more := [];
    } else {
      var id := FreshRun(w.core);
      LookPrepares(w, id, v);
      var rest := WritingRunOverwrites(Exec(w, Look(id, v)), id);
      ExecSplits(w, Look(id, v), rest);
      more := Look(id, v) + rest;
    }
  }

  /**
   A core run that listed the request's first version can still erase any
   verdict, and the resolved data with it.  Before the deadline it leaves the
   request unsettled, after it a time-out.
   */
  lemma StaleRunErases(w: World) returns (more: seq<Step>)
    requires Inv(w)
    ensures var s := Exec(w, more).Latest();
            && s == EMPTY_STATUS.(condition := s.condition, observedGeneration := GENERATION)
            && if w.Age() <= MINUTE then !IsDone(s) else s.condition == Failed(REASON_TIMED_OUT, MESSAGE_TIMED_OUT)
  {
    DesiredIsDecided(EMPTY_STATUS, w.Age());
    more := StaleRunStores(w, 0);
  }

  /**
   Stability, exactly: a settled request stays settled under all further steps
   if and only if its deadline has passed and no core run still in flight
   carries an unsettled status it can store.
   */
  lemma StaysDoneIff(born: int, steps: seq<Step>)
    requires IsDone(Exec(Create(born), steps).Latest())
    ensures var w := Exec(Create(born), steps);
            StaysDone(w) <==> w.Age() > MINUTE && forall id | id in w.core :: Harmless(w, w.core[id])
  {
    Reachable(born, steps);
    var w := Exec(Create(born), steps);
    if w.Age() <= MINUTE {
      var more := StaleRunErases(w);
      assert !IsDone(Exec(w, more).Latest());
    } else if id :| id in w.core && !Harmless(w, w.core[id]) {
      assert CoreRunOk(w, w.core[id]);
      if w.core[id].Writing? {
        var more := WritingRunOverwrites(w, id);
      } else {
        var more := RefetchingRunOverwrites(w, id);
      }
    } else {
      forall more ensures IsDone(Exec(w, more).Latest()) {
        PastRecallStaysDone(w, more);
      }
    }
  }

  // The caller's verdict under arbitrary runs.

  /** No continuation at all changes the caller's verdict. */
  ghost predicate VerdictStays(w: World)
    requires w.Exists()
  {
    forall more :: SameVerdict(Submit(w.Latest()), Submit(Exec(w, more).Latest()))
  }

  /** The core controller has recorded a failure with the words of a time-out. */
  predicate TimedOut(s: Status) {
    Observed(s) && s.condition.Failed? && s.condition.message == MESSAGE_TIMED_OUT
  }

  /** After the deadline, a core run that lists this version does not make it a success. */
  predicate NeverSucceeds(s: Status) {
    (IsDone(s) && Observed(s)) || s.data == ""
  }

  ghost predicate BeyondSuccess(w: World) {
    && PastRecall(w)
    && TimedOut(w.Latest())
    && (forall v | 0 <= v < |w.versions| :: NeverSucceeds(w.versions[v]))
  }

  /** What a harmless core run stores over a time-out is a time-out. */
  lemma PutTimesOut(w: World, run: nat)
    requires BeyondSuccess(w) && PutAccepted(w, run)
    ensures TimedOut(w.core[run].desired)
  {
    var r := w.core[run];
    assert CoreRunOk(w, r) && Harmless(w, r) && NeverSucceeds(w.versions[r.snapshot]);
    DesiredIsDecided(w.versions[r.snapshot], r.readAt - w.Created());
  }

  lemma NextStaysBeyondSuccess(w: World, s: Step)
    requires BeyondSuccess(w)
    ensures BeyondSuccess(Next(w, s))
  {
    NextKeepsPastRecall(w, s);
    if s.CorePut? && PutAccepted(w, s.run) {
      PutTimesOut(w, s.run);
    } else if s.FailPut? && s.run in w.resolvers {
      assert ResolverRunOk(w, w.resolvers[s.run]);
    }
    assert Stored(w, s).Some? ==> TimedOut(Stored(w, s).value);
  }

  lemma {:induction false} BeyondSuccessForever(w: World, more: seq<Step>)
    requires BeyondSuccess(w)
    ensures BeyondSuccess(Exec(w, more))
    decreases |more|
  {
    if more != [] {
      BeyondSuccessForever(w, more[..|more| - 1]);
      NextStaysBeyondSuccess(Exec(w, more[..|more| - 1]), more[|more| - 1]);
    }
  }

  /** A verdict other than a time-out gives way to one, or to no verdict. */
  lemma OthersGiveWay(w: World)
    requires Inv(w) && IsDone(w.Latest()) && !TimedOut(w.Latest())
    ensures !VerdictStays(w)
  {
    if w.Latest().condition.Failed? && !Observed(w.Latest()) {
      var more := UnobservedErrorTurnsFound(w);
    } else {
      assert StatusOk(w, w.Latest());
      var more := StaleRunErases(w);
    }
  }

  /** Data once stored in an unsettled or unobserved version can still come back as a success. */
  lemma OldDataSucceeds(w: World, v: nat)
    requires Inv(w) && w.Latest().condition.Failed? && v < |w.versions| && !NeverSucceeds(w.versions[v])
    ensures !VerdictStays(w)
  {
    DesiredIsDecided(w.versions[v], w.Age());
    var more := StaleRunStores(w, v);
  }

  /**
   The caller's verdict under all further steps, exactly.  Only a time-out can
   be beyond recall: it is if and only if the deadline has passed, no core run
   in flight carries an unsettled status it can store, and no stored version
   holds data that a core run could still turn into a success.
   */
  lemma VerdictStaysIff(born: int, steps: seq<Step>)
    requires IsDone(Exec(Create(born), steps).Latest())
    ensures var w := Exec(Create(born), steps);
            VerdictStays(w) <==>
            && TimedOut(w.Latest())
            && w.Age() > MINUTE
            && (forall id | id in w.core :: Harmless(w, w.core[id]))
            && (forall v | 0 <= v < |w.versions| :: NeverSucceeds(w.versions[v]))
  {
    Reachable(born, steps);
    var w := Exec(Create(born), steps);
    StaysDoneIff(born, steps);
    if !TimedOut(w.Latest()) {
      OthersGiveWay(w);
    } else if v :| 0 <= v < |w.versions| && !NeverSucceeds(w.versions[v]) {
      OldDataSucceeds(w, v);
    } else if StaysDone(w) {
      forall more ensures SameVerdict(Submit(w.Latest()), Submit(Exec(w, more).Latest())) {
        BeyondSuccessForever(w, more);
      }
    } else {
      var more :| !IsDone(Exec(w, more).Latest());
    }
  }

  /** Such time-outs exist: the one a request meets that nobody but the core controller touches. */
  lemma LonelyTimeoutStays(born: int) returns (steps: seq<Step>)
    ensures var w := Exec(Create(born), steps);
            IsDone(w.Latest()) && VerdictStays(w)
  {
    var late := Create(born).(now := born + MINUTE + 1);
    ExecOne(Create(born), [Tick(MINUTE + 1)], late);
    DesiredIsDecided(EMPTY_STATUS, late.Age());
    FreshLookWrites(late, 0);
    var look := Look(0, 0) + [CorePut(0)];
    ExecSplits(Create(born), [Tick(MINUTE + 1)], look);
    steps := [Tick(MINUTE + 1)] + look;
    VerdictStaysIff(born, steps);
  }

  /** In particular, a found resource is never safe, at any age. */
  lemma NoSuccessIsSafe(born: int, steps: seq<Step>)
    ensures var w := Exec(Create(born), steps);
            Submit(w.Latest()).Found? ==> !VerdictStays(w)
  {
    if Submit(Exec(Create(born), steps).Latest()).Found? {
      VerdictStaysIff(born, steps);
    }
  }

  /**
   In particular, once the deadline has passed and every run in flight read
   the clock after it, the request stays settled.
   */
  lemma StableAfterDeadline(born: int, steps: seq<Step>)
    requires var w := Exec(Create(born), steps);
             && IsDone(w.Latest()) && w.Age() > MINUTE
             && forall id | id in w.core && !w.core[id].Listed? :: w.core[id].readAt - w.Created() > MINUTE
    ensures StaysDone(Exec(Create(born), steps))
  {
    Reachable(born, steps);
    var w := Exec(Create(born), steps);
    forall id | id in w.core ensures Harmless(w, w.core[id]) {
      var r := w.core[id];
      assert CoreRunOk(w, r);
      if !r.Listed? {
        OldRequestsAreDecided(w.versions[r.snapshot], r.readAt - w.Created());
      }
    }
    StaysDoneIff(born, steps);
  }

  /**
   After the deadline a request can always be settled: whatever has happened,
   one core run that meets no other writer does it.
   */
  lemma CanBeSettled(born: int, steps: seq<Step>) returns (more: seq<Step>)
    requires Exec(Create(born), steps).Age() > MINUTE
    ensures IsDone(Exec(Exec(Create(born), steps), more).Latest())
  {
    var w := Exec(Create(born), steps);
    if IsDone(w.Latest()) {
      more := [];
    } else {
      var id := FreshRun(w.core);
      OldRequestsAreDecided(w.Latest(), w.Age());
      FreshLookWrites(w, id);
      more := Look(id, w.Newest()) + [CorePut(id)];
    }
  }
}
