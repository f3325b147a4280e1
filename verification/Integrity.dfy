/**
 What holds of every stored version in every run: successes carry resolved
 data, and time-outs are never early.
 */
module Integrity {
  import opened Common
  import opened Lifecycle
  import opened Errors
  import opened Base64
  import opened Protocol

  /** `text` is the encoding of bytes some `Resolve` call returned. */
  ghost predicate Encodes(w: World, text: string) {
    exists r :: r in w.results && text == Encode(r.data)
  }

  ghost predicate StatusOk(w: World, s: Status) {
    && (s.data != "" || s.condition.Succeeded? ==> Encodes(w, s.data))
    && (s.condition.Succeeded? ==> Observed(s))
    && (s.condition.Failed? ==>
          s.condition.reason == REASON_FAILED
          || (s.condition.reason == REASON_TIMED_OUT && Observed(s) && w.Age() > MINUTE))
    && s.observedGeneration <= GENERATION
  }

  predicate CoreRunOk(w: World, r: CoreRun) {
    && r.snapshot < |w.versions|
    && (!r.Listed? ==>
          && r.readAt <= w.now
          && r.desired == Desired(w.versions[r.snapshot], r.readAt - w.Created())
          && r.desired != w.versions[r.snapshot]
          && r.attempt < MAX_ATTEMPTS)
    && (r.Writing? ==> r.existing < |w.versions| && (r.attempt == 0 ==> r.existing == r.snapshot))
    && (r.Refetching? ==> r.attempt > 0)
  }

  predicate ResolverRunOk(w: World, r: ResolverRun) {
    && (r.Patching? ==> r.resource in w.results)
    && (r.Failing? || r.Marking? ==> ReasonError(r.error).0 == REASON_FAILED)
    && (r.Marking? ==> r.existing < |w.versions| && !IsDone(w.versions[r.existing]))
  }

  ghost predicate Inv(w: World) {
    && w.Exists()
    && w.versions[0] == EMPTY_STATUS
    && (forall i | 0 <= i < |w.versions| :: StatusOk(w, w.versions[i]))
    && (forall id | id in w.core :: CoreRunOk(w, w.core[id]))
    && (forall id | id in w.resolvers :: ResolverRunOk(w, w.resolvers[id]))
  }

  /** The later world knows at least the results and the versions of the earlier one. */
  predicate Later(w: World, w': World) {
    w.versions <= w'.versions && w.results <= w'.results && w.now <= w'.now && w.born == w'.born
  }

  lemma StatusStaysOk(w: World, w': World, s: Status)
    requires Later(w, w') && StatusOk(w, s)
    ensures StatusOk(w', s)
  {
    if Encodes(w, s.data) {
      var r :| r in w.results && s.data == Encode(r.data);
      assert r in w'.results;
    }
  }

  lemma DesiredIsOk(w: World, s: Status, readAt: int)
    requires StatusOk(w, s) && readAt <= w.now
    ensures StatusOk(w, Desired(s, readAt - w.Created()))
  {
    DesiredIsDecided(s, readAt - w.Created());
  }

  lemma PatchedIsOk(w: World, s: Status, r: Resource)
    requires StatusOk(w, s) && r in w.results
    ensures StatusOk(w, Patched(s, r))
  {
    assert Encodes(w, Patched(s, r).data);
  }

  lemma StoredIsOk(w: World, s: Step)
    requires Inv(w) && Stored(w, s).Some?
    ensures StatusOk(w, Stored(w, s).value)
  {
    assert StatusOk(w, w.Latest());
    match s
    case CorePut(run) =>
      var r := w.core[run];
      assert CoreRunOk(w, r);
      DesiredIsOk(w, w.versions[r.snapshot], r.readAt);
    case Patch(run) => PatchedIsOk(w, w.Latest(), w.resolvers[run].resource);
    case PatchError(run, _, _, _) => PatchedIsOk(w, w.Latest(), w.resolvers[run].resource);
    case FailPut(run) => assert ResolverRunOk(w, w.resolvers[run]);
    case _ =>
  }

  lemma CoreRunStaysOk(w: World, w': World, r: CoreRun)
    requires Later(w, w') && CoreRunOk(w, r)
    ensures CoreRunOk(w', r)
  {
    assert w'.versions[r.snapshot] == w.versions[r.snapshot];
  }

  lemma OwnStepIsOk(w: World, r: CoreRun)
    requires w.Exists() && CoreRunOk(w, r)
    ensures r.Listed? && Processed(w, r).Some? ==> CoreRunOk(w, Processed(w, r).value)
    ensures r.Writing? && Conflicted(r).Some? ==> CoreRunOk(w, Conflicted(r).value)
    ensures r.Refetching? && Refetched(w, r).Some? ==> CoreRunOk(w, Refetched(w, r).value)
  {
  }

  /** After a step, a core run is new, as it was, or has made a step of its own. */
  lemma CoreRunAfter(w: World, s: Step, id: nat)
    requires w.Exists() && id in CoreAfter(w, s)
    ensures var r := CoreAfter(w, s)[id];
            || (r.Listed? && r.snapshot < |w.versions|)
            || (id in w.core && r == w.core[id])
            || (id in w.core && w.core[id].Listed? && w.core[id].snapshot < |w.versions|
                && Processed(w, w.core[id]) == Some(r))
            || (id in w.core && w.core[id].Writing? && Conflicted(w.core[id]) == Some(r))
            || (id in w.core && w.core[id].Refetching? && Refetched(w, w.core[id]) == Some(r))
  {
  }

  lemma CoreStaysOk(w: World, s: Step, id: nat)
    requires Inv(w) && id in CoreAfter(w, s)
    ensures CoreRunOk(Next(w, s), CoreAfter(w, s)[id])
  {
    var r := CoreAfter(w, s)[id];
    CoreRunAfter(w, s, id);
    if id in w.core {
      assert CoreRunOk(w, w.core[id]);
      OwnStepIsOk(w, w.core[id]);
    }
    CoreRunStaysOk(w, Next(w, s), r);
  }

  lemma ResolverStaysOk(w: World, s: Step, id: nat)
    requires Inv(w) && id in ResolversAfter(w, s)
    ensures ResolverRunOk(Next(w, s), ResolversAfter(w, s)[id])
  {
    var w' := Next(w, s);
    assert forall v | 0 <= v < |w.versions| :: w'.versions[v] == w.versions[v];
    if id in w.resolvers {
      assert ResolverRunOk(w, w.resolvers[id]);
    }
    if s.Fail? {
      ReportedReasonIsGeneral(s.failure, s.key);
    } else if s.PatchError? {
      ReportedReasonIsGeneral(PatchFailed(s.error), s.key);
    }
  }

  lemma NextKeepsInv(w: World, s: Step)
    requires Inv(w)
    ensures Inv(Next(w, s))
  {
    var w' := Next(w, s);
    if Stored(w, s).Some? {
      StoredIsOk(w, s);
    }
    forall i | 0 <= i < |w'.versions| ensures StatusOk(w', w'.versions[i]) {
      StatusStaysOk(w, w', w'.versions[i]);
    }
    forall id | id in w'.core ensures CoreRunOk(w', w'.core[id]) {
      CoreStaysOk(w, s, id);
    }
    forall id | id in w'.resolvers ensures ResolverRunOk(w', w'.resolvers[id]) {
      ResolverStaysOk(w, s, id);
    }
  }

  lemma {:induction false} RunKeepsInv(w: World, steps: seq<Step>)
    requires Inv(w)
    ensures Inv(Exec(w, steps))
    decreases |steps|
  {
    if steps != [] {
      RunKeepsInv(w, steps[..|steps| - 1]);
      NextKeepsInv(Exec(w, steps[..|steps| - 1]), steps[|steps| - 1]);
    }
  }

  /** Every world that can be reached satisfies the invariant. */
  lemma Reachable(born: int, steps: seq<Step>)
    ensures Inv(Exec(Create(born), steps))
  {
    RunKeepsInv(Create(born), steps);
  }

  /**
   End to end: in every interleaving, whichever version a caller's cache holds,
   a resource returned by `Submit` decodes without error to exactly the bytes
   some `Resolve` call returned for this request.
   */
  lemma FoundDataIsResolvedData(born: int, steps: seq<Step>, v: nat)
    requires v < |Exec(Create(born), steps).versions|
    ensures var w := Exec(Create(born), steps);
            Submit(w.versions[v]).Found? ==>
              exists r :: r in w.results && Data(Submit(w.versions[v]).status) == Some(r.data)
  {
    Reachable(born, steps);
    var w := Exec(Create(born), steps);
    var s := w.versions[v];
    if Submit(s).Found? {
      assert StatusOk(w, s);
      var r :| r in w.results && s.data == Encode(r.data);
      RoundTrip(r.data);
    }
  }

  /**
   A request never times out early: more than a minute has passed since the
   stored creation time, hence more than 59 seconds since the actual one.
   */
  lemma TimeoutsAreNotEarly(born: int, steps: seq<Step>, v: nat)
    requires v < |Exec(Create(born), steps).versions|
    ensures var w := Exec(Create(born), steps);
            var c := w.versions[v].condition;
            c.Failed? && c.reason == REASON_TIMED_OUT ==>
              w.Age() > MINUTE && w.now - w.born > MINUTE - SECOND
  {
    Reachable(born, steps);
    var w := Exec(Create(born), steps);
    assert StatusOk(w, w.versions[v]);
    assert |REASON_FAILED| != |REASON_TIMED_OUT|;
  }
}
