/**
 Whether a stored status can mix one `Resolve` call's data with another's
 annotations.  Merge patches add keys and never remove them, so the answer
 depends on the annotation maps a resolver may return.
 */
module Tearing {
  import opened Common
  import opened Lifecycle
  import opened Base64
  import opened Protocol
  import opened Integrity

  /** Data and annotations as one call returned them. */
  predicate From(r: Resource, data: string, annotations: map<string, string>) {
    data == Encode(r.data) && annotations == Merge(map[], r.annotations)
  }

  /** Data and annotations both come from the same one of the calls made. */
  ghost predicate FromOne(made: set<Resource>, s: Status) {
    exists r :: r in made && From(r, s.data, s.annotations)
  }

  /** Both unset, or both from the same call; a success is never unset. */
  ghost predicate Whole(made: set<Resource>, s: Status) {
    (s.data == "" && s.annotations == map[] && !s.condition.Succeeded?) || FromOne(made, s)
  }

  ghost predicate AllWhole(w: World) {
    forall v | 0 <= v < |w.versions| :: Whole(w.results, w.versions[v])
  }

  /** Every `Resolve` call of the run returned one of the given resources. */
  ghost predicate ReturnsOnly(possible: iset<Resource>, steps: seq<Step>) {
    forall i | 0 <= i < |steps| && steps[i].Resolve? :: steps[i].resource in possible
  }

  /**
   In no run of such calls does any stored version mix two of them: each holds
   nothing, or what one call that this very run made returned.
   */
  ghost predicate NeverTears(possible: iset<Resource>) {
    forall born: int, steps :: ReturnsOnly(possible, steps) ==> AllWhole(Exec(Create(born), steps))
  }

  /**
   Patching `second` over `first` mixes nothing: one of the maps is nil, or the
   second has every key of the first, or both have the same data and the
   second's annotations are among the first's.
   */
  predicate Compatible(first: Resource, second: Resource) {
    || first.annotations.None?
    || second.annotations.None?
    || first.annotations.value.Keys <= second.annotations.value.Keys
    || (first.data == second.data
        && forall k | k in second.annotations.value ::
             k in first.annotations.value && first.annotations.value[k] == second.annotations.value[k])
  }

  ghost predicate PairsAreCompatible(possible: iset<Resource>) {
    forall a, b :: a in possible && b in possible ==> Compatible(a, b)
  }

  /** Each annotation map is nil or has one fixed set of keys. */
  ghost predicate UniformKeys(possible: iset<Resource>, keys: set<string>) {
    forall r :: r in possible && r.annotations.Some? ==> r.annotations.value.Keys == keys
  }

  function MergedOver(first: Resource, second: Resource): map<string, string> {
    Merge(Merge(map[], first.annotations), second.annotations)
  }

  /** Compatibility is exactly what keeps a second patch whole. */
  lemma CompatibleIffMergedIsWhole(a: Resource, b: Resource)
    ensures Compatible(a, b) <==>
            From(a, Encode(b.data), MergedOver(a, b)) || From(b, Encode(b.data), MergedOver(a, b))
  {
    if a.annotations.Some? && b.annotations.Some? {
      var x, y := a.annotations.value, b.annotations.value;
      assert Merge(map[], a.annotations) == x && Merge(map[], b.annotations) == y && MergedOver(a, b) == x + y;
      assert x.Keys <= y.Keys <==> x + y == y by {
        if x + y == y { assert (x + y).Keys == x.Keys + y.Keys; }
      }
      assert (forall k | k in y :: k in x && x[k] == y[k]) <==> x + y == x by {
        if x + y == x { assert forall k | k in y :: k in x + y && (x + y)[k] == y[k]; }
      }
      if Encode(a.data) == Encode(b.data) {
        EncodeIsInjective(a.data, b.data);
      }
    }
  }

  ghost predicate Untorn(possible: iset<Resource>, w: World) {
    && Inv(w)
    && (forall r :: r in w.results ==> r in possible)
    && AllWhole(w)
  }

  lemma PatchedIsWhole(made: set<Resource>, s: Status, r: Resource)
    requires r in made && Whole(made, s) && forall a | a in made :: Compatible(a, r)
    ensures FromOne(made, Patched(s, r))
  {
    var p := Patched(s, r);
    if FromOne(made, s) {
      var a :| a in made && From(a, s.data, s.annotations);
      CompatibleIffMergedIsWhole(a, r);
    } else {
      assert From(r, p.data, p.annotations);
    }
  }

  lemma WholeStaysWhole(made: set<Resource>, more: set<Resource>, s: Status)
    requires made <= more && Whole(made, s)
    ensures Whole(more, s)
  {
    if FromOne(made, s) {
      var r :| r in made && From(r, s.data, s.annotations);
      assert r in more;
    }
  }

  lemma DesiredIsWhole(made: set<Resource>, s: Status, age: int)
    requires Whole(made, s)
    ensures Whole(made, Desired(s, age))
  {
    DesiredIsDecided(s, age);
    if FromOne(made, s) {
      var r :| r in made && From(r, s.data, s.annotations);
      assert From(r, Desired(s, age).data, Desired(s, age).annotations);
    }
  }

  lemma FailedIsWhole(made: set<Resource>, s: Status, c: Condition)
    requires Whole(made, s) && !c.Succeeded?
    ensures Whole(made, s.(condition := c))
  {
    if FromOne(made, s) {
      var r :| r in made && From(r, s.data, s.annotations);
      assert From(r, s.(condition := c).data, s.(condition := c).annotations);
    }
  }

  lemma StoredIsWhole(possible: iset<Resource>, w: World, s: Step)
    requires Untorn(possible, w) && PairsAreCompatible(possible) && Stored(w, s).Some?
    ensures Whole(w.results, Stored(w, s).value)
  {
    assert Whole(w.results, w.Latest());
    match s
    case CorePut(run) =>
      var r := w.core[run];
      assert CoreRunOk(w, r);
      DesiredIsWhole(w.results, w.versions[r.snapshot], r.readAt - w.Created());
    case Patch(run) =>
      assert ResolverRunOk(w, w.resolvers[run]);
      PatchedIsWhole(w.results, w.Latest(), w.resolvers[run].resource);
    case PatchError(run, _, _, _) =>
      assert ResolverRunOk(w, w.resolvers[run]);
      PatchedIsWhole(w.results, w.Latest(), w.resolvers[run].resource);
    case FailPut(run) =>
      FailedIsWhole(w.results, w.Latest(), Stored(w, s).value.condition);
    case _ =>
  }

  lemma NextStaysUntorn(possible: iset<Resource>, w: World, s: Step)
    requires Untorn(possible, w) && PairsAreCompatible(possible)
    requires s.Resolve? ==> s.resource in possible
    ensures Untorn(possible, Next(w, s))
  {
    var w' := Next(w, s);
    NextKeepsInv(w, s);
    if Stored(w, s).Some? {
      StoredIsWhole(possible, w, s);
    }
    forall v | 0 <= v < |w'.versions| ensures Whole(w'.results, w'.versions[v]) {
      assert v < |w.versions| ==> Whole(w.results, w.versions[v]);
      WholeStaysWhole(w.results, w'.results, w'.versions[v]);
    }
  }

  lemma {:induction false} RunStaysUntorn(possible: iset<Resource>, born: int, steps: seq<Step>)
    requires PairsAreCompatible(possible) && ReturnsOnly(possible, steps)
    ensures Untorn(possible, Exec(Create(born), steps))
    decreases |steps|
  {
    Reachable(born, steps);
    if steps != [] {
      var front, last := steps[..|steps| - 1], steps[|steps| - 1];
      RunStaysUntorn(possible, born, front);
      NextStaysUntorn(possible, Exec(Create(born), front), last);
    }
  }

  /** Two resolver runs, one patching after the other. */
  function OneAfterTheOther(a: Resource, b: Resource): seq<Step> {
    [ResolverList(0, 0), ResolverList(1, 0), Resolve(0, a), Resolve(1, b), Patch(0), Patch(1)]
  }

  lemma BothResolve(born: int, a: Resource, b: Resource)
    ensures Exec(Create(born), OneAfterTheOther(a, b)[..4]) ==
            Create(born).(resolvers := map[0 := Patching(a), 1 := Patching(b)], results := {a, b})
  {
    var w0, steps := Create(born), OneAfterTheOther(a, b);
    var w1 := w0.(resolvers := map[0 := Resolving]);
    var w2 := w0.(resolvers := map[0 := Resolving, 1 := Resolving]);
    var w3 := w0.(resolvers := map[0 := Patching(a), 1 := Resolving], results := {a});
    var w4 := w0.(resolvers := map[0 := Patching(a), 1 := Patching(b)], results := {a, b});
    ExecThen(w0, [], w0, steps[0], w1);
    ExecThen(w0, [steps[0]], w1, steps[1], w2);
    ExecThen(w0, [steps[0], steps[1]], w2, steps[2], w3);
    assert [steps[0], steps[1]] + [steps[2]] == [steps[0], steps[1], steps[2]];
    ExecThen(w0, [steps[0], steps[1], steps[2]], w3, steps[3], w4);
    assert steps[..4] == [steps[0], steps[1], steps[2]] + [steps[3]];
  }

  lemma TwoPatches(born: int, a: Resource, b: Resource)
    ensures var w := Exec(Create(born), OneAfterTheOther(a, b));
            && w.results == {a, b}
            && w.versions == [EMPTY_STATUS, Patched(EMPTY_STATUS, a), Patched(Patched(EMPTY_STATUS, a), b)]
  {
    var w0, steps := Create(born), OneAfterTheOther(a, b);
    BothResolve(born, a, b);
    var w4 := Exec(w0, steps[..4]);
    var w5 := w4.(versions := [EMPTY_STATUS, Patched(EMPTY_STATUS, a)], resolvers := map[1 := Patching(b)]);
    ExecThen(w0, steps[..4], w4, steps[4], w5);
    ExecThen(w0, steps[..4] + [steps[4]], w5, steps[5], Next(w5, steps[5]));
    assert steps == steps[..4] + [steps[4]] + [steps[5]];
  }

  lemma WholeMergeIsCompatible(a: Resource, b: Resource)
    requires Whole({a, b}, Patched(Patched(EMPTY_STATUS, a), b))
    ensures Compatible(a, b)
  {
    var s := Patched(Patched(EMPTY_STATUS, a), b);
    assert s.data == Encode(b.data) && s.annotations == MergedOver(a, b);
    if s.data == "" && s.annotations == map[] {
      assert From(b, s.data, s.annotations);
    }
    CompatibleIffMergedIsWhole(a, b);
  }

  lemma TwoCallsAreCompatible(possible: iset<Resource>, a: Resource, b: Resource)
    requires NeverTears(possible) && a in possible && b in possible
    ensures Compatible(a, b)
  {
    TwoPatches(0, a, b);
    assert ReturnsOnly(possible, OneAfterTheOther(a, b));
    var w := Exec(Create(0), OneAfterTheOther(a, b));
    assert Whole(w.results, w.versions[2]);
    WholeMergeIsCompatible(a, b);
  }

  /**
   Tearing is decided by pairs: no run, whatever its interleaving, caches and
   retries, stores a mix of two of its calls if and only if any two resources
   the resolver may return are compatible in either order.
   */
  lemma NeverTearsIffCompatible(possible: iset<Resource>)
    ensures NeverTears(possible) <==> PairsAreCompatible(possible)
  {
    if PairsAreCompatible(possible) {
      forall born: int, steps | ReturnsOnly(possible, steps) ensures AllWhole(Exec(Create(born), steps)) {
        RunStaysUntorn(possible, born, steps);
      }
    }
    if NeverTears(possible) {
      forall a, b | a in possible && b in possible ensures Compatible(a, b) {
        TwoCallsAreCompatible(possible, a, b);
      }
    }
  }

  /** The git and bundle resolvers are safe: nil maps and one fixed key set never tear. */
  lemma UniformKeysNeverTear(possible: iset<Resource>, keys: set<string>)
    requires UniformKeys(possible, keys)
    ensures NeverTears(possible)
  {
    NeverTearsIffCompatible(possible);
  }

  /** And a key that only one of two calls with different data returns can outlive its call. */
  lemma StrayKeyTears(possible: iset<Resource>, a: Resource, b: Resource, key: string)
    requires a in possible && b in possible
    requires a.annotations.Some? && b.annotations.Some?
    requires key in a.annotations.value && key !in b.annotations.value && a.data != b.data
    ensures !NeverTears(possible)
  {
    NeverTearsIffCompatible(possible);
    assert !Compatible(a, b);
  }

  /**
   End to end, with annotations: a caller that finds a resource gets the bytes
   and the annotations of one and the same call, made for this request.
   */
  lemma FoundResourceIsOneCalls(possible: iset<Resource>, born: int, steps: seq<Step>, v: nat)
    requires PairsAreCompatible(possible) && ReturnsOnly(possible, steps)
    requires v < |Exec(Create(born), steps).versions|
    ensures var w := Exec(Create(born), steps);
            Submit(w.versions[v]).Found? ==>
              exists r :: r in w.results && Data(Submit(w.versions[v]).status) == Some(r.data)
                          && Submit(w.versions[v]).status.annotations == Merge(map[], r.annotations)
  {
    RunStaysUntorn(possible, born, steps);
    var w := Exec(Create(born), steps);
    var s := w.versions[v];
    assert Whole(w.results, s);
    if Submit(s).Found? {
      var r :| r in w.results && From(r, s.data, s.annotations);
      RoundTrip(r.data);
      assert Data(s) == Some(r.data);
    }
  }
}
