/**
 What the generated reconciler does around the core's own logic: choosing a
 method by leadership and deletion state (state.go), keeping its finalizer, and
 deciding whether the status is written (reconciler.go).
 */
module Dispatch {
  import opened Common
  import opened Lifecycle
  import opened SortedStrings

  /** What the reconciler is: leader for the key, and which optional interfaces it has. */
  datatype Config = Config(isLeader: bool, isObserver: bool, isFinalizer: bool,
                           skipStatusUpdates: bool, finalizerName: Bytes)

  datatype Object = Object(status: Status, finalizers: seq<Bytes>, resourceVersion: nat, deleting: bool)

  datatype Target = ReconcileKind | FinalizeKind | ObserveKind

  /** A patch is refused unless its version is still the stored one. */
  datatype FinalizerPatch = FinalizerPatch(finalizers: seq<Bytes>, resourceVersion: nat)

  datatype Effect =
    | Called(target: Target)
    | PatchedFinalizers(patch: FinalizerPatch)
    | UpdatedStatus(status: Status)

  /** The event a called method returned: none, a normal one, or anything else. */
  datatype Outcome = NoEvent | NormalEvent | OtherEvent

  /** `sets.NewString(list...).List()`. */
  function SortedSet(s: seq<Bytes>): (r: seq<Bytes>)
    ensures Sorted(r) && forall x :: x in r <==> x in s
  {
    if s == [] then []
    else
      assert s == [s[0]] + s[1..];
      var rest := SortedSet(s[1..]);
      if s[0] in rest then rest else Insert(s[0], rest)
  }

  function Without(s: seq<Bytes>, x: Bytes): (r: seq<Bytes>)
    ensures forall y :: y in r <==> y in s && y != x
    ensures |r| <= |s|
  {
    if s == [] then []
    else
      assert s == [s[0]] + s[1..];
      if s[0] == x then Without(s[1..], x) else [s[0]] + Without(s[1..], x)
  }

  /** `reconcileMethodFor`; `None` stands for the "unknown" name with its nil method. */
  function MethodFor(c: Config, deleting: bool): Option<Target> {
    if !deleting then
      if c.isLeader then Some(ReconcileKind)
      else if c.isObserver then Some(ObserveKind)
      else None
    else if c.isLeader && c.isFinalizer then Some(FinalizeKind)
    else None
  }

  /**
   `updateFinalizersFiltered`: only this controller's finalizer is ever added
   or removed, against the cached version, and nothing is sent when the cached
   list already is right.
   */
  method UpdateFinalizersFiltered(c: Config, desired: seq<Bytes>, actual: Object)
    returns (patch: Option<FinalizerPatch>)
    ensures patch == None <==> (c.finalizerName in desired <==> c.finalizerName in actual.finalizers)
    ensures patch.Some? ==>
              && patch.value.resourceVersion == actual.resourceVersion
              && (c.finalizerName in patch.value.finalizers <==> c.finalizerName in desired)
              && (forall f | f != c.finalizerName :: f in patch.value.finalizers <==> f in actual.finalizers)
  {
    var finalizers: seq<Bytes>;
    if c.finalizerName in desired {
      if c.finalizerName in actual.finalizers {
        return None;
      }
      finalizers := actual.finalizers + [c.finalizerName];
    } else {
      if c.finalizerName !in actual.finalizers {
        return None;
      }
      finalizers := Without(SortedSet(actual.finalizers), c.finalizerName);
    }
    patch := Some(FinalizerPatch(finalizers, actual.resourceVersion));
  }

  /** The finalizers stored once a patch has been accepted. */
  function Applied(finalizers: seq<Bytes>, patch: Option<FinalizerPatch>): seq<Bytes> {
    if patch.Some? then patch.value.finalizers else finalizers
  }

  /** Whether this controller's finalizer should be there: always on a live object. */
  predicate WantedWhenSetting(c: Config, resource: Object) {
    !resource.deleting || c.finalizerName in resource.finalizers
  }

  predicate SetSends(c: Config, resource: Object, actual: Object) {
    c.isFinalizer && (WantedWhenSetting(c, resource) <==> c.finalizerName !in actual.finalizers)
  }

  /** On a deleted object it goes, unless the finalizing method reported an error. */
  predicate WantedWhenClearing(c: Config, resource: Object, outcome: Outcome) {
    outcome == OtherEvent && c.finalizerName in resource.finalizers
  }

  predicate ClearSends(c: Config, resource: Object, actual: Object, outcome: Outcome) {
    c.isFinalizer && resource.deleting
    && (WantedWhenClearing(c, resource, outcome) <==> c.finalizerName !in actual.finalizers)
  }

  /** This controller's finalizer is not there. */
  predicate Missing(c: Config, o: Object) {
    c.finalizerName !in o.finalizers
  }

  /** A patch of `actual` that changes nothing but the membership of this controller's finalizer. */
  predicate ChangesOwnOnly(c: Config, actual: Object, patch: FinalizerPatch, wanted: bool) {
    && patch.resourceVersion == actual.resourceVersion
    && (c.finalizerName in patch.finalizers <==> wanted)
    && (forall f | f in actual.finalizers && f != c.finalizerName :: f in patch.finalizers)
    && (forall f | f in patch.finalizers && f != c.finalizerName :: f in actual.finalizers)
  }

  /** `actual` is what the lister answers when it is asked again; it may be newer than `resource`. */
  method SetFinalizerIfFinalizer(c: Config, resource: Object, actual: Object) returns (patch: Option<FinalizerPatch>)
    ensures patch.Some? <==> SetSends(c, resource, actual)
    ensures patch.Some? ==> ChangesOwnOnly(c, actual, patch.value, WantedWhenSetting(c, resource))
    ensures !c.isFinalizer ==> patch == None
    ensures c.isFinalizer && !resource.deleting ==>
              (patch.Some? <==> c.finalizerName !in actual.finalizers)
              && (patch.Some? ==> c.finalizerName in patch.value.finalizers)
  {
    if !c.isFinalizer {
      return None;
    }
    var finalizers := resource.finalizers;
    if !resource.deleting {
      finalizers := finalizers + [c.finalizerName];
    }
    patch := UpdateFinalizersFiltered(c, SortedSet(finalizers), actual);
  }

  method ClearFinalizer(c: Config, resource: Object, actual: Object, outcome: Outcome)
    returns (patch: Option<FinalizerPatch>)
    ensures patch.Some? <==> ClearSends(c, resource, actual, outcome)
    ensures patch.Some? ==> ChangesOwnOnly(c, actual, patch.value, WantedWhenClearing(c, resource, outcome))
    ensures !c.isFinalizer || !resource.deleting ==> patch == None
    ensures c.isFinalizer && resource.deleting && outcome != OtherEvent ==>
              (patch.Some? <==> c.finalizerName in actual.finalizers)
              && (patch.Some? ==> c.finalizerName !in patch.value.finalizers)
    ensures c.isFinalizer && resource.deleting && outcome == OtherEvent && c.finalizerName in resource.finalizers ==>
              (patch.Some? ==> c.finalizerName in patch.value.finalizers)
  {
    if !c.isFinalizer || !resource.deleting {
      return None;
    }
    var finalizers := SortedSet(resource.finalizers);
    if outcome != OtherEvent {
      finalizers := Without(finalizers, c.finalizerName);
    }
    patch := UpdateFinalizersFiltered(c, finalizers, actual);
  }

  /** Everything a run meets: both answers of the lister, whether a patch is accepted, and its method. */
  datatype Run = Run(original: Object, again: Option<Object>, accepted: bool, work: Status -> Status, outcome: Outcome)

  predicate Sends(c: Config, r: Run)
    requires r.again.Some?
  {
    match MethodFor(c, r.original.deleting)
    case Some(ReconcileKind) => SetSends(c, r.original, r.again.value)
    case Some(FinalizeKind) => ClearSends(c, r.original, r.again.value, r.outcome)
    case _ => false
  }

  /** The finalizer step ends the run: the second listing failed, or the patch was refused. */
  predicate FinalizerStepFails(c: Config, r: Run) {
    c.isFinalizer && c.isLeader && (r.again.None? || (Sends(c, r) && !r.accepted))
  }

  /**
   The status the run compares with the one it listed.  An accepted finalizer
   patch replaces the working copy with the stored object, which is the one
   listed again: before a reconciling method, but after a finalizing one.
   */
  function StatusAtEnd(c: Config, r: Run): Status
    requires !FinalizerStepFails(c, r)
  {
    var before := r.original.status;
    match MethodFor(c, r.original.deleting)
    case Some(ReconcileKind) => r.work(if c.isFinalizer && Sends(c, r) then r.again.value.status else before)
    case Some(FinalizeKind) => if Sends(c, r) then r.again.value.status else r.work(before)
    case Some(ObserveKind) => r.work(before)
    case None => before
  }

  predicate WritesStatus(c: Config, r: Run) {
    && c.isLeader && !c.skipStatusUpdates && !FinalizerStepFails(c, r)
    && StatusAtEnd(c, r) != r.original.status
  }

  /**
   The generated `Reconcile`.  Only a leader writes; at most one method is
   called, never the nil one; and the status is written exactly when a leader's
   working copy ends up different from the listed one.
   */
  method Reconcile(c: Config, lookup: Option<Run>) returns (effects: seq<Effect>)
    ensures !c.isLeader ==> forall e | e in effects :: e == Called(ObserveKind)
    ensures lookup.None? ==> effects == []
    ensures lookup.Some? ==>
              var r := lookup.value;
              && (forall m :: Called(m) in effects <==>
                    MethodFor(c, r.original.deleting) == Some(m)
                    && (m == ReconcileKind ==> !FinalizerStepFails(c, r)))
              && (forall i, j | 0 <= i < j < |effects| :: !(effects[i].Called? && effects[j].Called?))
              && (forall s :: UpdatedStatus(s) in effects <==> WritesStatus(c, r) && s == StatusAtEnd(c, r))
              && (forall p :: PatchedFinalizers(p) in effects ==>
                    r.again.Some? && Sends(c, r)
                    && ChangesOwnOnly(c, r.again.value, p, Missing(c, r.again.value)))
    ensures lookup.Some? ==>
              var original := lookup.value.original;
              && (Called(ObserveKind) in effects <==> !c.isLeader && c.isObserver && !original.deleting)
              && (Called(FinalizeKind) in effects <==> c.isLeader && c.isFinalizer && original.deleting)
              && (Called(ReconcileKind) in effects ==> c.isLeader && !original.deleting)
              && (c.isLeader && !original.deleting && !c.isFinalizer ==>
                    && Called(ReconcileKind) in effects
                    && forall s :: UpdatedStatus(s) in effects <==>
                         !c.skipStatusUpdates && s == lookup.value.work(original.status) && s != original.status)
  {
    effects := [];
    if !c.isLeader && !c.isObserver {
      return;
    }
    if lookup.None? {
      return;
    }
    var r := lookup.value;
    var original := r.original;
    var status := original.status;
    match MethodFor(c, original.deleting) {
      case Some(ReconcileKind) =>
        if c.isFinalizer {
          if r.again.None? {
            return;
          }
          var patch := SetFinalizerIfFinalizer(c, original, r.again.value);
          if patch.Some? {
            effects := [PatchedFinalizers(patch.value)];
            if !r.accepted {
              return;
            }
            status := r.again.value.status;
          }
        }
        status := r.work(status);
        effects := effects + [Called(ReconcileKind)];
      case Some(FinalizeKind) =>
        status := r.work(status);
        effects := [Called(FinalizeKind)];
        if r.again.None? {
          return;
        }
        var patch := ClearFinalizer(c, original, r.again.value, r.outcome);
        if patch.Some? {
          effects := effects + [PatchedFinalizers(patch.value)];
          if !r.accepted {
            return;
          }
          status := r.again.value.status;
        }
      case Some(ObserveKind) =>
        status := r.work(status);
        effects := [Called(ObserveKind)];
      case None =>
    }
    if c.skipStatusUpdates {
    } else if status == original.status {
    } else if !c.isLeader {
    } else {
      effects := effects + [UpdatedStatus(status)];
    }
  }

  /**
   A finalizing method's own status is what the run writes exactly when it is
   new and no patch is sent, or the patched object already holds that status.
   Once a patch is sent, all that can be written is the status listed again.
   With an up-to-date cache that leaves the runs whose method errs or whose
   finalizer is already gone.
   */
  lemma FinalizingStatusWrittenIff(c: Config, r: Run)
    requires c.isLeader && c.isFinalizer && !c.skipStatusUpdates && r.original.deleting
    ensures var own := r.work(r.original.status);
            WritesStatus(c, r) && StatusAtEnd(c, r) == own <==>
            && own != r.original.status
            && r.again.Some?
            && (ClearSends(c, r.original, r.again.value, r.outcome) ==> r.accepted && r.again.value.status == own)
    ensures r.again.Some? && ClearSends(c, r.original, r.again.value, r.outcome) ==>
              (WritesStatus(c, r) <==> r.accepted && r.again.value.status != r.original.status)
              && (WritesStatus(c, r) ==> StatusAtEnd(c, r) == r.again.value.status)
    ensures r.again == Some(r.original) && r.accepted && r.work(r.original.status) != r.original.status ==>
              (WritesStatus(c, r) <==> r.outcome == OtherEvent || c.finalizerName !in r.original.finalizers)
  {
  }

  /** Marking for finalization and clearing it on deletion gives back the original finalizers. */
  method SetThenClear(c: Config, o: Object, outcome: Outcome) returns (left: seq<Bytes>)
    requires c.isFinalizer && !o.deleting && outcome != OtherEvent && c.finalizerName !in o.finalizers
    ensures forall f :: f in left <==> f in o.finalizers
  {
    var patch := SetFinalizerIfFinalizer(c, o, o);
    var marked := o.(finalizers := Applied(o.finalizers, patch), deleting := true);
    patch := ClearFinalizer(c, marked, marked, outcome);
    left := Applied(marked.finalizers, patch);
  }
}
