# Tekton Resolution: a verified model

A `ResolutionRequest` asks for a remote Tekton resource. Three parties share
the one API object: callers submit it and read its status, a resolver fetches
the resource and patches it into the status, and the core controller settles
the request as succeeded, failed or timed out. This project models that
protocol, the code of both controllers, the wire encoding, the deterministic
names and the choice of a bundle entry, and proves what they promise each other
in every interleaving.

Check it with `dafny verify dfyconfig.toml`.

## Files

| file | contents |
|---|---|
| `Protocol.dfy` | the shared object as a versioned store, and every API call as a step |
| `Integrity.dfy` | the invariant of all runs; end-to-end data integrity; no early time-outs |
| `Tearing.dfy` | when data and annotations can come from different `Resolve` calls |
| `Finality.dfy` | what can undo a settled request, and exactly when nothing can |
| `ResolveRace.dfy` | worker, deadline and select inside the framework's `resolve` |
| `Controllers.dfy` | the two controllers as imperative code over an API server |
| `Refinement.dfy` | that code, amid the steps of others, makes protocol runs |
| `Lifecycle.dfy` | the status, the core controller's pass, and convergence to a time-out |
| `Errors.dfy` | the error values, and the reason a failure carries |
| `Dispatch.dfy` | leadership, method choice, finalizers, and when the status is written |
| `Base64.dfy` | strict base64 (sections 3.5 and 4 of RFC 4648) |
| `Fnv.dfy`, `SortedStrings.dfy`, `Names.dfy` | FNV-1a modulo 2^128, sorted keys, request names |
| `Bundle.dfy` | the bundle entry search; what the bundle and git resolvers return |
| `Common.dfy` | shared types |

## What the protocol model assumes

- The clock never goes back. Creation times are stored in whole seconds.
- The object's spec is never edited and the object is not deleted; it starts
  with an empty status and generation 1, as objects with a status subresource do.
- A missing Succeeded condition counts as unknown.
- An informer cache may answer with any past version. Any number of core runs
  and resolver runs may be in flight, stop at any point, and lose replies.
- A status update names the version it replaces and is refused otherwise. A
  merge patch (section 2 of RFC 7396) names none and adds keys to the stored
  annotations, or removes them all when the resolver returned a nil map.

## Findings

**A failure can be undone on a first attempt.** The knative step before
`ReconcileKind` resets the Succeeded condition to unknown when the status has
not recorded the object's generation yet
(`vendor/knative.dev/pkg/reconciler/reconcile_common.go:63-66`). Only the core
controller records it. So a request that a resolver fails before the core
controller's first write goes back to "in progress", without any conflict or
retry. `Finality.FinalIffObserved` shows that this is the only way:
when core updates commit on their first attempt, a settled condition is final
if and only if the generation has been observed.
`Finality.EarlyFailureIsNotFinal` gives the run. A caller can see it: every
error read unobserved can be followed by a found resource
(`Finality.ErrorThenFound`).

**A stale snapshot can erase a result.** On a conflict, `updateStatus` re-reads
the object and still overwrites its whole status with the one computed from the
cached copy. At any age, any settled request can be erased this way, with its
data: before the deadline it becomes unsettled again, after the deadline a
time-out (`Finality.StaleRunErases`). So no success is ever safe under retries.
`Finality.VerdictStaysIff` says exactly when a caller's verdict can no longer
change: it is an observed time-out, the deadline has passed, no core run in
flight carries an unsettled status that it can still store, and no stored
version holds data that a core run could still turn into a success.
`Finality.StaysDoneIff` is the exact condition for staying settled at all, under
whichever verdict.

**Found data is not pinned.** The resolver's merge patch names no version, so a
late one replaces the data of a request that has already succeeded. With
first-attempt commits, `Finality.FoundDataStaysIff` gives the exact condition;
with retries, no found resource stays (`Finality.NoSuccessIsSafe`).

**One resolver run can store both the data and a failure.** If the reply to the
patch is lost, the framework reports an error after the data was stored.
`Controllers.StoresBothIffLost` gives the exact circumstances.

**Some status changes of a finalizing method are written.** The comment on the
`Finalizer` interface says they are ignored. They are dropped only when the run
also patches the finalizer, because the patched object replaces the working
copy (`Dispatch.FinalizingStatusWrittenIff`, for caches of any age). This repository's own reconciler
is not a finalizer.

Also, `pkg/resolver/framework/interface.go:47-49` says that the reason of an
error returned by `Resolve` is used in the response. The code wraps that error
first, so the reason is always the general one
(`Errors.ReportedReasonIsGeneral`); the model follows the code.

## Model

| member | source | states |
|---|---|---|
| `Integrity.NextKeepsInv` | pkg/client/injection/reconciler/resolution/v1alpha1/resolutionrequest/reconciler.go:311-341 | every API call of every party keeps the invariant: a success is observed and carries an encoded `Resolve` result, a time-out is past the deadline, each run in flight holds what its own snapshot gives |
| `Integrity.FoundDataIsResolvedData` | pkg/resource/crd_resource.go:53-78 | in every interleaving, whichever version the caller's cache holds, a resource returned by `Submit` decodes without error to exactly the bytes some `Resolve` call returned for this request |
| `Integrity.TimeoutsAreNotEarly` | pkg/reconciler/resolutionrequest/resolutionrequest.go:63-65 | a stored time-out implies more than a minute since the stored creation time, and more than 59 seconds since the actual one |
| `Protocol.SubmitTellsTheStatus` | pkg/resource/crd_resource.go:62-77 | a caller has to wait exactly while the condition is missing or unknown, finds exactly the version read, and gets the general reason with the stored message on every failure |
| `Protocol.FailureKeepsData` | pkg/resolver/framework/reconciler.go:182-183 | no stored failure changes data, annotations or observed generation |
| `Protocol.PatchKeepsTheRest` | pkg/resolver/framework/reconciler.go:199-213 | a patch sets the encoded data, sends its annotations or clears them all, and changes no other key, condition or generation |
| `Tearing.NeverTearsIffCompatible` | pkg/resolver/framework/reconciler.go:194-222 | no run ever stores a mix of two calls it made (each version is unset or what one of the run's own calls returned) if and only if any two resources that may be returned are compatible: a nil map, keys that include the earlier ones, or equal data with annotations already there |
| `Tearing.CompatibleIffMergedIsWhole` | pkg/resolver/framework/reconciler.go:199-213 | compatibility is exactly what makes the second of two merge patches leave one call's data and annotations |
| `Tearing.UniformKeysNeverTear` | pkg/resolver/framework/reconciler.go:194-222 | annotation maps that are nil or share one key set are never mixed, under patches in any order and whole-status overwrites from old snapshots |
| `Tearing.StrayKeyTears` | pkg/resolver/framework/reconciler.go:199-213 | a resolver that may return two different contents, one with a key the other lacks, has a run that stores a mix of the two calls it made |
| `Tearing.FoundResourceIsOneCalls` | pkg/resource/crd_resource.go:135-154 | with compatible results, a found resource has the bytes and the annotations of one and the same call made for this request |
| `Finality.Blame` | pkg/client/injection/reconciler/resolution/v1alpha1/resolutionrequest/reconciler.go:260-281 | the only step that changes a settled condition is a core update whose snapshot was unobserved, or was unsettled and is being retried |
| `Finality.ObservedIsKept` | vendor/knative.dev/pkg/reconciler/reconcile_common.go:70-86 | no writer takes an observed generation back |
| `Finality.FinalIffObserved` | vendor/knative.dev/pkg/reconciler/reconcile_common.go:47-67 | with first-attempt commits, a settled condition is final if and only if the core controller has observed the request |
| `Finality.EarlyFailureIsNotFinal` | pkg/resolver/framework/reconciler.go:171-189 | a failure stored before the core controller's first write is not final |
| `Finality.HistorySettles` | pkg/reconciler/resolutionrequest/resolutionrequest.go:52-69 | in a first-attempt run, every version after an observed settled one has the same condition |
| `Finality.AnswersAreStable` | pkg/resource/crd_resource.go:62-77 | in a first-attempt run, for a cache that never moves backwards, found stays found and an error read observed stays the same error |
| `Finality.AnswerStaysIffObserved` | pkg/resource/crd_resource.go:62-77 | with first-attempt commits, a caller's verdict never changes again if and only if the core controller has observed the request |
| `Finality.ErrorThenFound` | pkg/resource/crd_resource.go:62-77 | every first-attempt run that ends in an unobserved error goes on to a run in which the same caller finds a resource |
| `Finality.FoundDataStaysIff` | pkg/resolver/framework/reconciler.go:199-213 | with first-attempt commits, the data a caller has found never changes again if and only if every resource that may be returned has that content: a late patch lands on a succeeded request too |
| `Finality.OneVerdictAtMost` | pkg/resource/crd_resource.go:53-78 | all answers to such a caller: before the request is observed, "in progress" or the failure stored in the version read; then some number of "in progress", then only successes or only one failure; successes carry the same data if the run's calls returned one content |
| `Finality.DataOutlivesFailure` | pkg/resolver/framework/reconciler.go:171-189 | data delivered before the core controller's first write survives a failure marked over it: an undisturbed core run still ends in that very resource |
| `Finality.EarlyFailureIsRead` | pkg/common/errors.go:88-90 | a rejection is read by the caller with the general reason and the text of the invalid request |
| `Finality.StaleRunErases` | pkg/client/injection/reconciler/resolution/v1alpha1/resolutionrequest/reconciler.go:311-341 | at any age, from every reachable state, there is a continuation that stores an empty status over the verdict and its data: unsettled before the deadline, timed out after it |
| `Finality.StaysDoneIff` | pkg/client/injection/reconciler/resolution/v1alpha1/resolutionrequest/reconciler.go:311-341 | a settled request stays settled, under whichever verdict, after all further steps if and only if the deadline has passed and no run in flight can store an unsettled status |
| `Finality.VerdictStaysIff` | pkg/client/injection/reconciler/resolution/v1alpha1/resolutionrequest/reconciler.go:311-341 | under all further steps a caller's verdict stays if and only if it is an observed time-out, the deadline has passed, no run in flight can store an unsettled status, and every stored version is settled and observed or holds no data |
| `Finality.LonelyTimeoutStays` | pkg/reconciler/resolutionrequest/resolutionrequest.go:60-66 | the time-out of a request that only the core controller touches is such a verdict |
| `Finality.NoSuccessIsSafe` | pkg/client/injection/reconciler/resolution/v1alpha1/resolutionrequest/reconciler.go:311-341 | with retries, no found resource is safe: some continuation takes the verdict away |
| `Finality.StableAfterDeadline` | pkg/reconciler/resolutionrequest/resolutionrequest.go:47-79 | after the deadline, with no run in flight that read the clock before it, settled requests stay settled |
| `Finality.CanBeSettled` | pkg/reconciler/resolutionrequest/resolutionrequest.go:60-66 | after the deadline, from every reachable state, one undisturbed core run settles the request |
| `ResolveRace.RaceIsSafe` | pkg/resolver/framework/reconciler.go:103-153 | in every interleaving `Resolve` runs at most once and only on accepted parameters, at most one verdict is delivered, only returned data is written, and "unknown error" is unreachable |
| `ResolveRace.VerdictIsFinal` | pkg/resolver/framework/reconciler.go:139-150 | a result that loses to the deadline is never written |
| `ResolveRace.DeadlineDecides` | pkg/resolver/framework/reconciler.go:144-147 | the deadline alone always leads to a verdict |
| `ResolveRace.WorkerReturnsIffSelecting` | pkg/resolver/framework/reconciler.go:104-137 | a worker with something to send can still return if and only if the select is undecided |
| `ResolveRace.ReturnedInTimeIsDelivered` | pkg/resolver/framework/reconciler.go:103-153 | whatever a call of the worker returns while the select is open is what the select can receive, and nothing else from the worker: the resource itself, `InvalidRequest` with the rejection's message, or `GettingResource` with the resolver's name and error; however the race goes on, the verdict is that or the context's own error |
| `ResolveRace.OpenSelectReceivesResource` | pkg/resolver/framework/reconciler.go:137-150 | once `Resolve` has returned a resource, an open select receives that resource and never an error from the worker |
| `ResolveRace.VerdictHasItsCause` | pkg/resolver/framework/reconciler.go:104-152 | no verdict without its cause: returned data, a rejection with that message, a failed `Resolve` with that error, or the text the context ended with |
| `ResolveRace.AcceptedAndResolvedIsWritten` | pkg/resolver/framework/reconciler.go:103-150 | accepted parameters and a returned resource lead to the verdict that writes it |
| `Controllers.TryUpdate` | pkg/client/injection/reconciler/resolution/v1alpha1/resolutionrequest/reconciler.go:313-340 | one attempt takes the driven run exactly one step on; it is an update of the cached version, or a re-read and, unless that shows the desired status, an update of the version read |
| `Controllers.UpdateStatus` | pkg/client/injection/reconciler/resolution/v1alpha1/resolutionrequest/reconciler.go:311-341 | the retry loop, amid other writers and faults, leaves exactly the history of one protocol run driven through the same circumstances; its calls are updates and re-reads in turn, each update carrying the desired status over the version just read; and it returns nil exactly when the last call was accepted or found the desired status |
| `Controllers.NilIffSettled` | pkg/client/injection/reconciler/resolution/v1alpha1/resolutionrequest/reconciler.go:311-341 | of those calls: any fault fails the update; with healthy calls, storing something or re-reading the desired status makes it return nil, and it fails only after five updates that all met a conflict |
| `Drivers.AcknowledgedIsStored` | pkg/client/injection/reconciler/resolution/v1alpha1/resolutionrequest/reconciler.go:311-341 | whenever `updateStatus` returns nil after writing, the newest version is the desired status |
| `Controllers.StoresBothIffLost` | pkg/resolver/framework/reconciler.go:171-222 | one run stores both the data and a failure exactly when its patch is stored but the reply lost, it then reads an unsettled version, and no other writer comes before its update; the stored versions are the patched one and the failure over the version read |
| `Controllers.ReconcileCore` | pkg/client/injection/reconciler/resolution/v1alpha1/resolutionrequest/reconciler.go:217-305 | a leader's pass stores what `updateStatus` makes of the desired status, makes no call if nothing changed, returns the error of a failed write exactly when its last call did not settle the matter, and otherwise requeues an unsettled request for the deadline |
| `Controllers.MarkFailed` | pkg/resolver/framework/reconciler.go:171-189 | one read, then one update over the version read exactly when that is unsettled; a failure is stored only directly over an unsettled version, whose data, annotations and generation it keeps |
| `Controllers.FailedWithOnlyFails` | pkg/common/errors.go:131-141 | a stored failure has the reason of an outermost reasoned error or the general one, and its message; data, annotations and generation are as before |
| `Controllers.OnError` | pkg/resolver/framework/reconciler.go:157-166 | every error is reported as permanent after one attempt to store it |
| `Controllers.WriteResolvedData` | pkg/resolver/framework/reconciler.go:199-222 | one patch, which lands on whatever is stored; exactly when that is not acknowledged, the calls of `MarkFailed` follow with the update error, which is also returned |
| `Controllers.ReconcileResolver` | pkg/resolver/framework/reconciler.go:75-101 | every run ends in nil or a permanent error, never both acknowledges a patch and marks a failure, makes exactly the calls its verdict asks for, and makes none for a request that its cache shows settled |
| `Refinement.CoreCodeIsARun` | pkg/client/injection/reconciler/resolution/v1alpha1/resolutionrequest/reconciler.go:311-341 | the core's write code, with any protocol steps of others between its calls, leaves the history of a protocol run |
| `Refinement.CoreReconcileIsARun` | pkg/client/injection/reconciler/resolution/v1alpha1/resolutionrequest/reconciler.go:169-281 | so does its whole `Reconcile`, from the listed version to the last attempt |
| `Refinement.ResolverCodeIsARun` | pkg/resolver/framework/reconciler.go:157-222 | so does the framework's code from the verdict on |
| `Refinement.VerdictIsAStep` | pkg/resolver/framework/reconciler.go:139-152 | every verdict the race can deliver is a protocol step of its resolver run |
| `Refinement.ResolverReconcileIsARun` | pkg/resolver/framework/reconciler.go:75-222 | so does the framework's whole `Reconcile`, from the listed version through the race's verdict to the last call, with steps of others during the race and between the calls |
| `Lifecycle.DesiredIsDecided` | pkg/reconciler/resolutionrequest/resolutionrequest.go:52-69 | the knative steps and `ReconcileKind` together leave an observed settled status as it is and decide every other afresh |
| `Lifecycle.DesiredInFull` | pkg/reconciler/resolutionrequest/resolutionrequest.go:47-79 | the desired status in its four cases, with reasons, messages and the limit of sixty seconds as literals |
| `Lifecycle.ResolutionRequest.PreProcessReconcile` | vendor/knative.dev/pkg/reconciler/reconcile_common.go:47-67 | an unobserved status loses its condition; an observed one is only initialized |
| `Lifecycle.ResolutionRequest.ReconcileKind` | pkg/reconciler/resolutionrequest/resolutionrequest.go:47-72 | a settled status stays; otherwise data succeeds, old age times out, and the rest is requeued for creation plus one minute |
| `Lifecycle.ResolutionRequest.Process` | pkg/client/injection/reconciler/resolution/v1alpha1/resolutionrequest/reconciler.go:233-243 | the pass over the deep copy computes the desired status and its requeue |
| `Convergence.DoneByThirdPass` | pkg/reconciler/resolutionrequest/resolutionrequest.go:60-79 | with no data, a chain of passes driven by its own requeues is settled from the third pass on |
| `Convergence.TwoPassesMayNotSuffice` | pkg/reconciler/resolutionrequest/resolutionrequest.go:63 | a pass exactly on the deadline leaves the request in progress, so two passes may not be enough |
| `Errors.ReportedReasonIsGeneral` | pkg/common/errors.go:131-141 | no error of the framework's own flow carries any reason but the general one, whatever the resolver attached |
| `Errors.CauseEndsMessage` | pkg/common/errors.go:63-125 | each error the framework reports ends with the words of what went wrong |
| `Base64.RoundTrip` | pkg/resolver/framework/reconciler.go:200 | strict decoding gives back every encoded byte string |
| `Base64.DecodesExactlyEncodings` | pkg/resource/crd_resource.go:147-154 | a text decodes to given bytes if and only if, without line breaks, it is their encoding |
| `Base64.EncodeIsInjective` | pkg/resolver/framework/reconciler.go:200 | different contents have different encodings |
| `Base64.AlphabetInOrder` | pkg/resolver/framework/reconciler.go:200 | digit by digit, the alphabet of table 1 of RFC 4648 and the padding character |
| `Base64.GroupKeepsBits` | pkg/resolver/framework/reconciler.go:200 | three bytes and their four digits are the same 24-bit number |
| `Base64.GroupByGroup` | pkg/resolver/framework/reconciler.go:200 | groups are encoded one by one; a short last group is filled with zeros and padded where its bytes do not reach |
| `Fnv.MixIsInjective` | pkg/resource/name.go:27-29 | one hash step forgets neither the state nor the byte: the multiplier is invertible modulo 2^128 |
| `Fnv.StepUndone` | pkg/resource/name.go:27-29 | the step multiplies last: undoing first the multiplication and then the exclusive or gives back state and byte |
| `Fnv.HashOfA` | pkg/resource/name.go:27-29 | the published hash of the byte `a`, which fixes basis, prime and order of the step |
| `Fnv.HashOfConcat` | pkg/resource/name.go:41-53 | hashing chunk after chunk is hashing the concatenation |
| `Fnv.OneByteChangesHash` | pkg/resource/name.go:27-29 | changing any single byte of the input changes the hash |
| `SortedStrings.SortedIsUnique` | pkg/resource/name.go:45 | a set of keys has exactly one sorted enumeration |
| `SortedStrings.BeforeAtFirstDifference` | pkg/resource/name.go:45 | the order is that of the first differing byte, a prefix coming first |
| `Names.NameHasher.Write` | pkg/resource/name.go:42-52 | a write folds the chunk into the running hash |
| `Names.GenerateDeterministicName` | pkg/resource/name.go:36-55 | for every order in which Go may range over the parameters, the name is the prefix, a dash and the hex digest of base and sorted parameters |
| `Names.NameReadsBack` | pkg/resource/name.go:54 | a name is the prefix, a dash, and 32 hex digits that read in base 16 are the digest |
| `Names.DigestOfTwo` | pkg/resource/name.go:41-53 | two parameters are hashed after the base, the lesser key first, each followed by its value |
| `Names.NameIgnoresOrder` | pkg/resource/name.go:36-46 | Go's map iteration order never shows in a name |
| `Names.NamesClashIffDigestsDo` | pkg/resource/name.go:54 | with one prefix, names are equal if and only if the 128-bit digests are |
| `Names.OneByteChangesName` | pkg/resource/name.go:36-55 | requests that differ in one byte of one value never share a name |
| `Names.BytesMayMoveFromKeyToValue` | pkg/resource/name.go:46-53 | names are a best effort over all maps: in any map, bytes moved from the end of a key to the front of its value keep the name if the key keeps its place, because requests whose bytes run together to the same stream share one |
| `Bundle.ReadTar` | bundleresolver/pkg/bundle/bundle.go:100-124 | the buffer is returned only when exactly the header's size was read, with the layer's three annotations |
| `Bundle.GetEntry` | bundleresolver/pkg/bundle/bundle.go:72-146 | the nested search refines its declarative choice: the least manifest layer that is incomplete, or matches with a digest-equal layer or an in-range index, gives the answer |
| `Bundle.AnswerIsUnique` | bundleresolver/pkg/bundle/bundle.go:72-146 | the declarative choice has exactly one answer |
| `Bundle.EntryIsAsAsked` | bundleresolver/pkg/bundle/bundle.go:88-124 | an annotated entry is a whole tarball file of the size its header announced, in a layer with the digest of a complete manifest layer of the kind and name asked for, and carries exactly that layer's three annotations |
| `Bundle.TarEntryIsFound` | bundleresolver/pkg/bundle/bundle.go:88-124 | the first image layer with the digest of the first manifest layer asked for gives the one answer: its whole file with the three annotations under their published names |
| `Bundle.RawEntryIsFound` | bundleresolver/pkg/bundle/bundle.go:128-142 | with no such digest, the layer at the manifest layer's own index gives its raw content, without annotations |
| `Bundle.RawEntryIsAsAsked` | bundleresolver/pkg/bundle/bundle.go:128-142 | every entry without annotations is the raw content of the layer at the index of a matching manifest layer whose digest no layer has |
| `Bundle.NoMatchIff` | bundleresolver/pkg/bundle/bundle.go:72-146 | "no matching image layer" exactly when every manifest layer is annotated and each that matches has neither a digest-equal nor an indexed layer |
| `Bundle.MissingAnnotationIsNamed` | bundleresolver/pkg/bundle/bundle.go:73-86 | an error about a missing annotation names a manifest layer that lacks it and has those checked before |
| `Bundle.BundleResultsNeverTear` | bundleresolver/pkg/bundle/bundle.go:116-142 | whatever its bundles hold, no run stores a mix of two of the bundle resolver's calls |
| `GitResults.GitResultsNeverTear` | gitresolver/pkg/git/resolver.go:197-202 | no run stores a mix of two of the git resolver's calls |
| `GitResults.CommitMatchesContent` | gitresolver/pkg/git/resolver.go:181-202 | stored content always stands beside the hash of the commit it was read at, as one call of this run returned them |
| `Dispatch.UpdateFinalizersFiltered` | pkg/client/injection/reconciler/resolution/v1alpha1/resolutionrequest/reconciler.go:346-405 | a patch adds or removes only this controller's finalizer, names the cached version, and is sent only when membership is wrong |
| `Dispatch.SetFinalizerIfFinalizer` | pkg/client/injection/reconciler/resolution/v1alpha1/resolutionrequest/reconciler.go:407-423 | a patch is sent exactly when the object listed again lacks the finalizer a live object should have (or has one it should not), names that object's version, and changes nothing else |
| `Dispatch.ClearFinalizer` | pkg/client/injection/reconciler/resolution/v1alpha1/resolutionrequest/reconciler.go:425-450 | on a deleted object the same, towards removal, unless the finalizing method reported an error |
| `Dispatch.SetThenClear` | pkg/client/injection/reconciler/resolution/v1alpha1/resolutionrequest/reconciler.go:407-450 | setting and then clearing the finalizer gives back the original set |
| `Dispatch.Reconcile` | pkg/client/injection/reconciler/resolution/v1alpha1/resolutionrequest/reconciler.go:169-281 | which method runs, by leadership and deletion, for leaders and observers; only a leader writes, no nil method is called, at most one method runs, and the status is written exactly when a leader's working copy, which an accepted finalizer patch replaces, ends up different from the listed one; without a finalizer that is what the method made of it |
| `Dispatch.FinalizingStatusWrittenIff` | pkg/client/injection/reconciler/resolution/v1alpha1/resolutionrequest/reconciler.go:245-281 | for caches of any age, the finalizing method's own status is written exactly when it is new and no patch is sent or the patched object already holds it; after a patch only the status listed again can be written; with an up-to-date cache a change is written if and only if the method erred or the finalizer was already gone |

## Left out

- Creation by `Submit`, with labels and owner references: a run starts with the object already created.
- Deletion and re-creation of an object under the same name, and edits of its spec.
- Registry access, git clones, tar and compression internals, and `name.ParseReference`: each call is an arbitrary result.
- The text of wrapped errors: quoting and the extra pass of messages through Go's formatter, which rewrites percent signs.
- `LastTransitionTime`: semantic equality ignores it, so it never decides on a write.
- Events, logging, config maps, leader election, work queue internals, webhooks and generated clients.
- Label routing between resolvers, parameter validation, context helpers and defaulting: settled by reading one function.
- Success for empty resolved content: the core controller marks success only for a non-empty data string.
