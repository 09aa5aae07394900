# Federator.ai operator: models and proofs

A Dafny project that models the parts of the Federator.ai operator that carry state from
one step to the next, and proves what they promise. `dafny verify dfyconfig.toml` checks all
of it.

| Part | Modules |
|---|---|
| Keycode licensing | `KeycodeTypes`, `KeycodeHandlers`, `KeycodeReconcile`, `KeycodeOutcomes`, `KeycodeConsistency`, `KeycodeFlow`, `KeycodeDone`, `KeycodeSignature`, `KeycodeTimer`, `KeycodeEvents`, `KeycodeProgress`, `KeycodeController` |
| Storage claims | `StorageTypes`, `RangeRemoval`, `ClaimPlanner`, `VolumeWiring`, `ClaimAgreement` |
| Drift correction | `DriftHeap`, `DriftMerge`, `DriftReach`, `DriftCorrection`, `DriftReport`, `DriftController` |
| Lock between services | `ServiceLock` |
| Services and their exposure | `ServiceExposure`, `ServiceRepair`, `ServiceSync` |
| InfluxDB upgrade | `UpgradeBarrier`, `UpgradeTurns`, `UpgradeRounds` |
| Prometheus rules | `PrometheusRules`, `PrometheusPatcher`, `ServiceUrl` |
| Environment overlay | `EnvOverlay` |
| Shared | `Options` |

Code that updates objects in place is written twice: as a class or a method with the loops
and assignments of the original, and as a function of values it is proved equal to. The
properties are then proved about the function. The lock and the upgrade are interleavings of
single calls to the API server, so they are state machines whose every step is one call.

API servers, the datahub and clocks are inputs. A call that fails has no effect, except where
a model says otherwise: a status write of the keycode controller can be lost on its own, a
lock creation and a replica update can take effect while their reply is lost, and a
reconcile that dies is one whose calls fail from some point on, followed by a restart.

## Findings

* Keycode: once a status write is lost, the stored status stops matching the repository
  exactly when the reconcile got to a first successful deletion or, with nothing stored, to the
  send (`LostWriteBreaksConsistencyIff`).
* Keycode: a stored Done is justified in every run if an adoption by the special code counts
  only once its status write has landed. Counting every adoption, one reconcile breaks it
  exactly when it adopts again the code of a Done object and loses its write
  (`ReconcileKeepsDoneJustifiedIff`); runs without such a reconcile keep it
  (`DoneIsAlwaysJustified`), and a run with one is given (`UnwrittenAdoptionHappens`).
* Keycode: a signature is accepted only for the code it was entered with. It may be older than
  the code's last sending exactly if that found the repository empty, where an early signature is
  left in place (`SignaturesAreEntered`, `RestartKeepsSignatureIff`, `EarlySignatureIsSent`).
* Keycode: the deferred status writer's wish to requeue reaches the retry timer but never the
  caller, because the result is copied before the deferred functions run. When that leaves a
  retry nobody makes is said in `CallerMissesRetryIff`, what it costs in `MissedRetryShutsOut`.
* Claims: the delete-while-ranging loop is right exactly for lists without two copies side by
  side and without a copy in last place besides an earlier one (`RemovalCorrectIff`). A planning
  function panics exactly when some section has a removing entry behind two adding ones, or
  behind one for a claim the global entries have listed (`PlannerIff`, `OverrunsIff`), as a pvc
  and an ephemeral entry for one usage under a global pvc do (`TwoEntriesPanic`).
* Claims: a storage volume is left on a claim that is removed exactly when the global entry
  wires it and the section's entry is no pvc and does not rewire it, as an ephemeral entry
  without a usage does not (`DanglesIff`). The agent app's claims follow the backend's section
  (`AgentAppDanglesIff`).
* Drift: a merge reports exactly what differs among the things both sides have
  (`MergeReportsIff`). Appending a missing volume is not reported
  (`LackingVolumesGoUnreported`), so "nothing reported" means "nothing changed" exactly when the
  cluster names every source volume (`UnreportedChangeIff`). A second
  call is quiet exactly when source entries that share a name ask for the same
  (`SecondCallQuietIff`), and even a quiet one still writes the missing defaults of a volume
  the first call appended, through the pointers the cluster's volume now shares
  (`SecondCallFillsIff`).
* Lock: a lock left by an older release is never deleted by the operator
  (`UnannotatedLockStays`). Garbage collection breaks exclusion exactly when it takes the lock
  while a worker relies on it (`CascadeBreaksExclusionIff`), which during a deletion lets the
  handler delete another service's lock (`CascadeLetsTheHandlerDeleteAnotherLock`).
* Exposure: an exposure without node ports labels the ordinary service, which the
  synchronisation of ordinary services then finds mismatched: every reconcile deletes and
  creates again exactly the services exposed so (`BareExposureRecreatesIff`). Dropping the
  exposure leaves the service in place, unlabelled (`OrdinaryServicesStay`).
* Upgrade: a workload that appears once all workers are done is not waited for, and unless it
  is down already it is up while databases are dropped (`TooLateIff`).
* Rules: a patch closes the check exactly when the file asks for no record with an empty name
  (`PatchClosesTheCheckIff`); such a record is added again in every round.
* Service URL: the form with a pod name is read back exactly unless the namespace is called
  "svc" (`PodFormRoundTripIff`); the short form is misread when a dot follows the port, as in a
  path, unless that happens to fit (`ShortFormRoundTripIff`).

## Model

| member | source | states |
|---|---|---|
| KeycodeConsistency.RepositoryHoldsExactlyTheStatusCode | pkg/controller/alamedaservicekeycode/alamedaservice_controller.go:136-347 | from an empty repository and status, at every point of every run whose status writes land, the stored codes are exactly the status's code or none, and the state is waiting exactly when it names none |
| KeycodeConsistency.RunsStayConsistent | pkg/controller/alamedaservicekeycode/alamedaservice_controller.go:136-190 | edits, deletion marks, restarts and reconciles whose calls may all fail, but whose status writes land, keep repository and status in agreement |
| KeycodeConsistency.HandlersKeepStatusTrue | pkg/controller/alamedaservicekeycode/alamedaservice_controller.go:244-347 | whatever call fails, a handler ends with a status that matches the repository it leaves, without blocking, and its log tells whether the repository changed |
| KeycodeConsistency.LostWriteBreaksConsistencyIff | pkg/controller/alamedaservicekeycode/alamedaservice_controller.go:169-189 | when a status write is lost, the stored status stops matching the repository if and only if the calls before it succeed and the reconcile gets to a first successful deletion or, with nothing stored, to the send |
| KeycodeConsistency.LostWriteBreaksTheMatch | pkg/controller/alamedaservicekeycode/alamedaservice_controller.go:443-461 | a concrete run: the code is sent, the write is lost, the status does not know it |
| KeycodeConsistency.NeverTwoCodes | pkg/controller/alamedaservicekeycode/alamedaservice_controller.go:434-519 | whatever is lost, a repository with at most one code never holds two, and no worker blocks |
| KeycodeConsistency.CleanAttempt | pkg/controller/alamedaservicekeycode/alamedaservice_controller.go:434-519 | one undisturbed update for an ordinary code replaces every listed code by the new one and moves to polling |
| KeycodeConsistency.AnyAttempt | pkg/controller/alamedaservicekeycode/alamedaservice_controller.go:474-505 | an update cut off anywhere leaves blank entries alone and never more codes than before, or the new one |
| KeycodeConsistency.InterruptedUpdatesStabilise | pkg/controller/alamedaservicekeycode/alamedaservice_controller.go:434-519 | after any number of cut-off updates, one clean update on what they left, fewer than a hundred codes, ends with only the new code, in the status too, polling |
| KeycodeConsistency.InterruptionsDoNotShow | pkg/controller/alamedaservicekeycode/alamedaservice_controller.go:434-519 | that is where a single clean update on the original repository would have ended |
| KeycodeHandlers.DeleteAllEffect | pkg/controller/alamedaservicekeycode/alamedaservice_controller.go:409-429 | the deletion loop: exactly when it finishes, fails or blocks on the event channel, which codes survive, what it logs |
| KeycodeHandlers.DeletingEverythingLeavesBlank | pkg/controller/alamedaservicekeycode/alamedaservice_controller.go:474-494 | deleting every listed code leaves exactly the blank entries the loop skips |
| KeycodeOutcomes.ApplyingSucceeds | pkg/controller/alamedaservicekeycode/alamedaservice_controller.go:443-517 | applying a code that succeeds: sent to an empty repository with spec and signature as they are; the special one adopts the first stored code; any other replaces what is stored, and old signature, registration data and error are gone from spec and status |
| KeycodeOutcomes.FailureNamesTheStep | pkg/controller/alamedaservicekeycode/alamedaservice_controller.go:232-343 | a failure at any step asks for a retry, adds no code and changes only the last error, which names the step; if the send fails after the deletions, signature, registration data, code and state start over as well |
| KeycodeOutcomes.EmptyingSucceeds | pkg/controller/alamedaservicekeycode/alamedaservice_controller.go:244-255 | an emptied keycode leaves an empty spec and a waiting status, with the listed codes deleted if the status named one |
| KeycodeOutcomes.AppliedMovesOn | pkg/controller/alamedaservicekeycode/alamedaservice_controller.go:288-343 | an applied code moves on by registration data or an accepted signature, to exactly which spec and status, and else stays as it is |
| KeycodeOutcomes.StoredObject | pkg/controller/alamedaservicekeycode/alamedaservice_controller.go:146-190 | the object stored by the deferred write: handled spec and status under the summary of the repository, or the old one if the write does not land |
| KeycodeOutcomes.UnownedDoesNothing | pkg/controller/alamedaservicekeycode/alamedaservice_controller.go:192-221 | without the object or the lock nothing changes, and a retry is asked for exactly if a call failed |
| KeycodeOutcomes.SpecialUpToDashes | pkg/controller/alamedaservicekeycode/alamedaservice_controller.go:521-531 | the special keycode is one code, wherever dashes are put |
| KeycodeFlow.StateFollowsTheArrows | pkg/controller/alamedaservicekeycode/alamedaservice_controller.go:244-347 | whatever fails, a reconcile keeps the stored state or follows one of the arrows of the state flow, and keeps it if the write is lost |
| KeycodeFlow.EmptyingStartsOver | pkg/controller/alamedaservicekeycode/alamedaservice_controller.go:244-255 | emptying the keycode deletes every listed code and starts spec and status over |
| KeycodeFlow.NormalCycle | docs/controller/keycode/state_flow.md:5-16 | the documented cycle for any code and signature: sent, polled, signed, Done, deleted, waiting with an empty repository |
| KeycodeDone.DoneIsAlwaysJustified | pkg/controller/alamedaservicekeycode/alamedaservice_controller.go:257-347 | in every run from a state that is not Done, lost writes included, a stored Done for a code is preceded by a Registered reply or an accepted signature for that very code since the code was last sent or adopted by a reconcile whose write landed; and with every adoption counted, if no reconcile of the run adopts again the code of a Done object and loses its write |
| KeycodeDone.StepsToDoneIff | pkg/controller/alamedaservicekeycode/alamedaservice_controller.go:288-343 | a reconcile moves to Done if and only if it polled and was told Registered, or sent a signature that was accepted; never from a waiting state |
| KeycodeDone.ReconcileKeepsDoneJustifiedIff | pkg/controller/alamedaservicekeycode/alamedaservice_controller.go:463-471 | from any state, one reconcile keeps a stored Done justified; with every adoption counted, if and only if it does not adopt again the code of a Done object and lose the write |
| KeycodeDone.UnwrittenAdoptionHappens | pkg/controller/alamedaservicekeycode/alamedaservice_controller.go:463-471 | a run from the empty start in which that exception occurs |
| KeycodeSignature.SignaturesAreEntered | pkg/controller/alamedaservicekeycode/alamedaservice_controller.go:329-341 | in every run, a signature accepted for a code was entered by an edit with that very code, after which the code was sent or adopted, by a reconcile whose write landed, only into an empty repository; and not at all, if no step sends a code there with a signature beside it |
| KeycodeSignature.RestartKeepsSignatureIff | pkg/controller/alamedaservicekeycode/alamedaservice_controller.go:443-517 | a landed send or adoption leaves a signature in the spec if and only if it found the repository empty and the signature there |
| KeycodeSignature.EarlySignatureIsSent | pkg/controller/alamedaservicekeycode/alamedaservice_controller.go:443-461 | a run in which that happens: code and signature entered together, the code sent, polled, and the early signature accepted |
| KeycodeTimer.TimerRefinesHistory | pkg/controller/alamedaservicekeycode/alamedaservice_controller.go:223-230 | in every run the cached first retry time is nil outside a requeue streak and the end of the streak's first reconcile inside it, and no handler in a streak starts more than thirty minutes later |
| KeycodeTimer.CallerMissesRetryIff | pkg/controller/alamedaservicekeycode/alamedaservice_controller.go:140-190 | a retry is pending in the timer that the caller was not asked to make if and only if the writer read the object and then failed, and the handlers, if they ran, needed no call that failed and did not apply a code |
| KeycodeTimer.MissedRetryShutsOut | pkg/controller/alamedaservicekeycode/alamedaservice_controller.go:223-230 | served again only after the limit, such a key is shut out of one reconcile that asks for no other, and stays shut out if and only if that one's write fails too |
| KeycodeEvents.EventsReportedOnce | pkg/controller/alamedaservicekeycode/alamedaservice_controller.go:643-717 | in every run the channel is empty between reconciles and the event service got, once and in order, exactly the events of reconciles that changed code or state or served a deletion |
| KeycodeEvents.ReconcileEventsAreFaithful | pkg/controller/alamedaservicekeycode/alamedaservice_controller.go:409-517 | the events of a reconcile are a success for each deletion and each send it made, in order, and at most one failure at the end |
| KeycodeEvents.EmptyingInOrder | pkg/controller/alamedaservicekeycode/alamedaservice_controller.go:409-429 | emptying deletes the non-blank codes in list order up to the first failure, one success event each, one failure event for the code it failed at |
| KeycodeEvents.ReplacingInOrder | pkg/controller/alamedaservicekeycode/alamedaservice_controller.go:474-517 | replacing does the same and then sends, with one event for a send that succeeds; a failed deletion is reported under the new code, a failed send not at all |
| KeycodeEvents.SendingInOrder | pkg/controller/alamedaservicekeycode/alamedaservice_controller.go:443-471 | sending to an empty repository makes one event, adopting none |
| KeycodeEvents.HandsOverIff | pkg/controller/alamedaservicekeycode/alamedaservice_controller.go:643-717 | a reconcile submits exactly its own events, if and only if the object is being deleted or ends with another code or state than remembered, and remembers both unless it is being deleted |
| KeycodeEvents.BlocksIff | pkg/controller/alamedaservicekeycode/alamedaservice_controller.go:629-641 | a reconcile blocks on the channel if and only if it deletes a hundred codes and has one more event to add |
| KeycodeEvents.NeverBlocksBelowAHundred | pkg/controller/alamedaservicekeycode/alamedaservice_controller.go:609-641 | with at most 99 codes listed no event is ever waited for |
| KeycodeProgress.CleanReconcile | pkg/controller/alamedaservicekeycode/alamedaservice_controller.go:257-347 | without failures the rank falls with each reconcile that passes the gate, or nothing moves any more; a gated one opens the gate |
| KeycodeProgress.HalfPassTheGate | pkg/controller/alamedaservicekeycode/alamedaservice_controller.go:223-230 | the gate never shuts out two clean reconciles in a row |
| KeycodeProgress.SettlesIff | pkg/controller/alamedaservicekeycode/alamedaservice_controller.go:257-347 | after three clean reconciles through the gate, or any six, a non-empty code is Done or waits for a signature, if and only if its state is not an unknown one |
| KeycodeController.ReconcileAlamedaServiceKeycode.Reconcile | pkg/controller/alamedaservicekeycode/alamedaservice_controller.go:136-348 | one reconcile, step by step, computes repository, stored object, caches, result and submitted events as the function says, and leaves other keys and namespaces alone |
| KeycodeController.ReconcileAlamedaServiceKeycode.Process | pkg/controller/alamedaservicekeycode/alamedaservice_controller.go:232-347 | the handlers and the state switch behind the retry gate |
| KeycodeController.ReconcileAlamedaServiceKeycode.HandleKeycode | pkg/controller/alamedaservicekeycode/alamedaservice_controller.go:434-519 | sends, adopts, or deletes and sends, with the status updated on the way |
| KeycodeController.ReconcileAlamedaServiceKeycode.HandleEmptyKeycode | pkg/controller/alamedaservicekeycode/alamedaservice_controller.go:399-432 | deletes the listed codes if the code number changed to empty |
| KeycodeController.ReconcileAlamedaServiceKeycode.DeleteKeycodes | pkg/controller/alamedaservicekeycode/alamedaservice_controller.go:409-429 | the loop both handlers run: skip blanks, stop at the first failure, one event per attempt |
| KeycodeController.ReconcileAlamedaServiceKeycode.WriteStatus | pkg/controller/alamedaservicekeycode/alamedaservice_controller.go:146-190 | the deferred write of spec and status, and when it raises the local Requeue flag |
| KeycodeController.ReconcileAlamedaServiceKeycode.RunDeferred | pkg/controller/alamedaservicekeycode/alamedaservice_controller.go:143-190 | the deferred functions run last registered first: status write, retry timer, event flush, last task |
| KeycodeController.ReconcileAlamedaServiceKeycode.HandleFirstRetryTime | pkg/controller/alamedaservicekeycode/alamedaservice_controller.go:351-363 | the first time is set once in a streak and cleared at its end, for its own key only |
| KeycodeController.ReconcileAlamedaServiceKeycode.FlushEvents | pkg/controller/alamedaservicekeycode/alamedaservice_controller.go:643-697 | drains the channel and submits what it held, or drops it if code and state have not changed |
| KeycodeController.ReconcileAlamedaServiceKeycode.AddEvent | pkg/controller/alamedaservicekeycode/alamedaservice_controller.go:629-641 | one event is appended to the namespace's channel, or the sender blocks on a full one |
| KeycodeController.ReconcileAlamedaServiceKeycode.SetLastReconcileTask | pkg/controller/alamedaservicekeycode/alamedaservice_controller.go:699-717 | remembers code and state unless the object is being deleted |
| RangeRemoval.RemoveWhileRanging | pkg/processcrdspec/alamedaserviceparamter/alamedaserviceparamter.go:741-745 | the loop as it runs on the shared array: when it panics, and what it leaves live otherwise |
| RangeRemoval.RemovalCorrectIff | pkg/processcrdspec/alamedaserviceparamter/alamedaserviceparamter.go:760-764 | it removes every copy and nothing else, without a panic, if and only if no two copies are adjacent and no copy is last besides an earlier one |
| RangeRemoval.SingleCopyRemoved | pkg/processcrdspec/alamedaserviceparamter/alamedaserviceparamter.go:760-764 | a single copy is removed without a panic, wherever it stands |
| ClaimPlanner.PlannerRefines | pkg/processcrdspec/alamedaserviceparamter/alamedaserviceparamter.go:543-695 | with at most one entry per usage, a claim is installed if and only if its deciding entry, the section's or else the global one, is a pvc, uninstalled if and only if there is one that is not, and never both |
| ClaimPlanner.PlannerIff | pkg/processcrdspec/alamedaserviceparamter/alamedaserviceparamter.go:543-695 | for any settings: each list panics if and only if some section's entries for a usage overrun, and otherwise holds a claim if and only if its section's last governing entry asks for it, or without one the global entries do |
| ClaimPlanner.InstallIff | pkg/processcrdspec/alamedaserviceparamter/alamedaserviceparamter.go:625-695 | the same for the install list alone, through both passes over any complete lists |
| ClaimPlanner.UninstallIff | pkg/processcrdspec/alamedaserviceparamter/alamedaserviceparamter.go:543-611 | the same for the uninstall list alone |
| ClaimPlanner.OverrunsIff | pkg/processcrdspec/alamedaserviceparamter/alamedaserviceparamter.go:733-769 | a section's entries overrun if and only if some removing entry comes after two adding ones, or after one for a claim already listed, with no removal between |
| ClaimPlanner.SectionPassEffect | pkg/processcrdspec/alamedaserviceparamter/alamedaserviceparamter.go:733-769 | one section's loop panics if and only if its entries overrun; otherwise its last governing entry settles its claim and every other claim keeps its copies |
| ClaimPlanner.TwoEntriesPanic | pkg/processcrdspec/alamedaserviceparamter/alamedaserviceparamter.go:752-769 | for every component whose section is read: a pvc and then an ephemeral entry for one usage, under a global pvc, make the install list panic |
| ClaimPlanner.GetInstallClaims | pkg/processcrdspec/alamedaserviceparamter/alamedaserviceparamter.go:625-695 | the install list as built by appends and in-place deletions, the global lists unwritten |
| ClaimPlanner.GetUninstallClaims | pkg/processcrdspec/alamedaserviceparamter/alamedaserviceparamter.go:543-611 | the uninstall list, likewise |
| ClaimPlanner.SectionInPlace | pkg/processcrdspec/alamedaserviceparamter/alamedaserviceparamter.go:752-769 | one section's loop on the slice |
| ClaimPlanner.Append | pkg/processcrdspec/alamedaserviceparamter/alamedaserviceparamter.go:756 | a Go append: in place while there is room, else into a new array |
| StorageTypes.ListsAreComplete | pkg/processcrdspec/alamedaserviceparamter/alamedaserviceparamter.go:226-272 | every component is once in each of the global lists and in the visiting order |
| VolumeWiring.SetStorageToVolumeSource | pkg/util/util.go:232-263 | the loop over storage entries that rewrites volume sources in place |
| VolumeWiring.GetVolumeIndex | pkg/util/util.go:190-207 | the first volume whose name has the usage's suffix, or none |
| VolumeWiring.ParamterToDeployment | pkg/processcrdspec/processcrdspec.go:13-17 | both passes in place, the global one first |
| VolumeWiring.WireOutcome | pkg/util/util.go:232-263 | with one entry per usage, each storage volume gets its governing entry's effect and no other volume changes |
| VolumeWiring.EntryInWords | pkg/util/util.go:232-263 | what one entry makes of every volume, without auxiliary definitions: a pvc with a usage, without one inside and outside the alameda group, an ephemeral entry, and all that is left alone |
| VolumeWiring.IndexInWords | pkg/util/util.go:190-207 | the volume meant for a usage is the first whose name ends in "-log-storage" or "-data-storage" |
| VolumeWiring.OverlayOutcome | pkg/processcrdspec/processcrdspec.go:13-17 | applying global then section settings, the section's effect wins where it has one, else the global one stands |
| ClaimAgreement.NoDanglingClaim | pkg/util/util.go:232-263 | with types pvc and ephemeral, usages log and data and one entry per usage, every claim a Deployment refers to is installed and not uninstalled |
| ClaimAgreement.MountedIffInstalled | pkg/util/util.go:232-263 | conversely, with types pvc and ephemeral, usages log and data, one entry per usage and a size on every pvc, the storage volume refers to its claim if and only if the claim is installed; where the deciding entry is ephemeral it is an empty directory of its size, and without one it is left alone |
| ClaimAgreement.DanglesIff | pkg/util/util.go:241-261 | for any entries, one per usage, exactly when a storage volume refers to a claim that is missing or removed |
| ClaimAgreement.AgentAppDanglesIff | pkg/processcrdspec/alamedaserviceparamter/alamedaserviceparamter.go:586-607 | the same for the agent app, whose claims follow the backend's section |
| ClaimAgreement.EphemeralWithoutUsageDangles | pkg/util/util.go:254-261 | a concrete section that leaves its log volume on a removed claim |
| ClaimAgreement.AgentAppDangles | pkg/processcrdspec/alamedaserviceparamter/alamedaserviceparamter.go:668-692 | a concrete pvc in the agent app's section that is mounted and never installed |
| DriftCorrection.SecondCallQuietIff | pkg/updateresource/updateresource.go:94-104 | a second merge with the same source reports nothing if and only if source entries of one name ask for the same, and then leaves the cluster's object as it is, up to defaults behind shared pointers |
| DriftCorrection.DistinctNamesAreUnambiguous | pkg/updateresource/updateresource.go:251-254 | distinct names are a special case of that condition |
| DriftCorrection.SecondCallFillsIff | pkg/updateresource/updateresource.go:216-236 | the second merge still writes defaults through pointers if and only if an appended volume lacks them; a third never does |
| DriftCorrection.MergeRepairs | pkg/updateresource/updateresource.go:187-305 | after one merge every name-matched container agrees on all managed fields, every source volume is present, the whole-copied fields are the source's |
| DriftCorrection.MergeKeepsTheRest | pkg/updateresource/updateresource.go:203-305 | unmatched containers, cluster-only volumes, order, names and unmanaged fields stay; exactly the missing volumes are appended |
| DriftCorrection.UnreportedChangeIff | pkg/updateresource/updateresource.go:246-248 | an unreported merge only appended missing volumes; it changed nothing if and only if none was missing |
| DriftReport.MergeReportsIff | pkg/updateresource/updateresource.go:203-305 | a merge reports if and only if a whole-copied field differs, or a container both name differs from the defaulted source, or a volume both name does |
| DriftReport.LackingVolumesGoUnreported | pkg/updateresource/updateresource.go:246-248 | a merge that only lacks volumes grows the Deployment and reports nothing |
| DriftReport.DefaultsInWords | pkg/updateresource/updateresource.go:211-236 | which defaults are written: mode 420, API version "v1", nothing else |
| DriftCorrection.NoHotLoopIff | pkg/updateresource/updateresource.go:41-45 | after the server has filled in its defaults on a copy, merging the same source, reused or rendered anew, finds nothing to do if and only if the source is unambiguous |
| DriftReach.MergeWritesOnlyTheSource | pkg/updateresource/updateresource.go:216-236 | a merge writes no memory the source's pointers do not reach |
| DriftReach.ClusterOnlyVolumeKeepsItsValue | pkg/updateresource/updateresource.go:211-249 | a cluster-only volume that shares no memory with the source keeps its value behind the pointers |
| DriftMerge.MergeContainersAgree | pkg/updateresource/updateresource.go:251-305 | the container merge brings every matched container into agreement |
| DriftMerge.MergeContainersFrame | pkg/updateresource/updateresource.go:251-305 | names and unmanaged fields stay, unmatched containers are untouched, and nothing changes unreported |
| DriftMerge.MergeVolumesPresent | pkg/updateresource/updateresource.go:211-249 | the volume merge leaves every source volume present, appended ones sharing its pointers |
| DriftMerge.MergeVolumesEqual | pkg/updateresource/updateresource.go:238-242 | a source volume the cluster already named ends up deeply equal to its defaulted value |
| DriftMerge.MergeVolumesQuiet | pkg/updateresource/updateresource.go:211-249 | with every source volume present only defaults are written |
| DriftMerge.FillAllIdleIff | pkg/updateresource/updateresource.go:216-236 | writing the defaults changes nothing if and only if none is missing, and leaves none missing |
| DriftHeap.FillSourceEffect | pkg/updateresource/updateresource.go:216-236 | writing through a volume's pointers makes its value the defaulted one and changes other cells by defaults only |
| DriftHeap.FillEnvEffect | pkg/updateresource/updateresource.go:288-296 | the same for the field references of an environment |
| DriftController.ClusterDeployment.MisMatchResourceDeployment | pkg/updateresource/updateresource.go:94-104 | the whole merge in place: report, cluster object and memory as the function says |
| DriftController.ClusterDeployment.MisMatchVolume | pkg/updateresource/updateresource.go:211-249 | one source volume: search to the first match, default, compare, replace, or append |
| DriftController.MisMatchOne | pkg/updateresource/updateresource.go:252-304 | one source container against every cell of the cluster's slice |
| DriftController.MisMatchContainers | pkg/updateresource/updateresource.go:251-305 | the nested loops over source and cluster containers |
| DriftController.Memory.DefaultSource | pkg/updateresource/updateresource.go:216-237 | the defaults written through secret, config map and downward pointers, in order |
| ServiceLock.MutualExclusion | pkg/controller/alamedaservice/alamedaservice_controller.go:1829-1860 | for any number of services and any interleaving of single calls, with garbage collection whenever no worker relies on the lock, at most one worker is past the gate or releasing the lock, and the lock belongs to it |
| ServiceLock.EachLockServesOneService | pkg/controller/alamedaservice/alamedaservice_controller.go:491-526 | in all those runs, from a lock's creation until it is gone every pass through the gate, and its deletion, are by one service, and once it is gone the lock is created before anyone passes |
| ServiceLock.DeletesOnlyItsOwnLock | pkg/controller/alamedaservice/alamedaservice_controller.go:498-513 | a deletion handler that removes the lock removes its own service's |
| ServiceLock.HandlerDeletesIff | pkg/controller/alamedaservice/alamedaservice_controller.go:491-526 | a deletion handler left to itself deletes the lock if and only if the lock names its service and both calls on the lock succeed |
| ServiceLock.ReadingTheLock | pkg/controller/alamedaservice/alamedaservice_controller.go:1829-1836 | of the services that read an existing lock, exactly the one its annotation names and those among its owners by UID go through the gate, the others turn away, and without a lock it is to be created |
| ServiceLock.CreatingTheLock | pkg/controller/alamedaservice/alamedaservice_controller.go:1838-1860 | a created lock names its service; the creator goes through if it gets the reply, and creates nothing where a lock is there |
| ServiceLock.OwnerPassesEveryTime | pkg/controller/alamedaservice/alamedaservice_controller.go:1829-1836 | the owner of an annotated or older lock goes through in every one of any number of undisturbed reconciles, any other service in none |
| ServiceLock.WorkersFollowTheArrows | pkg/controller/alamedaservice/alamedaservice_controller.go:183-230 | each call moves the worker of its own key along the path of a reconcile or a deletion handler and leaves all others where they are |
| ServiceLock.ServicesComeAndGo | pkg/controller/alamedaservice/alamedaservice_controller.go:185-193 | services come with a fresh UID and go, and a reconcile fetches what is there |
| ServiceLock.CascadeBreaksExclusionIff | pkg/controller/alamedaservice/alamedaservice_controller.go:508-523 | a cascade lets a waiting service in beside another if and only if some worker relies on the lock at that moment |
| ServiceLock.NobodyElsePasses | pkg/controller/alamedaservice/alamedaservice_controller.go:1829-1836 | while the owner's worker does nothing, its lock stays and nobody passes the gate |
| ServiceLock.UnannotatedLockStays | pkg/controller/alamedaservice/alamedaservice_controller.go:504 | a lock without the annotation is deleted by no handler, whose test carries no UID |
| ServiceLock.CascadeLetsTheHandlerDeleteAnotherLock | pkg/controller/alamedaservice/alamedaservice_controller.go:508-523 | a concrete interleaving with garbage collection in which the handler deletes another service's lock |
| ServiceLock.TextIsInjective | pkg/controller/util/util.go:45-46 | the annotation names one service |
| ServiceLock.NextKeepsInv | pkg/controller/alamedaservice/alamedaservice_controller.go:1838-1868 | every single call, and a cascade while nobody relies on the lock, keeps the lock, UIDs and workers consistent |
| ServiceExposure.NewNodePortService | pkg/controller/alamedaservice/alamedaservice_controller.go:1229-1261 | every exposed port exactly once with its last-given node port, the service's own first in its order, the rest named after their number |
| ServiceExposure.CountIsNumberExposed | pkg/controller/alamedaservice/alamedaservice_controller.go:1242-1259 | the port count equals the number of distinct exposed ports |
| ServiceExposure.GivenLast | pkg/controller/alamedaservice/alamedaservice_controller.go:1238-1241 | the last entry of a port number decides its node port |
| ServiceExposure.NodePortServiceInWords | pkg/controller/alamedaservice/alamedaservice_controller.go:1229-1261 | a NodePort service keeps everything but name, type and ports, and lists no number the exposure does not |
| ServiceExposure.ListedPortInWords | pkg/controller/alamedaservice/alamedaservice_controller.go:1243-1259 | each exposed number is listed once, with its last node port: the service's own port otherwise unchanged, or if it has none a new one named "port-" and the number |
| ServiceExposure.OwnPortsComeFirst | pkg/controller/alamedaservice/alamedaservice_controller.go:1243-1259 | ports with numbers of the service's own come before all others |
| ServiceExposure.DecimalIsTheNumber | pkg/controller/alamedaservice/alamedaservice_controller.go:1256 | the number in that name is written in digits without leading zeros |
| ServiceExposure.ExposureOfIsTheLast | pkg/controller/alamedaservice/alamedaservice_controller.go:1144-1147 | of several exposures of one name the last counts |
| ServiceExposure.WantedInWords | pkg/controller/alamedaservice/alamedaservice_controller.go:1206-1236 | but for its ports, the service wanted is the rendered one with the label added to its labels and, if node ports are listed, under name and type of its own |
| ServiceExposure.KeptAreTheServicesOwn | pkg/controller/alamedaservice/alamedaservice_controller.go:1243-1251 | the service's own exposed ports are each kept once, none left out |
| ServiceExposure.KeptInServiceOrder | pkg/controller/alamedaservice/alamedaservice_controller.go:1243-1251 | they keep the service's order and are taken from the first occurrence |
| ServiceExposure.BuildWanted | pkg/controller/alamedaservice/alamedaservice_controller.go:1143-1160 | an unsupported type on an exposed service is an error; otherwise the keys asked for, each from the last service that asks |
| ServiceSync.Cluster.SyncServiceExposure | pkg/controller/alamedaservice/alamedaservice_controller.go:1141-1204 | on success the cluster has converged and exactly the stale labelled services were deleted; on failure every service is untouched or done |
| ServiceSync.Cluster.SyncService | pkg/controller/alamedaservice/alamedaservice_controller.go:1105-1138 | each rendered service is created, or deleted and created again on a mismatch, up to the first failure |
| ServiceSync.Cluster.SyncServices | pkg/controller/alamedaservice/alamedaservice_controller.go:330-337 | both synchronisations in the order of a reconcile: what they leave, what they delete, where a failure leaves the services |
| ServiceRepair.RepairedMatches | pkg/updateresource/updateresource.go:58-92 | afterwards every rendered service is there and matches in labels, selector and type |
| ServiceRepair.RepairAllAt | pkg/controller/alamedaservice/alamedaservice_controller.go:1106-1136 | a service is deleted and created again if and only if it was there and did not match, each on its own |
| ServiceRepair.RepairedInWords | pkg/controller/alamedaservice/alamedaservice_controller.go:1106-1136 | a service that matches in labels, selector and type is left exactly as found, any other is created as rendered, with type and cluster IP filled in |
| ServiceRepair.RepairResumes | pkg/controller/alamedaservice/alamedaservice_controller.go:1123-1134 | a repair that failed anywhere, even between deletion and creation, is made good by the next |
| ServiceSync.LabelledAreTheWanted | pkg/controller/alamedaservice/alamedaservice_controller.go:1187-1201 | after success the labelled services are exactly the wanted ones and unlabelled unwanted ones are untouched |
| ServiceSync.StoredInWords | pkg/controller/alamedaservice/alamedaservice_controller.go:1162-1186 | an exposed service is stored as wanted, under the cluster IP it already had |
| ServiceSync.RetryConverges | pkg/controller/alamedaservice/alamedaservice_controller.go:330-337 | however a reconcile failed in either synchronisation, a later successful one leaves what it would have left without the failure, but for cluster IPs of wanted services |
| ServiceSync.OrdinaryServicesStay | pkg/controller/alamedaservice/alamedaservice_controller.go:330-337 | from any state, a reconcile leaves every rendered service in place, labelled if and only if something asks for its key; so dropping an exposure unlabels the ordinary service and does not delete it |
| ServiceSync.RepeatedReconcileRemovesNothing | pkg/controller/alamedaservice/alamedaservice_controller.go:1195-1201 | a repeated reconcile has no labelled service to delete |
| ServiceSync.RepeatedReconcileRecreatesIff | pkg/controller/alamedaservice/alamedaservice_controller.go:1123-1134 | a repeated reconcile deletes and creates again an ordinary service if and only if something asks for its key |
| ServiceSync.BareExposureRecreatesIff | pkg/controller/alamedaservice/alamedaservice_controller.go:1231-1233 | barring a clash of names, exactly the services exposed without node ports are deleted and created again by every reconcile |
| UpgradeBarrier.DropsOnlyWhileDown | cmd/upgrader/influxdb/influxdb.go:138-147 | for any workloads, also ones that appear before their worker looks, and any interleaving of workers, replica controller and failures, databases are dropped only while every existing workload of the service is requested and actual at zero |
| UpgradeBarrier.SuccessLeavesAllUp | cmd/upgrader/influxdb/influxdb.go:149-156 | a run that succeeds leaves every workload of every service it dropped databases for at one, requested and actual |
| UpgradeTurns.SuccessServesEveryService | cmd/upgrader/influxdb/influxdb.go:105-157 | a run that succeeds has skipped every service by its own check or dropped its databases, never both, each once and in order |
| UpgradeTurns.CheckDecides | cmd/upgrader/influxdb/influxdb.go:105-138 | a service's check skips it for the next one, starts one worker per workload, or fails the run |
| UpgradeTurns.FailedCallsBreak | cmd/upgrader/influxdb/influxdb.go:274-318 | which failing calls break a worker, lost replies and vanished workloads included |
| UpgradeTurns.FailuresEndTheRun | cmd/upgrader/influxdb/influxdb.go:105-157 | a run fails exactly at a failing check, a failing drop or the join of a group with a broken worker, and succeeds exactly past its last service |
| UpgradeRounds.UndisturbedRound | cmd/upgrader/influxdb/influxdb.go:138-152 | from every state before a service's check, an undisturbed round scales down, drops, scales up and arrives before the next service's check |
| UpgradeRounds.UndisturbedUpgradeSucceeds | cmd/upgrader/influxdb/influxdb.go:105-157 | without failures every service's databases are dropped, each in its turn, and the run succeeds |
| UpgradeBarrier.OthersKeepTheirRequest | cmd/upgrader/influxdb/influxdb.go:258-302 | workloads of no service keep their requested replicas |
| UpgradeBarrier.NextKeepsPhaseSound | cmd/upgrader/influxdb/influxdb.go:258-351 | every single call and every replica change keeps the group under way sound, and so does a workload that appears in time |
| UpgradeBarrier.NextKeepsInv | cmd/upgrader/influxdb/influxdb.go:105-157 | and the whole invariant, services done with included, if the workload is none of theirs |
| UpgradeBarrier.TooLateIff | cmd/upgrader/influxdb/influxdb.go:277-280 | a workload that appears once all workers are done is not waited for, and the promise is kept if and only if it is down already |
| UpgradeBarrier.LateWorkloadIsNotWaitedFor | cmd/upgrader/influxdb/influxdb.go:277-280 | a concrete run: a workload that appears after its worker found none is up while databases are dropped |
| PrometheusRules.MissingIff | cmd/patch/utils/utils.go:221-253 | a record is reported if and only if the file asks for it with an expression and no recording rule has it, with the last expression given |
| PrometheusRules.PanicsIff | cmd/patch/utils/utils.go:240-247 | the check panics if and only if an entry has no textual record, or lacks a rule and has an expression that is no text |
| PrometheusRules.ExistingIff | cmd/patch/utils/utils.go:225-233 | a record counts as there if and only if some rule of some group of some object, wherever it stands, is no alert and bears the name, which is not empty |
| PrometheusRules.PatchClosesTheCheckIff | cmd/patch/prometheus/rules.go:118-173 | a successful patch of what the check reported empties the check if and only if the file asks for no record with an empty name |
| PrometheusRules.PatchOnlyAdds | cmd/patch/prometheus/rules.go:155-168 | no record that was there is added, earlier rules stay in place, other objects are untouched |
| PrometheusRules.PatchedGroupIff | cmd/patch/prometheus/rules.go:118-173 | the patched group holds exactly what it held and, for each record of the file that nobody has, a rule with the expression the file gives last |
| PrometheusRules.PatchAddsEachOnce | cmd/patch/prometheus/rules.go:123-167 | a patch adds one rule per missing record and none for any other |
| PrometheusRules.RoundsAddEachOnce | cmd/patch/prometheus/rules.go:20-51 | over any number of check and patch rounds each named record is added at most once, and only if none was there |
| PrometheusRules.NamelessRecordIsAddedAgain | cmd/patch/prometheus/rules.go:123-128 | a record with an empty name is added again in every round |
| PrometheusPatcher.GetMissingRules | cmd/patch/utils/utils.go:221-253 | the nested loops compute the missing records, or panic, as specified |
| PrometheusPatcher.RuleStore.PatchMissingRules | cmd/patch/prometheus/rules.go:53-176 | created, given its only group, or extended in its first group; a failure changes nothing |
| EnvOverlay.ReplaceOrAppendEnvVar | pkg/processcrdspec/componentsectionset/componentsectionset.go:207-228 | the loops compute the overlay and write to neither argument |
| EnvOverlay.OverlayOverrides | pkg/processcrdspec/componentsectionset/componentsectionset.go:214-226 | a name looks up as the last source entry of that name, else as in the target |
| EnvOverlay.OverlayKeepsNames | pkg/processcrdspec/componentsectionset/componentsectionset.go:209-226 | the target's names stay a prefix in order, and distinct names stay distinct |
| EnvOverlay.OverlayAddsOnlySourceNames | pkg/processcrdspec/componentsectionset/componentsectionset.go:214-226 | the names are exactly those of target and source |
| EnvOverlay.OverlayTwice | pkg/processcrdspec/componentsectionset/componentsectionset.go:207-228 | overlaying the same source again changes nothing |
| ServiceUrl.ShortFormRoundTripIff | cmd/patch/utils/utils.go:50-75 | [scheme://]svc.ns, with nothing or a port and anything behind, is read back as (ns, svc) if and only if no dot follows, or what follows the first one is "svc", or all of it, namespace and service is one name |
| ServiceUrl.SvcFormRoundTrip | cmd/patch/utils/utils.go:66-73 | [scheme://]svc.ns.svc, alone or with a port, a domain or anything else behind, is read back as (ns, svc) |
| ServiceUrl.PodFormRoundTripIff | cmd/patch/utils/utils.go:66-73 | [scheme://]pod.svc.ns, likewise, is read back as (ns, svc) if and only if ns is not "svc", or all three labels are |
| ServiceUrl.NoDotNoTarget | cmd/patch/utils/utils.go:51-54 | a URL without a dot yields two empty strings |

## Left out

- KeycodeController: one key and one namespace are served per world; two services in one namespace would share an event channel and a last task.
- Keycode user edits land between reconciles: the deferred writer re-reads the object and overwrites its keycode section, so an edit in between would be lost.
- Keycode cache clean-up on deletion uses the empty object's namespace and is not modelled; neither are the datahub client map, event texts and log lines.
- KeycodeProgress.SettlesIff: fewer than a hundred listed codes while a code is still to be applied, and a non-empty first code for the special code to adopt; else the event channel can block or the adopted code is empty.
- KeycodeEvents.EventsReportedOnce: events count as submitted when handed to the event service; if that call fails they are lost, as in the code.
- KeycodeConsistency.InterruptedUpdatesStabilise: ordinary codes only, because the special code adopts what is there instead of replacing it; fewer than a hundred codes left for the clean update, because at a hundred the event channel blocks (`BlocksIff`).
- KeycodeSignature.SignaturesAreEntered: the run starts with no signature in the spec; a signature that is there from the start was entered before it.
- Error messages of the keycode status are the step that failed, without the wrapped cause.
- Claims are a component and a usage instead of asset and claim names; that `strings.Replace` on "type" yields matching names is taken for granted.
- Mount paths (`SetStorageToMountPath`) and the claims' own specs are not part of this model.
- ClaimPlanner.PlannerRefines: at most one entry per usage and list, an empty usage matching both; for any other settings `PlannerIff` says what the lists hold and when they panic.
- ClaimAgreement.MountedIffInstalled: every pvc has a size and every usage is log or data, since a pvc without a size is installed but not mounted and the other settings are those of `DanglesIff`; not the agent app, whose claims follow the backend.
- DriftMerge.MergeContainersAgree: managed fields other than the environment are opaque values; deep equality of nil and empty lists is equality of these values.
- DriftReport.MergeReportsIff: the cluster's Deployment, being read from the server, shares no memory with the source, and source volumes have distinct names, as a pod's must; a second volume of one name would be compared with the first as appended, without its defaults.
- Drift correction for config maps, stateful sets and daemon sets: the first is a single comparison, the others run the same pod merge.
- ServiceLock.MutualExclusion: garbage-collection cascades that take the lock from under a worker are excluded, as they have to be (`CascadeBreaksExclusionIff`); one operator process, with reconciles of one key run one after the other, as the work queue does.
- Cache staleness and resync are not part of the lock model.
- The lock's GC ClusterRole: its creation and deletion are steps without an effect on the lock.
- ServiceSync.RetryConverges: rendered services have distinct names and no exposure label, as the assets do; stated for one failed reconcile, with the same exposures; more failures follow by applying it again.
- A service's ports are not compared by the code and their protocol and target port are opaque; the server's defaults are the type and the cluster IP, node ports it picks for 0 are not modelled.
- Service keys of the exposure model are pairs; that "namespace/name" tells them apart is proved in the lock model. Owner references are part of a service's opaque rest.
- UpgradeBarrier.DropsOnlyWhileDown: only the upgrade writes requested replicas, and no workload appears after its worker has looked for it; without the latter, `TooLateIff` applies.
- UpgradeBarrier.SuccessLeavesAllUp: moreover no workload of a service already scaled up again appears.
- UpgradeRounds.UndisturbedUpgradeSucceeds: one schedule of the workers, one after the other; other interleavings are covered by the safety results only.
- The check whether a service or its newer measurements exist is a free choice per service; InfluxDB itself is not part of this model.
- GetValidAlamedaService, the namespace and selector look-ups before a rule patch, and label generation are one yes-or-no input.
- The other `sync*` and `uninstall*` functions, feature toggles, image rewriting, asset rendering, certificates and scaler versions would only add easy members.
