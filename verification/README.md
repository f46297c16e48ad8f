# Verified model of the maintenance operator

This project models the crash-tolerant protocols of a Kubernetes operator that configures, maintains and
erases bare-metal servers, and proves what they keep over every run. A status object is a stored value, a
BMC (the management controller of a server) is a map of attributes, an ETag per resource, an operation
annotation and a password per account, and a reconcile is a sequence of sub-steps that may stop after any
write. `dafny verify dfyconfig.toml` checks the whole project.

The code that changes things step by step is modelled by classes, methods and loops, each proved against a
function; the functions are the transitions of state machines, and the main results are lemmas about every
run or every input of those.

| module | part of the operator |
|---|---|
| `SettingsFlow`, `FlowOrder`, `FlowConvergence`, `FlowStale`, `FlowReset`, `FlowSteps` | the settings flow: issue, reset, verify and advance priority-ordered groups |
| `BmcReset` | the shared "reset the BMC once" machine |
| `EtagDrift`, `EtagCoherence`, `EtagValues` | drift detection by ETags and fingerprints instead of full reads |
| `Rotation`, `RotationSafety`, `RotationStore`, `RotationOutcomes`, `RotationLockout`, `RotationOvertaken`, `RotationReferences`, `RotationLimits` | password rotation through a peer account, the reconcile of a user's own secrets, and pruning |
| `ServerConditions` | conditions of a shared Server under concurrent writers |
| `PowerCycle` | the power cycle before a retry |
| `Maintenance`, `Retries` | maintenance references for all servers of a BMC, and the retry budget |
| `ChildSet`, `ChildSetFixpoint` | fan-out of a Set over servers |
| `Sanitizer`, `Overwrite` | the concurrent disk sanitizer and its overwriting wiper |
| `Csv`, `Toleration`, `Password` | the toleration flag and password generation |

## Where the code does less than its comments say

The code is modelled as it is. Each of these is a lemma with the failing case, next to the condition under
which the promise holds; where that condition is exact, the lemma that says so ends in `Iff`.

- An object in progress is declared Applied as soon as the merged difference is empty, also while the reset
  that an apply asked for is still owed (`FlowReset.ResetSkippedIff`); a write whose status patch is lost
  forgets its reset altogether (`FlowReset.CutOffWriteForgetsReset`).
- A reset annotation that another party overwrites before the reset was carried out reads as a finished reset,
  for the shared machine (`BmcReset.OverwrittenResetReadsAsDone`, `BmcReset.FreshResetIff`) and for an apply
  cycle (`FlowReset.OverwrittenResetIsVerified`, `FlowReset.VerifiedAfterOwnResetIff`).
- A status that observed an older generation clears the flow progress at every issue. Groups up to the first
  one that wants another value for a key than a group before it then take turns for ever, and groups after it
  are never written (`FlowStale.LaterGroupsAreNeverWritten`, `FlowStale.StaleFlowExists`), unless one of the
  states the BMC passes through happens to have every merged value. `FlowStale.FlowConvergesIff` decides every
  flow; a clash of the last group alone is harmless (`FlowStale.ClashOfLastGroupConverges`).
- A check of one group refreshes the ETags of all stored keys on the same resource, and so hides later drift
  of keys it did not evaluate (`EtagCoherence.SharedResourceDriftIsMissed`,
  `EtagCoherence.CoherenceKeptIffSafe`). While nothing is stored, drift of a type the full comparison does not
  handle is not reported (`EtagCoherence.FallbackAgreesIff`).
- A refresh of an effective secret tests and patches in separate calls. A rotation that overtakes it makes it
  put a rejected secret back in force, up to locking everybody out
  (`RotationOvertaken.OvertakenRefreshLocksOut`). An edited reference makes the user's reconcile rewrite its
  account, and two of them lock everybody out without any rotation (`RotationLockout.TwoEditsLockOut`).
  Rotations alone never do (`RotationLockout.RotationsNeverLockOut`). `RotationLockout.FirmIff`,
  `RotationLockout.PatchKeepsFirmIff` and `RotationLockout.RewriteKeepsFirmIff` give the exact conditions,
  `RotationReferences.CalmKeptIff` and `RotationReferences.FinishingAcceptedIff` those for single references.
- The configured number of connection tests can be exceeded by one for each cut-off between a rejected test
  and its verdict (`RotationLimits.CutOffsAddRejections`).
- Pruning reads the user before the rotations; a rotation that finishes in between, or an edit, loses its
  secret (`RotationLimits.LateReadDeletesLiveSecret`, `RotationLimits.LateReadLosesEdited`,
  `RotationLimits.LateReadLosesIff`).
- A give-up that stops halfway leaves a stale power-on stage, and a later cycle is ready without a power-on
  (`PowerCycle.TornGiveUpIsReached`, `PowerCycle.TornGiveUpSkipsPowerOn`); without one the order always holds
  (`PowerCycle.ReadyAfterFullCycle`).
- A version with no maintenance references counts as granted (`Maintenance.VersionGrantsWithoutReferences`);
  its request runs first, which is what protects it (`Maintenance.RequestedBeforeChecked`). Two references to
  one server are granted as if they covered two (`Maintenance.SharedTargetIsGranted`,
  `Maintenance.GrantCoversIff`).
- A spec write in every attempt, also the controller's own patch of its references, renews the budget of
  automatic retries (`Retries.SpecWritesRenewTheBudget`); without one they are bounded
  (`Retries.AutomaticRetriesAreBounded`).
- A sanitizer with a limit returns no error when its parent context is cancelled before a disk was started
  (`Sanitizer.CancelledParentLooksLikeSuccess`); otherwise no error means every disk was wiped
  (`Sanitizer.SuccessMeansWiped`).
- The wipe deadline is meant to grow with the size of the disk and is always five minutes
  (`Overwrite.DeadlineIsFiveMinutes`, `Overwrite.DeadlineFallsShortIff`).

## Model

| member | source | states |
|---|---|---|
| `SettingsFlow.MergeSettingsFlow` | internal/utils/helper.go:969-975 | the loop over the flow merges the groups so that later list items win, whatever their priority |
| `SettingsFlow.SortedGroups` | internal/utils/helper.go:979-985 | sorting by priority gives a permutation of the flow in ascending priority, with equal priorities in list order |
| `SettingsFlow.BMCSettingsStatus.IsFlowGroupApplied` | internal/controller/baseboard/bmcsettings_controller.go:795-802 | true exactly when the first entry of the group exists and is Applied |
| `SettingsFlow.BMCSettingsStatus.HasFlowGroupEntry` | internal/controller/baseboard/bmcsettings_controller.go:815-822 | true exactly when the group has an entry |
| `SettingsFlow.BMCSettingsStatus.SetFlowGroupState` | internal/controller/baseboard/bmcsettings_controller.go:825-837 | changes the state of the group's first entry in place, or appends an entry |
| `SettingsFlow.BMCSettingsStatus.CheckSettingsFlowBeforeMaintenance` | internal/controller/baseboard/bmcsettings_controller.go:511-547 | an empty merged difference marks every group Applied and the object Applied without asking for maintenance |
| `SettingsFlow.BMCSettingsStatus.FlowGroupDiff` | internal/controller/baseboard/bmcsettings_controller.go:718-792 | the in-place pass over the sorted groups equals the recursive pass: matching groups become Applied, the first other one is opened, and merged drift is returned when all are Applied |
| `SettingsFlow.BMCSettingsStatus.HandleSettingInProgressState` | internal/controller/baseboard/bmcsettings_controller.go:430-506 | one reconcile in progress: new status, attributes, annotation and events |
| `SettingsFlow.BMCSettingsStatus.UpdateSettingsAndVerify` | internal/controller/baseboard/bmcsettings_controller.go:549-682 | the issue, reset and verify phases, with every early exit and a cut-off after the write |
| `SettingsFlow.BMCSettingsStatus.VerifySettings` | internal/controller/baseboard/bmcsettings_controller.go:639-714 | a verification that advances a group clears the issued state; one without difference makes the object Applied |
| `SettingsFlow.BMCSettingsStatus.Issue` | internal/controller/baseboard/bmcsettings_controller.go:552-632 | the write and the one status patch that arms the reset together with the issued condition |
| `SettingsFlow.BMCSettingsStatus.HandleSettingAppliedState` | internal/controller/baseboard/bmcsettings_controller.go:959-1071 | an Applied object starts over on a newer spec generation or on merged drift, and only while its gates are open |
| `SettingsFlow.BMCSettingsStatus.HandleFailedState` | internal/controller/baseboard/bmcsettings_controller.go:1160-1265 | a retry drops the flow progress; otherwise the first group in progress is marked Failed |
| `SettingsFlow.BMCSettingsStatus.EnsureBMCSettingsMaintenanceStateTransition` | internal/controller/baseboard/bmcsettings_controller.go:269-346 | one reconcile in any phase equals the transition function all run theorems are about |
| `FlowSteps.OnlyUnderMaintenance` | internal/controller/baseboard/bmcsettings_controller.go:458-475 | without granted maintenance no reconcile, in whatever phase, changes an attribute or the annotation of the BMC |
| `FlowSteps.WaitsForMaintenance` | internal/controller/baseboard/bmcsettings_controller.go:430-475 | an object in progress without granted maintenance changes nothing, unless the BMC already has every merged value |
| `FlowSteps.WritesIff` | internal/controller/baseboard/bmcsettings_controller.go:549-606 | a reconcile changes attributes exactly when maintenance is granted, the object is stabilised and unissued, the BMC is on and free of pending settings, and it accepts the settings |
| `FlowSteps.EveryWriteIsGranted` | internal/controller/baseboard/bmcsettings_controller.go:430-606 | along every run each attribute change comes from outside or from such a granted reconcile |
| `FlowSteps.WritesNextSettings` | internal/controller/baseboard/bmcsettings_controller.go:580-606 | a write adds the missing values of the next open group, or of all merged settings once every group is applied, and nothing else |
| `FlowSteps.WriteIsRemembered` | internal/controller/baseboard/bmcsettings_controller.go:608-627 | a write leaves the issued generation and the reset it owes, or no trace when its status patch is lost |
| `FlowSteps.WrittenGroupIsInProgress` | internal/controller/baseboard/bmcsettings_controller.go:760-771 | the group that is written is the last entry of the flow state and in progress |
| `FlowSteps.NextGroupIsPending` | internal/controller/baseboard/bmcsettings_controller.go:760-771 | the group verification moves on to is noted as pending |
| `FlowSteps.AnnotationChangesIff` | internal/controller/baseboard/bmcsettings_controller.go:1119-1158 | the annotation changes exactly when a reset is due that nobody asked for, and then to a request for one |
| `FlowSteps.StabilisingReset` | internal/controller/baseboard/bmcsettings_controller.go:501-504 | before the first write the object waits for its stabilising reset: asked for, seen done, or stood in for by a recent one |
| `FlowSteps.VerifiesIff` | internal/controller/baseboard/bmcsettings_controller.go:634-646 | a reconcile verifies exactly when its issue is current and the reset it owed is over or not needed |
| `FlowSteps.VerifyAdvances` | internal/controller/baseboard/bmcsettings_controller.go:646-682 | verification passes every group the BMC matches by now and issues again when it passed one or all are applied; otherwise nothing changes |
| `FlowSteps.VerifiedIsDone` | internal/controller/baseboard/bmcsettings_controller.go:638-682 | a verification that finds every merged value there makes the object Applied once no group is open, passes the groups that match by now, and waits for one that another group overrides |
| `FlowSteps.FailsIff` | internal/controller/baseboard/bmcsettings_controller.go:555-606 | an object in progress fails exactly when its BMC is off or rejects the settings it is about to get |
| `FlowSteps.IssueWaits` | internal/controller/baseboard/bmcsettings_controller.go:555-606 | an issue that does not come to a write changes the phase at most: the object fails or waits |
| `FlowSteps.OwedResetWaits` | internal/controller/baseboard/bmcsettings_controller.go:634-637 | while its reset is not over an issue changes nothing but the bookkeeping of that reset, as one call of the reset machine does |
| `FlowSteps.StartsIff` | internal/controller/baseboard/bmcsettings_controller.go:268-334 | a waiting object starts exactly when its gates are open |
| `FlowSteps.SkipsMaintenance` | internal/controller/baseboard/bmcsettings_controller.go:511-547 | when all merged values are there every group counts as applied for this generation |
| `FlowSteps.EmptyFlowIsDone` | internal/controller/baseboard/bmcsettings_controller.go:436-438 | an object without groups is Applied at once and records nothing else |
| `FlowSteps.AppliedRestartsIff` | internal/controller/baseboard/bmcsettings_controller.go:959-1071 | an Applied object starts over exactly when its gates are open and its spec is new or, with all groups applied, the BMC drifted; otherwise nothing changes |
| `FlowSteps.FailedDoes` | internal/controller/baseboard/bmcsettings_controller.go:1160-1265 | a failed object starts over under maintenance, waits for its retry, or has its group in progress marked as failed |
| `FlowSteps.FailInProgressAt` | internal/controller/baseboard/bmcsettings_controller.go:1249-1261 | only the first group in progress is marked, and every other entry stays |
| `FlowSteps.MergedIsLast` | internal/utils/helper.go:969-975 | a merged key has the value of the last list item that sets it |
| `FlowOrder.PassAdvances` | internal/controller/baseboard/bmcsettings_controller.go:743-771 | from a state in order, the pass marks exactly the matching groups up to the first open one and reports a change exactly when it passed one |
| `FlowOrder.MarkAppliedInOrder` | internal/controller/baseboard/bmcsettings_controller.go:532-540 | marking the whole sorted flow keeps the entries in order and leaves every group Applied |
| `FlowOrder.ReconcileKeepsOrder` | internal/controller/baseboard/bmcsettings_controller.go:269-346 | every reconcile in every phase, cut off or not, keeps the Applied groups a prefix of the sorted flow with at most one further entry, for the next group |
| `FlowOrder.FlowStateIsAlwaysInOrder` | internal/controller/baseboard/bmcsettings_controller.go:511-547 | the same in every status reachable at one generation while the BMC changes arbitrarily |
| `FlowConvergence.AppliedIffMergedMatches` | internal/controller/baseboard/bmcsettings_controller.go:435-445 | a reconcile in progress ends Applied exactly when the BMC already has every merged value, so a reset that is still owed is skipped in that case |
| `FlowConvergence.CycleIssuesNextGroup` | internal/controller/baseboard/bmcsettings_controller.go:549-682 | one issue-reset-verify cycle ends Applied with all merged values, or has written the next open group and moved past it |
| `FlowConvergence.CycleProgresses` | internal/controller/baseboard/bmcsettings_controller.go:549-792 | a cycle that does not end Applied strictly increases the number of Applied groups |
| `FlowConvergence.FlowConverges` | internal/controller/baseboard/bmcsettings_controller.go:430-792 | without a generation change a flow of n groups is Applied with every merged value after one cycle per unapplied group and one more, even when list order and priority order disagree |
| `FlowConvergence.PendingResetWaits` | internal/controller/baseboard/bmcsettings_controller.go:634-637 | while a requested reset is pending and drift remains, a reconcile changes nothing |
| `FlowConvergence.AgreeingFlowConverges` | internal/controller/baseboard/bmcsettings_controller.go:839-853 | groups that agree on their common keys converge even when the flow progress is cleared in every cycle |
| `FlowStale.StaleFlowConvergesIff` | internal/controller/baseboard/bmcsettings_controller.go:839-853 | with a stale observed generation and a first clash at group j, the flow converges if and only if one of 2j + 2 states written down in advance has every merged value |
| `FlowStale.StaleFlowNeverConverges` | internal/controller/baseboard/bmcsettings_controller.go:839-853 | otherwise it stays in progress with merged values missing, for any number of cycles |
| `FlowStale.FlowConvergesIff` | internal/controller/baseboard/bmcsettings_controller.go:430-853 | every flow converges if and only if its generation is not stale, its groups agree, or one of those states has every merged value |
| `FlowStale.NewObjectConvergesIff` | internal/controller/baseboard/bmcsettings_controller.go:255-853 | the same from an object that has not started, through its stabilising reset and any number of reconciles while that is pending |
| `FlowStale.LaterGroupsAreNeverWritten` | internal/controller/baseboard/bmcsettings_controller.go:839-853 | with a stale generation, a merged value that only groups after the clash set is never written if it is missing at the start |
| `FlowStale.ClashOfLastGroupConverges` | internal/controller/baseboard/bmcsettings_controller.go:839-853 | a flow in priority order in which only the last group clashes converges all the same |
| `FlowStale.StaleFlowExists` | internal/controller/baseboard/bmcsettings_controller.go:1749-1759 | a flow and status that never converge exist; the controller's own spec patch is one way to get a newer generation |
| `FlowReset.ReconcileEffect` | internal/controller/baseboard/bmcsettings_controller.go:874-957 | each reconcile makes one of seven changes to the reset bookkeeping; issue and arming are one patch |
| `FlowReset.VerifiedAfterOwnResetIff` | internal/controller/baseboard/bmcsettings_controller.go:1119-1158 | along every run, with any spec at each reconcile and any writes of others on the annotation, a cycle that needs a reset is verified after its own reset was asked for, carried out and seen done, if and only if it was not overtaken by another operation |
| `FlowReset.OverwrittenResetIsVerified` | internal/controller/baseboard/bmcsettings_controller.go:1119-1158 | a requested reset that another operation overwrites: the cycle is verified although nothing was carried out |
| `FlowReset.ResetSkippedIff` | internal/controller/baseboard/bmcsettings_controller.go:435-445 | an issued group that needs a reset is declared Applied without it exactly when its write completed the merged values |
| `FlowReset.CutOffWriteForgetsReset` | internal/controller/baseboard/bmcsettings_controller.go:608-627 | a write whose status patch is lost leaves no trace of the reset it needs |
| `BmcReset.Tracked.IssueBMCReset` | internal/utils/helper.go:518-538 | asks for a reset unless another operation is requested, in which case it fails and changes nothing |
| `BmcReset.Tracked.HandleBMCReset` | internal/utils/helper.go:576-630 | one call of the shared reset machine: readiness, failure, condition and annotation |
| `BmcReset.CallIff` | internal/utils/helper.go:576-630 | exactly when a call asks for a reset, lets its caller proceed, or fails |
| `BmcReset.CallRecordsIff` | internal/utils/helper.go:576-630 | exactly when it records that the reset was asked for, and that it is over; a lost patch records nothing |
| `BmcReset.CalmResetIsReady` | internal/utils/helper.go:576-630 | a reset that is carried out and left alone is asked for, done and seen, and the caller proceeds |
| `BmcReset.ReadyHasOneReason` | internal/utils/helper.go:576-630 | whatever others write on the annotation, a ready call has exactly one reason since arming: a reset asked for, carried out and seen done; an accepted recent one; or an overwritten annotation with nothing carried out |
| `BmcReset.FreshResetIff` | internal/utils/helper.go:576-630 | when recent resets may not stand in, a ready call follows a fresh reset if and only if the annotation was not overtaken |
| `BmcReset.OverwriteIsReachable` | internal/utils/helper.go:494-501 | one call after arming waits for a reset that can be overwritten |
| `BmcReset.OverwrittenResetReadsAsDone` | internal/utils/helper.go:494-501 | every overwrite of a requested reset that was not carried out yet makes the following calls ready without any reset |
| `EtagDrift.ClassifySettingsKeys` | internal/controller/baseboard/bmcsettings_controller.go:2216-2282 | the loop and its second pass sort every desired key into asked-for and immediate exactly as the per-key plan says |
| `EtagDrift.BuildDiff` | internal/controller/baseboard/bmcsettings_controller.go:2131-2141 | the two buckets together give the per-key difference of every desired key |
| `EtagDrift.EtagAwareDiff` | internal/controller/baseboard/bmcsettings_controller.go:2080-2167 | difference, fetched ETags and backfills, or failure when readings are needed and cannot be had |
| `EtagDrift.CollectRefreshes` | internal/controller/baseboard/bmcsettings_controller.go:2409-2437 | every stored key outside the difference whose resource has a new ETag is refreshed, evaluated or not |
| `EtagDrift.AppliedETags.PersistETagRefreshes` | internal/controller/baseboard/bmcsettings_controller.go:2171-2213 | refreshes and backfills become visible together, or not at all when the patch fails |
| `EtagDrift.AppliedETags.RecordApply` | internal/controller/baseboard/bmcsettings_controller.go:914-934 | an apply replaces the entries of the keys it reports and keeps all others |
| `EtagValues.ReadIff` | internal/controller/baseboard/bmcsettings_controller.go:2216-2282 | a check reads exactly the desired keys that their entries do not decide |
| `EtagValues.CheckFailsIff` | internal/controller/baseboard/bmcsettings_controller.go:2116-2130 | it fails exactly when such a key exists and the BMC cannot be read |
| `EtagValues.FetchesIff` | internal/controller/baseboard/bmcsettings_controller.go:2095-2114 | ETags are fetched for the resources of desired keys with a recorded ETag, and only those |
| `EtagValues.UnreadKeyIff` | internal/controller/baseboard/bmcsettings_controller.go:2235-2262 | a key decided unread, by POST or by an unchanged ETag, is reported with its desired value exactly when its fingerprint differs |
| `EtagValues.NewKeyIff` | internal/controller/baseboard/bmcsettings_controller.go:2216-2348 | a key without an entry, also one applied by POST, is reported when it is write-only or drifts |
| `EtagValues.DriftsIff` | internal/controller/baseboard/bmcsettings_controller.go:2367-2406 | drift told for each type of reading without the comparison itself |
| `EtagValues.ReportedValue` | internal/controller/baseboard/bmcsettings_controller.go:2285-2406 | every reported value is the desired one: in the type of the reading where that parses, as it is everywhere else |
| `EtagValues.FallbackValue` | internal/controller/baseboard/bmcsettings_controller.go:1394-1465 | the same for the fallback |
| `EtagValues.FallbackFailsIff` | internal/controller/baseboard/bmcsettings_controller.go:1394-1465 | the fallback fails exactly when nothing can be read or a number or boolean does not parse |
| `EtagValues.FallbackReportsExactly` | internal/controller/baseboard/bmcsettings_controller.go:1394-1465 | it reports a key exactly when it is write-only or its reading has a handled type and differs |
| `EtagValues.WritingHeals` | internal/controller/baseboard/bmcsettings_controller.go:1346-1392 | along every run of safe checks and applies: once the BMC has taken over what a check reported, no desired key drifts, unless it has a type the fallback does not handle while nothing is stored |
| `EtagValues.RecordsApply` | internal/controller/baseboard/bmcsettings_controller.go:914-934 | an apply records place, ETag, fingerprint and method of each reported key, and leaves the other entries alone |
| `EtagValues.RefreshesIff` | internal/controller/baseboard/bmcsettings_controller.go:2171-2213 | a check stores the new ETag of every stored key outside its difference and the fingerprints it can fill in |
| `EtagValues.BackfillsIff` | internal/controller/baseboard/bmcsettings_controller.go:2143-2167 | a fingerprint is filled in exactly for a key that was read, matches, and had an ETag without one |
| `EtagCoherence.WriteOnlyClosedForm` | internal/controller/baseboard/bmcsettings_controller.go:2028-2076 | a stored write-only key is in the difference exactly when its fingerprint differs, or under Strict outside verification when both ETags are known and differ |
| `EtagCoherence.JustAppliedIsVerified` | internal/controller/baseboard/bmcsettings_controller.go:2285-2348 | verification never reports a write-only key that was just applied, whatever the BMC answers |
| `EtagCoherence.NoMissedDrift` | internal/controller/baseboard/bmcsettings_controller.go:2080-2167 | with coherent entries every readable key a full comparison would report is in the difference, and for string attributes the two sets are equal |
| `EtagCoherence.SafeRefreshIsCoherent` | internal/controller/baseboard/bmcsettings_controller.go:2143-2167 | an entry whose refresh is safe stays coherent through refresh and backfill |
| `EtagCoherence.CoherenceKeptIffSafe` | internal/controller/baseboard/bmcsettings_controller.go:2171-2213 | a check keeps every coherent store coherent if and only if each refreshed fingerprint belongs to an evaluated key with that desired value and each backfilled key has its ETag in the reply |
| `EtagCoherence.BuildFallbackDiff` | internal/controller/baseboard/bmcsettings_controller.go:1394-1465 | the loop over all keys fails on a value that does not parse and otherwise reports key by key |
| `EtagCoherence.SettingsDiffSeesDrift` | internal/controller/baseboard/bmcsettings_controller.go:1346-1392 | one comparison, by ETags or by the fallback while nothing is stored, reports a drifting key exactly unless the fallback does not handle its type; string attributes are exact |
| `EtagCoherence.NoMissedDriftInRuns` | internal/controller/baseboard/bmcsettings_controller.go:1346-1392 | the same along every sequence of safe checks, recorded applies and outside changes, from an empty store on |
| `EtagCoherence.GroupCheckFindsNothing` | internal/controller/baseboard/bmcsettings_controller.go:1364-1368 | counterexample, part one: a check of one group finds nothing although another key of its resource changed |
| `EtagCoherence.GroupCheckAdoptsForeignKey` | internal/controller/baseboard/bmcsettings_controller.go:2418-2434 | counterexample, part two: it stores the new ETag for that other key as well |
| `EtagCoherence.SharedResourceDriftIsMissed` | internal/controller/baseboard/bmcsettings_controller.go:2418-2434 | counterexample, part three: the next check of both keys finds nothing although the other one drifts |
| `EtagCoherence.FallbackAgreesIff` | internal/controller/baseboard/bmcsettings_controller.go:1394-1465 | the comparison used while nothing is stored agrees with the ETag path on a key exactly when the value parses and the reported type is one it handles |
| `Rotation.FindPeer` | internal/controller/baseboard/bmcuserrotation_controller.go:292-335 | a peer that is found is another idle OperatorAdmin of the BMC whose effective secret exists |
| `Rotation.FindPeerIff` | internal/controller/baseboard/bmcuserrotation_controller.go:292-335 | the first listed candidate that is busy or has a readable secret decides: wait for it or borrow its effective secret; no peer exactly when there is none |
| `RotationStore.Store.FindPeerWithSecret` | internal/controller/baseboard/bmcuserrotation_controller.go:292-335 | the loops return the first usable candidate, or wait if a busy candidate comes before it |
| `RotationStore.Store.PrepareSecret` | internal/controller/baseboard/bmcuserrotation_controller.go:150-215 | a recorded secret is reused; otherwise one is made and recorded before anything else |
| `RotationStore.Store.ChangePassword` | internal/controller/baseboard/bmcuserrotation_controller.go:217-224 | the account changes only if the BMC accepts the peer credential at that moment, and is tested right after |
| `RotationStore.Store.CountRejection` | internal/controller/baseboard/bmcuserrotation_controller.go:225-245 | a rejected test is counted, and the rotation fails when the count reaches the limit |
| `RotationStore.Store.PromoteCredential` | internal/controller/baseboard/bmcuserrotation_controller.go:247-287 | the references of user and BMC move in order, then the rotation has succeeded |
| `RotationStore.Store.SetFailed` | internal/controller/baseboard/bmcuserrotation_controller.go:337-347 | the rotation fails and nothing else changes |
| `RotationStore.Store.ExecuteDualAccount` | internal/controller/baseboard/bmcuserrotation_controller.go:78-135 | one whole reconcile in place equals the sequence of protocol steps |
| `RotationStore.AttemptIsRun` | internal/controller/baseboard/bmcuserrotation_controller.go:146-259 | a reconcile is a run of the protocol, so the run theorems hold of it |
| `RotationStore.CalmAttemptSucceeds` | internal/controller/baseboard/bmcuserrotation_controller.go:107-135 | a reconcile that is not cut off, through a working peer, ends Succeeded with account, user and BMC on the new secret |
| `RotationOutcomes.NoPeerFails` | internal/controller/baseboard/bmcuserrotation_controller.go:107-135 | a rotation without such a candidate fails and changes nothing else |
| `RotationOutcomes.BusyPeerWaits` | internal/controller/baseboard/bmcuserrotation_controller.go:107-135 | a busy one makes it wait |
| `RotationOutcomes.MissingSecretWaits` | internal/controller/baseboard/bmcuserrotation_controller.go:150-160 | a recorded new secret that is gone is never sent and never replaced: the rotation waits |
| `RotationOutcomes.RejectedCredentialStops` | internal/controller/baseboard/bmcuserrotation_controller.go:217-224 | a borrowed credential that the BMC rejects changes no account |
| `RotationOutcomes.MangledIsCounted` | internal/controller/baseboard/bmcuserrotation_controller.go:225-245 | a BMC that mangles the password: the rejection is counted, the references stay, and the rotation fails when it was the last allowed one |
| `RotationOutcomes.FailsIff` | internal/controller/baseboard/bmcuserrotation_controller.go:78-245 | a step makes a rotation fail exactly when nobody can lend a credential, the limits contradict, or the count of rejections reached the limit |
| `RotationOutcomes.FailsAfterAllowedRejections` | internal/controller/baseboard/bmcuserrotation_controller.go:230-245 | along every run such a verdict comes only after as many rejected tests as are allowed |
| `RotationOutcomes.SucceedsIff` | internal/controller/baseboard/bmcuserrotation_controller.go:262-287 | a rotation succeeds exactly after its references were moved |
| `RotationStore.Store.TestSecrets` | internal/controller/baseboard/bmcuser_controller.go:629-665 | reads the user, tests the desired secret and then the effective one |
| `RotationStore.Store.SetEffectiveSecretRef` | internal/controller/baseboard/bmcuser_controller.go:520-552 | moves the effective reference and the one of the BMC to a secret that passed while the effective one was rejected |
| `RotationStore.Store.HandleUpdatedSecretRef` | internal/controller/baseboard/bmcuser_controller.go:440-475 | changes the account to a desired secret that is not the effective one |
| `RotationStore.Store.ReconcileUser` | internal/controller/baseboard/bmcuser_controller.go:106-205 | one reconcile of a user up to its pruning equals its sequence of steps |
| `RotationStore.UserAttemptIsRun` | internal/controller/baseboard/bmcuser_controller.go:106-205 | a reconcile of a user is a run of the same protocol |
| `RotationOutcomes.RefreshTakesOver` | internal/controller/baseboard/bmcuser_controller.go:520-665 | a desired secret that the account accepts while the effective one is missing or rejected becomes effective, for an OperatorAdmin also for the BMC |
| `RotationOutcomes.BmcMovesIff` | internal/controller/baseboard/bmcuser_controller.go:536-552 | the reference of the BMC is patched exactly when it was another one at the start of the reconcile |
| `RotationOutcomes.RefreshReapplies` | internal/controller/baseboard/bmcuser_controller.go:440-475 | a desired secret that is rejected while another one is effective is put on the account, and no reference moves |
| `RotationOutcomes.OvertakenTestsReapply` | internal/controller/baseboard/bmcuser_controller.go:629-665 | the effective secret is tested again at its own time: the account is rewritten when it accepts that one by then, and the references move otherwise |
| `RotationOutcomes.LookAgainReapplies` | internal/controller/baseboard/bmcuser_controller.go:440-475 | with the references a status patch returned the account is rewritten exactly when they differ, and no reference moves |
| `RotationOutcomes.OtherwiseUnchanged` | internal/controller/baseboard/bmcuser_controller.go:106-205 | in every other case the reconcile of a user changes nothing |
| `RotationStore.Store.CollectProtected` | internal/controller/baseboard/bmcuser_controller.go:868-906 | the protected secrets and the rotations in flight, computed by loops |
| `RotationStore.Store.PruneOldSecrets` | internal/controller/baseboard/bmcuser_controller.go:906-930 | deletes exactly the owned, unprotected, not break-glass secrets that no rotation in flight made, and reports exactly the failing deletions |
| `RotationOutcomes.PrunesIff` | internal/controller/baseboard/bmcuser_controller.go:868-930 | a secret is deleted exactly when its user owns it, nothing of the user, the BMC or a rotation in flight needs it, it is not break-glass, and the deletion is not refused |
| `RotationOutcomes.EmergencySecretStays` | internal/controller/baseboard/bmcuser_controller.go:906-925 | along every run a break-glass secret or one without an owner is never deleted |
| `RotationOutcomes.OnlyRotationsMakeSecrets` | internal/controller/baseboard/bmcuserrotation_controller.go:186-206 | along every run only rotations make secrets, each for the user of its rotation and none for emergencies |
| `RotationSafety.BeginIsLent` | internal/controller/baseboard/bmcuserrotation_controller.go:302-335 | a credential is borrowed only from an idle peer, whose later rotations never use its secret |
| `RotationLockout.StepKeepsFirm` | internal/controller/baseboard/bmcuserrotation_controller.go:107-335 | every step except the two risky ones of a user's reconcile keeps a user that authenticates and that no rotation is about to knock out |
| `RotationLockout.NoLockout` | internal/controller/baseboard/bmcuserrotation_controller.go:107-335 | in every interleaving of rotations, cut-offs, mangled passwords, edits, pruning and reconciles of users, some effective secret authenticates as long as each risky step leaves such a user |
| `RotationLockout.RotationsNeverLockOut` | internal/controller/baseboard/bmcuserrotation_controller.go:107-335 | no interleaving without those two steps, so none of rotations alone, locks everybody out |
| `RotationLockout.FirmIff` | internal/controller/baseboard/bmcuserrotation_controller.go:107-335 | such a user exists if and only if no run of rotation steps from here locks everybody out |
| `RotationLockout.PatchKeepsFirmIff` | internal/controller/baseboard/bmcuser_controller.go:520-534 | a patch of the effective reference leaves such a user if and only if there is another one, or the account still accepts the tested secret and no rotation threatens it |
| `RotationLockout.RewriteKeepsFirmIff` | internal/controller/baseboard/bmcuser_controller.go:457-475 | the same for the rewrite of an account, in terms of the state before it |
| `RotationLockout.TwoEditsLockOut` | internal/controller/baseboard/bmcuser_controller.go:440-475 | two edited references, each applied by its user's reconcile, lock out the only two users without any rotation |
| `RotationOvertaken.OvertakenRefreshLocksOut` | internal/controller/baseboard/bmcuser_controller.go:629-675 | a refresh that passed its tests and is overtaken by rotations locks everybody out |
| `RotationOvertaken.RefreshCanBeDue` | internal/controller/baseboard/bmcuser_controller.go:629-675 | such a run has a possible start |
| `RotationReferences.CalmKeptIff` | internal/controller/baseboard/bmcuserrotation_controller.go:217-287 | a step ends the state in which every tested secret is still accepted if and only if it changes an account between a test and the moves that rely on it |
| `RotationReferences.ReferencesMoveToAccepted` | internal/controller/baseboard/bmcuserrotation_controller.go:262-287 | along every run without such a change, effective and BMC references move only to a secret the account accepts at that moment |
| `RotationReferences.OnlyTheseMoveReferences` | internal/controller/baseboard/bmcuserrotation_controller.go:262-287 | no other step moves those references |
| `RotationReferences.FinishingAcceptedIff` | internal/controller/baseboard/bmcuserrotation_controller.go:262-287 | finishing what was tested writes only accepted references if and only if nothing was changed in between |
| `RotationSafety.NoDanglingCredential` | internal/controller/baseboard/bmcuser_controller.go:868-930 | in every interleaving no secret named by a user, the BMC or an unfinished rotation is deleted, nor a fresh rotation secret that is not recorded yet |
| `RotationSafety.RotationIsStable` | internal/controller/baseboard/bmcuserrotation_controller.go:70-76 | a recorded new secret is never replaced, and a finished rotation never changes |
| `RotationSafety.OnePasswordPerRotation` | internal/controller/baseboard/bmcuserrotation_controller.go:150-216 | all passwords a rotation ever sent to the BMC are the one it had recorded |
| `RotationSafety.RejectedTestsAreBounded` | internal/controller/baseboard/bmcuserrotation_controller.go:230-245 | a rotation sees at most the configured number of rejected tests, and one more for each whose verdict is cut off |
| `RotationOutcomes.CutsFollowRejections` | internal/controller/baseboard/bmcuserrotation_controller.go:230-245 | along every run only a rejected test whose verdict was lost counts as cut off |
| `RotationLimits.CutOffsAddRejections` | internal/controller/baseboard/bmcuserrotation_controller.go:230-245 | that bound is reached: any number of cut-offs adds as many rejected tests |
| `RotationLimits.LateReadDeletesLiveSecret` | internal/controller/baseboard/bmcuser_controller.go:868-930 | pruning that read the user before its rotation finished deletes the secret that has just become effective |
| `RotationLimits.LateReadLosesIff` | internal/controller/baseboard/bmcuser_controller.go:868-930 | pruning with an earlier read of user and BMC leaves nothing dangling if and only if every own secret named since then belongs to a rotation still in flight |
| `RotationLimits.LateReadIsSafe` | internal/controller/baseboard/bmcuser_controller.go:868-930 | that holds when only rotations changed the user in between and none of them finished |
| `RotationLimits.LateReadLosesEdited` | internal/controller/baseboard/bmcuser_controller.go:868-930 | an edit in between that names an old own secret loses it |
| `RotationLimits.ForeignReferenceDangles` | internal/controller/baseboard/bmcuser_controller.go:913-916 | a secret that only another user names is deleted when its owner is pruned |
| `ServerConditions.ApplyIsLocal` | internal/utils/helper.go:1223-1229 | setting or removing a condition decides its own type and leaves every other type as it was |
| `ServerConditions.PatchServerCondition` | internal/utils/helper.go:1211-1240 | the first attempt that nobody disturbs commits on top of everything written before it; an empty type changes nothing |
| `ServerConditions.RemoveServerCondition` | internal/utils/helper.go:1245-1271 | the same for a removal, which needs no write when the type is absent or empty |
| `ServerConditions.SetsInPlace` | internal/utils/helper.go:1223-1229 | setting a type replaces its first entry in place or appends one |
| `ServerConditions.RemovesOnlyKind` | internal/utils/helper.go:1256-1262 | removing a type distributes over lists, so every other entry stays in its order |
| `ServerConditions.UndisturbedCallCommits` | internal/utils/helper.go:1211-1271 | a call that nobody disturbs commits its own change at once, or sees that it has none to make; a patch of a missing server fails |
| `ServerConditions.DisturbedCallReadsAgain` | internal/utils/helper.go:1230-1240 | a disturbed call reads again without a change, and one on a deleted server fails |
| `ServerConditions.EveryCallIsAtomic` | internal/utils/helper.go:1211-1271 | in every interleaving the stored list is the replay of the commits, with every successful call in it exactly once and no other call |
| `ServerConditions.NoLostUpdate` | internal/utils/helper.go:1211-1271 | each type ends as the last committed change of that type left it |
| `ServerConditions.UncheckedPatchLosesUpdate` | internal/utils/helper.go:1230 | without the version check the second of two whole-list patches loses the first change |
| `PowerCycle.Tracked.GiveUpIfStuck` | internal/utils/helper.go:718-763 | giving up clears the result and the stages patch by patch, and may stop after any of them |
| `PowerCycle.Tracked.HandleServerPowerOffStage` | internal/utils/helper.go:777-860 | the power-off half: conditions, commands and reads of one call |
| `PowerCycle.Tracked.HandleServerPowerOnStage` | internal/utils/helper.go:865-921 | the power-on half: conditions, commands and reads of one call |
| `PowerCycle.Tracked.HandleServerPowerCycle` | internal/utils/helper.go:693-772 | one call returns ready only on a recorded result and otherwise runs the stage that is due |
| `PowerCycle.ForcesIff` | internal/utils/helper.go:816-843 | a forced power-off is recorded exactly when the graceful one was issued and is overdue, the server still runs, it was not forced before, and command and patch succeed |
| `PowerCycle.PowersOffIff` | internal/utils/helper.go:777-860 | exactly when a call issues the graceful power-off and when it confirms Off, with what it records |
| `PowerCycle.PowersOnIff` | internal/utils/helper.go:865-921 | the same for the power-on and its confirmation, which also records the result |
| `PowerCycle.GivesUpIff` | internal/utils/helper.go:718-763 | exactly when a stuck server is given up; a due escalation comes first |
| `PowerCycle.OtherwiseWaits` | internal/utils/helper.go:693-921 | every other call changes nothing, and a call is ready exactly on a recorded result |
| `PowerCycle.ForcedCycleIsReady` | internal/utils/helper.go:816-843 | a server that ignores the graceful power-off and follows the forced one becomes ready |
| `PowerCycle.StubbornServerIsGivenUp` | internal/utils/helper.go:718-763 | one that follows neither is given up once that is due, and the next cycle starts from scratch |
| `PowerCycle.ReadyAfterFullCycle` | internal/utils/helper.go:693-921 | without a torn give-up, ready comes only after read Off, power-on and read On in one cycle; no power-on precedes a confirmed Off; a forced power-off is recorded at most once per cycle |
| `PowerCycle.GiveUpStartsFresh` | internal/utils/helper.go:744-763 | after a complete give-up the next call starts a fresh cycle |
| `PowerCycle.CalmCycleIsReady` | internal/utils/helper.go:693-921 | a server that follows its commands is cycled by four calls |
| `PowerCycle.TornGiveUpSkipsPowerOn` | internal/utils/helper.go:744-763 | a give-up cut off between the power-off and the power-on stage lets a later call be ready without any power-on |
| `PowerCycle.TornGiveUpIsReached` | internal/utils/helper.go:693-921 | such a give-up is reached from cleared conditions |
| `Maintenance.CheckIfMaintenanceGranted` | internal/controller/baseboard/bmcsettings_controller.go:1467-1523 | granted exactly when there are as many references as servers and each names an active maintenance of one of them; missing references count as granted for versions only |
| `Maintenance.GrantedIff` | internal/controller/baseboard/bmcsettings_controller.go:1467-1523 | granted on references exactly when they are as many as the servers and each names an existing active maintenance of one of them |
| `Maintenance.CoveringIsGranted` | internal/controller/baseboard/bmcsettings_controller.go:1467-1523 | as many references as servers that cover every one of them are granted |
| `Maintenance.GrantCoversIff` | internal/controller/baseboard/bmcsettings_controller.go:1467-1523 | a grant covers every server if and only if no two references are for the same server |
| `Maintenance.VersionGrantsWithoutReferences` | internal/controller/baseboard/bmcversion_controller.go:753-758 | a version takes missing references as granted although no server is in maintenance |
| `Maintenance.ChildNameTellsTarget` | internal/utils/helper.go:1133-1144 | a child name that fits 253 characters determines its target |
| `Maintenance.ChildNameIs` | internal/utils/helper.go:1133-1144 | a name of at most 253 characters is the plain one; a longer one has exactly 253, keeps its start and ends in the hash |
| `Maintenance.Requester.PruneMissing` | internal/controller/baseboard/bmcsettings_controller.go:1535-1573 | missing references are dropped in order, and none left means no list |
| `Maintenance.Requester.CollectKnown` | internal/controller/baseboard/bmcsettings_controller.go:1597-1617 | each server's maintenance, where owned objects override references |
| `Maintenance.Requester.CreateMissing` | internal/controller/baseboard/bmcsettings_controller.go:1617-1673 | one reference per server in order, with a child for each server without one; a failed creation leaves the list as it was |
| `Maintenance.LastForIff` | internal/controller/baseboard/bmcsettings_controller.go:1597-1617 | a server reuses the last known maintenance whose target it is |
| `Maintenance.MakesChildrenIff` | internal/controller/baseboard/bmcsettings_controller.go:1617-1673 | a request keeps every stored maintenance and makes exactly the children of the servers that need one |
| `Maintenance.PrepareFailsIff` | internal/controller/baseboard/bmcsettings_controller.go:1617-1673 | it fails exactly when a server that needs a child is refused one |
| `Maintenance.ReferencesAre` | internal/controller/baseboard/bmcsettings_controller.go:1617-1673 | each reference is the maintenance its server already has, or its child |
| `Maintenance.Requester.RequestMaintenanceOnServers` | internal/controller/baseboard/bmcversion_controller.go:1040-1192 | the whole request: new references, new store, requeue and failure |
| `Maintenance.RequestSettles` | internal/controller/baseboard/bmcversion_controller.go:1040-1192 | two undisturbed requests settle: one reference per server, each to an existing maintenance of it, and the second one asks for nothing |
| `Maintenance.RequestRepairs` | internal/controller/baseboard/bmcversion_controller.go:1048-1088 | references that lost some maintenances keep the others, or become none |
| `Maintenance.RequestFailsOnMissing` | internal/controller/baseboard/bmcversion_controller.go:1114-1121 | too few references of which one lost its maintenance: the request fails and changes nothing |
| `Maintenance.RequestFailsOnRefusal` | internal/controller/baseboard/bmcversion_controller.go:1135-1192 | a server whose child is refused fails the request: the references stay and no requeue is asked for |
| `Maintenance.RequestKeepsDistinct` | internal/controller/baseboard/bmcsettings_controller.go:1525-1674 | a request, also one whose patch is lost, keeps the targets of the references distinct |
| `Maintenance.FittingNamesAreOk` | internal/utils/helper.go:1133-1144 | the hypothesis of the run theorem on child names holds for all names that fit |
| `Maintenance.GrantCoversEveryServer` | internal/controller/baseboard/bmcsettings_controller.go:1467-1674 | starting without references, along every run a grant on existing references means that every server is in maintenance |
| `Maintenance.RequestedBeforeChecked` | internal/controller/baseboard/bmcversion_controller.go:277-291 | a request that neither asks to come back nor fails leaves one reference per server, so a version is never checked on missing ones |
| `Maintenance.SharedTargetIsGranted` | internal/controller/baseboard/bmcsettings_controller.go:1478-1514 | two references to one server are granted although another server is not in maintenance |
| `Retries.Failing.HandleFailedState` | internal/controller/baseboard/bmcversion_controller.go:608-703 | attempts, observed generation and outcome of one reconcile of a failed object |
| `Retries.RetriesIff` | internal/controller/baseboard/bmcversion_controller.go:608-703 | a retry happens exactly when its reset is ready and the annotation asks for it or the budget of this generation allows it, with the new count |
| `Retries.NoRetryKeeps` | internal/controller/baseboard/bmcversion_controller.go:608-703 | without a retry only the count is kept in step with generation and policy |
| `Retries.PolicyDecides` | internal/controller/baseboard/bmcversion_controller.go:646-652 | the policy of the spec wins over the default, also when it is zero |
| `Retries.AutomaticRetriesAreBounded` | internal/controller/baseboard/bmcversion_controller.go:640-690 | between two generation changes or manual retries there are at most the configured number of automatic retries |
| `Retries.BudgetIsUsedUp` | internal/controller/baseboard/bmcversion_controller.go:654-690 | of any number of failures at one generation exactly as many are retried as the budget has, and the next one stays failed |
| `Retries.SpecWritesRenewTheBudget` | internal/controller/baseboard/bmcsettings_controller.go:1202-1211 | a spec write in every attempt renews the budget, so retries never end |
| `ChildSet.IsAnyServerMaintenanceActive` | internal/utils/helper.go:77-104 | the first window that is held or cannot be checked decides |
| `ChildSet.AnyActiveIff` | internal/utils/helper.go:77-104 | the answer by positions: active when the first window that is held or unreadable is held, unknown when it is unreadable, inactive exactly when there is none |
| `ChildSet.ChildManager.EnsureForServers` | internal/utils/childset.go:79-115 | creates or patches one named child for every server without one, except where that fails |
| `ChildSet.CreateKeepsState` | internal/utils/childset.go:79-115 | an existing object of that name keeps its state and windows, a new one starts pending, and no other object changes |
| `ChildSet.ChildManager.DeleteOrphans` | internal/utils/childset.go:123-177 | deletes exactly the children it does not return as kept |
| `ChildSet.DeletedIff` | internal/utils/childset.go:123-177 | a child is deleted exactly when its server is not selected, it is not held back by a window while in progress, and the deletion goes through |
| `ChildSet.ChildManager.PatchFromTemplate` | internal/utils/childset.go:182-208 | applies the template to children not in progress and reports whether one is in progress |
| `ChildSet.PatchKeepsStored` | internal/utils/childset.go:182-208 | patching changes the template of a stored child that is not in progress, and nothing else of it |
| `ChildSet.ChildManager.Reconcile` | internal/utils/childset.go:79-208 | create, prune and patch in the order of a Set controller |
| `ChildSet.Aggregate` | internal/utils/childset.go:211-226 | each counter is the number of children in that state, and they sum to the available ones |
| `ChildSet.CountIs` | internal/utils/childset.go:211-226 | a counter is the number of children in its state |
| `ChildSet.DeletableCount` | internal/utils/childset.go:231-252 | counts exactly the children that no window blocks |
| `ChildSet.DeletableIs` | internal/utils/childset.go:231-252 | the number of children that are not in progress with a window that is held or cannot be checked |
| `ChildSet.KeptAndDeletedPartition` | internal/utils/childset.go:134-176 | kept and deleted children partition the owned ones |
| `ChildSet.KeptAndDeletedInOrder` | internal/utils/childset.go:134-176 | they are the owned children at two complementary ascending lists of positions |
| `ChildSet.HeldChildIsKept` | internal/utils/childset.go:156-169 | a child in progress with a window that is held or cannot be checked is kept and never deleted |
| `ChildSet.CountAgreesIff` | internal/utils/childset.go:228-252 | the count equals the number deleted against no servers if and only if every child without a target is blocked |
| `ChildSetFixpoint.PassMatchesServers` | internal/utils/childset.go:79-208 | a pass without failures and blocked orphans leaves exactly one child per selected server |
| `ChildSetFixpoint.PassIsFixpoint` | internal/utils/childset.go:79-208 | a second pass over what the first one left changes nothing |
| `ChildSetFixpoint.PatchingDeletedRecreates` | internal/utils/childset.go:117-122 | patching the full listing instead of the kept children creates a deleted child again |
| `Sanitizer.Group.SetLimit` | sanitizer/errgroup/errgroup.go:39-48 | a negative limit removes the semaphore; a change while wipers are active is refused |
| `Sanitizer.Group.GoContext` | sanitizer/errgroup/errgroup.go:72-83 | starts only with room in the semaphore and refuses only a limited group with an ended context |
| `Sanitizer.Group.Fail` | sanitizer/errgroup/errgroup.go:50-62 | only the first error is kept and cancels the context |
| `Sanitizer.Group.Done` | sanitizer/errgroup/errgroup.go:26-31 | gives the place in the semaphore back |
| `Sanitizer.Group.Wait` | sanitizer/errgroup/errgroup.go:33-37 | returns the kept error and cancels the context |
| `Sanitizer.Pick` | sanitizer/wiper/wiper.go:20-27 | the first wiper that supports the disk |
| `Sanitizer.DispatchIff` | sanitizer/sanitizer.go:111-134 | the next disk is started when it has a wiper and its time is known, and otherwise ends the loop with an error |
| `Sanitizer.DisksCanBeWiped` | sanitizer/sanitizer.go:99-138 | with a wiper for every disk and room for one, the disks can be wiped one by one, and that is a success |
| `Sanitizer.SuccessMeansWiped` | sanitizer/sanitizer.go:99-138 | once answered, no error means exactly that every disk's wiper ran and returned without error, unless the parent context was cancelled in a limited group |
| `Sanitizer.LimitAndFirstError` | sanitizer/errgroup/errgroup.go:26-83 | never more wipers at once than the limit, and the error returned is the first recorded one |
| `Sanitizer.FailureCancels` | sanitizer/errgroup/errgroup.go:33-83 | the context is cancelled exactly by a recorded failure or the answer, and a limited loop that waits for room may then give up |
| `Sanitizer.CancelledParentLooksLikeSuccess` | sanitizer/sanitizer.go:119-134 | in a limited group a cancelled parent context gives no error although no disk was wiped |
| `Overwrite.DeadlineIsFiveMinutes` | sanitizer/wiper/overwrite.go:24-36 | with 64-bit wrap-around the deadline is five minutes for every size |
| `Overwrite.DeadlineFallsShortIff` | sanitizer/wiper/overwrite.go:30-34 | it is shorter than the formula without wrap-around exactly above 20,971,520,000 bytes |
| `Overwrite.Wipe` | sanitizer/wiper/overwrite.go:38-92 | the contents up to where it stopped, which may be inside a chunk, are keystream and the rest is untouched; success means the whole device was written in the planned chunks and synced |
| `Overwrite.TilesCoverOnce` | sanitizer/wiper/overwrite.go:71-90 | the chunks cover every byte of the device exactly once and none exceeds the buffer |
| `Overwrite.SmoothReachesEnd` | sanitizer/wiper/overwrite.go:71-90 | a wipe without trouble reaches the end of the device |
| `Overwrite.SmoothIff` | sanitizer/wiper/overwrite.go:71-90 | it has no trouble exactly when no chunk is cancelled or fails to be written |
| `Csv.RecordRoundTrip` | internal/cli/toleration.go:16-34 | reading a written record gives its fields back with LF for every CRLF, including commas, quotes and newlines |
| `Csv.OnlyOneRecord` | internal/cli/toleration.go:16-25 | what follows the line of a written record is not read |
| `Csv.EmptyLineIsSkipped` | internal/cli/toleration.go:16-25 | empty lines before the record are skipped |
| `Csv.StrayQuoteIsMalformed` | internal/cli/toleration.go:16-25 | a quote inside an unquoted field makes the record malformed |
| `Csv.UnendedQuoteIsMalformed` | internal/cli/toleration.go:16-25 | so does a quoted field without an end |
| `Csv.WrittenPlainlyIff` | internal/cli/toleration.go:27-34 | a field is written as it is exactly when nothing in it could be misread |
| `Toleration.ReadTolerationsAsCSV` | internal/cli/toleration.go:52-86 | the loop parses every field and fails on the first malformed one |
| `Toleration.MalformedIff` | internal/cli/toleration.go:52-86 | a field is malformed exactly when it has no '=', or no ':' after the first one |
| `Toleration.RejectedIff` | internal/cli/toleration.go:52-86 | a value is rejected exactly when one of its fields is malformed |
| `Toleration.WriteTolerationsAsCSV` | internal/cli/toleration.go:88-94 | the loop renders every toleration into one record |
| `Toleration.TolerationsVar.Set` | internal/cli/toleration.go:105-118 | the first value replaces the default, later ones are appended, and a malformed one changes nothing |
| `Toleration.TolerationsVar.String` | internal/cli/toleration.go:100-103 | the written list in brackets |
| `Toleration.ParsedRenders` | internal/cli/toleration.go:58-84 | a parsed field prints as itself, with no '=' in its key, no ':' in its value and the operator its value implies |
| `Toleration.WriteThenRead` | internal/cli/toleration.go:16-94 | writing and reading gives the same list if and only if no toleration has '=' in its key, ':' in its value, CRLF in its text, or an operator its value does not imply |
| `Password.EscapedLenIsWireLength` | internal/utils/password.go:36-43 | the counted length is the number of bytes of the escaped form |
| `Password.EscapingGrows` | internal/utils/password.go:52-70 | the wire length is at least the rune count, with equality exactly when nothing is escaped |
| `Password.RejectsIff` | internal/utils/password.go:52-70 | a password is rejected exactly when it exceeds a reported maximum, on the wire for Dell and in runes otherwise, or is below a reported minimum |
| `Password.FirstRequest` | internal/utils/password.go:80-98 | the first length asked for: eight below a reported maximum, else the fallback or twenty, never below minimum or eight; none when the limits contradict |
| `Password.EachRequest` | internal/utils/password.go:100-115 | after a draw that is too long the next length is smaller by the excess, down to the floor |
| `Password.GenerateHTMLSafePassword` | internal/utils/password.go:80-117 | the loop returns the first fitting draw, with the lengths it asked for |
| `Password.RequestsShrink` | internal/utils/password.go:100-115 | at most eight lengths are asked for; they never rise and never fall below the floor |
| `Password.GeneratedPasswordValidates` | internal/utils/password.go:52-117 | a returned password passes the length check with the same limits, for every limit pair and manufacturer |
| `Password.GenerationFailsIff` | internal/utils/password.go:80-117 | no password comes back exactly when the limits contradict each other, the last draw fails, or all eight draws are too long |

## Left out

Hypotheses the run theorems state, and what they leave open:

- FlowStale.FlowConvergesIff: assumes a BMC that stores what it is given, granted maintenance and one spec; a difference is a comparison of values, as the coherent ETag path gives for strings.
- EtagCoherence.NoMissedDriftInRuns: only runs in which every check is safe; `EtagCoherence.CoherenceKeptIffSafe` shows that this is what coherence needs.
- RotationLockout.NoLockout: a rotation is created only when its user has none in flight, by the model's own guard on up-to-date reads, and each user has one reconcile at a time, which its pruning ends.
- RotationSafety.RejectedTestsAreBounded: counts a verdict as cut off when an error or crash comes after a rejected test and before its rotation is patched.
- Maintenance.GrantCoversEveryServer: a maintenance is never given another target; `Maintenance.SharedTargetIsGranted` shows what happens otherwise. Child names over 253 characters end in a 32-bit hash and need not be distinct.
- ChildSetFixpoint.PassMatchesServers: children are named after their target, as the Set itself names them.
- Password.GeneratedPasswordValidates: the generator returns exactly the requested number of ASCII characters or fails.
- ChildSet.Aggregate: counters are unbounded, the code's are 32 bits wide.

Not modelled:

- The bodies of Redfish, HTTP and TLS calls, vendor consoles and the ioctl wiper; their answers are inputs.
- Keyed hashing and randomness: a fingerprint is an injective function of the value, a fresh secret a new number, the keystream any function.
- Number parsing (`strconv`) in drift checks is a record of functions; variable expansion, `ResolveVariables` and `ApplyVariables` are left to the caller, so settings are already substituted.
- In runs, the attributes do not change within one reconcile, so a verification reads what its reconcile read first; `FlowSteps.VerifiedIsDone` covers the verification that reads something newer.
- Elapsed-time tests (cooldowns, power-off and give-up timeouts, wipe deadlines) are inputs; only the order of steps is proved.
- Power-state checks of the BMC are one input of the settings flow; readiness gates are one input too.
- Which references a user's reconcile works with after its status patch: both those read at its start and those the patch returns are covered. The credential it uses to rewrite the account is not checked.
- A rotation whose user is gone, has no BMC or names an unknown strategy fails before the steps modelled here.
- Single-account rotation, bootstrap of a new account, deletion of users, rotation history pruning and the factory-account rotation of the user set.
- The check of a peer rotation before a rotation is created: the model lets rotations be created without it, so its results cover races of that check.
- The task polling of a firmware upgrade (`handleUpgradeInProgressState`) and the condition library's timestamps and messages.
- Read errors other than a missing object while references are verified: they end the request like a cut-off, without a change.
- Enumeration of block devices: the list of disks is given.
- Watches, caches, stale reads, finalizers, logging, webhooks, flag registration and generated code.
- The standard CSV library, the JSON encoder and the error group's wait group are modelled by their documented behaviour; their sources are not part of this model.
