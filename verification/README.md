# Verified model of the Addon operator

The Addon operator is a set of reconcilers: each repeatedly reads persisted state, changes an in-memory `Addon`,
calls the cluster and OCM, and writes the status back. This project models those reconcilers in Dafny and proves what
every sequence of passes keeps.

`dafny verify dfyconfig.toml` checks everything.

| file | contents |
|---|---|
| `Conditions.dfy` | the condition list and the contract of `SetStatusCondition` / `RemoveStatusCondition` |
| `AddonModel.dfy` | manifest, status, and every status writer |
| `Lifecycle.dfy` | one reconcile pass as a function of what the outside world answers during it |
| `StepProofs.dfy`, `PassProofs.dfy` | what one sub-reconciler, a list of them, and a pass may do to the status |
| `Runs.dfy`, `RunReports.dfy`, `RunSafety.dfy` | theorems over all runs of passes |
| `Availability.dfy` | which answers let a pass go on, which withdraw availability, and what Available, Installed and the phase are afterwards |
| `Decisions.dfy` | pauses, upgrade detection, finalizer and deletion conditions as equivalences |
| `ExactReports.dfy` | what is sent to OCM, exactly |
| `Reasons.dfy` | reasons and statuses that belong together, observed generation |
| `PolicyIDs.dfy` | upgrade-policy reports told apart by policy ID |
| `Progress.dfy` | good answers lead to readiness in a bounded number of passes |
| `Mapping.dfy` | the lifecycle's mapping flag tied to the event map, with other Addons' calls in between |
| `Controller.dfy` | the controller as a class whose methods are proved to compute `Lifecycle` |
| `DeletionHandlers.dfy` | the two deletion handlers, the deletion sub-reconciler's loop, the AddonInstance reconciler |
| `Secrets.dfy`, `SecretReconciler.dfy` | secret propagation: specification and theorems, and the class with the loops |
| `EventMap.dfy` | the two-way index between Addons and Operator resources |
| `Metrics.dfy` | incremental gauges against a recount, health series |
| `FeatureFlags.dfy` | editing the flag string, and the multiset comparison that decides a restart |
| `Admission.dfy` | the webhook, and what an admitted life of an Addon guarantees |
| `CreateOrUpdate.dfy` | compare-then-overwrite of OperatorGroups, Subscriptions and CatalogSources |

How the outside world enters: in the lifecycle every external answer of a pass (CSV references, probes, clocks,
accepted or refused calls, lost status writes, the finalizer update that may hand back the persisted status) is a field
of `Input`, and the theorems quantify over all sequences of inputs, with a manifest that may change in every pass. In the
other classes a call that may fail is a nondeterministic branch. A pass is one atomic step per Addon.

## What turned out not to hold

Properties that the code's names or comments suggest, with the exact condition under which the code has them:

* Reporting an upgrade as completed only after the Addon was ready at that version fails: a paused pass reports
  completion from a stale Available condition. It holds for every continuation exactly when the Addon was not available
  when the version was set (`RunSafety.CompletionIsHonestIff`).
* Per policy ID, "completed" need not follow "started", because only versions are compared: two passes show it
  (`PolicyIDs.ChangedIDIsCompletedUnstarted`). For an available Addon without a record it holds in all runs over a set
  of manifests if and only if these name one policy per version (`PolicyIDs.MatchesIffOneIDPerVersion`). Per version it
  always holds (`RunReports.StartedPrecedesCompleted`).
* Becoming ready does not conclude an upgrade: a pass concludes a running upgrade if and only if it gets past the OLM
  sub-reconciler with another CSV than the last available one (`Runs.UpgradeTracked`, over runs
  `Runs.UpgradeConcludedIff`); a good pass with the old CSV leaves a ready Addon with its upgrade running
  (`Progress.GoodPassConcludesIff`).
* The secret clean-up can delete a Secret that does not match its selector: an uncached source with the other two labels
  is given the cache label and then deleted (`Secrets.UnselectedSecretIsDeleted`); the deleted Secrets are characterised
  exactly by `Secrets.PropagationConverges`, and `Secrets.SecondPassIsIdle` states when a second pass is idle.
* A destination outside the cache is never updated, because "already exists" is taken for success
  (`Secrets.StaleCopy`); `Secrets.CopyIsFresh` says for every reference when its copy holds its data.
* Freeing an Addon cuts off another Addon that took over one of its keys, and only then
  (`EventMap.FreeSparesOthersIff`, `EventMap.MovedKeyIsLost`).
* The entry of an Addon under deletion is dropped and re-added by turns (`Metrics.EntryAlternates`).
* Enabling does not always undo disabling: "A,B" becomes "B,A" (`FeatureFlags.TogglingReorders`); the exact condition is
  `FeatureFlags.EnableUndoesDisableIff`.
* The webhook's name-collision check compares with the Addon's name, which is not the name of the main catalog source
  (`Admission.CollisionCheckMissesTheName`); two sources under one name with different specs then
  keep every pass writing, and only then (`Admission.CatalogSourcesSettleIff`).
* An active pass does not always lift the pause: the update that adds the finalizer may bring the persisted Paused
  condition back. It lifts it if and only if that does not happen (`Decisions.PauseLiftedIff`); an Addon created paused
  stays paused through its first active pass (`Decisions.PauseOutlivesFirstPass`).
* The comment above `deletionTimedOut` has the comparison the wrong way round; the model follows the code.

## Model

| member | source | states |
|---|---|---|
| Conditions.Find | controllers/addon/addon_deletion_reconciler.go:114-120 | an entry of the type, `None` exactly when the type does not occur |
| Conditions.FindIsFirst | controllers/addon/addon_deletion_reconciler.go:114-120 | the entry found is the first of its type |
| Conditions.SetCondition | controllers/addon/utils.go:97-111 | upsert: the written type holds the new entry with the transition time kept unless the status changes, all other types are untouched, uniqueness is kept |
| Conditions.WrittenEntry | controllers/addon/utils.go:97-111 | the written entry field by field, with the transition time kept exactly if the status is the same |
| Conditions.RemoveCondition | controllers/addon/utils.go:190-193 | the type is gone, every other entry and uniqueness are kept |
| StepProofs.InstalledRelations | controllers/addon/handle_installed_condition.go:18-116 | Available is never left True without Installed, upgrade and deletion conditions are untouched, and going on with a succeeded CSV means Installed is True |
| StepProofs.ObserveRelations | controllers/addon/phase_observe_operatorresource.go:18-112 | what observing the Operator resource may do to availability, upgrade conditions, last available CSV and mapping, on every exit; `Availability.OLMExact` says what it must do |
| StepProofs.OLMRelations | controllers/addon/olm_reconciler.go:25-97 | the six-phase pipeline keeps these relations at each early exit; UpgradeStarted is replaced exactly when the last available CSV moves |
| StepProofs.SubscriptionRelations | controllers/addon/phase_ensure_subscription.go:23-101 | the Subscription phase with its own status writes keeps the same relations |
| StepProofs.DeletionRelations | controllers/addon/addon_deletion_reconciler.go:41-120 | what one deletion step may do: sticky readiness, fixed waiting time, timeout only without ack and strictly after the interval; `Decisions.DeletionStatusExact` says what it must do |
| StepProofs.SubRelations | controllers/addon/addon_controller.go:457-471 | what each kind of sub-reconciler may change |
| PassProofs.SortedIsOrderedPermutation | controllers/addon/addon_controller.go:229-235 | the executed order is an order-sorted permutation of the registered sub-reconcilers |
| PassProofs.SortedUnique | controllers/addon/addon_controller.go:229-235 | orders being different, that permutation is unique, so stability of the sort does not matter |
| PassProofs.RunSubsEffect | controllers/addon/addon_controller.go:457-471 | the loop over sub-reconcilers with early return composes the steps' relations |
| PassProofs.RunSubsPrefix | controllers/addon/addon_controller.go:457-471 | the log shows a prefix of the list as executed, all of it when every result was zero |
| PassProofs.ExecutedReturnZero | controllers/addon/addon_controller.go:457-471 | every executed sub-reconciler but the last returned zero, and what follows in the list plays no part |
| PassProofs.CoreKeeps | controllers/addon/addon_controller.go:406-474 | every exit of `reconcile` (deletion, pauses, upgrade detection, finalizer, sub-reconcilers, readiness) keeps the coherence of the status |
| Runs.AlwaysCoherent | controllers/addon/addon_controller.go:344-492 | in every reachable persisted state Available implies Installed, Available holds exactly in phase Ready, UpgradeStarted and UpgradeSucceeded exclude each other, so do ReadyToBeDeleted=True and DeleteTimeout, and types are unique |
| Runs.FreshIsCoherent | api/v1alpha1/addon_types.go:484-491 | a freshly created Addon starts in such a state |
| Runs.LastAvailableCSVExact | controllers/addon/olm_reconciler.go:75-96 | after a pass the last available CSV is the observed one if the pass got past the OLM sub-reconciler and was saved, otherwise the old one |
| Runs.UpgradeTracked | controllers/addon/olm_reconciler.go:75-96 | a pass concludes a running upgrade if and only if it is saved and gets past the OLM sub-reconciler with a new CSV; it keeps UpgradeStarted exactly when it keeps the last available CSV |
| Runs.UpgradeWindow | controllers/addon/phase_observe_operatorresource.go:87-94 | over a run: as long as UpgradeStarted stays, the last available CSV is the one the upgrade started from |
| Runs.UpgradeConcludedIff | controllers/addon/phase_observe_operatorresource.go:151-159 | over any run without a further upgrade, the running one is reported as succeeded if and only if some pass brought a new CSV; until then UpgradeStarted and the last available CSV stay |
| Runs.VersionStep | controllers/addon/addon_controller.go:378-386 | after a pass whose status write succeeds the observed version is the spec version |
| Runs.ShortCircuitsOnce | controllers/addon/utils.go:271-277 | per version at most one saved pass is cut short by upgrade detection |
| Runs.ObservedVersionStays | controllers/addon/addon_controller.go:378-386 | once a pass is saved the observed version is the spec version until that changes, through lost writes as well |
| Availability.ParseExact | controllers/addon/utils.go:361-412 | a section is used exactly if its type is known and it names a namespace and an image |
| Availability.PhaseExact | controllers/addon/phase_observe_operatorresource.go:114-129 | succeeded exactly if the first Succeeded condition is true, failed exactly if it is there and not true |
| Availability.ReferenceExact | controllers/addon/phase_observe_operatorresource.go:136-149 | the first reference to the CSV, none exactly if no reference concerns it |
| Availability.OLMExact | controllers/addon/olm_reconciler.go:25-97 | for all answers: how OLM ends, for which reason, phase and message it withdraws availability, and what it says about Installed |
| Availability.SubExact | controllers/addon/addon_controller.go:457-471 | the same for every sub-reconciler |
| Availability.OrderExact | controllers/addon/addon_controller.go:229-235 | the order numbers stand for deletion, namespaces, package, secrets, instance, OLM, federation, monitoring stack |
| Availability.SortedAscends | controllers/addon/addon_controller.go:229-235 | the executed list is the registered sub-reconcilers in that order |
| Availability.ListExact | controllers/addon/addon_controller.go:457-471 | a list ends as its first sub-reconciler that does not end with zero, and leaves the last complaint met |
| Availability.StopExact | controllers/addon/addon_controller.go:457-471 | how the sub-reconcilers of a pass end, from the answers and the state that it found |
| Availability.PassExact | controllers/addon/addon_controller.go:406-492 | for every state and all answers: Available with reason and message, Installed and the phase after a saved pass |
| Availability.AvailableIff | controllers/addon/addon_controller.go:436-492 | available after a pass if and only if everything is ready, or it was available and no answer met on the way spoke against it |
| Availability.ComplaintWithdraws | controllers/addon/utils.go:297-357 | a reached sub-reconciler that complains and stops the pass takes availability away with its reason, phase and message |
| Availability.UnsuccessfulCSVWithdraws | controllers/addon/phase_observe_operatorresource.go:87-109 | a CSV whose first reference does not say succeeded makes the Addon unavailable and pending |
| Decisions.SubsReachedIff | controllers/addon/addon_controller.go:406-457 | the sub-reconcilers are reached exactly by unpaused passes without a version change that have or get the finalizer |
| Decisions.UpgradeDetectedIff | controllers/addon/utils.go:271-277 | a saved active pass starts an upgrade if and only if observed and requested version are both known and differ |
| Decisions.NoUpgradeAtOneVersion | controllers/addon/utils.go:271-277 | over any run at one version, from a fresh Addon, no upgrade is ever reported |
| Decisions.NewVersionStartsUpgrade | controllers/addon/addon_controller.go:436-441 | a saved pass at one version followed by a saved active one at another reports the upgrade |
| Decisions.PausedExact | controllers/addon/addon_controller.go:418-434 | the Paused condition after a saved pass, with the right one of the two reasons |
| Decisions.PauseLiftedIff | controllers/addon/addon_controller.go:433-455 | an active pass lifts the pause if and only if the update that adds the finalizer does not bring it back |
| Decisions.PauseOutlivesFirstPass | controllers/addon/addon_controller.go:433-455 | an Addon created paused stays paused through the pass that adds the finalizer |
| Decisions.InstalledIsReported | controllers/addon/addon_controller.go:443-446 | a saved active pass leaves a statement about Installed |
| Decisions.FinalizerIff | controllers/addon/addon_controller.go:448-455 | the finalizer after any pass: lost exactly when everything is released, gained exactly by an active pass that adds it |
| Decisions.TerminationIsSaved | controllers/addon/utils.go:55-59 | termination is persisted before anything is taken down, even if the last write of the pass is lost |
| Decisions.DeletionStatusExact | controllers/addon/addon_deletion_reconciler.go:41-111 | the deletion conditions and the result for every answer, with the interval written out |
| Decisions.DeletionExact | controllers/addon/addon_deletion_reconciler.go:41-120 | the same for a whole saved pass |
| Decisions.DeletionIffs | controllers/addon/addon_deletion_reconciler.go:41-111 | ready to be deleted if and only if marked and no ack is needed or one came; timed out if and only if marked, ack needed, none came and strictly past the interval |
| Reasons.ReasonsAlwaysFit | controllers/addon/utils.go:97-357 | in every reachable status each condition's status and reason belong to its type and to each other |
| Reasons.GenerationExact | controllers/addon/utils.go:97-357 | the observed generation after a saved pass |
| Runs.ExecutionOrder | controllers/addon/addon_controller.go:457-492 | what the sub-reconcilers' part of a pass logs: a prefix of the sorted list, then readiness exactly when all results were zero and the package check passed |
| RunReports.PassOrder | controllers/addon/addon_controller.go:344-492 | the log of a whole pass is that part, if the pass reaches it, followed by reports and clean-up only |
| Runs.ReadyToBeDeletedSticks | controllers/addon/utils.go:156-176 | over any run ReadyToBeDeleted=True and its entry never change, and DeleteTimeout never appears beside it |
| Runs.WaitingTimeIsFixed | controllers/addon/addon_deletion_reconciler.go:88-94 | the time from which the timeout is counted is that of the first saved ReadyToBeDeleted=False, over any run |
| Runs.TimeoutIsJustified | controllers/addon/addon_deletion_reconciler.go:76-111 | a newly set DeleteTimeout means: ack required, none received, and strictly later than that first time plus the current interval |
| RunReports.PolicyStepEffect | controllers/addon/upgradepolicy_status.go:15-166 | the shapes that one reporting step can add to the OCM trace, with the matching record |
| ExactReports.PolicyStepExact | controllers/addon/upgradepolicy_status.go:15-166 | for every record, OCM state, availability and combination of accepted calls: exactly what is sent and recorded |
| ExactReports.StartIsReportedAtOnce | controllers/addon/upgradepolicy_status.go:51-83 | a start that is due is reported whether or not the Addon is available |
| ExactReports.CompletionWithinTwo | controllers/addon/upgradepolicy_status.go:40-98 | two accepted saved passes, the second leaving the Addon available, record completion whatever was recorded before |
| RunReports.StartedPrecedesCompleted | controllers/addon/upgradepolicy_status.go:15-166 | with lost status writes, failed calls and changing specs, every accepted "completed" of a version is preceded by an accepted "started" of it |
| PolicyIDs.StartedPrecedesCompletedByID | controllers/addon/upgradepolicy_status.go:15-166 | if the manifests of a run name one policy per version, every completed policy was started under its own ID, in any interleaving |
| PolicyIDs.ChangedIDIsCompletedUnstarted | controllers/addon/upgradepolicy_status.go:40-98 | two paused passes over manifests of one version and different policies complete the second, which nobody started |
| PolicyIDs.MatchesIffOneIDPerVersion | controllers/addon/upgradepolicy_status.go:15-166 | for an available Addon without a record, all runs over a set of manifests start policies before completing them if and only if the manifests name one policy per version |
| RunReports.RecordIsLastPatch | controllers/addon/upgradepolicy_status.go:40-98 | without lost writes the record equals the last accepted patch and every "completed" directly follows "started" of its version |
| RunReports.QuietAfterCompletion | controllers/addon/upgradepolicy_status.go:101-105 | once completion is recorded, no get or patch happens until the version changes, even with lost writes |
| RunReports.PostsAreDeduplicated | controllers/addon/status_reporting.go:15-102 | without lost writes the stored hash is that of the last accepted post, and consecutive posts differ |
| ExactReports.PassPostsExactly | controllers/addon/status_reporting.go:15-102 | a pass posts the payload describing its own status, condition by condition, if and only if reporting is on, OCM accepts and the stored hash is another |
| ExactReports.DescriptionIsPayload | controllers/addon/utils.go:563-571 | the payload carries name, correlation ID, version and of each condition type, status, reason and message |
| ExactReports.ChangedConditionChangesPayload | controllers/addon/status_reporting.go:76-87 | another status, reason, message or type in a condition gives another payload |
| RunReports.RefusedPostKeepsHash | controllers/addon/status_reporting.go:48-59 | a refused post changes nothing; an accepted one happens only when the status differs and settles it |
| RunReports.TimesAreNotReported | controllers/addon/status_reporting.go:76-95 | changes in transition time or generation alone never cause a post |
| RunSafety.CompletedAfterReady | controllers/addon/upgradepolicy_status.go:78-98 | over any run from an unavailable Addon, every completion of the version comes after a pass that became ready at it |
| RunSafety.StaleAvailabilityCompletes | controllers/addon/upgradepolicy_status.go:78-98 | from an available Addon, one or two paused passes report completion without any readiness |
| RunSafety.CompletionIsHonestIff | controllers/addon/upgradepolicy_status.go:15-99 | for all continuations completion follows readiness, if and only if the Addon is not available when the version is set |
| RunSafety.CompletedWhileInstalled | controllers/addon/upgradepolicy_status.go:78-98 | a pass that reports completion has Available and Installed True in its own status |
| RunSafety.FinalizerGoesLast | controllers/addon/utils.go:45-94 | in every run a dropped finalizer directly follows the template seen gone and the mapping freed |
| RunSafety.FinalizerStep | controllers/addon/addon_controller.go:412-416 | a finalizer is lost only in a deletion pass with the template gone and no mapping left; deletion passes never map |
| RunSafety.NeverMappedAgain | controllers/addon/phase_observe_operatorresource.go:53-65 | after the finalizer is gone no pass of that Addon raises the mapping flag or takes the finalizer back |
| Mapping.MappedIsListed | controllers/addon/phase_observe_operatorresource.go:53-65 | after any run, with any calls of other Addons in between, the flag is up if and only if the event map lists the operator key for the Addon |
| Mapping.ChangedIffUnmappedOrTaken | controllers/addon/handler/operator_resource_eventhandler.go:75-92 | the map update reports a change, and the pass requeues, exactly when the key is not listed or routed elsewhere |
| Mapping.DeletedAddonIsNeverWoken | controllers/addon/utils.go:45-94 | once a pass has dropped the finalizer, the event map never routes an event to that Addon again, whatever other Addons do |
| Progress.GoodPassesConverge | controllers/addon/addon_controller.go:344-492 | from any coherent state, three or more saved passes with good answers end with Available, Installed and phase Ready; after two the Operator resource is mapped, after one upgrade detection is settled |
| Progress.GoodPassConcludesIff | controllers/addon/phase_observe_operatorresource.go:76-111 | a good pass makes a mapped Addon under upgrade ready, and concludes the upgrade if and only if the observed CSV is not the last available one |
| Controller.GetCSVPhase | controllers/addon/phase_observe_operatorresource.go:114-129 | the loop finds the phase given by the first Succeeded condition |
| Controller.FindConcernedCSVReference | controllers/addon/phase_observe_operatorresource.go:136-149 | the first matching reference, none exactly when no reference matches |
| Controller.MapToAddonStatusConditions | controllers/addon/status_reporting.go:76-87 | one payload condition per condition, in order, without times |
| Controller.SortSlice | controllers/addon/addon_controller.go:229-235 | sorting yields the unique ordered permutation |
| Controller.RegistrationOrderIrrelevant | controllers/addon/addon_controller.go:229-235 | passes of controllers that registered the same sub-reconcilers in different orders are equal |
| Controller.AddonReconciler.ReconcileDeletion | controllers/addon/addon_deletion_reconciler.go:41-57 | status and result are those of `DeletionStatus` for a given answer of the handlers |
| Controller.AddonReconciler.HandleInstalledCondition | controllers/addon/handle_installed_condition.go:18-116 | refines the Installed step of the lifecycle |
| Controller.AddonReconciler.ObserveOperatorResource | controllers/addon/phase_observe_operatorresource.go:18-112 | refines the observation step, including the mapping update and its retry |
| Controller.AddonReconciler.ReconcileOLM | controllers/addon/olm_reconciler.go:25-97 | refines the OLM pipeline |
| Controller.AddonReconciler.SetAddonCRStatus | controllers/addon/addon_controller.go:476-492 | readiness is reported only with the non-blocking check passed |
| Controller.AddonReconciler.RunSubReconcilers | controllers/addon/addon_controller.go:436-474 | the loop with early return equals the recursive list run followed by the conclusion |
| Controller.AddonReconciler.HandleAddonCRDeletion | controllers/addon/utils.go:45-94 | refines the deletion pass |
| Controller.AddonReconciler.ReconcileAddon | controllers/addon/addon_controller.go:406-474 | refines the core of a pass |
| Controller.AddonReconciler.HandleUpgradePolicyStatusReporting | controllers/addon/upgradepolicy_status.go:15-99 | refines the upgrade policy step |
| Controller.AddonReconciler.HandleOCMAddOnStatusReporting | controllers/addon/status_reporting.go:15-46 | refines the posting step |
| Controller.AddonReconciler.SyncWithExternalAPIs | controllers/addon/addon_controller.go:389-404 | refines policy reporting followed by status reporting |
| Controller.AddonReconciler.Reconcile | controllers/addon/addon_controller.go:344-387 | one work item takes the controller's state to exactly `Pass` of it, so the theorems over runs speak about the class |
| DeletionHandlers.DeletionReconciler.NotifyLegacy | controllers/addon/addon_deletion_handler_legacy.go:29-52 | on success exactly the labelled ConfigMap is added or patched, a repeat writes nothing; a failure changes nothing |
| DeletionHandlers.DeletionReconciler.AckFromLegacy | controllers/addon/addon_deletion_handler_legacy.go:54-93 | ack exactly when Operator and Subscription exist and the CSV reference is gone |
| DeletionHandlers.DeletionReconciler.NotifyInstance | controllers/addon/addon_deletion_handler_addon_instance.go:24-40 | on success exactly an existing AddonInstance is marked, a repeat writes nothing; a failure changes nothing |
| DeletionHandlers.NotifyNotifies | controllers/addon/addon_deletion_handler_legacy.go:29-52 | after either notification the notice is in place, no mark, label or answer is lost, and the other handler's objects are untouched |
| DeletionHandlers.NotifyTouchesOnly | controllers/addon/addon_deletion_handler_legacy.go:44-51 | a notification touches one label of one ConfigMap or the mark of one AddonInstance |
| DeletionHandlers.DeletionReconciler.AckFromInstance | controllers/addon/addon_deletion_handler_addon_instance.go:42-77 | ack exactly when the AddonInstance reports ReadyToBeDeleted=True |
| DeletionHandlers.DeletionReconciler.AskHandlers | controllers/addon/addon_deletion_reconciler.go:59-75 | the loop establishes the relation `Asked`: an ack needs a handler with notice in place and answer in; no ack means every handler has notified and none has an answer; no notice is undone |
| DeletionHandlers.AckIsBacked | controllers/addon/addon_deletion_reconciler.go:59-75 | an ack means the labelled ConfigMap is in place and the CSV reference gone, or the AddonInstance is marked and reports ready |
| DeletionHandlers.DeletionReconciler.Reconcile | controllers/addon/addon_deletion_reconciler.go:41-84 | the status moves as in the lifecycle for the answer that the handlers gave, which the cluster state backs; where they need not be asked no object changes |
| DeletionHandlers.InstanceReconciler.ReconcileAddonInstance | controllers/addon/addon_instance_reconciler.go:78-97 | creates the AddonInstance or resets its spec, keeping the mark and what the addon reported |
| DeletionHandlers.EnsuredExact | controllers/addon/addon_instance_reconciler.go:47-97 | period, mark, answer and owner of an ensured AddonInstance, new or existing |
| DeletionHandlers.EnsuredKeepsNotices | controllers/addon/addon_instance_reconciler.go:78-97 | resetting the AddonInstance clears no mark, and a second reset changes nothing |
| DeletionHandlers.NoAckWithoutNotice | controllers/addon/addon_deletion_reconciler.go:41-75 | over any run whose answers are those of the handlers, the pass in which an Addon becomes ready to be deleted was asked to delete it and, if it needed an ack, left the notice in place together with its answer |
| DeletionHandlers.AnswerEndsWaitingIff | controllers/addon/addon_deletion_reconciler.go:59-75 | a saved pass whose handlers worked makes the Addon ready to be deleted if and only if one of them has the answer |
| DeletionHandlers.MarkSticks | controllers/addon/addon_deletion_handler_addon_instance.go:24-40 | over any history of notifications, resets and outside changes, MarkedForDeletion once set stays as long as the AddonInstance exists |
| Secrets.GatherDescribed | controllers/addon/secret_reconciler.go:74-148 | gathering succeeds exactly when all sources exist; it adopts uncached sources, changes nothing else, and yields one copy per reference |
| Secrets.GatherStops | controllers/addon/secret_reconciler.go:114-131 | a missing source stops the pass after adopting the sources in front of it |
| Secrets.PassAt | controllers/addon/secret_reconciler.go:29-62 | the state of any single key after a complete pass |
| Secrets.PropagationConverges | controllers/addon/secret_reconciler.go:29-224 | a pass completes exactly when all sources exist; then every wanted Secret exists, every selected one is wanted, the deleted ones are characterised exactly, and unwanted survivors are unchanged or adopted |
| Secrets.UnselectedSecretIsDeleted | controllers/addon/secret_reconciler.go:133-143 | a Secret not matching the selector can be deleted |
| Secrets.DataAfterPass | controllers/addon/secret_reconciler.go:151-224 | a destination holds the data of the prevailing reference to its name, or its own if it exists outside the cache and is no source |
| Secrets.SecretAfterPass | controllers/addon/secret_reconciler.go:94-224 | a destination in full: created copies have type of the first source, annotations and labels of the spec and the Addon as controller; existing ones keep type and annotations |
| Secrets.CommonLabelsExact | controllers/common_utils.go:25-38 | the labels of the spec win over the operator's own three |
| Secrets.AdoptExact | controllers/addon/secret_reconciler.go:131-143 | adoption sets the cache label and adds an owner, and changes nothing else |
| Secrets.CopyIsFresh | controllers/addon/secret_reconciler.go:151-224 | for every spec, reference and namespace: the copy holds the reference's data if and only if an untouched destination held it already or the prevailing reference has it |
| Secrets.StaleCopy | controllers/addon/secret_reconciler.go:196-205 | a destination outside the cache with other data keeps it |
| Secrets.SecondPassIsIdle | controllers/addon/secret_reconciler.go:29-62 | with the operator's namespace not among the Addon's, a second pass leaves the store unchanged if and only if no source carries the Addon's ownership labels |
| SecretReconciler.Reconciler.GetReferencedSecret | controllers/addon/secret_reconciler.go:114-148 | cached read, uncached fallback and adoption; returns the Secret as read, before the patch |
| SecretReconciler.Reconciler.GetDestinationSecrets | controllers/addon/secret_reconciler.go:74-111 | the loop computes the gathering specification; a failure leaves a prefix of it |
| SecretReconciler.Reconciler.ReconcileSecret | controllers/addon/secret_reconciler.go:196-224 | create, update or leave one Secret; a failure changes nothing |
| SecretReconciler.Reconciler.ReconcileSecretsInAddonNamespaces | controllers/addon/secret_reconciler.go:151-169 | the nested loops perform all writes in order and return exactly the written keys; a failure leaves a prefix |
| SecretReconciler.Reconciler.ListSelected | controllers/common_utils.go:52-58 | lists exactly the cached Secrets with the selector's labels, each once |
| SecretReconciler.Reconciler.CleanupUnknownSecrets | controllers/addon/secret_reconciler.go:171-194 | deletes exactly the selected unknown Secrets; a failure has deleted only some of those |
| SecretReconciler.Reconciler.Reconcile | controllers/addon/secret_reconciler.go:29-62 | refines the specified pass; a failed pass has done no more than a complete one may |
| EventMap.OperatorResourceHandler.EnqueueObject | controllers/addon/handler/operator_resource_eventhandler.go:50-61 | an event wakes exactly the Addon its resource routes to |
| EventMap.OperatorResourceHandler.IsKeyPresent | controllers/addon/handler/operator_resource_eventhandler.go:94-101 | the search loop decides membership |
| EventMap.OperatorResourceHandler.UpdateMap | controllers/addon/handler/operator_resource_eventhandler.go:75-92 | adds the mapping; `changed` exactly when the state changed |
| EventMap.OperatorResourceHandler.Free | controllers/addon/handler/operator_resource_eventhandler.go:64-73 | removes the list and all routes of its keys |
| EventMap.AlwaysConsistent | controllers/addon/handler/operator_resource_eventhandler.go:64-92 | after any calls every route is backed by its target's list, and lists have no duplicates |
| EventMap.FreedIsUnreachable | controllers/addon/handler/operator_resource_eventhandler.go:64-73 | after Free nothing routes to the Addon |
| EventMap.FreeSparesOthersIff | controllers/addon/handler/operator_resource_eventhandler.go:64-73 | other Addons keep their routing if and only if none of the freed list's keys was taken over |
| EventMap.MovedKeyIsLost | controllers/addon/handler/operator_resource_eventhandler.go:64-92 | a moved key is cut off when its former Addon is freed |
| EventMap.ListsAreRegistrations | controllers/addon/handler/operator_resource_eventhandler.go:64-92 | an Addon's list is exactly what it asked for since it was last freed |
| EventMap.DistinctKeysInvert | controllers/addon/handler/operator_resource_eventhandler.go:50-92 | with distinct keys the maps are exact inverses and events wake exactly the Addon that asked |
| EventMap.DistinctKeysFree | controllers/addon/handler/operator_resource_eventhandler.go:64-73 | with distinct keys Free leaves every other Addon untouched |
| Metrics.Recorder.RecordAddonHealthInfo | internal/metrics/recorder.go:280-326 | replaces all series of the name by the one for this observation |
| Metrics.Recorder.RecordAddonMetrics | internal/metrics/recorder.go:211-278 | increments and decrements keep every gauge equal to a recount of the entries |
| Metrics.RecordAll | internal/metrics/recorder.go:211-278 | after any sequence of calls the gauges are a recount, none negative or above the total |
| Metrics.HealthSeriesAreUnique | internal/metrics/recorder.go:280-326 | exactly one health series for every recorded name |
| Metrics.HealthIsLatest | internal/metrics/recorder.go:280-326 | that series is the one of the latest observation |
| Metrics.HealthExact | internal/metrics/recorder.go:284-325 | value, version and reason of the one series, by the latest condition |
| Metrics.EntryIsLatest | internal/metrics/recorder.go:223-264 | a present entry shows the latest flags |
| Metrics.EntryAlternates | internal/metrics/recorder.go:230-277 | whether an Addon is counted, as the parity of deletion passes seen |
| Metrics.CountedAfterDeletion | internal/metrics/recorder.go:265-277 | after an Addon was seen alive it is uncounted exactly after an odd number of deletion passes |
| FeatureFlags.JoinSplit | internal/featuretoggle/monitoring_stack_feature_toggle_testable.go:77-92 | joining the pieces of a flag string restores it |
| FeatureFlags.SplitJoin | internal/featuretoggle/monitoring_stack_feature_toggle_testable.go:77-92 | splitting a join of comma-free pieces restores them |
| FeatureFlags.EditsAreExact | internal/featuretoggle/monitoring_stack_feature_toggle_testable.go:41-92 | Enable switches the flag on, Disable off, and no other flag's number of occurrences changes |
| FeatureFlags.FlagAfterEdit | internal/featuretoggle/feature_toggle_handler.go:30-54 | membership of every non-empty flag after either edit |
| FeatureFlags.ToggleIdentifiers | internal/featuretoggle/addons_plug_and_play_feature_toggle_testable.go:42-51 | both identifiers are comma-free, non-empty and different |
| FeatureFlags.DisableUndoesEnable | internal/featuretoggle/monitoring_stack_feature_toggle_testable.go:41-92 | Disable after Enable restores the string to the letter |
| FeatureFlags.EnableUndoesDisableIff | internal/featuretoggle/addons_plug_and_play_feature_toggle_testable.go:42-93 | the converse holds if and only if the flag stood once, last, and not behind a lone comma |
| FeatureFlags.TogglingReorders | internal/featuretoggle/addons_plug_and_play_feature_toggle_testable.go:42-93 | switching the first of two flags off and on again changes the string |
| FeatureFlags.FeatureToggle.StringPresentInSlice | internal/featuretoggle/feature_toggle_handler.go:47-54 | the search loop decides membership |
| FeatureFlags.FeatureToggle.IsEnabled | internal/featuretoggle/feature_toggle_handler.go:30-35 | true exactly when the identifier is one of the pieces |
| FeatureFlags.FeatureToggle.Enable | internal/featuretoggle/monitoring_stack_feature_toggle_testable.go:21-55 | refines the specified edit, creates a missing object, changes nothing on failure |
| FeatureFlags.FeatureToggle.RemoveFlag | internal/featuretoggle/addons_plug_and_play_feature_toggle_testable.go:83-92 | the accumulating loop joins all other pieces |
| FeatureFlags.FeatureToggle.Disable | internal/featuretoggle/monitoring_stack_feature_toggle_testable.go:57-97 | refines the specified edit, creates a missing object, changes nothing on failure |
| FeatureFlags.AreSlicesEquivalent | controllers/addonoperator/addonoperator_controller.go:126-146 | true if and only if the slices are equal as multisets |
| FeatureFlags.FoundDifferentState | controllers/addonoperator/addonoperator_controller.go:98-103 | the operator exits exactly when the multisets of flags differ |
| FeatureFlags.OrderOfEnablingIsInvisible | controllers/addonoperator/addonoperator_controller.go:98-103 | enabling two toggles in either order never triggers the restart |
| FeatureFlags.RestartsExactlyOnChange | controllers/addonoperator/addonoperator_controller.go:98-103 | an edit triggers the restart exactly when it changes the flag |
| Admission.ValidateInstallSpec | internal/webhooks/validate.go:54-101 | accepts exactly a known type with its own section alone and no source named like the Addon |
| Admission.ValidateSecretPropagation | internal/webhooks/validate.go:30-52 | accepts exactly when a pull secret is among the destinations, or there is none, or nothing is propagated |
| Admission.ValidateAddon | internal/webhooks/validate.go:20-28 | both of the above |
| Admission.ValidateAddonImmutability | internal/webhooks/validate.go:108-151 | comparing blanked copies accepts exactly updates that keep type, sections, namespaces and packages |
| Admission.Handle | internal/webhooks/addon_webhook.go:27-88 | the admission decision for creations and updates |
| Admission.AdmissionChain | internal/webhooks/validate.go:20-151 | over any admitted life: type, namespace, package and operator name stay, the selected section is present, and both ways of reading it agree |
| Admission.OneKeyPerAddon | controllers/addon/phase_observe_operatorresource.go:131-134 | an admitted Addon's list in the event map never exceeds its one constant key |
| Admission.OperatorKeysDiffer | controllers/addon/phase_observe_operatorresource.go:131-134 | operator keys are equal exactly for equal package and namespace |
| Admission.DistinctInstallsInvert | controllers/addon/handler/operator_resource_eventhandler.go:64-92 | Addons with different package or namespace always have an exactly invertible event map |
| Admission.CollisionCheckMissesTheName | internal/webhooks/validate.go:66-76 | a source with the main catalog source's name is always admitted, one with the Addon's name never |
| Admission.DesiredSourceExact | controllers/addon/phase_ensure_catalogsource.go:34-52 | key, image, display name and pull secret of a desired catalog source |
| Admission.CatalogSourcesSettleIff | controllers/addon/phase_ensure_catalogsource.go:24-150 | the main and additional catalog sources need no write in a second pass if and only if sources of one name have one image |
| CreateOrUpdate.Store.ReconcileOperatorGroup | controllers/addon/phase_ensure_operator_group.go:49-72 | new state and number of writes for the OperatorGroup |
| CreateOrUpdate.Store.ReconcileSubscription | controllers/addon/phase_ensure_subscription.go:103-135 | the same for the Subscription, with the existing approval mode |
| CreateOrUpdate.Store.ReconcileCatalogSource | controllers/addon/phase_ensure_catalogsource.go:154-183 | the same for the CatalogSource |
| CreateOrUpdate.MergeAddsNothingIff | controllers/addon/phase_ensure_operator_group.go:61-65 | merged labels equal the current ones exactly when every desired label is there already |
| CreateOrUpdate.ControllerExact | controllers/common_utils.go:61-68 | the controller is the first owner marked as one |
| CreateOrUpdate.EnsuredIsDesired | controllers/addon/phase_ensure_operator_group.go:61-71 | the result has the desired spec, labels and controller, keeps annotations and all foreign labels, and has no others |
| CreateOrUpdate.SecondReconcileIsIdleIff | controllers/common_utils.go:61-68 | a second reconcile writes nothing if and only if the desired object has a controller |
| CreateOrUpdate.ApprovalIsUnmanaged | controllers/addon/phase_ensure_subscription.go:117-132 | an existing approval mode is never changed, and changing it from outside causes no write |
| CreateOrUpdate.Store.EnsureCatalogSources | controllers/addon/phase_ensure_catalogsource.go:60-150 | the loop over main and additional sources equals the list specification; an early exit leaves a prefix of it |
| CreateOrUpdate.PassSatisfies | controllers/addon/phase_ensure_catalogsource.go:87-183 | after a pass over objects of one Addon without conflicting names, every object is in its desired state |
| CreateOrUpdate.IdleIffSatisfied | controllers/addon/phase_ensure_catalogsource.go:171-182 | a pass writes nothing exactly when every object is in its desired state |
| CreateOrUpdate.SecondPassIsIdleIff | controllers/addon/phase_ensure_catalogsource.go:87-183 | a second pass writes nothing if and only if no two objects share a name with different specs |

## Left out

- Kubernetes client, informers and watches: only a store, a label-filtered view of it and calls that may fail; the cache is never stale.
- The OCM HTTP client and its encoding: get, patch and post are steps that are accepted or not.
- The status hash: an uninterpreted function of the four payload fields, not assumed injective.
- Times: integers; a pass reads one clock value for all condition writes and one for the timeout, and truncation to seconds is not modelled.
- Namespace, package, federation and monitoring stack sub-reconcilers: in a pass they fail, report not ready, wait or finish, in any combination; the objects they build appear in no theorem.
- Secret propagation inside a pass is such a probe too; its store is the subject of `Secrets` and `SecretReconciler`.
- Global pause across restarts, `handleGlobalPause` and the requeueing of all Addons: the pause flag is an input of each pass.
- Message texts and wrapped errors: conditions carry abstract messages, errors carry no text.
- An InstallPlan reference that is nil in the Subscription, which would end the process.
- Concurrency: mutexes and the work queue serialise passes; classes are used by one caller at a time.
- Prometheus types, summaries and the AddonHealth computation: gauges are integers and the health reason is an argument.
- The choice of which pods count as unschedulable, and the AddonInstance heartbeat check.
- Controller.AddonReconciler.ReconcileDeletion: takes the handlers' combined answer as an input of the pass; the loop over the handlers is `DeletionHandlers.DeletionReconciler.Reconcile`, and `DeletionHandlers.NoAckWithoutNotice` joins the two over runs.
- RunReports.StartedPrecedesCompleted: is stated per version, as the code compares; `PolicyIDs` treats policy IDs.
- PolicyIDs.MatchesIffOneIDPerVersion: takes manifests without a deletion timestamp and an available Addon; `PolicyIDs.StartedPrecedesCompletedByID` needs neither.
- EventMap.DistinctKeysInvert: needs distinct keys; without them only the weaker consistency holds.
- Admission.DistinctInstallsInvert: takes namespaces without dots, as Kubernetes requires of them.
