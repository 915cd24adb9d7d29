/** What a single sub-reconciler, and then a whole pass, may do to the status. */
module StepProofs {
  import opened Conditions
  import opened AddonModel
  import opened Lifecycle

  // ----- Relations between the status before and after -----

  /** The part of the status no sub-reconciler writes. */
  predicate SameReports(s: Status, r: Status) {
    && r.upgradePolicy == s.upgradePolicy && r.reportedHash == s.reportedHash
    && r.observedVersion == s.observedVersion && r.Find(Paused) == s.Find(Paused)
  }

  /** Availability is either left alone, and then an installed Addon stays installed, or withdrawn. */
  predicate AvailabilityStep(s: Status, r: Status) {
    || (r.Find(Available) == s.Find(Available) && r.phase == s.phase && (s.IsTrue(Installed) ==> r.IsTrue(Installed)))
    || (!r.IsTrue(Available) && r.phase != PhaseReady)
  }

  /** A running upgrade either goes on with the same last available CSV, or is concluded by a new one. */
  predicate UpgradeStep(s: Status, r: Status) {
    if s.IsTrue(UpgradeStarted) then
      || (r.Find(UpgradeStarted) == s.Find(UpgradeStarted) && r.Find(UpgradeSucceeded) == s.Find(UpgradeSucceeded)
          && r.lastAvailableCSV == s.lastAvailableCSV)
      || (!r.Has(UpgradeStarted) && r.IsTrue(UpgradeSucceeded) && r.lastAvailableCSV != s.lastAvailableCSV)
    else r.Find(UpgradeStarted) == s.Find(UpgradeStarted) && r.Find(UpgradeSucceeded) == s.Find(UpgradeSucceeded)
  }

  /** The CSV the subscription names in a pass, if the pass can get that far. */
  function ObservedCSV(i: Input): Option<string> {
    ObservedKey(i.manifest, i.olm)
  }

  function ObservedKey(a: Manifest, o: OLMObservation): Option<string> {
    var p := ParseInstall(a.spec.install);
    if p.ValidInstall? && o.subscription.SubscriptionSeen?
    then Some(KeyText(CSVKey(p.common.namespace, o.subscription.currentCSV))) else None
  }

  /** The last available CSV is overwritten by the observed one when the OLM sub-reconciler is done, and only then. */
  predicate CSVAfter(s: Status, r: Status, done: bool, csv: Option<string>) {
    if done then csv == Some(r.lastAvailableCSV) else r.lastAvailableCSV == s.lastAvailableCSV
  }

  predicate SameUpgrade(s: Status, r: Status) {
    && r.Find(UpgradeStarted) == s.Find(UpgradeStarted) && r.Find(UpgradeSucceeded) == s.Find(UpgradeSucceeded)
    && r.lastAvailableCSV == s.lastAvailableCSV
  }

  predicate SameDeletion(s: Status, r: Status) {
    r.Find(ReadyToBeDeleted) == s.Find(ReadyToBeDeleted) && r.Find(DeleteTimeout) == s.Find(DeleteTimeout)
  }

  predicate AwaitingAck(s: Status) {
    s.Has(ReadyToBeDeleted) && s.Find(ReadyToBeDeleted).value.status == CFalse
  }

  /** The deletion conditions: sticky readiness, a fixed waiting time, a justified timeout. */
  predicate DeletionStep(s: Status, r: Status, i: Input) {
    var a := i.manifest;
    && (s.IsTrue(ReadyToBeDeleted) ==> SameDeletion(s, r))
    && (!s.IsTrue(ReadyToBeDeleted) && r.IsTrue(ReadyToBeDeleted) ==>
          a.markedForDeletion && !r.Has(DeleteTimeout) && (!a.spec.deleteAckRequired || i.ack == Acked))
    && (AwaitingAck(s) && !r.IsTrue(ReadyToBeDeleted) ==>
          AwaitingAck(r) && r.Find(ReadyToBeDeleted).value.transition == s.Find(ReadyToBeDeleted).value.transition)
    && (!s.Has(DeleteTimeout) && r.Has(DeleteTimeout) ==>
          a.markedForDeletion && a.spec.deleteAckRequired && i.ack == NotAcked && AwaitingAck(r)
          && i.clock > r.Find(ReadyToBeDeleted).value.transition + DeleteTimeoutInterval(a))
    && (s.Has(DeleteTimeout) && !r.Has(DeleteTimeout) ==> r.IsTrue(ReadyToBeDeleted))
  }

  // ----- One sub-reconciler -----

  lemma InstalledRelations(s: Status, a: Manifest, o: OLMObservation, ref: Option<RichReference>, now: int)
    ensures var (r, out) := InstalledStep(s, a, o, ref, now);
      && SameReports(s, r) && AvailabilityStep(s, r) && SameUpgrade(s, r) && SameDeletion(s, r)
      && (Unique(s.conditions) ==> Unique(r.conditions))
      && (out == Zero && ref.Some? && PhaseOf(ref.value.conditions) == PhaseSucceeded ==> r.IsTrue(Installed))
      && (out == Zero ==> ref.Some?)
  {
    if ref.None? {
      if o.deleteConfigMap == ConfigMapLabelled {
        if ReportPending(s, a.generation, MissingCSV, Fixed, now).Has(Installed) {}
      }
    } else if PhaseOf(ref.value.conditions) != PhaseSucceeded {
    } else if !a.spec.installAckRequired {
    } else {
      match o.instance
      case InstanceFailed =>
      case InstanceFound(Some(CTrue)) =>
      case InstanceFound(Some(CUnknown)) =>
      case InstanceFound(_) =>
    }
  }

  lemma PhaseRelations(s: Status, a: Manifest, key: CSVKey, phase: CSVPhase, now: int)
    ensures var (r, out) := PhaseStep(s, a, key, phase, now);
      && SameReports(s, r) && AvailabilityStep(s, r) && SameDeletion(s, r)
      && UpgradeStep(s, if out == Zero then r.(lastAvailableCSV := KeyText(key)) else r)
      && (Unique(s.conditions) ==> Unique(r.conditions)) && r.Find(Installed) == s.Find(Installed)
      && r.lastAvailableCSV == s.lastAvailableCSV
  {
    if UpgradeConcluded(s, key, phase) {
      UpgradeSucceededWrites(s, a.generation, now);
    } else if phase == PhaseSucceeded {
    } else {
    }
  }

  lemma UpgradeSucceededWrites(s: Status, g: int, now: int)
    requires s.IsTrue(UpgradeStarted)
    ensures var r := ReportUpgradeSucceeded(s, g, now);
      && SameReports(s, r) && SameDeletion(s, r) && r.lastAvailableCSV == s.lastAvailableCSV
      && r.Find(Available) == s.Find(Available) && r.phase == s.phase && r.Find(Installed) == s.Find(Installed)
      && !r.Has(UpgradeStarted) && r.IsTrue(UpgradeSucceeded)
      && (Unique(s.conditions) ==> Unique(r.conditions))
  {
    assert s.Has(UpgradeStarted);
  }

  lemma CSVStepRelations(s: Status, a: Manifest, o: OLMObservation, key: CSVKey, refs: seq<RichReference>, now: int)
    ensures var (r, out) := CSVStep(s, a, o, key, refs, now);
      && SameReports(s, r) && AvailabilityStep(s, r) && SameDeletion(s, r)
      && UpgradeStep(s, if out == Zero then r.(lastAvailableCSV := KeyText(key)) else r)
      && (Unique(s.conditions) ==> Unique(r.conditions)) && r.lastAvailableCSV == s.lastAvailableCSV
      && (out == Zero ==> r.IsTrue(Installed))
  {
    var ref := FindCSVReference(refs, key);
    InstalledRelations(s, a, o, ref, now);
    var (s1, out) := InstalledStep(s, a, o, ref, now);
    if out == Zero {
      PhaseRelations(s1, a, key, PhaseOf(ref.value.conditions), now);
    }
  }

  lemma ObserveRelations(w: World, a: Manifest, o: OLMObservation, key: CSVKey, now: int)
    ensures var r := ObserveStep(w, a, o, key, now);
      var r' := if r.outcome == Zero then r.w.status.(lastAvailableCSV := KeyText(key)) else r.w.status;
      OLMEffect(w, r.w.(status := r'), r.outcome, Some(KeyText(key)))
  {
    if !o.subscriptionReread || o.installPlan == PlanFailed {
    } else if o.installPlan == RequiresApproval {
    } else if !w.mapped || o.routeTaken {
    } else if o.operator.OperatorFound? {
      CSVStepRelations(w.status, a, o, key, o.operator.refs, now);
    }
  }

  /** What the OLM sub-reconciler may do, whatever it meets. */
  predicate OLMEffect(w: World, r: World, out: Outcome, csv: Option<string>) {
    && SameReports(w.status, r.status) && AvailabilityStep(w.status, r.status)
    && UpgradeStep(w.status, r.status) && SameDeletion(w.status, r.status)
    && (Unique(w.status.conditions) ==> Unique(r.status.conditions))
    && (out == Zero ==> r.status.IsTrue(Installed)) && CSVAfter(w.status, r.status, out == Zero, csv)
    && r == w.(status := r.status, mapped := r.mapped) && (w.mapped ==> r.mapped)
  }

  lemma OLMRelations(w: World, a: Manifest, o: OLMObservation, now: int)
    ensures var r := OLMStep(w, a, o, now); OLMEffect(w, r.w, r.outcome, ObservedKey(a, o))
  {
    match ParseInstall(a.spec.install)
    case InvalidInstall(_) =>
    case UnsupportedInstall =>
    case ValidInstall(common) =>
      if !o.operatorGroupOk || !o.networkPolicyOk || o.catalogSource == ProbeFailed {
      } else if o.catalogSource.NotReady? {
      } else if common.additionalCatalogSources != [] && !AdditionalSourcesValid(common) {
      } else if common.additionalCatalogSources != [] && o.additionalSources == ProbeFailed {
      } else if common.additionalCatalogSources != [] && o.additionalSources.NotReady? {
      } else {
        assert OLMStep(w, a, o, now) == SubscriptionStep(w, a, common, o, now);
        SubscriptionRelations(w, a, common, o, now);
      }
  }

  lemma SubscriptionRelations(w: World, a: Manifest, common: OLMCommon, o: OLMObservation, now: int)
    requires ParseInstall(a.spec.install) == ValidInstall(common)
    ensures var r := SubscriptionStep(w, a, common, o, now); OLMEffect(w, r.w, r.outcome, ObservedKey(a, o))
  {
    if o.subscription == SubscriptionFailed {
    } else if o.subscription.installedCSV == "" || o.subscription.currentCSV == "" {
    } else {
      ObserveRelations(w, a, o, CSVKey(common.namespace, o.subscription.currentCSV), now);
    }
  }

  lemma DeletionRelations(s: Status, i: Input)
    ensures var (r, out) := DeletionStatus(s, i.manifest, i.ack, i.now, i.clock);
      && SameReports(s, r) && SameUpgrade(s, r) && DeletionStep(s, r, i)
      && r.Find(Available) == s.Find(Available) && r.phase == s.phase && r.Find(Installed) == s.Find(Installed)
      && (Unique(s.conditions) ==> Unique(r.conditions))
  {
    var a := i.manifest;
    if !a.markedForDeletion || s.IsTrue(ReadyToBeDeleted) {
    } else if !a.spec.deleteAckRequired {
    } else if i.ack == Acked {
    } else if i.ack == HandlerFailed {
    } else if DeletionTimedOutAt(ReportReadyToBeDeleted(s, a.generation, false, i.now), a, i.clock) {
    }
  }

  /** Everything the proofs about runs need to know of one sub-reconciler. */
  predicate SubEffect(k: SubKind, w: World, i: Input, r: World, out: Outcome) {
    && SameReports(w.status, r.status) && AvailabilityStep(w.status, r.status)
    && (Unique(w.status.conditions) ==> Unique(r.status.conditions))
    && (if k == OLMSub then UpgradeStep(w.status, r.status) else SameUpgrade(w.status, r.status))
    && (if k == DeletionSub then DeletionStep(w.status, r.status, i) else SameDeletion(w.status, r.status))
    && (k == OLMSub && out == Zero ==> r.status.IsTrue(Installed))
    && CSVAfter(w.status, r.status, k == OLMSub && out == Zero, ObservedCSV(i))
    && (k != OLMSub ==> r.status.Find(Installed) == w.status.Find(Installed) && r.mapped == w.mapped)
    && r == w.(status := r.status, mapped := r.mapped, log := w.log + [Ran(k)])
  }

  lemma ProbeRelations(s: Status, a: Manifest, p: Probe, reason: Reason, retry: Outcome, now: int)
    ensures var (r, out) := ProbeStep(s, a, p, reason, retry, now);
      && SameReports(s, r) && AvailabilityStep(s, r) && SameUpgrade(s, r) && SameDeletion(s, r)
      && r.Find(Installed) == s.Find(Installed) && (Unique(s.conditions) ==> Unique(r.conditions))
  {
    if p.NotReady? {}
  }

  lemma InstanceRelations(s: Status, a: Manifest, ok: bool, now: int)
    ensures var (r, out) := InstanceStep(s, a, ok, now);
      && SameReports(s, r) && AvailabilityStep(s, r) && SameUpgrade(s, r) && SameDeletion(s, r)
      && r.Find(Installed) == s.Find(Installed) && (Unique(s.conditions) ==> Unique(r.conditions))
  {
    if ParseInstall(a.spec.install).InvalidInstall? {}
  }

  lemma SubRelations(k: SubKind, w: World, i: Input)
    ensures var r := SubStep(k, w, i); SubEffect(k, w, i, r.w, r.outcome)
  {
    var (s, a) := (w.status, i.manifest);
    match k
    case OLMSub => OLMRelations(w.(log := w.log + [Ran(k)]), i.manifest, i.olm, i.now);
    case DeletionSub => DeletionRelations(s, i);
    case NamespaceSub => ProbeRelations(s, a, i.namespaces, UnreadyNamespaces, RequeueAfter(DefaultRetryAfter), i.now);
    case PackageSub => ProbeRelations(s, a, i.package, UnreadyClusterPackageTemplate, Zero, i.now);
    case SecretSub => ProbeRelations(s, a, i.secrets, MissingSecretForPropagation, RequeueAfter(DefaultRetryAfter), i.now);
    case InstanceSub => InstanceRelations(s, a, i.instanceOk, i.now);
    case FederationSub => ProbeRelations(s, a, i.federation, UnreadyMonitoringFederation, RequeueAfter(DefaultRetryAfter), i.now);
    case MonitoringStackSub => ProbeRelations(s, a, i.monitoringStack, UnreadyMonitoringStack, Requeue, i.now);
  }
}
