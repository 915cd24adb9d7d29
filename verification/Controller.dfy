/** The Addon controller as the operator runs it: methods that change the Addon they are handed and the
    controller's own fields step by step.  Each is proved to compute the function of `Lifecycle` that
    the theorems about runs speak of. */
module Controller {
  import opened Conditions
  import opened AddonModel
  import opened Lifecycle
  import opened PassProofs

  /** The in-memory Addon handed from one sub-reconciler to the next. */
  class Addon {
    var status: Status

    constructor (status: Status)
      ensures this.status == status
    {
      this.status := status;
    }
  }

  // ----- Read-only searches -----

  method GetCSVPhase(conditions: seq<RefCondition>) returns (phase: CSVPhase)
    ensures phase == PhaseOf(conditions)
  {
    for k := 0 to |conditions|
      invariant PhaseOf(conditions) == PhaseOf(conditions[k..])
    {
      if conditions[k].ctype == "Succeeded" {
        if conditions[k].status == "True" { return PhaseSucceeded; }
        return PhaseFailed;
      }
      assert conditions[k..][1..] == conditions[k + 1..];
    }
    return PhaseNone;
  }

  method FindConcernedCSVReference(refs: seq<RichReference>, key: CSVKey) returns (ref: Option<RichReference>)
    ensures ref == FindCSVReference(refs, key)
  {
    for k := 0 to |refs|
      invariant FindCSVReference(refs, key) == FindCSVReference(refs[k..], key)
    {
      if refs[k].kind == "ClusterServiceVersion" && refs[k].name == key.name && refs[k].namespace == key.namespace {
        return Some(refs[k]);
      }
      assert refs[k..][1..] == refs[k + 1..];
    }
    return None;
  }

  method MapToAddonStatusConditions(cs: seq<Condition>) returns (r: seq<PayloadCondition>)
    ensures r == PayloadConditions(cs)
  {
    r := [];
    for k := 0 to |cs|
      invariant r == PayloadConditions(cs)[..k]
    {
      r := r + [PayloadCondition(cs[k].ctype, cs[k].status, cs[k].reason, cs[k].message)];
    }
  }

  // ----- Sorting the sub-reconcilers -----

  lemma {:induction false} InsertAt(k: SubKind, ks: seq<SubKind>, p: nat)
    requires p <= |ks| && (forall j :: 0 <= j < p ==> Order(k) > Order(ks[j])) && (p < |ks| ==> Order(k) <= Order(ks[p]))
    ensures Insert(k, ks) == ks[..p] + [k] + ks[p..]
  {
    if p > 0 {
      InsertAt(k, ks[1..], p - 1);
      assert ks[..p] == [ks[0]] + ks[1..][..p - 1] && ks[1..][p - 1..] == ks[p..];
    }
  }

  method SortSlice(ks: seq<SubKind>) returns (r: seq<SubKind>)
    ensures r == Sorted(ks)
  {
    r := [];
    for j := |ks| downto 0
      invariant r == Sorted(ks[j..])
    {
      var p := 0;
      while p < |r| && Order(ks[j]) > Order(r[p])
        invariant p <= |r| && forall q :: 0 <= q < p ==> Order(ks[j]) > Order(r[q])
      {
        p := p + 1;
      }
      InsertAt(ks[j], r, p);
      assert ks[j..][1..] == ks[j + 1..];
      r := r[..p] + [ks[j]] + r[p..];
    }
  }

  lemma SortedTwice(ks: seq<SubKind>)
    ensures Sorted(Sorted(ks)) == Sorted(ks)
  {
    SortedIsOrderedPermutation(ks);
    SortedIsOrderedPermutation(Sorted(ks));
    SortedUnique(Sorted(Sorted(ks)), Sorted(ks));
  }

  lemma SameActivePass(c: Config, d: Config, w: World, i: Input)
    requires Sorted(c.subs) == Sorted(d.subs)
    ensures ActivePass(c, w, i) == ActivePass(d, w, i)
  {
    var f := EnsureFinalizer(w.(status := Prepared(w.status, i)), i);
    assert SubsPass(c, f.w, i) == SubsPass(d, f.w, i);
  }

  lemma SameSubsPass(c: Config, d: Config, w: World, i: Input)
    requires ActivePass(c, w, i) == ActivePass(d, w, i)
    ensures ReconcileCore(c, w, i) == ReconcileCore(d, w, i)
  {
    var a := i.manifest;
    if a.deletionTimestamp || i.globalPause || a.spec.paused {}
    else if BeingUpgraded(w.status, a) {}
  }

  lemma SameCore(c: Config, d: Config, w: World, i: Input)
    requires ReconcileCore(c, w.(status := w.persisted), i) == ReconcileCore(d, w.(status := w.persisted), i)
    requires c.hash == d.hash
    ensures Pass(c, w, i) == Pass(d, w, i)
  {
    if i.fetched {
      var w1 := PolicyStep(ReconcileCore(c, w.(status := w.persisted), i), i.manifest, i.ocm);
      assert PostStep(c, w1, i.manifest, i.ocm) == PostStep(d, w1, i.manifest, i.ocm);
    }
  }

  /** A pass does not depend on the order in which sub-reconcilers were registered. */
  lemma RegistrationOrderIrrelevant(c: Config, d: Config, w: World, i: Input)
    requires multiset(c.subs) == multiset(d.subs) && c.hash == d.hash
    ensures Pass(c, w, i) == Pass(d, w, i)
  {
    SortedIsOrderedPermutation(c.subs);
    SortedIsOrderedPermutation(d.subs);
    SortedUnique(Sorted(c.subs), Sorted(d.subs));
    SameActivePass(c, d, w.(status := w.persisted), i);
    SameSubsPass(c, d, w.(status := w.persisted), i);
    SameCore(c, d, w, i);
  }

  lemma SamePost(c: Config, d: Config, w: World, i: Input)
    requires c.hash == d.hash
    ensures PostStep(c, w, i.manifest, i.ocm) == PostStep(d, w, i.manifest, i.ocm)
  {
  }

  class AddonReconciler {
    var subReconcilers: seq<SubKind>
    const hash: Payload -> string

    // What the controller reaches through its clients.
    var persisted: Status
    var finalizer: bool
    var mapped: bool
    var log: seq<Event>

    constructor (subs: seq<SubKind>, hash: Payload -> string)
      ensures subReconcilers == subs && this.hash == hash
      ensures persisted == FreshStatus && !finalizer && !mapped && log == []
    {
      subReconcilers, this.hash := subs, hash;
      persisted, finalizer, mapped, log := FreshStatus, false, false, [];
    }

    ghost function View(addon: Addon): World
      reads this, addon
    {
      World(addon.status, persisted, finalizer, mapped, log)
    }

    // ----- Sub-reconcilers -----

    method ReconcileDeletion(addon: Addon, i: Input) returns (out: Outcome)
      modifies addon
      ensures (addon.status, out) == DeletionStatus(old(addon.status), i.manifest, i.ack, i.now, i.clock)
    {
      var a := i.manifest;
      if !a.markedForDeletion || addon.status.IsTrue(ReadyToBeDeleted) { return Zero; }
      if !a.spec.deleteAckRequired {
        addon.status := RemoveDeleteTimeout(addon.status);
        addon.status := ReportReadyToBeDeleted(addon.status, a.generation, true, i.now);
        return Zero;
      }
      addon.status := ReportReadyToBeDeleted(addon.status, a.generation, false, i.now);
      if i.ack == HandlerFailed { return Failed; }
      if i.ack == Acked {
        addon.status := RemoveDeleteTimeout(addon.status);
        addon.status := ReportReadyToBeDeleted(addon.status, a.generation, true, i.now);
        return Zero;
      }
      if DeletionTimedOutAt(addon.status, a, i.clock) {
        addon.status := ReportDeletionTimedOut(addon.status, a.generation, i.now);
        return Zero;
      }
      return RequeueAfter(DeleteTimeoutInterval(a));
    }

    method HandleInstalledCondition(addon: Addon, a: Manifest, o: OLMObservation, ref: Option<RichReference>, now: int)
      returns (out: Outcome)
      modifies addon
      ensures (addon.status, out) == InstalledStep(old(addon.status), a, o, ref, now)
    {
      if ref.None? {
        addon.status := ReportPending(addon.status, a.generation, MissingCSV, Fixed, now);
        if o.deleteConfigMap == ConfigMapFailed { return Failed; }
        if o.deleteConfigMap == ConfigMapLabelled {
          addon.status := ReportUninstalled(addon.status, a.generation, now);
          return Stop;
        }
        return Requeue;
      }
      var phase := GetCSVPhase(ref.value.conditions);
      if phase == PhaseSucceeded {
        if a.spec.installAckRequired {
          if o.instance.InstanceFailed? { return Failed; }
          if o.instance.installed == None || o.instance.installed == Some(CFalse) {
            addon.status := ReportPending(addon.status, a.generation, InstanceNotInstalled, Fixed, now);
            return Requeue;
          }
          if o.instance.installed != Some(CTrue) { return Requeue; }
        }
        addon.status := ReportInstalled(addon.status, a.generation, now);
      }
      return Zero;
    }

    method ObserveOperatorResource(addon: Addon, a: Manifest, o: OLMObservation, key: CSVKey, now: int) returns (out: Outcome)
      modifies this`mapped, addon
      ensures Sub(View(addon), out) == ObserveStep(old(View(addon)), a, o, key, now)
    {
      if !o.subscriptionReread { return Failed; }
      if o.installPlan == PlanFailed { return Failed; }
      if o.installPlan == RequiresApproval {
        addon.status := ReportPending(addon.status, a.generation, InstallPlanPending, Fixed, now);
        return Stop;
      }
      var changed := !mapped || o.routeTaken;
      mapped := true;
      if changed { return Requeue; }
      if o.operator.OperatorFailed? { return Failed; }
      if o.operator.OperatorNotFound? { return Requeue; }
      var ref := FindConcernedCSVReference(o.operator.refs, key);
      out := HandleInstalledCondition(addon, a, o, ref, now);
      if out != Zero { return; }
      var phase := PhaseNone;
      if ref.Some? { phase := GetCSVPhase(ref.value.conditions); }
      if UpgradeConcluded(addon.status, key, phase) {
        addon.status := ReportUpgradeSucceeded(addon.status, a.generation, now);
      }
      if phase != PhaseSucceeded {
        var text := if phase == PhaseFailed then "failed" else "unknown/pending";
        addon.status := ReportPending(addon.status, a.generation, UnreadyCSV, Detail(text), now);
        return Requeue;
      }
      return Zero;
    }

    method ReconcileOLM(addon: Addon, a: Manifest, o: OLMObservation, now: int) returns (out: Outcome)
      modifies this`mapped, addon
      ensures Sub(View(addon), out) == OLMStep(old(View(addon)), a, o, now)
    {
      var parsed := ParseInstall(a.spec.install);
      if parsed.InvalidInstall? {
        addon.status := ReportConfigurationError(addon.status, a.generation, parsed.text, now);
        return Stop;
      }
      if parsed.UnsupportedInstall? { return Stop; }
      var common := parsed.common;
      if !o.operatorGroupOk || !o.networkPolicyOk || o.catalogSource == ProbeFailed { return Failed; }
      if o.catalogSource.NotReady? {
        addon.status := ReportPending(addon.status, a.generation, UnreadyCatalogSource, Detail(o.catalogSource.text), now);
        return Requeue;
      }
      if common.additionalCatalogSources != [] {
        var valid := CheckAdditionalSources(common);
        if !valid {
          addon.status := ReportConfigurationError(addon.status, a.generation, "additionalCatalogSources", now);
          return Stop;
        }
        if o.additionalSources == ProbeFailed { return Failed; }
        if o.additionalSources.NotReady? {
          addon.status := ReportPending(addon.status, a.generation, UnreadyAdditionalCatalogSource, Detail(o.additionalSources.text), now);
          return Requeue;
        }
      }
      if o.subscription == SubscriptionFailed { return Failed; }
      if o.subscription.installedCSV == "" || o.subscription.currentCSV == "" {
        addon.status := Unavailable(addon.status, a.generation, UnreadyCSV, CSVNotLinked, PhaseError, now);
        return Requeue;
      }
      var key := CSVKey(common.namespace, o.subscription.currentCSV);
      out := ObserveOperatorResource(addon, a, o, key, now);
      if out == Zero { addon.status := addon.status.(lastAvailableCSV := KeyText(key)); }
    }

    static method CheckAdditionalSources(common: OLMCommon) returns (valid: bool)
      ensures valid == AdditionalSourcesValid(common)
    {
      var xs := common.additionalCatalogSources;
      for k := 0 to |xs|
        invariant forall x :: x in xs[..k] ==> x.name != "" && x.image != ""
      {
        if xs[k].image == "" || xs[k].name == "" { return false; }
      }
      assert xs == xs[..|xs|];
      return true;
    }

    static method ReconcileProbe(addon: Addon, a: Manifest, p: Probe, reason: Reason, retry: Outcome, now: int) returns (out: Outcome)
      modifies addon
      ensures (addon.status, out) == ProbeStep(old(addon.status), a, p, reason, retry, now)
    {
      if p == ProbeFailed { return Failed; }
      if p.NotReady? { addon.status := ReportPending(addon.status, a.generation, reason, Detail(p.text), now); }
      if p == ProbeDone { return Zero; }
      return retry;
    }

    static method ReconcileInstance(addon: Addon, a: Manifest, ok: bool, now: int) returns (out: Outcome)
      modifies addon
      ensures (addon.status, out) == InstanceStep(old(addon.status), a, ok, now)
    {
      var parsed := ParseInstall(a.spec.install);
      if parsed.InvalidInstall? {
        addon.status := ReportConfigurationError(addon.status, a.generation, parsed.text, now);
      }
      if !parsed.ValidInstall? || !ok { return Failed; }
      return Zero;
    }

    method RunSub(k: SubKind, addon: Addon, i: Input) returns (out: Outcome)
      modifies this`mapped, this`log, addon
      ensures Sub(View(addon), out) == SubStep(k, old(View(addon)), i)
    {
      log := log + [Ran(k)];
      var a := i.manifest;
      match k
      case DeletionSub => out := ReconcileDeletion(addon, i);
      case NamespaceSub => out := ReconcileProbe(addon, a, i.namespaces, UnreadyNamespaces, RequeueAfter(DefaultRetryAfter), i.now);
      case PackageSub => out := ReconcileProbe(addon, a, i.package, UnreadyClusterPackageTemplate, Zero, i.now);
      case SecretSub => out := ReconcileProbe(addon, a, i.secrets, MissingSecretForPropagation, RequeueAfter(DefaultRetryAfter), i.now);
      case InstanceSub => out := ReconcileInstance(addon, a, i.instanceOk, i.now);
      case OLMSub => out := ReconcileOLM(addon, a, i.olm, i.now);
      case FederationSub => out := ReconcileProbe(addon, a, i.federation, UnreadyMonitoringFederation, RequeueAfter(DefaultRetryAfter), i.now);
      case MonitoringStackSub => out := ReconcileProbe(addon, a, i.monitoringStack, UnreadyMonitoringStack, Requeue, i.now);
    }

    // ----- The pass -----

    method GetOrderedSubReconcilers()
      modifies this`subReconcilers
      ensures subReconcilers == Sorted(old(subReconcilers))
    {
      subReconcilers := SortSlice(subReconcilers);
    }

    method SetAddonCRStatus(addon: Addon, i: Input)
      modifies this`subReconcilers, this`log, addon
      ensures subReconcilers == Sorted(old(subReconcilers))
      ensures View(addon) == Conclude(subReconcilers, old(View(addon)), i)
    {
      GetOrderedSubReconcilers();
      for k := 0 to |subReconcilers|
        invariant View(addon) == old(View(addon))
        invariant PackageSub in subReconcilers[..k] ==> i.packageCheck == ProbeDone
      {
        if subReconcilers[k] == PackageSub {
          assert PackageSub in subReconcilers;
          if i.packageCheck == ProbeFailed { return; }
          if i.packageCheck != ProbeDone {
            addon.status := ReportPending(addon.status, i.manifest.generation, UnreadyClusterPackageTemplate, Fixed, i.now);
            return;
          }
        }
      }
      assert subReconcilers == subReconcilers[..|subReconcilers|];
      addon.status := ReportReadiness(addon.status, i.manifest.generation, i.manifest.spec.version, i.now);
      log := log + [BecameReady(i.manifest.spec.version)];
    }

    method RunSubReconcilers(addon: Addon, i: Input)
      modifies this`subReconcilers, this`mapped, this`log, addon
      ensures subReconcilers == Sorted(old(subReconcilers))
      ensures View(addon) == SubsPass(Config(old(subReconcilers), hash), old(View(addon)), i)
    {
      GetOrderedSubReconcilers();
      ghost var ks := subReconcilers;
      SortedTwice(old(subReconcilers));
      for k := 0 to |subReconcilers|
        invariant subReconcilers == ks
        invariant RunSubs(ks, old(View(addon)), i) == RunSubs(ks[k..], View(addon), i)
      {
        assert ks[k..][1..] == ks[k + 1..];
        var out := RunSub(subReconcilers[k], addon, i);
        if out != Zero { return; }
      }
      SetAddonCRStatus(addon, i);
    }

    method HandleAddonCRDeletion(addon: Addon, i: Input)
      modifies this`persisted, this`mapped, this`finalizer, this`log, addon
      ensures View(addon) == DeletionPass(old(View(addon)), i)
    {
      if !finalizer { return; }
      addon.status := ReportTermination(addon.status, i.manifest.generation, i.now);
      if !i.terminationSaved { return; }
      persisted := addon.status;
      if i.template != TemplateGone { return; }
      mapped := false;
      log := log + [TemplateSeenGone, MappingFreed];
      if !i.finalizerRemoved { return; }
      finalizer := false;
      log := log + [FinalizerDropped];
    }

    /** The update that adds the finalizer may hand back the persisted status. */
    method AddFinalizer(addon: Addon, i: Input) returns (out: Outcome)
      modifies this`finalizer, addon
      ensures Sub(View(addon), out) == EnsureFinalizer(old(View(addon)), i)
    {
      if finalizer { return Zero; }
      if !i.finalizerAdded { return Failed; }
      finalizer := true;
      if i.updateResets { addon.status := persisted; }
      return Zero;
    }

    method ReconcileAddon(addon: Addon, i: Input)
      modifies this, addon
      ensures multiset(subReconcilers) == multiset(old(subReconcilers))
      ensures View(addon) == ReconcileCore(Config(old(subReconcilers), hash), old(View(addon)), i)
    {
      var a := i.manifest;
      if a.deletionTimestamp {
        HandleAddonCRDeletion(addon, i);
        return;
      }
      if i.globalPause {
        addon.status := ReportPause(addon.status, a.generation, AddonOperatorPaused, i.now);
        return;
      }
      if a.spec.paused {
        addon.status := ReportPause(addon.status, a.generation, AddonPaused, i.now);
        return;
      }
      addon.status := RemovePause(addon.status, a.generation);
      if BeingUpgraded(addon.status, a) {
        addon.status := ReportUpgradeStarted(addon.status, a.generation, i.now);
        return;
      }
      if !addon.status.Has(Installed) {
        addon.status := ReportNotYetInstalled(addon.status, a.generation, i.now);
      }
      var out := AddFinalizer(addon, i);
      if out != Zero { return; }
      SortedIsOrderedPermutation(subReconcilers);
      RunSubReconcilers(addon, i);
    }

    // ----- Reporting -----

    method ReportUpgradeStartedToOCM(addon: Addon, a: Manifest, accepted: bool)
      requires a.spec.upgradePolicy.Some?
      modifies this`log, addon
      ensures View(addon) == PatchStarted(old(View(addon)), a, a.spec.upgradePolicy.value, accepted)
    {
      if !accepted { return; }
      log := log + [Started(a.spec.upgradePolicy.value, a.spec.version)];
      addon.status := Recorded(addon.status, a, a.spec.upgradePolicy.value, ValueStarted);
    }

    method ReportUpgradeCompletedToOCM(addon: Addon, a: Manifest, accepted: bool)
      requires a.spec.upgradePolicy.Some?
      modifies this`log, addon
      ensures View(addon) == PatchCompleted(old(View(addon)), a, a.spec.upgradePolicy.value, accepted)
    {
      if !accepted { return; }
      log := log + [Completed(a.spec.upgradePolicy.value, a.spec.version)];
      addon.status := Recorded(addon.status, a, a.spec.upgradePolicy.value, ValueCompleted);
    }

    method HandleUpgradePolicyStatusReporting(addon: Addon, a: Manifest, o: OCMObservation)
      modifies this`log, addon
      ensures View(addon) == PolicyStep(old(View(addon)), a, o)
    {
      if !RequiresReporting(addon.status, a) || !o.policyEnabled { return; }
      if !o.client { return; }
      log := log + [PolicyRead(a.spec.upgradePolicy.value)];
      if o.policyState.None? { return; }
      var state := o.policyState.value;
      if addon.status.upgradePolicy.None? {
        ReportUpgradeStartedToOCM(addon, a, o.startedAccepted);
        return;
      }
      var recorded := addon.status.upgradePolicy.value.version;
      if recorded == "" && (state == StateCompleted || state == StatePending) {
        addon.status := Recorded(addon.status, a, a.spec.upgradePolicy.value, ValueCompleted);
        return;
      }
      if recorded != a.spec.version {
        ReportUpgradeStartedToOCM(addon, a, o.startedAccepted);
        return;
      }
      if addon.status.IsTrue(Available) {
        if state == StateScheduled {
          ReportUpgradeStartedToOCM(addon, a, o.startedAccepted);
          if !o.startedAccepted { return; }
        }
        ReportUpgradeCompletedToOCM(addon, a, o.completedAccepted);
      }
    }

    method HandleOCMAddOnStatusReporting(addon: Addon, a: Manifest, o: OCMObservation)
      modifies this`log, addon
      ensures View(addon) == PostStep(Config(subReconcilers, hash), old(View(addon)), a, o)
    {
      var conditions := MapToAddonStatusConditions(addon.status.conditions);
      var payload := Payload(a.name, a.spec.correlationID, a.spec.version, conditions);
      var differs := addon.status.reportedHash.None? || addon.status.reportedHash.value.hash != hash(payload);
      if !o.statusEnabled || !differs { return; }
      if !o.client || !o.postAccepted { return; }
      log := log + [Posted(payload)];
      addon.status := addon.status.(reportedHash := Some(ReportedHash(hash(payload), a.generation)));
    }

    method SyncWithExternalAPIs(addon: Addon, i: Input)
      modifies this`log, addon
      ensures View(addon) ==
        PostStep(Config(subReconcilers, hash), PolicyStep(old(View(addon)), i.manifest, i.ocm), i.manifest, i.ocm)
    {
      HandleUpgradePolicyStatusReporting(addon, i.manifest, i.ocm);
      HandleOCMAddOnStatusReporting(addon, i.manifest, i.ocm);
    }

    /** One entry of the work queue: read, reconcile, report, write the status back. */
    method Reconcile(i: Input) returns (addon: Addon)
      modifies this
      ensures fresh(addon) && multiset(subReconcilers) == multiset(old(subReconcilers))
      ensures View(addon) == Pass(Config(old(subReconcilers), hash), World(old(persisted), old(persisted), old(finalizer), old(mapped), old(log)), i)
    {
      addon := new Addon(persisted);
      if !i.fetched { return; }
      ghost var cfg := Config(subReconcilers, hash);
      ghost var w0 := View(addon);
      ReconcileAddon(addon, i);
      ghost var w1 := View(addon);
      assert w1 == ReconcileCore(cfg, w0, i);
      SyncWithExternalAPIs(addon, i);
      SamePost(Config(subReconcilers, hash), cfg, PolicyStep(w1, i.manifest, i.ocm), i);
      ghost var w2 := View(addon);
      assert w2 == PostStep(cfg, PolicyStep(w1, i.manifest, i.ocm), i.manifest, i.ocm);
      addon.status := addon.status.(observedVersion := i.manifest.spec.version);
      if i.statusSaved { persisted := addon.status; }
    }
  }
}
