/** What a condition says about itself: in every reachable status each entry has a reason that goes with its type and
    status, and the observed generation is that of the manifest. */
module Reasons {
  import opened Conditions
  import opened AddonModel
  import opened Lifecycle
  import opened StepProofs
  import opened PassProofs
  import opened Runs
  import opened RunReports
  import opened Availability
  import opened Decisions

  /** The statuses and reasons that belong together. */
  predicate FitsAs(c: Condition) {
    match c.ctype
    case Available =>
      if c.reason == FullyReconciled then c.status == CTrue
      else c.status == CFalse && c.reason in {Terminating, ConfigError, UnreadyCatalogSource, UnreadyAdditionalCatalogSource,
        UnreadyNamespaces, UnreadyMonitoringFederation, UnreadyMonitoringStack, UnreadyClusterPackageTemplate, UnreadyCSV,
        MissingCSV, MissingSecretForPropagation, InstanceNotInstalled, InstallPlanPending}
    case Installed => (c.status == CTrue && c.reason == AddonInstalled) || (c.status == CFalse && c.reason == AddonNotInstalled)
    case UpgradeStarted => c.status == CTrue && c.reason == AddonUpgradeStarted
    case UpgradeSucceeded => c.status == CTrue && c.reason == AddonUpgradeSucceeded
    case ReadyToBeDeleted =>
      (c.status == CTrue && c.reason == AddonReadyToBeDeleted) || (c.status == CFalse && c.reason == AddonNotReadyToBeDeleted)
    case DeleteTimeout => c.status == CTrue && c.reason == DeletionTimedOut
    case Paused => c.status == CTrue && c.reason in {AddonPaused, AddonOperatorPaused}
  }

  predicate AllFit(cs: seq<Condition>) { cs == [] || (FitsAs(cs[0]) && AllFit(cs[1..])) }

  lemma {:induction false} AllFitMeans(cs: seq<Condition>)
    ensures AllFit(cs) <==> forall c :: c in cs ==> FitsAs(c)
  {
    if cs != [] {
      AllFitMeans(cs[1..]);
      assert cs == [cs[0]] + cs[1..];
    }
  }

  predicate Fits(s: Status) { AllFit(s.conditions) }

  /** Entries keep fitting, and the observed generation is the old one or that of the manifest. */
  predicate Keeps(s: Status, r: Status, g: int) {
    (Fits(s) ==> Fits(r)) && (r.observedGeneration == s.observedGeneration || r.observedGeneration == g)
  }

  lemma KeepsTwice(s: Status, m: Status, r: Status, g: int)
    requires Keeps(s, m, g) && Keeps(m, r, g)
    ensures Keeps(s, r, g)
  {
  }

  // ----- Writers -----

  lemma {:induction false} SetFits(cs: seq<Condition>, c: Condition, now: int)
    requires FitsAs(c) && AllFit(cs)
    ensures AllFit(SetCondition(cs, c, now))
  {
    var r := SetCondition(cs, c, now);
    if cs == [] { assert r == [c.(transition := now)] && r[1..] == []; }
    else if cs[0].ctype == c.ctype { assert r[1..] == cs[1..]; }
    else {
      SetFits(cs[1..], c, now);
      assert r[1..] == SetCondition(cs[1..], c, now);
    }
  }

  lemma {:induction false} RemoveFits(cs: seq<Condition>, t: ConditionType)
    requires AllFit(cs)
    ensures AllFit(RemoveCondition(cs, t))
  {
    if cs != [] {
      RemoveFits(cs[1..], t);
      if cs[0].ctype != t { assert RemoveCondition(cs, t)[1..] == RemoveCondition(cs[1..], t); }
    }
  }

  lemma WriteKeeps(s: Status, g: int, c: Condition, now: int)
    requires FitsAs(c)
    ensures Keeps(s, Write(s, g, c, now), g) && Write(s, g, c, now).observedGeneration == g
  {
    if Fits(s) { SetFits(s.conditions, c, now); }
  }

  lemma RemovalKeeps(s: Status, t: ConditionType, g: int)
    ensures Keeps(s, s.(conditions := RemoveCondition(s.conditions, t)), g)
  {
    if Fits(s) { RemoveFits(s.conditions, t); }
  }

  lemma UnavailableKeeps(s: Status, g: int, reason: Reason, message: Message, phase: Phase, now: int)
    requires FitsAs(Condition(Available, CFalse, reason, message, g, 0))
    ensures Keeps(s, Unavailable(s, g, reason, message, phase, now), g) && Unavailable(s, g, reason, message, phase, now).observedGeneration == g
  {
    WriteKeeps(s, g, Condition(Available, CFalse, reason, message, g, 0), now);
  }

  lemma ConfigErrorKeeps(s: Status, g: int, text: string, now: int)
    ensures Keeps(s, ReportConfigurationError(s, g, text, now), g)
  {
    WriteKeeps(s, g, Condition(Available, CFalse, ConfigError, Detail(text), 0, 0), now);
  }

  lemma UninstalledKeeps(s: Status, g: int, now: int)
    ensures Keeps(s, ReportUninstalled(s, g, now), g)
  {
    WriteKeeps(s, g, Condition(Installed, CFalse, AddonNotInstalled, Uninstalled, g, 0), now);
  }

  lemma UpgradeSucceededKeeps(s: Status, g: int, now: int)
    ensures Keeps(s, ReportUpgradeSucceeded(s, g, now), g)
  {
    var m := s.(conditions := RemoveCondition(s.conditions, UpgradeStarted));
    RemovalKeeps(s, UpgradeStarted, g);
    WriteKeeps(m, g, Condition(UpgradeSucceeded, CTrue, AddonUpgradeSucceeded, Fixed, g, 0), now);
    if s.Has(UpgradeStarted) { KeepsTwice(s, m, ReportUpgradeSucceeded(s, g, now), g); }
  }

  lemma UpgradeStartedKeeps(s: Status, g: int, now: int)
    ensures Keeps(s, ReportUpgradeStarted(s, g, now), g) && ReportUpgradeStarted(s, g, now).observedGeneration == g
  {
    var m := if s.Has(UpgradeSucceeded) then s.(conditions := RemoveCondition(s.conditions, UpgradeSucceeded)) else s;
    RemovalKeeps(s, UpgradeSucceeded, g);
    WriteKeeps(m, g, Condition(UpgradeStarted, CTrue, AddonUpgradeStarted, Fixed, g, 0), now);
    KeepsTwice(s, m, ReportUpgradeStarted(s, g, now), g);
  }

  lemma ReadyToBeDeletedKeeps(s: Status, g: int, ready: bool, now: int)
    ensures Keeps(s, ReportReadyToBeDeleted(s, g, ready, now), g)
  {
    WriteKeeps(s, g, if ready then Condition(ReadyToBeDeleted, CTrue, AddonReadyToBeDeleted, Fixed, g, 0)
                     else Condition(ReadyToBeDeleted, CFalse, AddonNotReadyToBeDeleted, Fixed, g, 0), now);
  }

  lemma AcknowledgeKeeps(s: Status, a: Manifest, now: int)
    ensures Keeps(s, AcknowledgeDeletion(s, a, now), a.generation)
  {
    RemovalKeeps(s, DeleteTimeout, a.generation);
    ReadyToBeDeletedKeeps(RemoveDeleteTimeout(s), a.generation, true, now);
    KeepsTwice(s, RemoveDeleteTimeout(s), AcknowledgeDeletion(s, a, now), a.generation);
  }

  lemma PreparedKeeps(s: Status, i: Input)
    ensures Keeps(s, Prepared(s, i), i.manifest.generation) && Prepared(s, i).observedGeneration == i.manifest.generation
  {
    var (g, m) := (i.manifest.generation, RemovePause(s, i.manifest.generation));
    RemovalKeeps(s, Paused, g);
    WriteKeeps(m, g, Condition(Installed, CFalse, AddonNotInstalled, NotYetInstalled, g, 0), i.now);
    KeepsTwice(s, m, Prepared(s, i), g);
  }

  // ----- Sub-reconcilers -----

  lemma DeletionKeeps(s: Status, i: Input)
    ensures Keeps(s, DeletionStatus(s, i.manifest, i.ack, i.now, i.clock).0, i.manifest.generation)
  {
    var (a, r) := (i.manifest, DeletionStatus(s, i.manifest, i.ack, i.now, i.clock).0);
    if !a.markedForDeletion || s.IsTrue(ReadyToBeDeleted) {
      assert r == s;
    } else if !a.spec.deleteAckRequired {
      assert r == AcknowledgeDeletion(s, a, i.now);
      AcknowledgeKeeps(s, a, i.now);
    } else {
      NeededKeeps(s, i);
    }
  }

  lemma NeededKeeps(s: Status, i: Input)
    requires NeedsAnswer(s, i)
    ensures Keeps(s, DeletionStatus(s, i.manifest, i.ack, i.now, i.clock).0, i.manifest.generation)
  {
    var (a, r) := (i.manifest, DeletionStatus(s, i.manifest, i.ack, i.now, i.clock).0);
    var waiting := ReportReadyToBeDeleted(s, a.generation, false, i.now);
    ReadyToBeDeletedKeeps(s, a.generation, false, i.now);
    if i.ack == Acked {
      assert r == AcknowledgeDeletion(waiting, a, i.now);
      WaitingKeeps(waiting, s, i);
    } else if i.ack == NotAcked && DeletionTimedOutAt(waiting, a, i.clock) {
      assert r == ReportDeletionTimedOut(waiting, a.generation, i.now);
      WaitingKeeps(waiting, s, i);
    } else {
      assert r == waiting;
    }
  }

  lemma WaitingKeeps(waiting: Status, s: Status, i: Input)
    requires Keeps(s, waiting, i.manifest.generation)
    ensures Keeps(s, AcknowledgeDeletion(waiting, i.manifest, i.now), i.manifest.generation)
    ensures Keeps(s, ReportDeletionTimedOut(waiting, i.manifest.generation, i.now), i.manifest.generation)
  {
    var g := i.manifest.generation;
    AcknowledgeKeeps(waiting, i.manifest, i.now);
    KeepsTwice(s, waiting, AcknowledgeDeletion(waiting, i.manifest, i.now), g);
    WriteKeeps(waiting, g, Condition(DeleteTimeout, CTrue, DeletionTimedOut, Fixed, g, 0), i.now);
    KeepsTwice(s, waiting, ReportDeletionTimedOut(waiting, g, i.now), g);
  }

  lemma MissingKeeps(s: Status, a: Manifest, now: int)
    ensures var missing := ReportPending(s, a.generation, MissingCSV, Fixed, now);
      Keeps(s, missing, a.generation) && Keeps(s, ReportUninstalled(missing, a.generation, now), a.generation)
  {
    var g := a.generation;
    var missing := ReportPending(s, g, MissingCSV, Fixed, now);
    UnavailableKeeps(s, g, MissingCSV, Fixed, PhasePending, now);
    UninstalledKeeps(missing, g, now);
    KeepsTwice(s, missing, ReportUninstalled(missing, g, now), g);
  }

  lemma SucceededKeeps(s: Status, a: Manifest, o: OLMObservation, ref: RichReference, now: int)
    requires PhaseOf(ref.conditions) == PhaseSucceeded
    ensures Keeps(s, InstalledStep(s, a, o, Some(ref), now).0, a.generation)
  {
    var g := a.generation;
    if !a.spec.installAckRequired {
      WriteKeeps(s, g, Condition(Installed, CTrue, AddonInstalled, Fixed, g, 0), now);
    } else {
      match o.instance
      case InstanceFailed =>
      case InstanceFound(Some(CTrue)) => WriteKeeps(s, g, Condition(Installed, CTrue, AddonInstalled, Fixed, g, 0), now);
      case InstanceFound(Some(CUnknown)) =>
      case InstanceFound(_) => UnavailableKeeps(s, g, InstanceNotInstalled, Fixed, PhasePending, now);
    }
  }

  lemma InstalledStepKeeps(s: Status, a: Manifest, o: OLMObservation, ref: Option<RichReference>, now: int)
    ensures Keeps(s, InstalledStep(s, a, o, ref, now).0, a.generation)
  {
    var (g, r) := (a.generation, InstalledStep(s, a, o, ref, now).0);
    if ref.None? {
      MissingKeeps(s, a, now);
      var missing := ReportPending(s, g, MissingCSV, Fixed, now);
      if o.deleteConfigMap == ConfigMapLabelled { assert r == ReportUninstalled(missing, g, now); } else { assert r == missing; }
    } else if PhaseOf(ref.value.conditions) != PhaseSucceeded {
      assert r == s;
    } else {
      SucceededKeeps(s, a, o, ref.value, now);
    }
  }

  lemma PhaseStepKeeps(s: Status, a: Manifest, key: CSVKey, phase: CSVPhase, now: int)
    ensures Keeps(s, PhaseStep(s, a, key, phase, now).0, a.generation)
  {
    var g := a.generation;
    UpgradeSucceededKeeps(s, g, now);
    var m := if UpgradeConcluded(s, key, phase) then ReportUpgradeSucceeded(s, g, now) else s;
    var message := Detail(if phase == PhaseFailed then "failed" else "unknown/pending");
    UnavailableKeeps(m, g, UnreadyCSV, message, PhasePending, now);
    KeepsTwice(s, m, ReportPending(m, g, UnreadyCSV, message, now), g);
  }

  lemma CSVStepKeeps(s: Status, a: Manifest, o: OLMObservation, key: CSVKey, refs: seq<RichReference>, now: int)
    ensures Keeps(s, CSVStep(s, a, o, key, refs, now).0, a.generation)
  {
    var ref := FindCSVReference(refs, key);
    var (m, out) := InstalledStep(s, a, o, ref, now);
    InstalledStepKeeps(s, a, o, ref, now);
    if out == Zero {
      var phase := if ref.None? then PhaseNone else PhaseOf(ref.value.conditions);
      PhaseStepKeeps(m, a, key, phase, now);
      KeepsTwice(s, m, PhaseStep(m, a, key, phase, now).0, a.generation);
    }
  }

  lemma ObserveKeeps(w: World, a: Manifest, o: OLMObservation, key: CSVKey, now: int)
    ensures Keeps(w.status, ObserveStep(w, a, o, key, now).w.status, a.generation)
  {
    var r := ObserveStep(w, a, o, key, now);
    if r.w.status == w.status {
    } else if o.installPlan == RequiresApproval {
      UnavailableKeeps(w.status, a.generation, InstallPlanPending, Fixed, PhasePending, now);
    } else {
      assert r.w.status == CSVStep(w.status, a, o, key, o.operator.refs, now).0;
      CSVStepKeeps(w.status, a, o, key, o.operator.refs, now);
    }
  }

  lemma SubscriptionKeeps(w: World, a: Manifest, common: OLMCommon, o: OLMObservation, now: int)
    ensures Keeps(w.status, SubscriptionStep(w, a, common, o, now).w.status, a.generation)
  {
    UnavailableKeeps(w.status, a.generation, UnreadyCSV, CSVNotLinked, PhaseError, now);
    if o.subscription.SubscriptionSeen? { ObserveKeeps(w, a, o, CSVKey(common.namespace, o.subscription.currentCSV), now); }
  }

  lemma OLMKeeps(w: World, a: Manifest, o: OLMObservation, now: int)
    ensures Keeps(w.status, OLMStep(w, a, o, now).w.status, a.generation)
  {
    var (g, r) := (a.generation, OLMStep(w, a, o, now));
    ParseExact(a.spec.install);
    if ParseInstall(a.spec.install).InvalidInstall? {
      ConfigErrorKeeps(w.status, g, ParseInstall(a.spec.install).text, now);
    } else if SourcesUp(a, o) {
      assert r == SubscriptionStep(w, a, Selected(a.spec.install).value, o, now);
      SubscriptionKeeps(w, a, Selected(a.spec.install).value, o, now);
    } else if !MainSourceUp(a, o) {
      if o.catalogSource.NotReady? { UnavailableKeeps(w.status, g, UnreadyCatalogSource, Detail(o.catalogSource.text), PhasePending, now); }
    } else if !Named(Selected(a.spec.install).value.additionalCatalogSources) {
      ConfigErrorKeeps(w.status, g, "additionalCatalogSources", now);
    } else if o.additionalSources.NotReady? {
      UnavailableKeeps(w.status, g, UnreadyAdditionalCatalogSource, Detail(o.additionalSources.text), PhasePending, now);
    }
  }

  lemma ProbeKeeps(s: Status, a: Manifest, p: Probe, reason: Reason, retry: Outcome, now: int)
    requires FitsAs(Condition(Available, CFalse, reason, NoMessage, 0, 0))
    ensures Keeps(s, ProbeStep(s, a, p, reason, retry, now).0, a.generation)
  {
    if p.NotReady? { UnavailableKeeps(s, a.generation, reason, Detail(p.text), PhasePending, now); }
  }

  lemma SubKeeps(k: SubKind, w: World, i: Input)
    ensures Keeps(w.status, SubStep(k, w, i).w.status, i.manifest.generation)
  {
    var (s, a) := (w.status, i.manifest);
    match k
    case OLMSub => OLMKeeps(w.(log := w.log + [Ran(k)]), a, i.olm, i.now);
    case DeletionSub => DeletionKeeps(s, i);
    case NamespaceSub => ProbeKeeps(s, a, i.namespaces, UnreadyNamespaces, RequeueAfter(DefaultRetryAfter), i.now);
    case PackageSub => ProbeKeeps(s, a, i.package, UnreadyClusterPackageTemplate, Zero, i.now);
    case SecretSub => ProbeKeeps(s, a, i.secrets, MissingSecretForPropagation, RequeueAfter(DefaultRetryAfter), i.now);
    case InstanceSub =>
      if ParseInstall(a.spec.install).InvalidInstall? { ConfigErrorKeeps(s, a.generation, ParseInstall(a.spec.install).text, i.now); }
    case FederationSub => ProbeKeeps(s, a, i.federation, UnreadyMonitoringFederation, RequeueAfter(DefaultRetryAfter), i.now);
    case MonitoringStackSub => ProbeKeeps(s, a, i.monitoringStack, UnreadyMonitoringStack, Requeue, i.now);
  }

  lemma {:induction false} SubsKeep(ks: seq<SubKind>, w: World, i: Input)
    ensures Keeps(w.status, RunSubs(ks, w, i).w.status, i.manifest.generation)
  {
    if ks != [] {
      SubKeeps(ks[0], w, i);
      var m := SubStep(ks[0], w, i);
      if m.outcome == Zero {
        SubsKeep(ks[1..], m.w, i);
        KeepsTwice(w.status, m.w.status, RunSubs(ks[1..], m.w, i).w.status, i.manifest.generation);
      }
    }
  }

  lemma ConcludeKeeps(ks: seq<SubKind>, w: World, i: Input)
    ensures Keeps(w.status, Conclude(ks, w, i).status, i.manifest.generation)
  {
    var g := i.manifest.generation;
    UnavailableKeeps(w.status, g, UnreadyClusterPackageTemplate, Fixed, PhasePending, i.now);
    WriteKeeps(w.status, g, Condition(Available, CTrue, FullyReconciled, Fixed, g, 0), i.now);
  }

  lemma SubsPassKeeps(cfg: Config, w: World, i: Input)
    ensures Keeps(w.status, SubsPass(cfg, w, i).status, i.manifest.generation)
  {
    var ks := Sorted(cfg.subs);
    var m := RunSubs(ks, w, i);
    SubsKeep(ks, w, i);
    ConcludeKeeps(ks, m.w, i);
    KeepsTwice(w.status, m.w.status, Conclude(ks, m.w, i).status, i.manifest.generation);
  }

  // ----- Passes and runs -----

  /** The observed generation after a pass. */
  predicate GenerationAfter(w: World, i: Input, r: Status) {
    var (g, before) := (i.manifest.generation, w.persisted.observedGeneration);
    if i.manifest.deletionTimestamp && !w.finalizer then r.observedGeneration == before
    else if Active(i) && ResetByUpdate(w, i) then r.observedGeneration == before || r.observedGeneration == g
    else r.observedGeneration == g
  }

  lemma ActiveCoreKeeps(cfg: Config, w: World, i: Input)
    requires Active(i)
    ensures var r := ReconcileCore(cfg, w.(status := w.persisted), i).status;
      Keeps(w.persisted, r, i.manifest.generation) && GenerationAfter(w, i, r)
  {
    var (g, r) := (i.manifest.generation, ReconcileCore(cfg, w.(status := w.persisted), i).status);
    SubsReachedIff(w, i);
    PreparedKeeps(w.persisted, i);
    if SubsStart(w, i).Some? {
      var u := SubsStart(w, i).value;
      StartReached(cfg, w, i);
      SubsPassKeeps(cfg, u, i);
      KeepsTwice(w.persisted, u.status, r, g);
    } else if VersionsDiffer(w.persisted, i.manifest) {
      var m := RemovePause(w.persisted, g);
      assert r == ReportUpgradeStarted(m, g, i.now);
      RemovalKeeps(w.persisted, Paused, g);
      UpgradeStartedKeeps(m, g, i.now);
      KeepsTwice(w.persisted, m, r, g);
    } else {
      assert r == Prepared(w.persisted, i);
    }
  }

  lemma HinderedCoreKeeps(cfg: Config, w: World, i: Input)
    requires i.fetched && !Active(i)
    ensures var r := ReconcileCore(cfg, w.(status := w.persisted), i).status;
      Keeps(w.persisted, r, i.manifest.generation) && GenerationAfter(w, i, r)
  {
    var (s, g, r) := (w.persisted, i.manifest.generation, ReconcileCore(cfg, w.(status := w.persisted), i).status);
    if i.manifest.deletionTimestamp {
      UnavailableKeeps(s, g, Terminating, NoMessage, PhaseTerminating, i.now);
      if w.finalizer { assert r == ReportTermination(s, g, i.now); }
    } else {
      var reason := if i.globalPause then AddonOperatorPaused else AddonPaused;
      assert r == ReportPause(s, g, reason, i.now);
      WriteKeeps(s, g, Condition(Paused, CTrue, reason, NoMessage, g, 0), i.now);
    }
  }

  /** A saved pass stamps the status with the generation it has dealt with, unless it had nothing to do or the update
      that adds the finalizer undid the stamp. */
  lemma GenerationExact(cfg: Config, w: World, i: Input)
    requires i.fetched && i.statusSaved
    ensures GenerationAfter(w, i, Pass(cfg, w, i).persisted)
  {
    if Active(i) { ActiveCoreKeeps(cfg, w, i); } else { HinderedCoreKeeps(cfg, w, i); }
    ReportingKeeps(cfg, ReconcileCore(cfg, w.(status := w.persisted), i), i.manifest, i.ocm);
  }

  lemma PassFits(cfg: Config, w: World, i: Input)
    requires Fits(w.persisted)
    ensures Fits(Pass(cfg, w, i).persisted)
  {
    if i.fetched {
      if Active(i) { ActiveCoreKeeps(cfg, w, i); } else { HinderedCoreKeeps(cfg, w, i); }
      var c := ReconcileCore(cfg, w.(status := w.persisted), i);
      ReportingKeeps(cfg, c, i.manifest, i.ocm);
      CorePersisted(cfg, w.(status := w.persisted), i);
      UnavailableKeeps(w.persisted, i.manifest.generation, Terminating, NoMessage, PhaseTerminating, i.now);
    }
  }

  /** In every reachable persisted status each condition has a status and a reason that belong to its type and to each
      other: nothing is ever unknown, and no reason stands with the wrong status. */
  lemma {:induction false} ReasonsAlwaysFit(cfg: Config, w: World, inputs: seq<Input>)
    requires Fits(w.persisted)
    ensures Fits(Run(cfg, w, inputs).persisted)
  {
    if inputs != [] {
      ReasonsAlwaysFit(cfg, w, inputs[..|inputs| - 1]);
      PassFits(cfg, Run(cfg, w, inputs[..|inputs| - 1]), inputs[|inputs| - 1]);
    }
  }

  lemma FreshFits()
    ensures Fits(FreshStatus)
  {
  }
}
