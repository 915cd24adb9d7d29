/** Progress: when every answer is good, a bounded number of saved passes makes the Addon ready. */
module Progress {
  import opened Conditions
  import opened AddonModel
  import opened Lifecycle
  import opened StepProofs
  import opened PassProofs
  import opened Runs

  // ----- Good answers -----

  /** OLM has everything in place: sources connected, CSV linked, plan approved, operator found with a succeeded CSV. */
  predicate GoodOLM(a: Manifest, o: OLMObservation) {
    && ParseInstall(a.spec.install).ValidInstall? && AdditionalSourcesValid(ParseInstall(a.spec.install).common)
    && o.operatorGroupOk && o.networkPolicyOk && o.catalogSource == ProbeDone && o.additionalSources == ProbeDone
    && o.subscription.SubscriptionSeen? && o.subscription.installedCSV != "" && o.subscription.currentCSV != ""
    && o.subscriptionReread && o.installPlan in {AutomaticApproval, PlanApproved}
    && !o.routeTaken && GoodCSV(a, o)
  }

  predicate GoodCSV(a: Manifest, o: OLMObservation)
    requires ParseInstall(a.spec.install).ValidInstall? && o.subscription.SubscriptionSeen?
  {
    var key := CSVKey(ParseInstall(a.spec.install).common.namespace, o.subscription.currentCSV);
    && o.operator.OperatorFound? && FindCSVReference(o.operator.refs, key).Some?
    && PhaseOf(FindCSVReference(o.operator.refs, key).value.conditions) == PhaseSucceeded
    && (a.spec.installAckRequired ==> o.instance == InstanceFound(Some(CTrue)))
  }

  /** A saved pass over the manifest in which nothing is paused or deleted and every answer is good. */
  predicate Good(i: Input, a: Manifest) {
    && i.manifest == a && i.fetched && i.statusSaved && i.finalizerAdded && Unhindered(i)
    && (a.markedForDeletion ==> i.ack == Acked)
    && i.namespaces == ProbeDone && i.package == ProbeDone && i.packageCheck == ProbeDone && i.secrets == ProbeDone
    && i.federation == ProbeDone && i.monitoringStack == ProbeDone && i.instanceOk && GoodOLM(a, i.olm)
  }

  predicate Ready(s: Status) {
    s.IsTrue(Available) && s.IsTrue(Installed) && s.phase == PhaseReady
  }

  // ----- Sub-reconcilers -----

  lemma GoodCSVStep(s: Status, a: Manifest, o: OLMObservation, key: CSVKey, now: int)
    requires GoodOLM(a, o) && key == CSVKey(ParseInstall(a.spec.install).common.namespace, o.subscription.currentCSV)
    ensures CSVStep(s, a, o, key, o.operator.refs, now).1 == Zero
  {
    var ref := FindCSVReference(o.operator.refs, key);
    assert InstalledStep(s, a, o, ref, now).1 == Zero;
  }

  /** The one thing that can still hold OLM up is a mapping that has just been made. */
  lemma GoodOLMStep(w: World, a: Manifest, o: OLMObservation, now: int)
    requires GoodOLM(a, o)
    ensures OLMStep(w, a, o, now).w.mapped && (w.mapped ==> OLMStep(w, a, o, now).outcome == Zero)
  {
    var common := ParseInstall(a.spec.install).common;
    var key := CSVKey(common.namespace, o.subscription.currentCSV);
    assert OLMStep(w, a, o, now) == SubscriptionStep(w, a, common, o, now);
    if w.mapped { GoodCSVStep(w.status, a, o, key, now); }
  }

  lemma GoodSub(k: SubKind, w: World, i: Input, a: Manifest)
    requires Good(i, a)
    ensures var r := SubStep(k, w, i);
      && (k != OLMSub || w.mapped ==> r.outcome == Zero)
      && r.w.mapped == (k == OLMSub || w.mapped)
  {
    if k == OLMSub {
      GoodOLMStep(w.(log := w.log + [Ran(k)]), a, i.olm, i.now);
    } else {
      GoodOther(k, w, i, a);
    }
  }

  lemma GoodOther(k: SubKind, w: World, i: Input, a: Manifest)
    requires Good(i, a) && k != OLMSub
    ensures SubStep(k, w, i).outcome == Zero && SubStep(k, w, i).w.mapped == w.mapped
  {
    match k
    case DeletionSub => GoodDeletion(w.status, i);
    case InstanceSub => assert InstanceStep(w.status, a, i.instanceOk, i.now).1 == Zero;
    case NamespaceSub =>
    case PackageSub =>
    case SecretSub =>
    case FederationSub =>
    case MonitoringStackSub =>
  }

  lemma GoodDeletion(s: Status, i: Input)
    requires i.manifest.markedForDeletion ==> i.ack == Acked
    ensures DeletionStatus(s, i.manifest, i.ack, i.now, i.clock).1 == Zero
  {
  }

  lemma {:induction false} GoodSubs(ks: seq<SubKind>, w: World, i: Input, a: Manifest)
    requires Good(i, a)
    ensures var r := RunSubs(ks, w, i);
      && (w.mapped ==> r.outcome == Zero)
      && (w.mapped || OLMSub in ks ==> r.w.mapped)
      && (w.mapped && OLMSub in ks ==> OLMDone(ks, w, i))
  {
    if ks != [] {
      var r := SubStep(ks[0], w, i);
      GoodSub(ks[0], w, i, a);
      if r.outcome == Zero { GoodSubs(ks[1..], r.w, i, a); }
    }
  }

  // ----- One pass -----

  lemma GoodConclude(ks: seq<SubKind>, w: World, i: Input)
    requires i.packageCheck == ProbeDone
    ensures var r := Conclude(ks, w, i); r.status.IsTrue(Available) && r.mapped == w.mapped
  {
  }

  lemma GoodSubsPass(cfg: Config, w: World, i: Input, a: Manifest)
    requires WellConfigured(cfg) && Good(i, a)
    ensures var r := SubsPass(cfg, w, i); r.mapped && (w.mapped ==> r.status.IsTrue(Available))
    ensures w.mapped ==> OLMDone(Sorted(cfg.subs), w, i)
  {
    var ks := Sorted(cfg.subs);
    SortedKeepsMembers(cfg.subs);
    GoodSubs(ks, w, i, a);
    GoodConclude(ks, RunSubs(ks, w, i).w, i);
  }

  lemma GoodCore(cfg: Config, w: World, i: Input, a: Manifest)
    requires WellConfigured(cfg) && Good(i, a)
    ensures var r := ReconcileCore(cfg, w, i);
      if BeingUpgraded(w.status, a) then r.mapped == w.mapped
      else r.mapped && (w.mapped ==> r.status.IsTrue(Available) && CoreDone(cfg, w, i))
  {
    if !BeingUpgraded(w.status, a) {
      var f := EnsureFinalizer(w.(status := Prepared(w.status, i)), i);
      assert f.outcome == Zero && f.w.mapped == w.mapped;
      GoodSubsPass(cfg, f.w, i, a);
      assert ReconcileCore(cfg, w, i) == SubsPass(cfg, f.w, i);
    }
  }

  lemma GoodPass(cfg: Config, w: World, i: Input, a: Manifest)
    requires WellConfigured(cfg) && Coherent(w.persisted) && Good(i, a)
    ensures var r := Pass(cfg, w, i);
      && !BeingUpgraded(r.persisted, a)
      && (w.mapped ==> r.mapped)
      && (!BeingUpgraded(w.persisted, a) ==> r.mapped)
      && (!BeingUpgraded(w.persisted, a) && w.mapped ==> Ready(r.persisted) && FinishesOLM(cfg, w, i))
  {
    var w0 := w.(status := w.persisted);
    GoodCore(cfg, w0, i, a);
    ReportingKeeps(cfg, ReconcileCore(cfg, w0, i), a, i.ocm);
    VersionStep(cfg, w, i);
    PassKeeps(cfg, w, i);
  }

  // ----- Runs -----

  /** From any coherent state at most two good passes are lost, one to upgrade detection and one to the mapping of the
      Operator resource: after three or more the Addon is available, installed and in phase Ready. */
  lemma {:induction false} GoodPassesConverge(cfg: Config, w: World, inputs: seq<Input>, a: Manifest)
    requires WellConfigured(cfg) && Coherent(w.persisted) && forall i :: i in inputs ==> Good(i, a)
    ensures var r := Run(cfg, w, inputs);
      && (|inputs| >= 1 ==> !BeingUpgraded(r.persisted, a))
      && (|inputs| >= 2 ==> r.mapped)
      && (|inputs| >= 3 ==> Ready(r.persisted))
  {
    if inputs != [] {
      var m := inputs[..|inputs| - 1];
      GoodPassesConverge(cfg, w, m, a);
      AlwaysCoherent(cfg, w, m);
      GoodPass(cfg, Run(cfg, w, m), inputs[|inputs| - 1], a);
    }
  }

  /** A good pass makes an Addon under upgrade ready; it reports the upgrade as succeeded exactly when the CSV is another
      than before, and otherwise leaves a ready Addon with its upgrade running. */
  lemma GoodPassConcludesIff(cfg: Config, w: World, i: Input, a: Manifest)
    requires WellConfigured(cfg) && Coherent(w.persisted) && Good(i, a)
    requires w.mapped && !BeingUpgraded(w.persisted, a) && w.persisted.IsTrue(UpgradeStarted)
    ensures var r := Pass(cfg, w, i).persisted;
      && Ready(r)
      && (r.IsTrue(UpgradeSucceeded) <==> ObservedCSV(i) != Some(w.persisted.lastAvailableCSV))
      && (r.IsTrue(UpgradeStarted) <==> ObservedCSV(i) == Some(w.persisted.lastAvailableCSV))
  {
    GoodPass(cfg, w, i, a);
    UpgradeTracked(cfg, w, i);
  }
}
