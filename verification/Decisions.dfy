/** What a pass decides apart from readiness: pauses, upgrade detection, the finalizer, and the deletion conditions,
    each as an equivalence on the manifest, the answers and the state that the pass found. */
module Decisions {
  import opened Conditions
  import opened AddonModel
  import opened Lifecycle
  import opened StepProofs
  import opened PassProofs
  import opened Runs
  import opened RunReports
  import opened Availability

  // ----- How far a pass gets -----

  predicate Active(i: Input) {
    i.fetched && !i.manifest.deletionTimestamp && !i.globalPause && !i.manifest.spec.paused
  }

  /** Both versions are known and they differ. */
  predicate VersionsDiffer(s: Status, a: Manifest) {
    s.observedVersion != "" && a.spec.version != "" && s.observedVersion != a.spec.version
  }

  /** The sub-reconcilers are reached exactly by active passes without a version change that have or get the finalizer. */
  lemma SubsReachedIff(w: World, i: Input)
    ensures SubsStart(w, i).Some? <==> Active(i) && !VersionsDiffer(w.persisted, i.manifest) && (w.finalizer || i.finalizerAdded)
  {
  }

  // ----- Upgrade detection -----

  /** A saved active pass starts an upgrade if and only if the observed and the requested version are both known and
      differ; a first installation is not an upgrade. */
  lemma UpgradeDetectedIff(cfg: Config, w: World, i: Input)
    requires WellConfigured(cfg) && Coherent(w.persisted) && !w.persisted.IsTrue(UpgradeStarted)
    requires Active(i) && i.statusSaved
    ensures Pass(cfg, w, i).persisted.IsTrue(UpgradeStarted) <==> VersionsDiffer(w.persisted, i.manifest)
  {
    PassKeeps(cfg, w, i);
  }

  predicate AtVersion(s: Status, v: string) {
    Coherent(s) && !s.IsTrue(UpgradeStarted) && (s.observedVersion == "" || s.observedVersion == v)
  }

  lemma AtVersionStep(cfg: Config, w: World, i: Input, v: string)
    requires WellConfigured(cfg) && AtVersion(w.persisted, v) && i.manifest.spec.version == v
    ensures AtVersion(Pass(cfg, w, i).persisted, v)
  {
    PassKeeps(cfg, w, i);
    VersionStep(cfg, w, i);
    assert !StartsIn(w, i);
  }

  /** As long as only one version is ever asked for, no upgrade is reported: in particular not from a fresh Addon. */
  lemma {:induction false} NoUpgradeAtOneVersion(cfg: Config, w: World, inputs: seq<Input>, v: string)
    requires WellConfigured(cfg) && AtVersion(w.persisted, v) && forall i :: i in inputs ==> i.manifest.spec.version == v
    ensures AtVersion(Run(cfg, w, inputs).persisted, v)
  {
    if inputs != [] {
      var m := inputs[..|inputs| - 1];
      NoUpgradeAtOneVersion(cfg, w, m, v);
      assert inputs[|inputs| - 1] in inputs;
      AtVersionStep(cfg, Run(cfg, w, m), inputs[|inputs| - 1], v);
    }
  }

  lemma FreshIsAtVersion(v: string)
    ensures AtVersion(FreshStatus, v)
  {
  }

  /** A saved pass at one version and then a saved active pass at another: the upgrade is reported. */
  lemma NewVersionStartsUpgrade(cfg: Config, w: World, i: Input, j: Input)
    requires WellConfigured(cfg) && Coherent(w.persisted) && i.fetched && i.statusSaved && Active(j) && j.statusSaved
    requires i.manifest.spec.version != "" && j.manifest.spec.version != "" && i.manifest.spec.version != j.manifest.spec.version
    ensures Pass(cfg, Pass(cfg, w, i), j).persisted.IsTrue(UpgradeStarted)
  {
    VersionStep(cfg, w, i);
    PassKeeps(cfg, w, i);
    DetectedStarts(cfg, Pass(cfg, w, i), j);
  }

  lemma DetectedStarts(cfg: Config, w: World, i: Input)
    requires WellConfigured(cfg) && Coherent(w.persisted) && Active(i) && i.statusSaved && VersionsDiffer(w.persisted, i.manifest)
    ensures Pass(cfg, w, i).persisted.IsTrue(UpgradeStarted)
  {
    PassKeeps(cfg, w, i);
    assert StartsIn(w, i);
  }

  // ----- Pauses -----

  /** The update that adds the finalizer hands back the status as it was persisted. */
  predicate ResetByUpdate(w: World, i: Input) {
    !w.finalizer && i.finalizerAdded && i.updateResets && !VersionsDiffer(w.persisted, i.manifest)
  }

  predicate PausedFor(s: Status, reason: Reason) {
    s.IsTrue(Paused) && s.Find(Paused).value.reason == reason
  }

  /** What becomes of the Paused condition. */
  predicate PausedAfter(w: World, i: Input, r: Status) {
    if i.manifest.deletionTimestamp then r.Find(Paused) == w.persisted.Find(Paused)
    else if i.globalPause then PausedFor(r, AddonOperatorPaused)
    else if i.manifest.spec.paused then PausedFor(r, AddonPaused)
    else if ResetByUpdate(w, i) then r.Find(Paused) == w.persisted.Find(Paused)
    else !r.Has(Paused)
  }

  lemma PreparedUnpauses(s: Status, i: Input)
    ensures !Prepared(s, i).Has(Paused)
  {
    if RemovePause(s, i.manifest.generation).Has(Installed) {} else {}
  }

  lemma ConcludeKeepsPause(ks: seq<SubKind>, w: World, i: Input)
    ensures Conclude(ks, w, i).status.Find(Paused) == w.status.Find(Paused) && SameDeletion(w.status, Conclude(ks, w, i).status)
  {
    if PackageSub in ks && i.packageCheck == ProbeFailed {} else if PackageSub in ks && i.packageCheck != ProbeDone {} else {}
  }

  lemma SubsPassKeepsPause(cfg: Config, u: World, i: Input)
    requires WellConfigured(cfg)
    ensures SubsPass(cfg, u, i).status.Find(Paused) == u.status.Find(Paused)
  {
    var ks := Sorted(cfg.subs);
    SortedKeepsMembers(cfg.subs);
    RunSubsEffect(ks, u, i);
    ConcludeKeepsPause(ks, RunSubs(ks, u, i).w, i);
  }

  lemma UpgradeStartKeepsPause(s: Status, g: int, now: int)
    ensures ReportUpgradeStarted(s, g, now).Find(Paused) == s.Find(Paused)
  {
    if s.Has(UpgradeSucceeded) {} else {}
  }

  lemma ActiveCorePause(cfg: Config, w: World, i: Input)
    requires WellConfigured(cfg) && Active(i)
    ensures PausedAfter(w, i, ReconcileCore(cfg, w.(status := w.persisted), i).status)
  {
    var (r, g) := (ReconcileCore(cfg, w.(status := w.persisted), i).status, i.manifest.generation);
    PreparedUnpauses(w.persisted, i);
    SubsReachedIff(w, i);
    if SubsStart(w, i).Some? {
      StartReached(cfg, w, i);
      SubsPassKeepsPause(cfg, SubsStart(w, i).value, i);
    } else if VersionsDiffer(w.persisted, i.manifest) {
      assert r == ReportUpgradeStarted(RemovePause(w.persisted, g), g, i.now);
      UpgradeStartKeepsPause(RemovePause(w.persisted, g), g, i.now);
    } else {
      assert r == Prepared(w.persisted, i);
    }
  }

  lemma HinderedCorePause(cfg: Config, w: World, i: Input)
    requires i.fetched && !Active(i)
    ensures PausedAfter(w, i, ReconcileCore(cfg, w.(status := w.persisted), i).status)
  {
    var (r, s, g) := (ReconcileCore(cfg, w.(status := w.persisted), i).status, w.persisted, i.manifest.generation);
    if i.manifest.deletionTimestamp {
      assert r == s || r == ReportTermination(s, g, i.now);
    } else if i.globalPause {
      assert r == ReportPause(s, g, AddonOperatorPaused, i.now);
    } else {
      assert r == ReportPause(s, g, AddonPaused, i.now);
    }
  }

  /** After a saved pass: paused for the right one of the two reasons if it was paused, not paused if it was not, except
      that the update which adds the finalizer brings a persisted Paused condition back. */
  lemma PausedExact(cfg: Config, w: World, i: Input)
    requires WellConfigured(cfg) && i.fetched && i.statusSaved
    ensures PausedAfter(w, i, Pass(cfg, w, i).persisted)
  {
    if Active(i) { ActiveCorePause(cfg, w, i); } else { HinderedCorePause(cfg, w, i); }
    var c := ReconcileCore(cfg, w.(status := w.persisted), i);
    ReportingKeeps(cfg, c, i.manifest, i.ocm);
    SameConditions(c.status, Pass(cfg, w, i).persisted);
  }

  /** A saved active pass lifts the pause if and only if it is not undone by the update that adds the finalizer. */
  lemma PauseLiftedIff(cfg: Config, w: World, i: Input)
    requires WellConfigured(cfg) && Active(i) && i.statusSaved && w.persisted.Has(Paused)
    ensures !Pass(cfg, w, i).persisted.Has(Paused) <==> !ResetByUpdate(w, i)
  {
    PausedExact(cfg, w, i);
  }

  /** An Addon that is created paused stays paused through its first active pass, when that adds the finalizer. */
  lemma PauseOutlivesFirstPass(cfg: Config, w: World, i: Input, j: Input)
    requires WellConfigured(cfg) && w.persisted == FreshStatus && !w.finalizer
    requires i.fetched && i.statusSaved && !i.manifest.deletionTimestamp && !i.globalPause && i.manifest.spec.paused
    requires Active(j) && j.statusSaved && j.finalizerAdded && j.updateResets && j.manifest.spec.version == i.manifest.spec.version
    ensures PausedFor(Pass(cfg, Pass(cfg, w, i), j).persisted, AddonPaused)
  {
    var u := Pass(cfg, w, i);
    PausedExact(cfg, w, i);
    VersionStep(cfg, w, i);
    FinalizerIff(cfg, w, i);
    PausedExact(cfg, u, j);
  }

  // ----- Installed is always present -----

  lemma InstalledStepKeepsEntry(s: Status, a: Manifest, o: OLMObservation, ref: Option<RichReference>, now: int)
    requires s.Has(Installed)
    ensures InstalledStep(s, a, o, ref, now).0.Has(Installed)
  {
    if ref.None? {
      var missing := ReportPending(s, a.generation, MissingCSV, Fixed, now);
      assert missing.Has(Installed);
      if o.deleteConfigMap == ConfigMapLabelled {} else {}
    } else if PhaseOf(ref.value.conditions) != PhaseSucceeded {
      assert InstalledStep(s, a, o, ref, now).0 == s;
    } else {
      SucceededKeepsEntry(s, a, o, ref.value, now);
    }
  }

  lemma SucceededKeepsEntry(s: Status, a: Manifest, o: OLMObservation, ref: RichReference, now: int)
    requires s.Has(Installed) && PhaseOf(ref.conditions) == PhaseSucceeded
    ensures InstalledStep(s, a, o, Some(ref), now).0.Has(Installed)
  {
    if !a.spec.installAckRequired {
    } else {
      match o.instance
      case InstanceFailed =>
      case InstanceFound(Some(CTrue)) =>
      case InstanceFound(Some(CUnknown)) =>
      case InstanceFound(_) =>
    }
  }

  lemma ObserveKeepsEntry(w: World, a: Manifest, o: OLMObservation, key: CSVKey, now: int)
    requires w.status.Has(Installed)
    ensures ObserveStep(w, a, o, key, now).w.status.Has(Installed)
  {
    if !o.subscriptionReread || o.installPlan == PlanFailed {
    } else if o.installPlan == RequiresApproval {
    } else if !w.mapped || o.routeTaken {
    } else if o.operator.OperatorFound? {
      CSVStepKeepsEntry(w.status, a, o, key, o.operator.refs, now);
    }
  }

  lemma CSVStepKeepsEntry(s: Status, a: Manifest, o: OLMObservation, key: CSVKey, refs: seq<RichReference>, now: int)
    requires s.Has(Installed)
    ensures CSVStep(s, a, o, key, refs, now).0.Has(Installed)
  {
    var ref := FindCSVReference(refs, key);
    InstalledStepKeepsEntry(s, a, o, ref, now);
    var (m, out) := InstalledStep(s, a, o, ref, now);
    if out == Zero { PhaseRelations(m, a, key, if ref.None? then PhaseNone else PhaseOf(ref.value.conditions), now); }
  }

  lemma SubKeepsEntry(k: SubKind, w: World, i: Input)
    requires w.status.Has(Installed)
    ensures SubStep(k, w, i).w.status.Has(Installed)
  {
    SubRelations(k, w, i);
    if k == OLMSub { OLMKeepsEntry(w.(log := w.log + [Ran(k)]), i.manifest, i.olm, i.now); }
  }

  lemma OLMKeepsEntry(w: World, a: Manifest, o: OLMObservation, now: int)
    requires w.status.Has(Installed)
    ensures OLMStep(w, a, o, now).w.status.Has(Installed)
  {
    if SourcesUp(a, o) && Linked(o) {
      ParseExact(a.spec.install);
      var common := Selected(a.spec.install).value;
      assert OLMStep(w, a, o, now) == SubscriptionStep(w, a, common, o, now);
      ObserveKeepsEntry(w, a, o, CSVKey(common.namespace, o.subscription.currentCSV), now);
    } else {
      UnlinkedKeepsEntry(w, a, o, now);
    }
  }

  lemma UnlinkedKeepsEntry(w: World, a: Manifest, o: OLMObservation, now: int)
    requires !(SourcesUp(a, o) && Linked(o))
    ensures OLMStep(w, a, o, now).w.status.Find(Installed) == w.status.Find(Installed)
  {
    if !SourcesUp(a, o) { SourcesExact(w, a, o, now); }
    else {
      ParseExact(a.spec.install);
      assert OLMStep(w, a, o, now) == SubscriptionStep(w, a, Selected(a.spec.install).value, o, now);
    }
  }

  lemma {:induction false} SubsKeepEntry(ks: seq<SubKind>, w: World, i: Input)
    requires w.status.Has(Installed)
    ensures RunSubs(ks, w, i).w.status.Has(Installed)
  {
    if ks != [] {
      SubKeepsEntry(ks[0], w, i);
      if SubStep(ks[0], w, i).outcome == Zero { SubsKeepEntry(ks[1..], SubStep(ks[0], w, i).w, i); }
    }
  }

  lemma PreparedHasEntry(s: Status, i: Input)
    ensures Prepared(s, i).Has(Installed)
  {
  }

  lemma SubsPassKeepsEntry(cfg: Config, w: World, i: Input)
    requires w.status.Has(Installed)
    ensures SubsPass(cfg, w, i).status.Has(Installed)
  {
    var ks := Sorted(cfg.subs);
    SubsKeepEntry(ks, w, i);
    ConcludeExact(ks, RunSubs(ks, w, i).w, i);
  }

  /** A saved active pass leaves a statement about Installed, true or false, unless the update that adds the finalizer
      undid it. */
  lemma InstalledIsReported(cfg: Config, w: World, i: Input)
    requires Active(i) && i.statusSaved && !VersionsDiffer(w.persisted, i.manifest) && !ResetByUpdate(w, i)
    ensures Pass(cfg, w, i).persisted.Has(Installed)
  {
    var c := ReconcileCore(cfg, w.(status := w.persisted), i);
    PreparedHasEntry(w.persisted, i);
    if SubsStart(w, i).Some? {
      StartReached(cfg, w, i);
      SubsPassKeepsEntry(cfg, SubsStart(w, i).value, i);
    } else {
      assert c.status == Prepared(w.persisted, i);
    }
    ReportingKeeps(cfg, c, i.manifest, i.ocm);
    SameConditions(c.status, Pass(cfg, w, i).persisted);
  }

  // ----- The finalizer -----

  /** Everything that must have gone well before the finalizer is dropped. */
  predicate Releases(i: Input) {
    i.manifest.deletionTimestamp && i.terminationSaved && i.template == TemplateGone && i.finalizerRemoved
  }

  lemma SubsKeepFinalizer(cfg: Config, w: World, i: Input)
    requires i.fetched && SubsStart(w, i).Some?
    ensures ReconcileCore(cfg, w.(status := w.persisted), i).finalizer
  {
    StartReached(cfg, w, i);
    SubsPersisted(cfg, SubsStart(w, i).value, i);
  }

  /** The finalizer after any pass: kept unless the pass releases the Addon, gained exactly by an active pass that gets to
      add it. */
  lemma FinalizerIff(cfg: Config, w: World, i: Input)
    ensures Pass(cfg, w, i).finalizer <==>
      if w.finalizer then !(i.fetched && Releases(i))
      else Active(i) && !VersionsDiffer(w.persisted, i.manifest) && i.finalizerAdded
  {
    if i.fetched {
      SubsReachedIff(w, i);
      var c := ReconcileCore(cfg, w.(status := w.persisted), i);
      ReportingKeeps(cfg, c, i.manifest, i.ocm);
      if SubsStart(w, i).Some? { SubsKeepFinalizer(cfg, w, i); }
      else if i.manifest.deletionTimestamp { ReleaseExact(w.(status := w.persisted), i); }
      else { assert c.finalizer == w.finalizer; }
    }
  }

  /** Termination is reported before anything is taken down: it is persisted even if the pass's last write is lost. */
  lemma TerminationIsSaved(cfg: Config, w: World, i: Input)
    requires WellConfigured(cfg) && i.fetched && i.manifest.deletionTimestamp && w.finalizer && (i.terminationSaved || i.statusSaved)
    ensures Withdrawn(Pass(cfg, w, i).persisted, Complaint(Terminating, PhaseTerminating, NoMessage))
  {
    if i.statusSaved { PassExact(cfg, w, i); }
    else {
      var c := DeletionPass(w.(status := w.persisted), i);
      TerminationPersists(w.(status := w.persisted), i);
      ReportingKeeps(cfg, c, i.manifest, i.ocm);
    }
  }

  lemma TerminationPersists(w: World, i: Input)
    requires w.finalizer && i.terminationSaved
    ensures Withdrawn(DeletionPass(w, i).persisted, Complaint(Terminating, PhaseTerminating, NoMessage))
  {
    assert DeletionPass(w, i).persisted == ReportTermination(w.status, i.manifest.generation, i.now);
  }

  lemma ReleaseExact(w: World, i: Input)
    requires i.manifest.deletionTimestamp
    ensures DeletionPass(w, i).finalizer <==> w.finalizer && !Releases(i)
  {
    if !w.finalizer {} else if !i.terminationSaved {} else if i.template != TemplateGone {}
  }

  // ----- Deletion conditions -----

  /** The deletion conditions after the sub-reconciler has run. */
  predicate DeletionAfter(s: Status, r: Status, i: Input) {
    var a := i.manifest;
    if !a.markedForDeletion || s.IsTrue(ReadyToBeDeleted) then SameDeletion(s, r)
    else if !a.spec.deleteAckRequired || i.ack == Acked then r.IsTrue(ReadyToBeDeleted) && !r.Has(DeleteTimeout)
    else
      && AwaitingAck(r) && r.Find(ReadyToBeDeleted).value.transition == WaitingSince(s, i)
      && (r.Has(DeleteTimeout) <==> s.Has(DeleteTimeout) || (i.ack == NotAcked && TimedOut(s, i)))
  }

  lemma DeletionStatusExact(s: Status, i: Input)
    ensures var (r, out) := DeletionStatus(s, i.manifest, i.ack, i.now, i.clock);
      && DeletionAfter(s, r, i)
      && (NeedsAnswer(s, i) && i.ack == NotAcked && !TimedOut(s, i) ==> out == RequeueAfter(Interval(i.manifest)))
      && (NeedsAnswer(s, i) && i.ack == HandlerFailed ==> out == Failed)
  {
    DeletionOutcome(s, i, false);
    var a := i.manifest;
    if NeedsAnswer(s, i) {
      var waiting := ReportReadyToBeDeleted(s, a.generation, false, i.now);
      assert AwaitingAck(waiting) && waiting.Find(ReadyToBeDeleted).value.transition == WaitingSince(s, i);
      assert waiting.Find(DeleteTimeout) == s.Find(DeleteTimeout);
      match i.ack
      case HandlerFailed =>
      case Acked => AckedExact(waiting, a, i.now);
      case NotAcked => assert DeletionTimedOutAt(waiting, a, i.clock) <==> TimedOut(s, i);
    } else if a.markedForDeletion && !s.IsTrue(ReadyToBeDeleted) {
      AckedExact(s, a, i.now);
    }
  }

  lemma AckedExact(s: Status, a: Manifest, now: int)
    ensures var r := AcknowledgeDeletion(s, a, now); r.IsTrue(ReadyToBeDeleted) && !r.Has(DeleteTimeout)
  {
  }

  lemma SameAfter(s: Status, m: Status, t: Status, r: Status, i: Input)
    requires SameDeletion(s, m) && DeletionAfter(m, t, i) && SameDeletion(t, r)
    ensures DeletionAfter(s, r, i)
  {
    SameAnswer(s, m, i);
  }

  lemma DeletionRunsFirst(cfg: Config)
    requires WellConfigured(cfg) && DeletionSub in cfg.subs
    ensures Sorted(cfg.subs) != [] && Sorted(cfg.subs)[0] == DeletionSub && DeletionSub !in Sorted(cfg.subs)[1..]
  {
    SortedAscends(cfg);
    var ks := Sorted(cfg.subs);
    DistinctTail(ks);
    var j :| 0 <= j < |ks| && ks[j] == DeletionSub;
  }

  lemma SubsDeletionExact(cfg: Config, u: World, i: Input)
    requires WellConfigured(cfg) && DeletionSub in cfg.subs
    ensures DeletionAfter(u.status, SubsPass(cfg, u, i).status, i)
  {
    var ks := Sorted(cfg.subs);
    DeletionRunsFirst(cfg);
    SortedAscends(cfg);
    DistinctTail(ks);
    var m := SubStep(DeletionSub, u, i);
    DeletionStatusExact(u.status, i);
    assert DeletionAfter(u.status, m.w.status, i);
    if m.outcome == Zero {
      RunSubsEffect(ks[1..], m.w, i);
      var r := RunSubs(ks[1..], m.w, i);
      assert SameDeletion(m.w.status, r.w.status);
      ConcludeKeepsPause(ks, r.w, i);
      SameAfter(u.status, u.status, m.w.status, SubsPass(cfg, u, i).status, i);
    }
  }

  /** A saved pass that reaches the sub-reconcilers decides about deletion exactly so: ready to be deleted if and only if
      that was so already, or the Addon is marked and no ack is needed or one came; and timed out if and only if that was
      so already, or no ack came and the clock is strictly past the first waiting time plus the interval. */
  lemma DeletionExact(cfg: Config, w: World, i: Input)
    requires WellConfigured(cfg) && DeletionSub in cfg.subs && i.statusSaved && SubsStart(w, i).Some?
    ensures DeletionAfter(w.persisted, Pass(cfg, w, i).persisted, i)
  {
    var u := SubsStart(w, i).value;
    StartReached(cfg, w, i);
    StartKeeps(w, i);
    SubsDeletionExact(cfg, u, i);
    var c := SubsPass(cfg, u, i);
    ReportingKeeps(cfg, c, i.manifest, i.ocm);
    SameConditions(c.status, Pass(cfg, w, i).persisted);
    SameAfter(w.persisted, u.status, c.status, Pass(cfg, w, i).persisted, i);
  }

  lemma DeletionIffs(cfg: Config, w: World, i: Input)
    requires WellConfigured(cfg) && DeletionSub in cfg.subs && i.statusSaved && SubsStart(w, i).Some?
    requires !w.persisted.IsTrue(ReadyToBeDeleted)
    ensures var (r, a) := (Pass(cfg, w, i).persisted, i.manifest);
      && (r.IsTrue(ReadyToBeDeleted) <==> a.markedForDeletion && (!a.spec.deleteAckRequired || i.ack == Acked))
      && (!w.persisted.Has(DeleteTimeout) ==> (r.Has(DeleteTimeout) <==>
            a.markedForDeletion && a.spec.deleteAckRequired && i.ack == NotAcked
            && i.clock > WaitingSince(w.persisted, i) + (if a.deleteTimeout.Duration? then a.deleteTimeout.length else 3600)))
  {
    DeletionExact(cfg, w, i);
  }
}
