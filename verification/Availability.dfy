/** Readiness decided by the answers alone: which answers let a pass go on, which take availability away, and what
    Available, Installed and the phase are afterwards. Everything here is written on the answers themselves; the
    theorems say that the pass does exactly this. */
module Availability {
  import opened Conditions
  import opened AddonModel
  import opened Lifecycle
  import opened StepProofs
  import opened PassProofs
  import opened Runs
  import opened RunReports

  // ----- The install section -----

  function Selected(install: InstallSpec): Option<OLMCommon> {
    match install.itype
    case OLMOwnNamespace => install.ownNamespace
    case OLMAllNamespaces => install.allNamespaces
    case UnknownInstallType(_) => None
  }

  predicate Configured(install: InstallSpec) {
    var section := Selected(install);
    section.Some? && section.value.namespace != "" && section.value.catalogSourceImage != ""
  }

  /** The section is used exactly if it is there and names a namespace and an image. */
  lemma ParseExact(install: InstallSpec)
    ensures ParseInstall(install).ValidInstall? <==> Configured(install)
    ensures ParseInstall(install).ValidInstall? ==> Selected(install) == Some(ParseInstall(install).common)
    ensures ParseInstall(install).UnsupportedInstall? <==> install.itype.UnknownInstallType?
  {
  }

  // ----- The CSV among the references -----

  predicate Concerns(x: RichReference, namespace: string, name: string) {
    x.kind == "ClusterServiceVersion" && x.name == name && x.namespace == namespace
  }

  /** No reference to the CSV. */
  predicate CSVGone(refs: seq<RichReference>, namespace: string, name: string) {
    forall j :: 0 <= j < |refs| ==> !Concerns(refs[j], namespace, name)
  }

  predicate FirstReference(refs: seq<RichReference>, namespace: string, name: string, j: nat) {
    j < |refs| && Concerns(refs[j], namespace, name) && forall l :: 0 <= l < j ==> !Concerns(refs[l], namespace, name)
  }

  /** The first `Succeeded` condition is there and true. */
  predicate SaysSucceeded(cs: seq<RefCondition>) {
    exists j :: 0 <= j < |cs| && cs[j].ctype == "Succeeded" && cs[j].status == "True"
      && forall l :: 0 <= l < j ==> cs[l].ctype != "Succeeded"
  }

  /** The first `Succeeded` condition is there and not true. */
  predicate SaysFailed(cs: seq<RefCondition>) {
    exists j :: 0 <= j < |cs| && cs[j].ctype == "Succeeded" && cs[j].status != "True"
      && forall l :: 0 <= l < j ==> cs[l].ctype != "Succeeded"
  }

  predicate CSVFailed(refs: seq<RichReference>, namespace: string, name: string) {
    exists j :: 0 <= j < |refs| && FirstReference(refs, namespace, name, j) && SaysFailed(refs[j].conditions)
  }

  /** The first reference to the CSV says that it succeeded. */
  predicate CSVHealthy(refs: seq<RichReference>, namespace: string, name: string) {
    exists j :: 0 <= j < |refs| && FirstReference(refs, namespace, name, j) && SaysSucceeded(refs[j].conditions)
  }

  /** The first condition of type `Succeeded`, if there is one. */
  lemma {:induction false} FirstSucceeded(cs: seq<RefCondition>) returns (j: nat)
    ensures PhaseOf(cs) == PhaseNone ==> forall l :: 0 <= l < |cs| ==> cs[l].ctype != "Succeeded"
    ensures PhaseOf(cs) != PhaseNone ==>
      j < |cs| && cs[j].ctype == "Succeeded" && (forall l :: 0 <= l < j ==> cs[l].ctype != "Succeeded")
      && (PhaseOf(cs) == PhaseSucceeded <==> cs[j].status == "True")
  {
    j := 0;
    if cs != [] && cs[0].ctype != "Succeeded" {
      var m := FirstSucceeded(cs[1..]);
      j := m + 1;
      forall l | 0 < l < |cs| ensures cs[l] == cs[1..][l - 1] {}
    }
  }

  lemma PhaseExact(cs: seq<RefCondition>)
    ensures PhaseOf(cs) == PhaseSucceeded <==> SaysSucceeded(cs)
    ensures PhaseOf(cs) == PhaseFailed <==> SaysFailed(cs)
  {
    var j := FirstSucceeded(cs);
    forall l | 0 <= l < |cs| && cs[l].ctype == "Succeeded" && (forall m :: 0 <= m < l ==> cs[m].ctype != "Succeeded")
      ensures PhaseOf(cs) != PhaseNone && l == j
    {
    }
  }

  lemma {:induction false} ReferenceExact(refs: seq<RichReference>, key: CSVKey) returns (j: nat)
    ensures FindCSVReference(refs, key).None? <==> CSVGone(refs, key.namespace, key.name)
    ensures FindCSVReference(refs, key).Some? ==>
      FirstReference(refs, key.namespace, key.name, j) && FindCSVReference(refs, key) == Some(refs[j])
  {
    j := 0;
    if refs != [] && !Concerns(refs[0], key.namespace, key.name) {
      var m := ReferenceExact(refs[1..], key);
      j := m + 1;
      forall l | 0 <= l < |refs| && l > 0 ensures refs[l] == refs[1..][l - 1] {}
      if CSVGone(refs[1..], key.namespace, key.name) {
        forall l | 0 <= l < |refs| ensures !Concerns(refs[l], key.namespace, key.name) {
          if l > 0 { assert refs[l] == refs[1..][l - 1]; }
        }
      }
    }
  }

  lemma OneFirstReference(refs: seq<RichReference>, namespace: string, name: string, j: nat, l: nat)
    requires FirstReference(refs, namespace, name, j) && FirstReference(refs, namespace, name, l)
    ensures j == l
  {
  }

  lemma HealthyExact(refs: seq<RichReference>, key: CSVKey)
    ensures var ref := FindCSVReference(refs, key);
      && (CSVHealthy(refs, key.namespace, key.name) <==> ref.Some? && PhaseOf(ref.value.conditions) == PhaseSucceeded)
      && (CSVFailed(refs, key.namespace, key.name) <==> ref.Some? && PhaseOf(ref.value.conditions) == PhaseFailed)
  {
    var j := ReferenceExact(refs, key);
    var ref := FindCSVReference(refs, key);
    if ref.Some? { PhaseExact(ref.value.conditions); }
    forall l | 0 <= l < |refs| && FirstReference(refs, key.namespace, key.name, l) ensures ref.Some? && l == j {
      assert Concerns(refs[l], key.namespace, key.name);
      OneFirstReference(refs, key.namespace, key.name, j, l);
    }
  }

  // ----- The answers of OLM -----

  predicate Connected(p: Probe) { p == Waiting || p == ProbeDone }

  predicate Named(sources: seq<AdditionalCatalogSource>) {
    forall x :: x in sources ==> x.name != "" && x.image != ""
  }

  /** Operator group, network policy and the main source are fine. */
  predicate MainSourceUp(a: Manifest, o: OLMObservation) {
    Configured(a.spec.install) && o.operatorGroupOk && o.networkPolicyOk && Connected(o.catalogSource)
  }

  /** And so are the additional sources, if there are any. */
  predicate SourcesUp(a: Manifest, o: OLMObservation) {
    MainSourceUp(a, o) &&
    var more := Selected(a.spec.install).value.additionalCatalogSources;
    more != [] ==> Named(more) && Connected(o.additionalSources)
  }

  predicate Linked(o: OLMObservation) {
    o.subscription.SubscriptionSeen? && o.subscription.installedCSV != "" && o.subscription.currentCSV != ""
  }

  predicate PlanSettled(o: OLMObservation) {
    o.subscriptionReread && (o.installPlan == AutomaticApproval || o.installPlan == PlanApproved)
  }

  /** The pass gets to look at the Operator resource. */
  predicate OperatorSeen(a: Manifest, o: OLMObservation, mapped: bool) {
    SourcesUp(a, o) && Linked(o) && PlanSettled(o) && mapped && !o.routeTaken && o.operator.OperatorFound?
  }

  predicate Gone(a: Manifest, o: OLMObservation)
    requires OperatorSeen(a, o, true)
  {
    CSVGone(o.operator.refs, Selected(a.spec.install).value.namespace, o.subscription.currentCSV)
  }

  predicate Healthy(a: Manifest, o: OLMObservation)
    requires OperatorSeen(a, o, true)
  {
    CSVHealthy(o.operator.refs, Selected(a.spec.install).value.namespace, o.subscription.currentCSV)
  }

  predicate Failing(a: Manifest, o: OLMObservation)
    requires OperatorSeen(a, o, true)
  {
    CSVFailed(o.operator.refs, Selected(a.spec.install).value.namespace, o.subscription.currentCSV)
  }

  predicate InstallAcked(a: Manifest, o: OLMObservation) {
    !a.spec.installAckRequired || o.instance == InstanceFound(Some(CTrue))
  }

  /** OLM lets the pass go on. */
  predicate OLMPasses(a: Manifest, o: OLMObservation, mapped: bool) {
    OperatorSeen(a, o, mapped) && Healthy(a, o) && InstallAcked(a, o)
  }

  /** A reason for which availability is withdrawn, with the phase and the message that go with it. */
  datatype Complaint = Complaint(reason: Reason, phase: Phase, message: Message)

  function Misconfigured(install: InstallSpec): Complaint {
    var section := Selected(install);
    Complaint(ConfigError, PhaseError, Detail(
      if section.None? || section.value.namespace == "" then "namespace" else "catalogSourceImage"))
  }

  function OLMComplaint(a: Manifest, o: OLMObservation, mapped: bool): Option<Complaint> {
    if a.spec.install.itype.UnknownInstallType? then None
    else if !Configured(a.spec.install) then Some(Misconfigured(a.spec.install))
    else if !o.operatorGroupOk || !o.networkPolicyOk then None
    else if o.catalogSource.NotReady? then Some(Complaint(UnreadyCatalogSource, PhasePending, Detail(o.catalogSource.text)))
    else if !MainSourceUp(a, o) then None
    else if !SourcesUp(a, o) then AdditionalComplaint(Selected(a.spec.install).value.additionalCatalogSources, o)
    else if o.subscription.SubscriptionSeen? && !Linked(o) then Some(Complaint(UnreadyCSV, PhaseError, CSVNotLinked))
    else if Linked(o) && o.subscriptionReread && o.installPlan == RequiresApproval then Some(Complaint(InstallPlanPending, PhasePending, Fixed))
    else if OperatorSeen(a, o, mapped) then CSVComplaint(a, o)
    else None
  }

  function AdditionalComplaint(more: seq<AdditionalCatalogSource>, o: OLMObservation): Option<Complaint> {
    if !Named(more) then Some(Complaint(ConfigError, PhaseError, Detail("additionalCatalogSources")))
    else if o.additionalSources.NotReady? then Some(Complaint(UnreadyAdditionalCatalogSource, PhasePending, Detail(o.additionalSources.text)))
    else None
  }

  function UnreadyCSVComplaint(failed: bool): Complaint {
    Complaint(UnreadyCSV, PhasePending, Detail(if failed then "failed" else "unknown/pending"))
  }

  function CSVComplaint(a: Manifest, o: OLMObservation): Option<Complaint>
    requires OperatorSeen(a, o, true)
  {
    if Gone(a, o) then Some(Complaint(MissingCSV, PhasePending, Fixed))
    else if !Healthy(a, o) then Some(UnreadyCSVComplaint(Failing(a, o)))
    else if a.spec.installAckRequired && o.instance.InstanceFound? && o.instance.installed != Some(CTrue) && o.instance.installed != Some(CUnknown)
    then Some(Complaint(InstanceNotInstalled, PhasePending, Fixed))
    else None
  }

  /** What OLM says about Installed: true, false, or nothing. */
  function OLMInstalled(a: Manifest, o: OLMObservation, mapped: bool): Option<bool> {
    if OLMPasses(a, o, mapped) then Some(true)
    else if OperatorSeen(a, o, mapped) && Gone(a, o) && o.deleteConfigMap == ConfigMapLabelled then Some(false)
    else None
  }

  /** How OLM ends: with zero, an error, a stop until something changes, or a retry. */
  function OLMOutcome(a: Manifest, o: OLMObservation, mapped: bool): Outcome {
    if !Configured(a.spec.install) then Stop
    else if !o.operatorGroupOk || !o.networkPolicyOk || o.catalogSource == ProbeFailed then Failed
    else if o.catalogSource.NotReady? then Requeue
    else if !SourcesUp(a, o) then AdditionalOutcome(Selected(a.spec.install).value.additionalCatalogSources, o)
    else if o.subscription == SubscriptionFailed then Failed
    else if !Linked(o) then Requeue
    else if !o.subscriptionReread || o.installPlan == PlanFailed then Failed
    else if o.installPlan == RequiresApproval then Stop
    else if !mapped || o.routeTaken then Requeue
    else if o.operator == OperatorFailed then Failed
    else if o.operator == OperatorNotFound then Requeue
    else CSVOutcome(a, o)
  }

  function AdditionalOutcome(more: seq<AdditionalCatalogSource>, o: OLMObservation): Outcome {
    if !Named(more) then Stop else if o.additionalSources == ProbeFailed then Failed else Requeue
  }

  function MissingOutcome(o: OLMObservation): Outcome {
    match o.deleteConfigMap
    case ConfigMapFailed => Failed
    case ConfigMapLabelled => Stop
    case ConfigMapUnlabelled => Requeue
  }

  function AckOutcome(a: Manifest, o: OLMObservation): Outcome {
    if InstallAcked(a, o) then Zero else if o.instance == InstanceFailed then Failed else Requeue
  }

  function CSVOutcome(a: Manifest, o: OLMObservation): Outcome
    requires OperatorSeen(a, o, true)
  {
    if Gone(a, o) then MissingOutcome(o) else if !Healthy(a, o) then Requeue else AckOutcome(a, o)
  }

  lemma HealthyIsNotGone(a: Manifest, o: OLMObservation)
    requires OperatorSeen(a, o, true)
    ensures Healthy(a, o) ==> !Gone(a, o)
  {
  }

  lemma OLMPassesExact(a: Manifest, o: OLMObservation, mapped: bool)
    ensures OLMOutcome(a, o, mapped) == Zero <==> OLMPasses(a, o, mapped)
  {
    if OperatorSeen(a, o, mapped) { HealthyIsNotGone(a, o); }
  }

  // ----- What a complaint does to the status -----

  predicate Withdrawn(r: Status, c: Complaint) {
    && r.Has(Available) && r.Find(Available).value.status == CFalse && r.Find(Available).value.reason == c.reason
    && r.Find(Available).value.message == c.message && r.phase == c.phase
  }

  predicate AvailabilityAfter(s: Status, r: Status, c: Option<Complaint>) {
    if c.Some? then Withdrawn(r, c.value) else r.Find(Available) == s.Find(Available) && r.phase == s.phase
  }

  predicate InstalledAfter(s: Status, r: Status, v: Option<bool>) {
    r.IsTrue(Installed) <==> if v.Some? then v.value else s.IsTrue(Installed)
  }

  predicate Decides(s: Status, r: Status, out: Outcome, expected: Outcome, c: Option<Complaint>, v: Option<bool>) {
    out == expected && AvailabilityAfter(s, r, c) && InstalledAfter(s, r, v)
  }

  // ----- The OLM sub-reconciler does this -----

  lemma InstalledStepExact(s: Status, a: Manifest, o: OLMObservation, refs: seq<RichReference>, key: CSVKey, now: int)
    requires OperatorSeen(a, o, true) && o.operator.refs == refs
    requires key == CSVKey(Selected(a.spec.install).value.namespace, o.subscription.currentCSV)
    ensures var (r, out) := CSVStep(s, a, o, key, refs, now);
      Decides(s, r, out, CSVOutcome(a, o), CSVComplaint(a, o), OLMInstalled(a, o, true))
  {
    var j := ReferenceExact(refs, key);
    HealthyExact(refs, key);
    var ref := FindCSVReference(refs, key);
    if ref.None? {
      MissingCSVExact(s, a, o, refs, key, now);
    } else if PhaseOf(ref.value.conditions) == PhaseSucceeded {
      SucceededCSVExact(s, a, o, ref.value, key, now);
    } else {
      UnreadyCSVExact(s, a, o, refs, key, now);
    }
  }

  lemma MissingCSVExact(s: Status, a: Manifest, o: OLMObservation, refs: seq<RichReference>, key: CSVKey, now: int)
    requires FindCSVReference(refs, key).None?
    ensures var (r, out) := CSVStep(s, a, o, key, refs, now);
      && out == MissingOutcome(o) && Withdrawn(r, Complaint(MissingCSV, PhasePending, Fixed))
      && InstalledAfter(s, r, if o.deleteConfigMap == ConfigMapLabelled then Some(false) else None)
  {
    var missing := ReportPending(s, a.generation, MissingCSV, Fixed, now);
    if o.deleteConfigMap == ConfigMapLabelled {
      assert CSVStep(s, a, o, key, refs, now) == (ReportUninstalled(missing, a.generation, now), Stop);
      UninstalledExact(missing, a.generation, now);
    } else {
      assert CSVStep(s, a, o, key, refs, now).0 == missing;
    }
  }

  lemma UninstalledExact(s: Status, g: int, now: int)
    ensures var r := ReportUninstalled(s, g, now); !r.IsTrue(Installed) && r.Find(Available) == s.Find(Available) && r.phase == s.phase
  {
    if s.Has(Installed) {} else {}
  }

  lemma UnreadyCSVExact(s: Status, a: Manifest, o: OLMObservation, refs: seq<RichReference>, key: CSVKey, now: int)
    requires FindCSVReference(refs, key).Some? && PhaseOf(FindCSVReference(refs, key).value.conditions) != PhaseSucceeded
    ensures var (r, out) := CSVStep(s, a, o, key, refs, now);
      out == Requeue && InstalledAfter(s, r, None)
      && Withdrawn(r, UnreadyCSVComplaint(PhaseOf(FindCSVReference(refs, key).value.conditions) == PhaseFailed))
  {
    var phase := PhaseOf(FindCSVReference(refs, key).value.conditions);
    assert InstalledStep(s, a, o, FindCSVReference(refs, key), now) == (s, Zero);
    PhaseRelations(s, a, key, phase, now);
  }

  lemma SucceededCSVExact(s: Status, a: Manifest, o: OLMObservation, ref: RichReference, key: CSVKey, now: int)
    requires PhaseOf(ref.conditions) == PhaseSucceeded && OperatorSeen(a, o, true) && Healthy(a, o) && !Gone(a, o)
    requires FindCSVReference(o.operator.refs, key) == Some(ref)
    ensures var (r, out) := CSVStep(s, a, o, key, o.operator.refs, now);
      Decides(s, r, out, AckOutcome(a, o), CSVComplaint(a, o), if InstallAcked(a, o) then Some(true) else None)
  {
    var (t, out) := InstalledStep(s, a, o, Some(ref), now);
    if InstallAcked(a, o) {
      assert t == ReportInstalled(s, a.generation, now) && out == Zero;
      SucceededPhaseExact(t, a, key, now);
    } else {
      match o.instance
      case InstanceFailed =>
      case InstanceFound(Some(CUnknown)) =>
      case InstanceFound(_) =>
    }
  }

  lemma SucceededPhaseExact(s: Status, a: Manifest, key: CSVKey, now: int)
    ensures var (r, out) := PhaseStep(s, a, key, PhaseSucceeded, now);
      out == Zero && r.Find(Available) == s.Find(Available) && r.phase == s.phase && r.Find(Installed) == s.Find(Installed)
  {
    if UpgradeConcluded(s, key, PhaseSucceeded) { UpgradeSucceededWrites(s, a.generation, now); }
  }

  lemma ObserveExact(w: World, a: Manifest, o: OLMObservation, now: int)
    requires SourcesUp(a, o) && Linked(o)
    ensures var key := CSVKey(Selected(a.spec.install).value.namespace, o.subscription.currentCSV);
      var r := ObserveStep(w, a, o, key, now);
      Decides(w.status, r.w.status, r.outcome, OLMOutcome(a, o, w.mapped), OLMComplaint(a, o, w.mapped), OLMInstalled(a, o, w.mapped))
  {
    var key := CSVKey(Selected(a.spec.install).value.namespace, o.subscription.currentCSV);
    LinkedComplaint(a, o, w.mapped);
    if OperatorSeen(a, o, w.mapped) {
      InstalledStepExact(w.status, a, o, o.operator.refs, key, now);
      ObserveSeen(w, a, o, key, now);
      LinkedOutcome(a, o, w.mapped);
    } else if o.subscriptionReread && o.installPlan == RequiresApproval {
      assert ObserveStep(w, a, o, key, now) ==
        Sub(w.(status := ReportPending(w.status, a.generation, InstallPlanPending, Fixed, now)), Stop);
    } else {
      ObserveSilent(w, a, o, key, now);
    }
  }

  lemma LinkedOutcome(a: Manifest, o: OLMObservation, mapped: bool)
    requires OperatorSeen(a, o, mapped)
    ensures OLMOutcome(a, o, mapped) == CSVOutcome(a, o)
  {
  }

  lemma ObserveSeen(w: World, a: Manifest, o: OLMObservation, key: CSVKey, now: int)
    requires OperatorSeen(a, o, w.mapped)
    ensures var (s, out) := CSVStep(w.status, a, o, key, o.operator.refs, now);
      ObserveStep(w, a, o, key, now).w.status == s && ObserveStep(w, a, o, key, now).outcome == out
  {
  }

  lemma ObserveSilent(w: World, a: Manifest, o: OLMObservation, key: CSVKey, now: int)
    requires SourcesUp(a, o) && Linked(o) && !OperatorSeen(a, o, w.mapped) && !(o.subscriptionReread && o.installPlan == RequiresApproval)
    ensures var r := ObserveStep(w, a, o, key, now); r.w.status == w.status && r.outcome == OLMOutcome(a, o, w.mapped)
  {
    if !o.subscriptionReread || o.installPlan == PlanFailed {} else if !w.mapped || o.routeTaken {} else {}
  }

  /** Past the Subscription only the install plan and the Operator resource can complain. */
  lemma LinkedComplaint(a: Manifest, o: OLMObservation, mapped: bool)
    requires SourcesUp(a, o) && Linked(o)
    ensures OLMComplaint(a, o, mapped) ==
      if o.subscriptionReread && o.installPlan == RequiresApproval then Some(Complaint(InstallPlanPending, PhasePending, Fixed))
      else if OperatorSeen(a, o, mapped) then CSVComplaint(a, o) else None
    ensures !OperatorSeen(a, o, mapped) ==> OLMInstalled(a, o, mapped) == None && !OLMPasses(a, o, mapped)
  {
  }

  lemma SubscriptionExact(w: World, a: Manifest, o: OLMObservation, now: int)
    requires SourcesUp(a, o)
    ensures var r := SubscriptionStep(w, a, Selected(a.spec.install).value, o, now);
      Decides(w.status, r.w.status, r.outcome, OLMOutcome(a, o, w.mapped), OLMComplaint(a, o, w.mapped), OLMInstalled(a, o, w.mapped))
  {
    if Linked(o) { ObserveExact(w, a, o, now); }
  }

  /** For every combination of answers: whether OLM lets the pass go on, for which reason it withdraws availability if it
      does, and what it says about Installed. */
  lemma OLMExact(w: World, a: Manifest, o: OLMObservation, now: int)
    ensures var r := OLMStep(w, a, o, now);
      Decides(w.status, r.w.status, r.outcome, OLMOutcome(a, o, w.mapped), OLMComplaint(a, o, w.mapped), OLMInstalled(a, o, w.mapped))
  {
    ParseExact(a.spec.install);
    var r := OLMStep(w, a, o, now);
    if SourcesUp(a, o) {
      assert r == SubscriptionStep(w, a, Selected(a.spec.install).value, o, now);
      SubscriptionExact(w, a, o, now);
    } else {
      assert OLMInstalled(a, o, w.mapped) == None && !OLMPasses(a, o, w.mapped);
      SourcesExact(w, a, o, now);
    }
  }

  lemma SourcesExact(w: World, a: Manifest, o: OLMObservation, now: int)
    requires !SourcesUp(a, o)
    ensures var r := OLMStep(w, a, o, now);
      r.outcome == OLMOutcome(a, o, w.mapped) && AvailabilityAfter(w.status, r.w.status, OLMComplaint(a, o, w.mapped)) && r.w.status.Find(Installed) == w.status.Find(Installed)
  {
    ParseExact(a.spec.install);
    if a.spec.install.itype.UnknownInstallType? {
    } else if !Configured(a.spec.install) {
    } else if !o.operatorGroupOk || !o.networkPolicyOk {
    } else if !Connected(o.catalogSource) {
    } else {
      AdditionalExact(w, a, o, now);
    }
  }

  lemma AdditionalExact(w: World, a: Manifest, o: OLMObservation, now: int)
    requires MainSourceUp(a, o) && !SourcesUp(a, o)
    ensures var r := OLMStep(w, a, o, now);
      r.outcome == OLMOutcome(a, o, w.mapped) && AvailabilityAfter(w.status, r.w.status, OLMComplaint(a, o, w.mapped)) && r.w.status.Find(Installed) == w.status.Find(Installed)
  {
    ParseExact(a.spec.install);
    var common := Selected(a.spec.install).value;
    assert AdditionalSourcesValid(common) <==> Named(common.additionalCatalogSources);
    assert OLMStep(w, a, o, now) == AdditionalStep(w, a, common, o, now);
    if !Named(common.additionalCatalogSources) {} else if o.additionalSources.NotReady? {} else {}
  }

  // ----- All sub-reconcilers -----

  function ProbeComplaint(p: Probe, reason: Reason): Option<Complaint> {
    if p.NotReady? then Some(Complaint(reason, PhasePending, Detail(p.text))) else None
  }

  /** Why the sub-reconciler withdraws availability, if it does. */
  function ComplaintOf(k: SubKind, i: Input, mapped: bool): Option<Complaint> {
    match k
    case DeletionSub => None
    case NamespaceSub => ProbeComplaint(i.namespaces, UnreadyNamespaces)
    case PackageSub => ProbeComplaint(i.package, UnreadyClusterPackageTemplate)
    case SecretSub => ProbeComplaint(i.secrets, MissingSecretForPropagation)
    case InstanceSub =>
      if !Configured(i.manifest.spec.install) && !i.manifest.spec.install.itype.UnknownInstallType?
      then Some(Misconfigured(i.manifest.spec.install)) else None
    case OLMSub => OLMComplaint(i.manifest, i.olm, mapped)
    case FederationSub => ProbeComplaint(i.federation, UnreadyMonitoringFederation)
    case MonitoringStackSub => ProbeComplaint(i.monitoringStack, UnreadyMonitoringStack)
  }

  /** When the timeout of a deletion is counted from, and for how long. */
  function WaitingSince(s: Status, i: Input): int {
    if AwaitingAck(s) then s.Find(ReadyToBeDeleted).value.transition else i.now
  }

  function Interval(a: Manifest): int {
    if a.deleteTimeout.Duration? then a.deleteTimeout.length else 3600
  }

  predicate TimedOut(s: Status, i: Input) { i.clock > WaitingSince(s, i) + Interval(i.manifest) }

  /** The deletion sub-reconciler has something to do and needs the addon's answer for it. */
  predicate NeedsAnswer(s: Status, i: Input) {
    i.manifest.markedForDeletion && !s.IsTrue(ReadyToBeDeleted) && i.manifest.spec.deleteAckRequired
  }

  /** The sub-reconciler lets the pass go on; `s` and `mapped` are as the pass found them. */
  predicate Passes(k: SubKind, i: Input, s: Status, mapped: bool) {
    match k
    case DeletionSub => NeedsAnswer(s, i) ==> i.ack == Acked || (i.ack == NotAcked && TimedOut(s, i))
    case NamespaceSub => i.namespaces == ProbeDone
    case PackageSub => i.package != ProbeFailed
    case SecretSub => i.secrets == ProbeDone
    case InstanceSub => Configured(i.manifest.spec.install) && i.instanceOk
    case OLMSub => OLMPasses(i.manifest, i.olm, mapped)
    case FederationSub => i.federation == ProbeDone
    case MonitoringStackSub => i.monitoringStack == ProbeDone
  }

  function ProbeOutcome(p: Probe, retry: Outcome): Outcome {
    if p == ProbeFailed then Failed else if p == ProbeDone then Zero else retry
  }

  /** How the sub-reconciler ends. */
  function OutcomeOf(k: SubKind, i: Input, s: Status, mapped: bool): Outcome {
    match k
    case DeletionSub =>
      if !NeedsAnswer(s, i) || i.ack == Acked || (i.ack == NotAcked && TimedOut(s, i)) then Zero
      else if i.ack == HandlerFailed then Failed else RequeueAfter(Interval(i.manifest))
    case NamespaceSub => ProbeOutcome(i.namespaces, RequeueAfter(10))
    case PackageSub => ProbeOutcome(i.package, Zero)
    case SecretSub => ProbeOutcome(i.secrets, RequeueAfter(10))
    case InstanceSub => if Configured(i.manifest.spec.install) && i.instanceOk then Zero else Failed
    case OLMSub => OLMOutcome(i.manifest, i.olm, mapped)
    case FederationSub => ProbeOutcome(i.federation, RequeueAfter(10))
    case MonitoringStackSub => ProbeOutcome(i.monitoringStack, Requeue)
  }

  lemma PassesExact(k: SubKind, i: Input, s: Status, mapped: bool)
    ensures OutcomeOf(k, i, s, mapped) == Zero <==> Passes(k, i, s, mapped)
  {
    OLMPassesExact(i.manifest, i.olm, mapped);
  }

  function InstalledBy(k: SubKind, i: Input, mapped: bool): Option<bool> {
    if k == OLMSub then OLMInstalled(i.manifest, i.olm, mapped) else None
  }

  lemma DeletionOutcome(s: Status, i: Input, mapped: bool)
    ensures DeletionStatus(s, i.manifest, i.ack, i.now, i.clock).1 == OutcomeOf(DeletionSub, i, s, mapped)
  {
    if NeedsAnswer(s, i) && i.ack == NotAcked {
      var waiting := ReportReadyToBeDeleted(s, i.manifest.generation, false, i.now);
      assert waiting.Find(ReadyToBeDeleted).value.transition == WaitingSince(s, i);
      assert DeleteTimeoutInterval(i.manifest) == Interval(i.manifest);
    }
  }

  /** The part of the state that decides, as the pass found it: until it is the sub-reconciler's turn nobody else
      touches it. */
  predicate AsFound(k: SubKind, w: World, s: Status, mapped: bool) {
    (k == DeletionSub ==> SameDeletion(s, w.status)) && (k == OLMSub ==> w.mapped == mapped)
  }

  lemma ProbeExact(s: Status, a: Manifest, p: Probe, reason: Reason, retry: Outcome, now: int)
    ensures var (r, out) := ProbeStep(s, a, p, reason, retry, now);
      && out == ProbeOutcome(p, retry)
      && AvailabilityAfter(s, r, ProbeComplaint(p, reason)) && r.Find(Installed) == s.Find(Installed)
  {
  }

  lemma InstanceExact(s: Status, i: Input)
    ensures var (r, out) := InstanceStep(s, i.manifest, i.instanceOk, i.now);
      && out == OutcomeOf(InstanceSub, i, s, false)
      && AvailabilityAfter(s, r, ComplaintOf(InstanceSub, i, false)) && r.Find(Installed) == s.Find(Installed)
  {
    ParseExact(i.manifest.spec.install);
  }

  lemma SubExact(k: SubKind, w: World, i: Input, s: Status, mapped: bool)
    requires AsFound(k, w, s, mapped)
    ensures var r := SubStep(k, w, i);
      Decides(w.status, r.w.status, r.outcome, OutcomeOf(k, i, s, mapped), ComplaintOf(k, i, mapped), InstalledBy(k, i, mapped))
  {
    if k == OLMSub { OLMSubExact(w, i, s); }
    else if k == DeletionSub { DeletionSubExact(w, i, s, mapped); }
    else { OtherExact(k, w, i, s, mapped); }
  }

  lemma OLMSubExact(w: World, i: Input, s: Status)
    ensures var r := SubStep(OLMSub, w, i);
      Decides(w.status, r.w.status, r.outcome, OutcomeOf(OLMSub, i, s, w.mapped), ComplaintOf(OLMSub, i, w.mapped), InstalledBy(OLMSub, i, w.mapped))
  {
    OLMExact(w.(log := w.log + [Ran(OLMSub)]), i.manifest, i.olm, i.now);
  }

  lemma SameAnswer(s: Status, t: Status, i: Input)
    requires SameDeletion(s, t)
    ensures NeedsAnswer(s, i) == NeedsAnswer(t, i) && TimedOut(s, i) == TimedOut(t, i)
  {
  }

  lemma DeletionSubExact(w: World, i: Input, s: Status, mapped: bool)
    requires SameDeletion(s, w.status)
    ensures var r := SubStep(DeletionSub, w, i);
      && r.outcome == OutcomeOf(DeletionSub, i, s, mapped)
      && AvailabilityAfter(w.status, r.w.status, None) && r.w.status.Find(Installed) == w.status.Find(Installed)
  {
    SameAnswer(s, w.status, i);
    DeletionOutcome(w.status, i, mapped);
    DeletionRelations(w.status, i);
  }

  lemma OtherExact(k: SubKind, w: World, i: Input, s: Status, mapped: bool)
    requires k != OLMSub && k != DeletionSub
    ensures var r := SubStep(k, w, i);
      && r.outcome == OutcomeOf(k, i, s, mapped)
      && AvailabilityAfter(w.status, r.w.status, ComplaintOf(k, i, mapped)) && r.w.status.Find(Installed) == w.status.Find(Installed)
  {
    var (t, a) := (w.status, i.manifest);
    match k
    case NamespaceSub => ProbeExact(t, a, i.namespaces, UnreadyNamespaces, RequeueAfter(DefaultRetryAfter), i.now);
    case PackageSub => ProbeExact(t, a, i.package, UnreadyClusterPackageTemplate, Zero, i.now);
    case SecretSub => ProbeExact(t, a, i.secrets, MissingSecretForPropagation, RequeueAfter(DefaultRetryAfter), i.now);
    case InstanceSub => InstanceExact(t, i);
    case FederationSub => ProbeExact(t, a, i.federation, UnreadyMonitoringFederation, RequeueAfter(DefaultRetryAfter), i.now);
    case MonitoringStackSub => ProbeExact(t, a, i.monitoringStack, UnreadyMonitoringStack, Requeue, i.now);
  }

  // ----- A list of sub-reconcilers -----

  predicate AllPass(ks: seq<SubKind>, i: Input, s: Status, mapped: bool) {
    forall k :: k in ks ==> Passes(k, i, s, mapped)
  }

  /** How the list ends: as the first sub-reconciler that does not end with zero. */
  function StopOutcome(ks: seq<SubKind>, i: Input, s: Status, mapped: bool): Outcome {
    if ks == [] then Zero
    else if OutcomeOf(ks[0], i, s, mapped) != Zero then OutcomeOf(ks[0], i, s, mapped)
    else StopOutcome(ks[1..], i, s, mapped)
  }

  lemma {:induction false} AllPassExact(ks: seq<SubKind>, i: Input, s: Status, mapped: bool)
    ensures StopOutcome(ks, i, s, mapped) == Zero <==> AllPass(ks, i, s, mapped)
  {
    if ks != [] {
      PassesExact(ks[0], i, s, mapped);
      AllPassExact(ks[1..], i, s, mapped);
      assert forall k :: k in ks <==> k == ks[0] || k in ks[1..];
    }
  }

  /** The last complaint of those that are executed. */
  function LastComplaint(ks: seq<SubKind>, i: Input, s: Status, mapped: bool): Option<Complaint> {
    if ks == [] then None
    else
      var rest := if Passes(ks[0], i, s, mapped) then LastComplaint(ks[1..], i, s, mapped) else None;
      if rest.Some? then rest else ComplaintOf(ks[0], i, mapped)
  }

  /** What OLM says about Installed, if it is executed. */
  function InstalledVerdict(ks: seq<SubKind>, i: Input, s: Status, mapped: bool): Option<bool> {
    if ks == [] then None
    else if ks[0] == OLMSub then InstalledBy(OLMSub, i, mapped)
    else if Passes(ks[0], i, s, mapped) then InstalledVerdict(ks[1..], i, s, mapped)
    else None
  }

  predicate AllAsFound(ks: seq<SubKind>, w: World, s: Status, mapped: bool) {
    (DeletionSub in ks ==> SameDeletion(s, w.status)) && (OLMSub in ks ==> w.mapped == mapped)
  }

  lemma StillAsFound(ks: seq<SubKind>, w: World, i: Input, s: Status, mapped: bool)
    requires ks != [] && NoDuplicates(ks) && AllAsFound(ks, w, s, mapped)
    ensures AsFound(ks[0], w, s, mapped) && AllAsFound(ks[1..], SubStep(ks[0], w, i).w, s, mapped)
  {
    DistinctTail(ks);
    SubRelations(ks[0], w, i);
  }

  lemma ComposeVerdicts(s: Status, m: Status, r: Status, c: Option<Complaint>, d: Option<Complaint>)
    requires AvailabilityAfter(s, m, c) && AvailabilityAfter(m, r, d)
    ensures AvailabilityAfter(s, r, if d.Some? then d else c)
  {
  }

  lemma {:induction false} NoVerdictWithoutOLM(ks: seq<SubKind>, i: Input, s: Status, mapped: bool)
    requires OLMSub !in ks
    ensures InstalledVerdict(ks, i, s, mapped) == None
  {
    if ks != [] && Passes(ks[0], i, s, mapped) { NoVerdictWithoutOLM(ks[1..], i, s, mapped); }
  }

  lemma {:induction false} ListExact(ks: seq<SubKind>, w: World, i: Input, s: Status, mapped: bool)
    requires NoDuplicates(ks) && AllAsFound(ks, w, s, mapped)
    ensures var r := RunSubs(ks, w, i);
      Decides(w.status, r.w.status, r.outcome, StopOutcome(ks, i, s, mapped), LastComplaint(ks, i, s, mapped), InstalledVerdict(ks, i, s, mapped))
  {
    if ks != [] {
      StillAsFound(ks, w, i, s, mapped);
      DistinctTail(ks);
      SubExact(ks[0], w, i, s, mapped);
      PassesExact(ks[0], i, s, mapped);
      var m := SubStep(ks[0], w, i);
      if m.outcome == Zero {
        ListExact(ks[1..], m.w, i, s, mapped);
        ComposeVerdicts(w.status, m.w.status, RunSubs(ks[1..], m.w, i).w.status, ComplaintOf(ks[0], i, mapped), LastComplaint(ks[1..], i, s, mapped));
        if ks[0] == OLMSub { NoVerdictWithoutOLM(ks[1..], i, s, mapped); }
      }
    }
  }

  // ----- The order -----

  /** The order in which sub-reconcilers are meant to run. */
  const FullOrder := [DeletionSub, NamespaceSub, PackageSub, SecretSub, InstanceSub, OLMSub, FederationSub, MonitoringStackSub]

  function Position(k: SubKind): (n: nat)
    ensures n < |FullOrder| && FullOrder[n] == k
  {
    match k
    case DeletionSub => 0
    case NamespaceSub => 1
    case PackageSub => 2
    case SecretSub => 3
    case InstanceSub => 4
    case OLMSub => 5
    case FederationSub => 6
    case MonitoringStackSub => 7
  }

  lemma OrderExact(k: SubKind, l: SubKind)
    ensures Order(k) <= Order(l) <==> Position(k) <= Position(l)
  {
  }

  predicate Ascending(ks: seq<SubKind>) {
    forall j, l :: 0 <= j < l < |ks| ==> Position(ks[j]) < Position(ks[l])
  }

  lemma {:induction false} InOrderAscends(ks: seq<SubKind>)
    requires InOrder(ks) && NoDuplicates(ks)
    ensures Ascending(ks)
  {
    if ks != [] {
      DistinctTail(ks);
      InOrderAscends(ks[1..]);
      forall l | 0 < l < |ks| ensures Position(ks[0]) < Position(ks[l]) {
        HeadIsLeast(ks, ks[l]);
        OrderExact(ks[0], ks[l]);
        assert ks[l] in ks[1..] && ks[0] != ks[l];
      }
      forall j, l | 0 <= j < l < |ks| ensures Position(ks[j]) < Position(ks[l]) {
        if j > 0 { assert ks[j] == ks[1..][j - 1] && ks[l] == ks[1..][l - 1]; }
      }
    }
  }

  /** The executed list is the registered sub-reconcilers in the order meant for them. */
  lemma SortedAscends(cfg: Config)
    requires WellConfigured(cfg)
    ensures Ascending(Sorted(cfg.subs)) && NoDuplicates(Sorted(cfg.subs))
    ensures forall k :: k in Sorted(cfg.subs) <==> k in cfg.subs
  {
    SortedIsOrderedPermutation(cfg.subs);
    SortedKeepsMembers(cfg.subs);
    InOrderAscends(Sorted(cfg.subs));
  }

  // ----- The pass -----

  lemma StartKeeps(w: World, i: Input)
    requires SubsStart(w, i).Some?
    ensures var u := SubsStart(w, i).value;
      && u.mapped == w.mapped && SameDeletion(w.persisted, u.status) && u.status.phase == w.persisted.phase
      && u.status.Find(Available) == w.persisted.Find(Available) && (u.status.IsTrue(Installed) <==> w.persisted.IsTrue(Installed))
  {
    PreparedSilent(w.persisted, i);
  }

  /** All sub-reconcilers let the pass go on and the package check has passed. */
  predicate BecomesReady(cfg: Config, w: World, i: Input) {
    AllPass(cfg.subs, i, w.persisted, w.mapped) && (PackageSub in cfg.subs ==> i.packageCheck == ProbeDone)
  }

  /** All sub-reconcilers let the pass go on, but the package check finds the package not ready. */
  predicate PackageUnready(cfg: Config, w: World, i: Input) {
    AllPass(cfg.subs, i, w.persisted, w.mapped) && PackageSub in cfg.subs && (i.packageCheck == Waiting || i.packageCheck.NotReady?)
  }

  predicate AfterSubs(cfg: Config, w: World, i: Input, r: Status) {
    && (if BecomesReady(cfg, w, i)
        then r.IsTrue(Available) && r.Find(Available).value.reason == FullyReconciled && r.phase == PhaseReady
        else if PackageUnready(cfg, w, i) then Withdrawn(r, Complaint(UnreadyClusterPackageTemplate, PhasePending, Fixed))
        else AvailabilityAfter(w.persisted, r, LastComplaint(Sorted(cfg.subs), i, w.persisted, w.mapped)))
    && InstalledAfter(w.persisted, r, InstalledVerdict(Sorted(cfg.subs), i, w.persisted, w.mapped))
  }

  lemma ConcludeExact(ks: seq<SubKind>, w: World, i: Input)
    ensures var r := Conclude(ks, w, i).status;
      && r.Find(Installed) == w.status.Find(Installed)
      && (if PackageSub in ks ==> i.packageCheck == ProbeDone
          then r.IsTrue(Available) && r.Find(Available).value.reason == FullyReconciled && r.phase == PhaseReady
          else if i.packageCheck == ProbeFailed then r == w.status
          else Withdrawn(r, Complaint(UnreadyClusterPackageTemplate, PhasePending, Fixed)))
  {
  }

  lemma SubsPassExact(cfg: Config, w: World, i: Input)
    requires WellConfigured(cfg) && SubsStart(w, i).Some?
    ensures AfterSubs(cfg, w, i, SubsPass(cfg, SubsStart(w, i).value, i).status)
  {
    var (u, ks) := (SubsStart(w, i).value, Sorted(cfg.subs));
    StartKeeps(w, i);
    SortedAscends(cfg);
    ListExact(ks, u, i, w.persisted, w.mapped);
    AllPassExact(ks, i, w.persisted, w.mapped);
    assert AllPass(ks, i, w.persisted, w.mapped) <==> AllPass(cfg.subs, i, w.persisted, w.mapped);
    var r := RunSubs(ks, u, i);
    StartedFrom(w.persisted, u.status, r.w.status, LastComplaint(ks, i, w.persisted, w.mapped), InstalledVerdict(ks, i, w.persisted, w.mapped));
    if r.outcome == Zero {
      ConcludeExact(ks, r.w, i);
      ConcludedExact(cfg, w, i, r.w.status, Conclude(ks, r.w, i).status);
    }
  }

  lemma StartedFrom(s: Status, u: Status, r: Status, c: Option<Complaint>, v: Option<bool>)
    requires u.Find(Available) == s.Find(Available) && u.phase == s.phase && (u.IsTrue(Installed) <==> s.IsTrue(Installed))
    requires AvailabilityAfter(u, r, c) && InstalledAfter(u, r, v)
    ensures AvailabilityAfter(s, r, c) && InstalledAfter(s, r, v)
  {
  }

  lemma ConcludedExact(cfg: Config, w: World, i: Input, m: Status, r: Status)
    requires AllPass(cfg.subs, i, w.persisted, w.mapped)
    requires AvailabilityAfter(w.persisted, m, LastComplaint(Sorted(cfg.subs), i, w.persisted, w.mapped))
    requires InstalledAfter(w.persisted, m, InstalledVerdict(Sorted(cfg.subs), i, w.persisted, w.mapped))
    requires r.Find(Installed) == m.Find(Installed)
    requires if PackageSub in cfg.subs ==> i.packageCheck == ProbeDone
             then r.IsTrue(Available) && r.Find(Available).value.reason == FullyReconciled && r.phase == PhaseReady
             else if i.packageCheck == ProbeFailed then r == m
             else Withdrawn(r, Complaint(UnreadyClusterPackageTemplate, PhasePending, Fixed))
    ensures AfterSubs(cfg, w, i, r)
  {
  }

  /** Availability, Installed and the phase after a saved pass, for every state and all answers. */
  predicate AfterPass(cfg: Config, w: World, i: Input, r: Status) {
    if i.manifest.deletionTimestamp then
      && AvailabilityAfter(w.persisted, r, if w.finalizer then Some(Complaint(Terminating, PhaseTerminating, NoMessage)) else None)
      && InstalledAfter(w.persisted, r, None)
    else if SubsStart(w, i).Some? then AfterSubs(cfg, w, i, r)
    else AvailabilityAfter(w.persisted, r, None) && InstalledAfter(w.persisted, r, None)
  }

  lemma IdleCoreExact(cfg: Config, w: World, i: Input)
    requires i.fetched && !i.manifest.deletionTimestamp && SubsStart(w, i).None?
    ensures var r := ReconcileCore(cfg, w.(status := w.persisted), i).status;
      AvailabilityAfter(w.persisted, r, None) && InstalledAfter(w.persisted, r, None)
  {
    var r := ReconcileCore(cfg, w.(status := w.persisted), i).status;
    var (s, g) := (w.persisted, i.manifest.generation);
    if i.globalPause {
      assert r == ReportPause(s, g, AddonOperatorPaused, i.now);
    } else if i.manifest.spec.paused {
      assert r == ReportPause(s, g, AddonPaused, i.now);
    } else if BeingUpgraded(s, i.manifest) {
      assert r == ReportUpgradeStarted(RemovePause(s, g), g, i.now);
      UpgradeStartSilent(RemovePause(s, g), g, i.now);
    } else {
      assert r == Prepared(s, i);
      PreparedSilent(s, i);
    }
  }

  lemma UpgradeStartSilent(s: Status, g: int, now: int)
    ensures var r := ReportUpgradeStarted(s, g, now); AvailabilityAfter(s, r, None) && InstalledAfter(s, r, None)
  {
    if s.Has(UpgradeSucceeded) {} else {}
  }

  lemma PreparedSilent(s: Status, i: Input)
    ensures AvailabilityAfter(s, Prepared(s, i), None) && InstalledAfter(s, Prepared(s, i), None) && SameDeletion(s, Prepared(s, i))
  {
    if RemovePause(s, i.manifest.generation).Has(Installed) {} else {}
  }

  lemma DeletionCoreExact(w: World, i: Input)
    ensures var r := DeletionPass(w, i).status;
      && AvailabilityAfter(w.status, r, if w.finalizer then Some(Complaint(Terminating, PhaseTerminating, NoMessage)) else None)
      && InstalledAfter(w.status, r, None)
  {
    if w.finalizer { assert DeletionPass(w, i).status == ReportTermination(w.status, i.manifest.generation, i.now); }
  }

  lemma CoreExact(cfg: Config, w: World, i: Input)
    requires WellConfigured(cfg) && i.fetched
    ensures AfterPass(cfg, w, i, ReconcileCore(cfg, w.(status := w.persisted), i).status)
  {
    if i.manifest.deletionTimestamp { DeletionCoreExact(w.(status := w.persisted), i); }
    else if SubsStart(w, i).Some? {
      StartReached(cfg, w, i);
      SubsPassExact(cfg, w, i);
    } else { IdleCoreExact(cfg, w, i); }
  }

  lemma OnlyConditionsMatter(cfg: Config, w: World, i: Input, r: Status, t: Status)
    requires AfterPass(cfg, w, i, r) && t.conditions == r.conditions && t.phase == r.phase
    ensures AfterPass(cfg, w, i, t)
  {
    SameConditions(r, t);
  }

  /** A saved pass leaves Available, Installed and the phase exactly as the answers demand. */
  lemma PassExact(cfg: Config, w: World, i: Input)
    requires WellConfigured(cfg) && i.fetched && i.statusSaved
    ensures AfterPass(cfg, w, i, Pass(cfg, w, i).persisted)
  {
    CoreExact(cfg, w, i);
    var c := ReconcileCore(cfg, w.(status := w.persisted), i);
    ReportingKeeps(cfg, c, i.manifest, i.ocm);
    OnlyConditionsMatter(cfg, w, i, c.status, Pass(cfg, w, i).persisted);
  }

  /** How the sub-reconcilers of a pass end. */
  lemma StopExact(cfg: Config, w: World, i: Input)
    requires WellConfigured(cfg) && SubsStart(w, i).Some?
    ensures RunSubs(Sorted(cfg.subs), SubsStart(w, i).value, i).outcome == StopOutcome(Sorted(cfg.subs), i, w.persisted, w.mapped)
  {
    StartKeeps(w, i);
    SortedAscends(cfg);
    ListExact(Sorted(cfg.subs), SubsStart(w, i).value, i, w.persisted, w.mapped);
  }

  // ----- Consequences -----

  /** Some executed sub-reconciler complains. */
  predicate MetComplaint(ks: seq<SubKind>, i: Input, s: Status, mapped: bool) {
    exists j :: 0 <= j < |ks| && ComplaintOf(ks[j], i, mapped).Some? && forall l :: 0 <= l < j ==> Passes(ks[l], i, s, mapped)
  }

  lemma {:induction false} MetExact(ks: seq<SubKind>, i: Input, s: Status, mapped: bool)
    ensures LastComplaint(ks, i, s, mapped).Some? <==> MetComplaint(ks, i, s, mapped)
  {
    if ks != [] {
      var rest := ks[1..];
      MetExact(rest, i, s, mapped);
      if Passes(ks[0], i, s, mapped) && MetComplaint(rest, i, s, mapped) {
        var j :| 0 <= j < |rest| && ComplaintOf(rest[j], i, mapped).Some? && forall l :: 0 <= l < j ==> Passes(rest[l], i, s, mapped);
        forall l | 0 <= l < j + 1 ensures Passes(ks[l], i, s, mapped) { if l > 0 { assert ks[l] == rest[l - 1]; } }
        assert ks[j + 1] == rest[j];
      }
      if MetComplaint(ks, i, s, mapped) && ComplaintOf(ks[0], i, mapped).None? {
        var j :| 0 <= j < |ks| && ComplaintOf(ks[j], i, mapped).Some? && forall l :: 0 <= l < j ==> Passes(ks[l], i, s, mapped);
        assert rest[j - 1] == ks[j];
        forall l | 0 <= l < j - 1 ensures Passes(rest[l], i, s, mapped) { assert rest[l] == ks[l + 1]; }
      }
    }
  }

  /** After a saved pass that reaches the sub-reconcilers the Addon is available if and only if everything is ready, or it
      was available before and no answer met on the way spoke against it. */
  lemma AvailableIff(cfg: Config, w: World, i: Input)
    requires WellConfigured(cfg) && i.fetched && i.statusSaved && !i.manifest.deletionTimestamp && SubsStart(w, i).Some?
    ensures Pass(cfg, w, i).persisted.IsTrue(Available) <==>
      || BecomesReady(cfg, w, i)
      || (w.persisted.IsTrue(Available) && !PackageUnready(cfg, w, i) && !MetComplaint(Sorted(cfg.subs), i, w.persisted, w.mapped))
  {
    PassExact(cfg, w, i);
    MetExact(Sorted(cfg.subs), i, w.persisted, w.mapped);
  }

  lemma {:induction false} StopsAt(ks: seq<SubKind>, k: SubKind, i: Input, s: Status, mapped: bool)
    requires Ascending(ks) && k in ks && !Passes(k, i, s, mapped) && ComplaintOf(k, i, mapped).Some?
    requires forall l :: l in ks && Position(l) < Position(k) ==> Passes(l, i, s, mapped)
    ensures LastComplaint(ks, i, s, mapped) == ComplaintOf(k, i, mapped)
  {
    if ks[0] != k {
      var j :| 0 < j < |ks| && ks[j] == k;
      assert ks[1..][j - 1] == k;
      forall a, b | 0 <= a < b < |ks[1..]| ensures Position(ks[1..][a]) < Position(ks[1..][b]) {
        assert ks[1..][a] == ks[a + 1] && ks[1..][b] == ks[b + 1];
      }
      StopsAt(ks[1..], k, i, s, mapped);
    }
  }

  /** A sub-reconciler that is reached, complains and stops the pass takes availability away, with its reason and phase:
      namespaces, secrets, sources, an unlinked or missing or unsuccessful CSV, a pending install plan, a missing
      installation, federation and monitoring stack alike. */
  lemma ComplaintWithdraws(cfg: Config, w: World, i: Input, k: SubKind)
    requires WellConfigured(cfg) && i.fetched && i.statusSaved && !i.manifest.deletionTimestamp && SubsStart(w, i).Some?
    requires k in cfg.subs && !Passes(k, i, w.persisted, w.mapped) && ComplaintOf(k, i, w.mapped).Some?
    requires forall l :: l in cfg.subs && Position(l) < Position(k) ==> Passes(l, i, w.persisted, w.mapped)
    ensures Withdrawn(Pass(cfg, w, i).persisted, ComplaintOf(k, i, w.mapped).value)
  {
    PassExact(cfg, w, i);
    SortedAscends(cfg);
    StopsAt(Sorted(cfg.subs), k, i, w.persisted, w.mapped);
  }

  /** In particular a CSV whose first reference does not say that it succeeded makes the Addon unavailable and pending. */
  lemma UnsuccessfulCSVWithdraws(cfg: Config, w: World, i: Input, common: OLMCommon, j: nat)
    requires WellConfigured(cfg) && i.fetched && i.statusSaved && !i.manifest.deletionTimestamp && SubsStart(w, i).Some?
    requires forall l :: l in cfg.subs && Position(l) < Position(OLMSub) ==> Passes(l, i, w.persisted, w.mapped)
    requires OperatorSeen(i.manifest, i.olm, w.mapped) && Selected(i.manifest.spec.install) == Some(common)
    requires FirstReference(i.olm.operator.refs, common.namespace, i.olm.subscription.currentCSV, j)
    requires !SaysSucceeded(i.olm.operator.refs[j].conditions)
    ensures var r := Pass(cfg, w, i).persisted; !r.IsTrue(Available) && r.phase == PhasePending
  {
    var (a, o) := (i.manifest, i.olm);
    forall l | 0 <= l < |o.operator.refs| && FirstReference(o.operator.refs, common.namespace, o.subscription.currentCSV, l)
      ensures l == j
    {
      OneFirstReference(o.operator.refs, common.namespace, o.subscription.currentCSV, j, l);
    }
    assert !Gone(a, o) && !Healthy(a, o);
    assert OLMComplaint(a, o, w.mapped) == Some(UnreadyCSVComplaint(Failing(a, o))) by { LinkedComplaint(a, o, w.mapped); }
    ComplaintWithdraws(cfg, w, i, OLMSub);
  }
}
