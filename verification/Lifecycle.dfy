/** One reconcile pass of an Addon as a function of what the outside world answers during it.
    The imperative controller in `Controller` is proved to compute exactly these functions;
    `Runs` proves what every sequence of passes keeps. */
module Lifecycle {
  import opened Conditions
  import opened AddonModel

  // ----- What a pass observes -----

  datatype CSVPhase = PhaseNone | PhaseSucceeded | PhaseFailed

  datatype RefCondition = RefCondition(ctype: string, status: string)
  datatype RichReference = RichReference(kind: string, name: string, namespace: string, conditions: seq<RefCondition>)
  datatype CSVKey = CSVKey(namespace: string, name: string)

  /** A sub-reconciler whose inner work is not modelled: it fails, reports why it is not ready,
      waits without reporting, or is done. */
  datatype Probe = ProbeFailed | NotReady(text: string) | Waiting | ProbeDone

  datatype SubscriptionProbe = SubscriptionFailed | SubscriptionSeen(installedCSV: string, currentCSV: string)
  datatype InstallPlanProbe = AutomaticApproval | PlanFailed | RequiresApproval | PlanApproved
  datatype OperatorProbe = OperatorFailed | OperatorNotFound | OperatorFound(refs: seq<RichReference>)
  datatype DeleteConfigMapProbe = ConfigMapFailed | ConfigMapUnlabelled | ConfigMapLabelled
  datatype InstanceProbe = InstanceFailed | InstanceFound(installed: Option<ConditionStatus>)

  datatype OLMObservation = OLMObservation(
    operatorGroupOk: bool,
    networkPolicyOk: bool,
    catalogSource: Probe,
    additionalSources: Probe,
    subscription: SubscriptionProbe,
    subscriptionReread: bool,
    installPlan: InstallPlanProbe,
    routeTaken: bool,
    operator: OperatorProbe,
    deleteConfigMap: DeleteConfigMapProbe,
    instance: InstanceProbe)

  datatype AckOutcome = HandlerFailed | Acked | NotAcked
  datatype TemplateDeletion = TemplateFailed | TemplateWasThere | TemplateGone

  datatype PolicyState = StateNone | StatePending | StateScheduled | StateStarted | StateCompleted | StateOther

  datatype OCMObservation = OCMObservation(
    client: bool,
    policyEnabled: bool,
    statusEnabled: bool,
    policyState: Option<PolicyState>,
    startedAccepted: bool,
    completedAccepted: bool,
    postAccepted: bool)

  /** Everything one pass reads: the manifest, the clocks, and each external answer. */
  datatype Input = Input(
    manifest: Manifest,
    now: int,
    clock: int,
    fetched: bool,
    globalPause: bool,
    finalizerAdded: bool,
    updateResets: bool,
    ack: AckOutcome,
    namespaces: Probe,
    package: Probe,
    packageCheck: Probe,
    secrets: Probe,
    instanceOk: bool,
    olm: OLMObservation,
    federation: Probe,
    monitoringStack: Probe,
    terminationSaved: bool,
    template: TemplateDeletion,
    finalizerRemoved: bool,
    ocm: OCMObservation,
    statusSaved: bool)

  // ----- State and log -----

  datatype SubKind =
    | DeletionSub | NamespaceSub | PackageSub | SecretSub | InstanceSub | OLMSub | FederationSub | MonitoringStackSub

  datatype PayloadCondition = PayloadCondition(ctype: ConditionType, status: ConditionStatus, reason: Reason, message: Message)
  datatype Payload = Payload(addonID: string, correlationID: string, version: string, conditions: seq<PayloadCondition>)

  datatype Event =
    | Ran(kind: SubKind)
    | BecameReady(readyVersion: string)
    | TemplateSeenGone | MappingFreed | FinalizerDropped
    | PolicyRead(readID: string)
    | Started(startedID: string, startedVersion: string)
    | Completed(completedID: string, completedVersion: string)
    | Posted(payload: Payload)

  /** `status` is the copy a pass works on, `persisted` the one in the API server; `mapped` says
      whether the event handler routes the operator resource to this Addon. */
  datatype World = World(status: Status, persisted: Status, finalizer: bool, mapped: bool, log: seq<Event>)

  datatype Outcome = Failed | Zero | Stop | Requeue | RequeueAfter(delay: int)

  datatype Sub = Sub(w: World, outcome: Outcome)

  datatype Config = Config(subs: seq<SubKind>, hash: Payload -> string)

  const DefaultRetryAfter := 10
  const DefaultDeleteTimeout := 3600

  // ----- Deletion sub-reconciler -----

  function DeleteTimeoutInterval(a: Manifest): int {
    match a.deleteTimeout
    case Duration(d) => d
    case _ => DefaultDeleteTimeout
  }

  predicate DeletionTimedOutAt(s: Status, a: Manifest, clock: int) {
    var c := s.Find(ReadyToBeDeleted);
    c.Some? && c.value.status != CTrue && clock > c.value.transition + DeleteTimeoutInterval(a)
  }

  function AcknowledgeDeletion(s: Status, a: Manifest, now: int): Status {
    ReportReadyToBeDeleted(RemoveDeleteTimeout(s), a.generation, true, now)
  }

  function DeletionStatus(s: Status, a: Manifest, ack: AckOutcome, now: int, clock: int): (Status, Outcome) {
    if !a.markedForDeletion || s.IsTrue(ReadyToBeDeleted) then (s, Zero)
    else if !a.spec.deleteAckRequired then (AcknowledgeDeletion(s, a, now), Zero)
    else
      var waiting := ReportReadyToBeDeleted(s, a.generation, false, now);
      match ack
      case HandlerFailed => (waiting, Failed)
      case Acked => (AcknowledgeDeletion(waiting, a, now), Zero)
      case NotAcked =>
        if DeletionTimedOutAt(waiting, a, clock) then (ReportDeletionTimedOut(waiting, a.generation, now), Zero)
        else (waiting, RequeueAfter(DeleteTimeoutInterval(a)))
  }

  // ----- OLM sub-reconciler -----

  /** The first reference to the given CSV, in list order. */
  function FindCSVReference(refs: seq<RichReference>, key: CSVKey): (r: Option<RichReference>)
    ensures r.Some? ==> r.value in refs && Refers(r.value, key)
    ensures r.None? <==> forall x :: x in refs ==> !Refers(x, key)
  {
    if refs == [] then None
    else if Refers(refs[0], key) then Some(refs[0])
    else FindCSVReference(refs[1..], key)
  }

  predicate Refers(x: RichReference, key: CSVKey) {
    x.kind == "ClusterServiceVersion" && x.name == key.name && x.namespace == key.namespace
  }

  /** Decided by the first `Succeeded` condition; without one the phase is unknown. */
  function PhaseOf(cs: seq<RefCondition>): (p: CSVPhase)
    ensures p == PhaseNone <==> forall c :: c in cs ==> c.ctype != "Succeeded"
    ensures p == PhaseSucceeded ==> RefCondition("Succeeded", "True") in cs
  {
    if cs == [] then PhaseNone
    else if cs[0].ctype == "Succeeded" then (if cs[0].status == "True" then PhaseSucceeded else PhaseFailed)
    else PhaseOf(cs[1..])
  }

  function KeyText(key: CSVKey): string { key.namespace + "/" + key.name }

  function InstalledStep(s: Status, a: Manifest, o: OLMObservation, ref: Option<RichReference>, now: int): (Status, Outcome) {
    if ref.None? then
      var missing := ReportPending(s, a.generation, MissingCSV, Fixed, now);
      match o.deleteConfigMap
      case ConfigMapFailed => (missing, Failed)
      case ConfigMapLabelled => (ReportUninstalled(missing, a.generation, now), Stop)
      case ConfigMapUnlabelled => (missing, Requeue)
    else if PhaseOf(ref.value.conditions) != PhaseSucceeded then (s, Zero)
    else if !a.spec.installAckRequired then (ReportInstalled(s, a.generation, now), Zero)
    else match o.instance
      case InstanceFailed => (s, Failed)
      case InstanceFound(Some(CTrue)) => (ReportInstalled(s, a.generation, now), Zero)
      case InstanceFound(Some(CUnknown)) => (s, Requeue)
      case InstanceFound(_) => (ReportPending(s, a.generation, InstanceNotInstalled, Fixed, now), Requeue)
  }

  predicate UpgradeConcluded(s: Status, key: CSVKey, phase: CSVPhase) {
    s.IsTrue(UpgradeStarted) && KeyText(key) != s.lastAvailableCSV && phase == PhaseSucceeded
  }

  /** Upgrade conclusion first, then the report of a CSV that has not succeeded. */
  function PhaseStep(s: Status, a: Manifest, key: CSVKey, phase: CSVPhase, now: int): (Status, Outcome) {
    var s1 := if UpgradeConcluded(s, key, phase) then ReportUpgradeSucceeded(s, a.generation, now) else s;
    if phase == PhaseSucceeded then (s1, Zero)
    else (ReportPending(s1, a.generation, UnreadyCSV, Detail(if phase == PhaseFailed then "failed" else "unknown/pending"), now), Requeue)
  }

  /** From the operator resource onwards: installed condition, upgrade conclusion, CSV phase. */
  function CSVStep(s: Status, a: Manifest, o: OLMObservation, key: CSVKey, refs: seq<RichReference>, now: int): (Status, Outcome) {
    var ref := FindCSVReference(refs, key);
    var (s1, out) := InstalledStep(s, a, o, ref, now);
    if out != Zero then (s1, out)
    else PhaseStep(s1, a, key, if ref.None? then PhaseNone else PhaseOf(ref.value.conditions), now)
  }

  function ObserveStep(w: World, a: Manifest, o: OLMObservation, key: CSVKey, now: int): Sub {
    if !o.subscriptionReread || o.installPlan == PlanFailed then Sub(w, Failed)
    else if o.installPlan == RequiresApproval then
      Sub(w.(status := ReportPending(w.status, a.generation, InstallPlanPending, Fixed, now)), Stop)
    else if !w.mapped || o.routeTaken then Sub(w.(mapped := true), Requeue)
    else match o.operator
      case OperatorFailed => Sub(w, Failed)
      case OperatorNotFound => Sub(w, Requeue)
      case OperatorFound(refs) =>
        var (s, out) := CSVStep(w.status, a, o, key, refs, now);
        Sub(w.(status := s), out)
  }

  /** Additional sources need both a name and an image. */
  predicate AdditionalSourcesValid(common: OLMCommon) {
    forall x :: x in common.additionalCatalogSources ==> x.name != "" && x.image != ""
  }

  function OLMStep(w: World, a: Manifest, o: OLMObservation, now: int): Sub {
    match ParseInstall(a.spec.install)
    case InvalidInstall(text) => Sub(w.(status := ReportConfigurationError(w.status, a.generation, text, now)), Stop)
    case UnsupportedInstall => Sub(w, Stop)
    case ValidInstall(common) =>
      if !o.operatorGroupOk || !o.networkPolicyOk then Sub(w, Failed)
      else match o.catalogSource
        case ProbeFailed => Sub(w, Failed)
        case NotReady(text) =>
          Sub(w.(status := ReportPending(w.status, a.generation, UnreadyCatalogSource, Detail(text), now)), Requeue)
        case _ => AdditionalStep(w, a, common, o, now)
  }

  function AdditionalStep(w: World, a: Manifest, common: OLMCommon, o: OLMObservation, now: int): Sub {
    if common.additionalCatalogSources == [] then SubscriptionStep(w, a, common, o, now)
    else if !AdditionalSourcesValid(common) then
      Sub(w.(status := ReportConfigurationError(w.status, a.generation, "additionalCatalogSources", now)), Stop)
    else match o.additionalSources
      case ProbeFailed => Sub(w, Failed)
      case NotReady(text) =>
        Sub(w.(status := ReportPending(w.status, a.generation, UnreadyAdditionalCatalogSource, Detail(text), now)), Requeue)
      case _ => SubscriptionStep(w, a, common, o, now)
  }

  function SubscriptionStep(w: World, a: Manifest, common: OLMCommon, o: OLMObservation, now: int): Sub {
    match o.subscription
    case SubscriptionFailed => Sub(w, Failed)
    case SubscriptionSeen(installed, current) =>
      if installed == "" || current == "" then
        Sub(w.(status := Unavailable(w.status, a.generation, UnreadyCSV, CSVNotLinked, PhaseError, now)), Requeue)
      else
        var key := CSVKey(common.namespace, current);
        var r := ObserveStep(w, a, o, key, now);
        if r.outcome != Zero then r
        else Sub(r.w.(status := r.w.status.(lastAvailableCSV := KeyText(key))), Zero)
  }

  // ----- The other sub-reconcilers -----

  function ProbeStep(s: Status, a: Manifest, p: Probe, reason: Reason, retry: Outcome, now: int): (Status, Outcome) {
    match p
    case ProbeFailed => (s, Failed)
    case NotReady(text) => (ReportPending(s, a.generation, reason, Detail(text), now), retry)
    case Waiting => (s, retry)
    case ProbeDone => (s, Zero)
  }

  function InstanceStep(s: Status, a: Manifest, ok: bool, now: int): (Status, Outcome) {
    match ParseInstall(a.spec.install)
    case InvalidInstall(text) => (ReportConfigurationError(s, a.generation, text, now), Failed)
    case UnsupportedInstall => (s, Failed)
    case ValidInstall(_) => (s, if ok then Zero else Failed)
  }

  function SubStep(k: SubKind, w0: World, i: Input): Sub {
    var w := w0.(log := w0.log + [Ran(k)]);
    var (s, a) := (w.status, i.manifest);
    if k == OLMSub then OLMStep(w, a, i.olm, i.now)
    else
      var (s1, out) :=
        match k
        case DeletionSub => DeletionStatus(s, a, i.ack, i.now, i.clock)
        case NamespaceSub => ProbeStep(s, a, i.namespaces, UnreadyNamespaces, RequeueAfter(DefaultRetryAfter), i.now)
        case PackageSub => ProbeStep(s, a, i.package, UnreadyClusterPackageTemplate, Zero, i.now)
        case SecretSub => ProbeStep(s, a, i.secrets, MissingSecretForPropagation, RequeueAfter(DefaultRetryAfter), i.now)
        case InstanceSub => InstanceStep(s, a, i.instanceOk, i.now)
        case FederationSub => ProbeStep(s, a, i.federation, UnreadyMonitoringFederation, RequeueAfter(DefaultRetryAfter), i.now)
        case MonitoringStackSub => ProbeStep(s, a, i.monitoringStack, UnreadyMonitoringStack, Requeue, i.now)
        case OLMSub => (s, Zero);
      Sub(w.(status := s1), out)
  }

  // ----- Order of execution -----

  function Order(k: SubKind): int {
    match k
    case DeletionSub => 0
    case NamespaceSub => 100
    case PackageSub => 200
    case SecretSub => 300
    case InstanceSub => 400
    case OLMSub => 500
    case FederationSub => 600
    case MonitoringStackSub => 700
  }

  function Insert(k: SubKind, ks: seq<SubKind>): seq<SubKind> {
    if ks == [] || Order(k) <= Order(ks[0]) then [k] + ks else [ks[0]] + Insert(k, ks[1..])
  }

  function Sorted(ks: seq<SubKind>): seq<SubKind> {
    if ks == [] then [] else Insert(ks[0], Sorted(ks[1..]))
  }

  /** Runs the sub-reconcilers up to and including the first one that does not return zero. */
  function RunSubs(ks: seq<SubKind>, w: World, i: Input): Sub {
    if ks == [] then Sub(w, Zero)
    else
      var r := SubStep(ks[0], w, i);
      if r.outcome != Zero then r else RunSubs(ks[1..], r.w, i)
  }

  /** The non-blocking package reconciler has the last word on readiness. */
  function Conclude(ks: seq<SubKind>, w: World, i: Input): World {
    var a := i.manifest;
    if PackageSub in ks && i.packageCheck == ProbeFailed then w
    else if PackageSub in ks && i.packageCheck != ProbeDone then
      w.(status := ReportPending(w.status, a.generation, UnreadyClusterPackageTemplate, Fixed, i.now))
    else
      w.(status := ReportReadiness(w.status, a.generation, a.spec.version, i.now),
         log := w.log + [BecameReady(a.spec.version)])
  }

  // ----- The pass -----

  predicate BeingUpgraded(s: Status, a: Manifest) {
    a.spec.version != "" && s.observedVersion != "" && a.spec.version != s.observedVersion
  }

  function DeletionPass(w: World, i: Input): World {
    if !w.finalizer then w
    else
      var w1 := w.(status := ReportTermination(w.status, i.manifest.generation, i.now));
      if !i.terminationSaved then w1
      else
        var w2 := w1.(persisted := w1.status);
        match i.template
        case TemplateFailed => w2
        case TemplateWasThere => w2
        case TemplateGone =>
          var w3 := w2.(mapped := false, log := w2.log + [TemplateSeenGone, MappingFreed]);
          if i.finalizerRemoved then w3.(finalizer := false, log := w3.log + [FinalizerDropped]) else w3
  }

  function EnsureFinalizer(w: World, i: Input): Sub {
    if w.finalizer then Sub(w, Zero)
    else if !i.finalizerAdded then Sub(w, Failed)
    else Sub(w.(finalizer := true, status := if i.updateResets then w.persisted else w.status), Zero)
  }

  function SubsPass(cfg: Config, w: World, i: Input): World {
    var ks := Sorted(cfg.subs);
    var r := RunSubs(ks, w, i);
    if r.outcome != Zero then r.w else Conclude(ks, r.w, i)
  }

  /** The status with which the sub-reconcilers start: not paused, Installed present. */
  function Prepared(s: Status, i: Input): Status {
    var r := RemovePause(s, i.manifest.generation);
    if r.Has(Installed) then r else ReportNotYetInstalled(r, i.manifest.generation, i.now)
  }

  function ActivePass(cfg: Config, w: World, i: Input): World {
    var f := EnsureFinalizer(w.(status := Prepared(w.status, i)), i);
    if f.outcome != Zero then f.w else SubsPass(cfg, f.w, i)
  }

  function ReconcileCore(cfg: Config, w: World, i: Input): World {
    var a := i.manifest;
    if a.deletionTimestamp then DeletionPass(w, i)
    else if i.globalPause then w.(status := ReportPause(w.status, a.generation, AddonOperatorPaused, i.now))
    else if a.spec.paused then w.(status := ReportPause(w.status, a.generation, AddonPaused, i.now))
    else if BeingUpgraded(w.status, a) then
      w.(status := ReportUpgradeStarted(RemovePause(w.status, a.generation), a.generation, i.now))
    else ActivePass(cfg, w, i)
  }

  // ----- Reporting to OCM -----

  function Recorded(s: Status, a: Manifest, id: string, v: PolicyValue): Status {
    s.(upgradePolicy := Some(PolicyRecord(id, v, a.spec.version, a.generation)))
  }

  predicate CompleteForVersion(s: Status, a: Manifest) {
    s.upgradePolicy.Some? && s.upgradePolicy.value.version == a.spec.version
    && s.upgradePolicy.value.value == ValueCompleted
  }

  predicate RequiresReporting(s: Status, a: Manifest) {
    a.spec.version != "" && a.spec.upgradePolicy.Some? && !CompleteForVersion(s, a)
  }

  function PatchStarted(w: World, a: Manifest, id: string, accepted: bool): World {
    if !accepted then w
    else w.(status := Recorded(w.status, a, id, ValueStarted), log := w.log + [Started(id, a.spec.version)])
  }

  function PatchCompleted(w: World, a: Manifest, id: string, accepted: bool): World {
    if !accepted then w
    else w.(status := Recorded(w.status, a, id, ValueCompleted), log := w.log + [Completed(id, a.spec.version)])
  }

  function PolicyStep(w: World, a: Manifest, o: OCMObservation): World {
    if !RequiresReporting(w.status, a) || !o.policyEnabled || !o.client then w
    else
      var id := a.spec.upgradePolicy.value;
      var w1 := w.(log := w.log + [PolicyRead(id)]);
      if o.policyState.None? then w1
      else
        var state := o.policyState.value;
        var record := w1.status.upgradePolicy;
        if record.None? then PatchStarted(w1, a, id, o.startedAccepted)
        else if record.value.version == "" && (state == StateCompleted || state == StatePending) then
          w1.(status := Recorded(w1.status, a, id, ValueCompleted))
        else if record.value.version != a.spec.version then PatchStarted(w1, a, id, o.startedAccepted)
        else if !w1.status.IsTrue(Available) then w1
        else if state != StateScheduled then PatchCompleted(w1, a, id, o.completedAccepted)
        else if !o.startedAccepted then w1
        else PatchCompleted(PatchStarted(w1, a, id, true), a, id, o.completedAccepted)
  }

  /** The reported fields of each condition, in list order. */
  function PayloadConditions(cs: seq<Condition>): (r: seq<PayloadCondition>)
    ensures |r| == |cs|
    ensures forall k :: 0 <= k < |cs| ==> r[k] == PayloadCondition(cs[k].ctype, cs[k].status, cs[k].reason, cs[k].message)
  {
    seq(|cs|, k requires 0 <= k < |cs| => PayloadCondition(cs[k].ctype, cs[k].status, cs[k].reason, cs[k].message))
  }

  function PayloadOf(s: Status, a: Manifest): Payload {
    Payload(a.name, a.spec.correlationID, a.spec.version, PayloadConditions(s.conditions))
  }

  predicate StatusDiffers(cfg: Config, s: Status, a: Manifest) {
    s.reportedHash.None? || s.reportedHash.value.hash != cfg.hash(PayloadOf(s, a))
  }

  function PostStep(cfg: Config, w: World, a: Manifest, o: OCMObservation): World {
    if !o.statusEnabled || !StatusDiffers(cfg, w.status, a) || !o.client || !o.postAccepted then w
    else
      var p := PayloadOf(w.status, a);
      w.(status := w.status.(reportedHash := Some(ReportedHash(cfg.hash(p), a.generation))), log := w.log + [Posted(p)])
  }

  /** One complete pass, from reading the Addon to writing its status back. */
  function Pass(cfg: Config, w: World, i: Input): World {
    if !i.fetched then w
    else
      var w1 := ReconcileCore(cfg, w.(status := w.persisted), i);
      var w2 := PostStep(cfg, PolicyStep(w1, i.manifest, i.ocm), i.manifest, i.ocm);
      var s := w2.status.(observedVersion := i.manifest.spec.version);
      w2.(status := s, persisted := if i.statusSaved then s else w2.persisted)
  }

  /** Any number of passes, each with its own manifest and its own answers. */
  function Run(cfg: Config, w: World, inputs: seq<Input>): World {
    if inputs == [] then w
    else Pass(cfg, Run(cfg, w, inputs[..|inputs| - 1]), inputs[|inputs| - 1])
  }
}
