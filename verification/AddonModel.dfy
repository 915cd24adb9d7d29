/** The Addon resource: what its manifest asks for, its status block, and the status writers. */
module AddonModel {
  import opened Conditions

  // ----- Manifest: spec and metadata, owned by the user and by OCM -----

  datatype InstallType = OLMAllNamespaces | OLMOwnNamespace | UnknownInstallType(text: string)

  datatype AdditionalCatalogSource = AdditionalCatalogSource(name: string, image: string)

  datatype OLMCommon = OLMCommon(
    namespace: string,
    catalogSourceImage: string,
    channel: string,
    packageName: string,
    pullSecretName: string,
    config: Option<seq<(string, string)>>,
    additionalCatalogSources: seq<AdditionalCatalogSource>)

  datatype InstallSpec = InstallSpec(
    itype: InstallType,
    allNamespaces: Option<OLMCommon>,
    ownNamespace: Option<OLMCommon>)

  datatype AddonSpec = AddonSpec(
    version: string,
    paused: bool,
    correlationID: string,
    install: InstallSpec,
    deleteAckRequired: bool,
    installAckRequired: bool,
    upgradePolicy: Option<string>)

  /** The delete-timeout annotation: missing, not a duration, or a duration. */
  datatype TimeoutAnnotation = NoAnnotation | Unparsable | Duration(length: int)

  datatype Manifest = Manifest(
    name: string,
    generation: int,
    spec: AddonSpec,
    markedForDeletion: bool,
    deleteTimeout: TimeoutAnnotation,
    deletionTimestamp: bool)

  // ----- Status -----

  datatype Phase = PhasePending | PhaseReady | PhaseTerminating | PhaseError

  datatype PolicyValue = ValueStarted | ValueCompleted

  datatype PolicyRecord = PolicyRecord(id: string, value: PolicyValue, version: string, generation: int)

  datatype ReportedHash = ReportedHash(hash: string, generation: int)

  datatype Status = Status(
    conditions: seq<Condition>,
    phase: Phase,
    observedGeneration: int,
    upgradePolicy: Option<PolicyRecord>,
    reportedHash: Option<ReportedHash>,
    observedVersion: string,
    lastAvailableCSV: string)
  {
    predicate Has(t: ConditionType) { Conditions.Has(conditions, t) }
    predicate IsTrue(t: ConditionType) { Conditions.IsTrue(conditions, t) }
    function Find(t: ConditionType): Option<Condition> { Conditions.Find(conditions, t) }
  }

  /** A freshly created Addon: the CRD default phase and nothing else. */
  const FreshStatus := Status([], PhasePending, 0, None, None, "", "")

  // ----- Status writers -----

  /** Writes one condition and the observed generation; every writer below goes through it. */
  function Write(s: Status, g: int, c: Condition, now: int): Status {
    s.(conditions := SetCondition(s.conditions, c, now), observedGeneration := g)
  }

  function Unavailable(s: Status, g: int, reason: Reason, message: Message, phase: Phase, now: int): Status {
    Write(s, g, Condition(Available, CFalse, reason, message, g, 0), now).(phase := phase)
  }

  function ReportPending(s: Status, g: int, reason: Reason, message: Message, now: int): Status {
    Unavailable(s, g, reason, message, PhasePending, now)
  }

  function ReportTermination(s: Status, g: int, now: int): Status {
    Unavailable(s, g, Terminating, NoMessage, PhaseTerminating, now)
  }

  /** The one writer that leaves the condition's own observed generation at zero. */
  function ReportConfigurationError(s: Status, g: int, text: string, now: int): Status {
    Write(s, g, Condition(Available, CFalse, ConfigError, Detail(text), 0, 0), now).(phase := PhaseError)
  }

  function ReportReadiness(s: Status, g: int, version: string, now: int): Status {
    Write(s, g, Condition(Available, CTrue, FullyReconciled, Fixed, g, 0), now)
      .(phase := PhaseReady, observedVersion := version)
  }

  function ReportPause(s: Status, g: int, reason: Reason, now: int): Status {
    Write(s, g, Condition(Paused, CTrue, reason, NoMessage, g, 0), now)
  }

  function RemovePause(s: Status, g: int): Status {
    s.(conditions := RemoveCondition(s.conditions, Paused), observedGeneration := g)
  }

  function ReportReadyToBeDeleted(s: Status, g: int, ready: bool, now: int): Status {
    Write(s, g,
          if ready then Condition(ReadyToBeDeleted, CTrue, AddonReadyToBeDeleted, Fixed, g, 0)
          else Condition(ReadyToBeDeleted, CFalse, AddonNotReadyToBeDeleted, Fixed, g, 0), now)
  }

  function ReportDeletionTimedOut(s: Status, g: int, now: int): Status {
    Write(s, g, Condition(DeleteTimeout, CTrue, DeletionTimedOut, Fixed, g, 0), now)
  }

  function RemoveDeleteTimeout(s: Status): Status {
    s.(conditions := RemoveCondition(s.conditions, DeleteTimeout))
  }

  function ReportUpgradeStarted(s: Status, g: int, now: int): Status {
    var s1 := if s.Has(UpgradeSucceeded)
              then s.(conditions := RemoveCondition(s.conditions, UpgradeSucceeded)) else s;
    Write(s1, g, Condition(UpgradeStarted, CTrue, AddonUpgradeStarted, Fixed, g, 0), now)
  }

  function ReportUpgradeSucceeded(s: Status, g: int, now: int): Status {
    if !s.Has(UpgradeStarted) then s
    else
      Write(s.(conditions := RemoveCondition(s.conditions, UpgradeStarted)), g,
            Condition(UpgradeSucceeded, CTrue, AddonUpgradeSucceeded, Fixed, g, 0), now)
  }

  function ReportInstalled(s: Status, g: int, now: int): Status {
    Write(s, g, Condition(Installed, CTrue, AddonInstalled, Fixed, g, 0), now)
  }

  function ReportNotYetInstalled(s: Status, g: int, now: int): Status {
    Write(s, g, Condition(Installed, CFalse, AddonNotInstalled, NotYetInstalled, g, 0), now)
  }

  function ReportUninstalled(s: Status, g: int, now: int): Status {
    if !s.Has(Installed) then s
    else Write(s, g, Condition(Installed, CFalse, AddonNotInstalled, Uninstalled, g, 0), now)
  }

  // ----- Reading the install section -----

  datatype ParsedInstall = ValidInstall(common: OLMCommon) | InvalidInstall(text: string) | UnsupportedInstall

  function ParseInstall(install: InstallSpec): ParsedInstall {
    match install.itype
    case OLMOwnNamespace => ParseSection(install.ownNamespace)
    case OLMAllNamespaces => ParseSection(install.allNamespaces)
    case UnknownInstallType(_) => UnsupportedInstall
  }

  function ParseSection(section: Option<OLMCommon>): ParsedInstall {
    if section.None? || section.value.namespace == "" then InvalidInstall("namespace")
    else if section.value.catalogSourceImage == "" then InvalidInstall("catalogSourceImage")
    else ValidInstall(section.value)
  }

  /** The section that the install type selects is there; reading it otherwise ends in a nil dereference. */
  predicate SectionPresent(install: InstallSpec) {
    match install.itype
    case OLMAllNamespaces => install.allNamespaces.Some?
    case OLMOwnNamespace => install.ownNamespace.Some?
    case UnknownInstallType(_) => true
  }

  const NoOptions := OLMCommon("", "", "", "", "", None, [])

  function CommonInstallOptions(install: InstallSpec): OLMCommon
    requires SectionPresent(install)
  {
    match install.itype
    case OLMAllNamespaces => install.allNamespaces.value
    case OLMOwnNamespace => install.ownNamespace.value
    case UnknownInstallType(_) => NoOptions
  }

  /** The cluster-scoped Operator resource that OLM keeps for the installed package. */
  function OperatorName(install: InstallSpec): string
    requires SectionPresent(install)
  {
    var common := CommonInstallOptions(install);
    common.packageName + "." + common.namespace
  }

  function SubscriptionName(addon: string): string { "addon-" + addon }

  function CatalogSourceName(addon: string): string { "addon-" + addon + "-catalog" }
}
