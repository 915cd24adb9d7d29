/** The admission webhook, and what it guarantees over the life of an Addon. */
module Admission {
  import opened Conditions
  import opened AddonModel
  import EventMap
  import CoU = CreateOrUpdate

  /** The parts of an Addon that the webhook looks at; `propagated` holds the destination names. */
  datatype AddonObject = AddonObject(name: string, install: InstallSpec, propagated: Option<seq<string>>)

  datatype AdmissionError =
    | TypeInvalid | OwnNamespaceRequired | AllNamespacesRequired | MutuallyExclusive | NameCollision
    | PullSecretNotPropagated | TypeImmutable | InstallImmutable

  // ----- What the webhook accepts -----

  /** Exactly the section that the type selects, and no additional source with the Addon's own name. */
  predicate ValidInstallSpec(install: InstallSpec, name: string) {
    && !install.itype.UnknownInstallType?
    && SectionPresent(install)
    && !(install.allNamespaces.Some? && install.ownNamespace.Some?)
    && forall c :: c in CommonInstallOptions(install).additionalCatalogSources ==> c.name != name
  }

  predicate PullSecretPropagated(a: AddonObject)
    requires SectionPresent(a.install)
  {
    var pull := CommonInstallOptions(a.install).pullSecretName;
    pull == "" || a.propagated.None? || pull in a.propagated.value
  }

  predicate Valid(a: AddonObject) {
    ValidInstallSpec(a.install, a.name) && PullSecretPropagated(a)
  }

  /** Two sections agree in what may not change. */
  predicate SameSection(a: Option<OLMCommon>, b: Option<OLMCommon>) {
    && (a.Some? <==> b.Some?)
    && (a.Some? ==> a.value.namespace == b.value.namespace && a.value.packageName == b.value.packageName)
  }

  predicate SameIdentity(a: InstallSpec, b: InstallSpec) {
    a.itype == b.itype && SameSection(a.allNamespaces, b.allNamespaces) && SameSection(a.ownNamespace, b.ownNamespace)
  }

  // ----- The validators -----

  method ValidateSources(sources: seq<AdditionalCatalogSource>, name: string) returns (err: Option<AdmissionError>)
    ensures err == if forall c :: c in sources ==> c.name != name then None else Some(NameCollision)
  {
    if |sources| > 0 {
      for k := 0 to |sources|
        invariant forall c :: c in sources[..k] ==> c.name != name
      {
        if sources[k].name == name { return Some(NameCollision); }
      }
    }
    return None;
  }

  method ValidateInstallSpec(install: InstallSpec, name: string) returns (err: Option<AdmissionError>)
    ensures err.None? <==> ValidInstallSpec(install, name)
    ensures err == Some(MutuallyExclusive) <==> install.allNamespaces.Some? && install.ownNamespace.Some?
    ensures err == Some(NameCollision) ==>
      SectionPresent(install) && exists c :: c in CommonInstallOptions(install).additionalCatalogSources && c.name == name
  {
    if install.allNamespaces.Some? && install.ownNamespace.Some? { return Some(MutuallyExclusive); }
    match install.itype {
      case OLMOwnNamespace =>
        if install.ownNamespace.None? { return Some(OwnNamespaceRequired); }
        err := ValidateSources(install.ownNamespace.value.additionalCatalogSources, name);
      case OLMAllNamespaces =>
        if install.allNamespaces.None? { return Some(AllNamespacesRequired); }
        err := ValidateSources(install.allNamespaces.value.additionalCatalogSources, name);
      case UnknownInstallType(_) =>
        return Some(TypeInvalid);
    }
  }

  method ValidateSecretPropagation(a: AddonObject) returns (err: Option<AdmissionError>)
    requires SectionPresent(a.install)
    ensures err == if PullSecretPropagated(a) then None else Some(PullSecretNotPropagated)
  {
    var pull := "";
    match a.install.itype {
      case OLMAllNamespaces => pull := a.install.allNamespaces.value.pullSecretName;
      case OLMOwnNamespace => pull := a.install.ownNamespace.value.pullSecretName;
      case UnknownInstallType(_) =>
    }
    if |pull| == 0 || a.propagated.None? { return None; }
    for k := 0 to |a.propagated.value|
      invariant pull !in a.propagated.value[..k]
    {
      if a.propagated.value[k] == pull { return None; }
    }
    return Some(PullSecretNotPropagated);
  }

  method ValidateAddon(a: AddonObject) returns (err: Option<AdmissionError>)
    ensures err.None? <==> Valid(a)
  {
    err := ValidateInstallSpec(a.install, a.name);
    if err.Some? { return; }
    err := ValidateSecretPropagation(a);
  }

  /** A copy with everything blanked that may change. */
  function Blanked(section: Option<OLMCommon>): Option<OLMCommon> {
    if section.None? then None
    else Some(section.value.(catalogSourceImage := "", config := None, pullSecretName := "", additionalCatalogSources := [], channel := ""))
  }

  method ValidateAddonImmutability(a: AddonObject, before: AddonObject) returns (err: Option<AdmissionError>)
    ensures err.None? <==> SameIdentity(before.install, a.install)
    ensures err == Some(TypeImmutable) <==> a.install.itype != before.install.itype
  {
    if a.install.itype != before.install.itype { return Some(TypeImmutable); }
    var was := before.install;
    was := was.(allNamespaces := Blanked(was.allNamespaces));
    was := was.(ownNamespace := Blanked(was.ownNamespace));
    var now := a.install;
    now := now.(allNamespaces := Blanked(now.allNamespaces));
    now := now.(ownNamespace := Blanked(now.ownNamespace));
    if was != now { return Some(InstallImmutable); }
    return None;
  }

  /** Creation when there is no previous object, update otherwise. */
  method Handle(a: AddonObject, before: Option<AddonObject>) returns (allowed: bool)
    ensures allowed <==> Allowed(a, before)
  {
    var err := ValidateAddon(a);
    if err.None? && before.Some? { err := ValidateAddonImmutability(a, before.value); }
    return err.None?;
  }

  predicate Allowed(a: AddonObject, before: Option<AddonObject>) {
    Valid(a) && (before.Some? ==> SameIdentity(before.value.install, a.install))
  }

  // ----- The life of an Addon -----

  /** The versions of one Addon: created once, then updated, every request admitted. */
  ghost predicate Admitted(life: seq<AddonObject>) {
    && (|life| > 0 ==> Allowed(life[0], None))
    && forall k :: 0 < k < |life| ==> Allowed(life[k], Some(life[k - 1]))
  }

  datatype OLMCommonResult = Found(common: OLMCommon) | NotFound

  function GetInstallOLMCommon(install: InstallSpec): OLMCommonResult {
    match install.itype
    case OLMAllNamespaces => if install.allNamespaces.Some? then Found(install.allNamespaces.value) else NotFound
    case OLMOwnNamespace => if install.ownNamespace.Some? then Found(install.ownNamespace.value) else NotFound
    case UnknownInstallType(_) => NotFound
  }

  /** In every version the selected section is present, so both ways of reading it agree, and type, target namespace,
      package and therefore the Operator resource are those of the first version. */
  lemma {:induction false} AdmissionChain(life: seq<AddonObject>, k: nat)
    requires Admitted(life) && k < |life|
    ensures var (first, i) := (life[0].install, life[k].install);
      && SectionPresent(first) && SectionPresent(i)
      && GetInstallOLMCommon(i) == Found(CommonInstallOptions(i))
      && i.itype == first.itype && SameIdentity(first, i)
      && CommonInstallOptions(i).namespace == CommonInstallOptions(first).namespace
      && CommonInstallOptions(i).packageName == CommonInstallOptions(first).packageName
      && OperatorName(i) == OperatorName(first)
  {
    if k > 0 {
      AdmissionChain(life, k - 1);
      assert Allowed(life[k], Some(life[k - 1]));
    }
  }

  // ----- Consequences for the event map -----

  function OperatorKey(install: InstallSpec): EventMap.ObjectKey
    requires SectionPresent(install)
  {
    EventMap.ObjectKey("", OperatorName(install))
  }

  /** Every mapping that the Addon asks for is for the Operator resource of one of its versions. */
  ghost predicate AsksAs(calls: seq<EventMap.Call>, addon: EventMap.ObjectKey, life: seq<AddonObject>)
    requires forall a :: a in life ==> SectionPresent(a.install)
  {
    forall c :: c in calls && c.UpdateCall? && c.addon == addon ==> exists a :: a in life && c.key == OperatorKey(a.install)
  }

  /** An admitted Addon never has more than one entry in the event map: its constant operator key. */
  lemma OneKeyPerAddon(calls: seq<EventMap.Call>, addon: EventMap.ObjectKey, life: seq<AddonObject>)
    requires Admitted(life) && life != [] && (forall a :: a in life ==> SectionPresent(a.install)) && AsksAs(calls, addon, life)
    ensures EventMap.After(calls).ListOf(addon) in {[], [OperatorKey(life[0].install)]}
  {
    var key := OperatorKey(life[0].install);
    forall c | c in calls && c.UpdateCall? && c.addon == addon ensures c.key == key {
      var a :| a in life && c.key == OperatorKey(a.install);
      var k :| 0 <= k < |life| && life[k] == a;
      AdmissionChain(life, k);
    }
    EventMap.SingleKeyList(calls, addon, key);
  }

  /** The dot in between is the last one. */
  lemma NoDotBehind(s: string, p: string, n: string)
    requires '.' !in n && s == p + "." + n
    ensures |p| < |s| && s[|p|] == '.'
    ensures forall i :: |p| < i < |s| ==> s[i] != '.'
  {
    assert n == s[|p| + 1..];
    assert forall i :: |p| < i < |s| ==> s[i] == n[i - |p| - 1];
  }

  /** Where the last dot is decides the parts; namespace names have no dots. */
  lemma LastDot(p: string, n: string, q: string, m: string)
    requires '.' !in n && '.' !in m && p + "." + n == q + "." + m
    ensures p == q && n == m
  {
    var s := p + "." + n;
    NoDotBehind(s, p, n);
    NoDotBehind(s, q, m);
    assert |p| == |q|;
    assert p == s[..|p|] && q == s[..|q|];
    assert n == s[|p| + 1..] && m == s[|q| + 1..];
  }

  /** Addons that differ in package or target namespace differ in their operator key. */
  lemma OperatorKeysDiffer(a: InstallSpec, b: InstallSpec)
    requires SectionPresent(a) && SectionPresent(b)
    requires '.' !in CommonInstallOptions(a).namespace && '.' !in CommonInstallOptions(b).namespace
    ensures OperatorKey(a) == OperatorKey(b) <==>
      && CommonInstallOptions(a).packageName == CommonInstallOptions(b).packageName
      && CommonInstallOptions(a).namespace == CommonInstallOptions(b).namespace
  {
    if OperatorKey(a) == OperatorKey(b) {
      var (x, y) := (CommonInstallOptions(a), CommonInstallOptions(b));
      LastDot(x.packageName, x.namespace, y.packageName, y.namespace);
    }
  }

  /** Each Addon has an install section of its own, with a dot-free namespace, and no two share package and namespace. */
  ghost predicate DistinctInstalls(installs: map<EventMap.ObjectKey, InstallSpec>) {
    && (forall a :: a in installs ==> SectionPresent(installs[a]) && '.' !in CommonInstallOptions(installs[a]).namespace)
    && (forall a, b :: a in installs && b in installs && a != b ==>
          || CommonInstallOptions(installs[a]).packageName != CommonInstallOptions(installs[b]).packageName
          || CommonInstallOptions(installs[a]).namespace != CommonInstallOptions(installs[b]).namespace)
  }

  /** Then the event map's two directions are exact inverses, whatever is mapped and freed in whatever order. */
  lemma DistinctInstallsInvert(installs: map<EventMap.ObjectKey, InstallSpec>, calls: seq<EventMap.Call>)
    requires DistinctInstalls(installs)
    requires forall c :: c in calls && c.UpdateCall? ==> c.addon in installs && c.key == OperatorKey(installs[c.addon])
    ensures EventMap.Inverse(EventMap.After(calls))
  {
    forall c, d | c in calls && d in calls && c.UpdateCall? && d.UpdateCall? && c.key == d.key ensures c.addon == d.addon {
      OperatorKeysDiffer(installs[c.addon], installs[d.addon]);
    }
    EventMap.DistinctKeysInvert(calls);
  }

  // ----- Catalog source names -----

  function WithSource(c: OLMCommon, s: AdditionalCatalogSource): OLMCommon {
    c.(additionalCatalogSources := c.additionalCatalogSources + [s])
  }

  function AddSource(install: InstallSpec, s: AdditionalCatalogSource): InstallSpec
    requires SectionPresent(install) && !install.itype.UnknownInstallType?
  {
    if install.itype == OLMAllNamespaces then install.(allNamespaces := Some(WithSource(install.allNamespaces.value, s)))
    else install.(ownNamespace := Some(WithSource(install.ownNamespace.value, s)))
  }

  /** The collision check compares with the Addon's name, but the main catalog source has another name: adding a
      source with the main catalog source's own name is always admitted, adding one with the Addon's name never. */
  lemma CollisionCheckMissesTheName(a: AddonObject, image: string)
    requires Valid(a)
    ensures Valid(a.(install := AddSource(a.install, AdditionalCatalogSource(CatalogSourceName(a.name), image))))
    ensures !Valid(a.(install := AddSource(a.install, AdditionalCatalogSource(a.name, image))))
  {
    assert |CatalogSourceName(a.name)| == |a.name| + 14;
    var sources := CommonInstallOptions(a.install).additionalCatalogSources;
    var s := AdditionalCatalogSource(a.name, image);
    assert CommonInstallOptions(AddSource(a.install, s)).additionalCatalogSources == sources + [s];
    assert s in sources + [s];
  }

  type Source = CoU.Object<CoU.CatalogSourceSpec>

  /** What every catalog source of one Addon has in common. */
  datatype Common = Common(displayName: string, labels: map<string, string>, annotations: map<string, string>, owners: seq<CoU.OwnerRef>)

  function DesiredSource(c: OLMCommon, o: Common, name: string, image: string): (CoU.Key, Source) {
    var secrets := if |c.pullSecretName| > 0 then [c.pullSecretName] else [];
    (CoU.Key(c.namespace, name), CoU.Object(CoU.CatalogSourceSpec(o.displayName, image, secrets), o.labels, o.annotations, o.owners))
  }

  /** The main catalog source, then the additional ones. */
  function DesiredSources(c: OLMCommon, o: Common, addon: string): seq<(CoU.Key, Source)> {
    [DesiredSource(c, o, CatalogSourceName(addon), c.catalogSourceImage)] +
    seq(|c.additionalCatalogSources|, k requires 0 <= k < |c.additionalCatalogSources| =>
      DesiredSource(c, o, c.additionalCatalogSources[k].name, c.additionalCatalogSources[k].image))
  }

  /** Each source carries its own image and the Addon's display name, and the pull secret if there is one. */
  lemma DesiredSourceExact(c: OLMCommon, o: Common, name: string, image: string)
    ensures var (k, s) := DesiredSource(c, o, name, image);
      && k == CoU.Key(c.namespace, name) && s.spec.image == image && s.spec.displayName == o.displayName
      && (if c.pullSecretName == "" then s.spec.secrets == [] else s.spec.secrets == [c.pullSecretName])
      && s.labels == o.labels && s.annotations == o.annotations && s.owners == o.owners
  {
  }

  /** The check that the name comparison should have been. */
  predicate SourcesAgree(c: OLMCommon, addon: string) {
    && (forall x :: x in c.additionalCatalogSources && x.name == CatalogSourceName(addon) ==> x.image == c.catalogSourceImage)
    && (forall x, y :: x in c.additionalCatalogSources && y in c.additionalCatalogSources && x.name == y.name ==> x.image == y.image)
  }

  lemma DesiredSourcesMembers(c: OLMCommon, o: Common, addon: string, d: (CoU.Key, Source))
    ensures d in DesiredSources(c, o, addon) <==>
      || d == DesiredSource(c, o, CatalogSourceName(addon), c.catalogSourceImage)
      || exists x :: x in c.additionalCatalogSources && d == DesiredSource(c, o, x.name, x.image)
  {
    var ds := DesiredSources(c, o, addon);
    if k :| 0 < k < |ds| && ds[k] == d { assert c.additionalCatalogSources[k - 1] in c.additionalCatalogSources; }
    if x :| x in c.additionalCatalogSources && d == DesiredSource(c, o, x.name, x.image) {
      var k :| 0 <= k < |c.additionalCatalogSources| && c.additionalCatalogSources[k] == x;
      assert ds[k + 1] == d;
    }
    assert ds[0] in ds;
  }

  lemma AgreeingSourcesDoNotConflict(c: OLMCommon, o: Common, addon: string)
    ensures CoU.NoConflict(DesiredSources(c, o, addon)) <==> SourcesAgree(c, addon)
  {
    var ds := DesiredSources(c, o, addon);
    var main := DesiredSource(c, o, CatalogSourceName(addon), c.catalogSourceImage);
    forall d ensures d in ds <==> d == main || exists x :: x in c.additionalCatalogSources && d == DesiredSource(c, o, x.name, x.image) {
      DesiredSourcesMembers(c, o, addon, d);
    }
    if CoU.NoConflict(ds) {
      forall x | x in c.additionalCatalogSources && x.name == CatalogSourceName(addon) ensures x.image == c.catalogSourceImage {
        assert DesiredSource(c, o, x.name, x.image) in ds && main in ds;
      }
      forall x, y | x in c.additionalCatalogSources && y in c.additionalCatalogSources && x.name == y.name ensures x.image == y.image {
        assert DesiredSource(c, o, x.name, x.image) in ds && DesiredSource(c, o, y.name, y.image) in ds;
      }
    }
  }

  /** The catalog sources of an Addon come to rest after one complete pass exactly when sources that share a name share
      the image too. Admission does not ask for this. */
  lemma CatalogSourcesSettleIff(st: map<CoU.Key, Source>, c: OLMCommon, o: Common, addon: string)
    requires CoU.ControllerOf(o.owners).Some?
    ensures var ds := DesiredSources(c, o, addon);
      CoU.WriteCount(CoU.EnsureAll(st, ds), ds) == 0 <==> SourcesAgree(c, addon)
  {
    AgreeingSourcesDoNotConflict(c, o, addon);
    CoU.SecondPassIsIdleIff(st, DesiredSources(c, o, addon), o.labels, CoU.ControllerOf(o.owners).value);
  }
}
