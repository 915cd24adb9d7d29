/** How OperatorGroups, Subscriptions and CatalogSources are brought to their desired state: created when missing,
    otherwise compared and overwritten only where something that the operator owns differs. */
module CreateOrUpdate {
  import opened Conditions

  datatype OwnerRef = OwnerRef(uid: string, controller: bool)

  datatype Object<S> = Object(spec: S, labels: map<string, string>, annotations: map<string, string>, owners: seq<OwnerRef>)

  datatype SubscriptionSpec = SubscriptionSpec(
    catalogSource: string,
    catalogSourceNamespace: string,
    channel: string,
    package: string,
    config: Option<seq<(string, string)>>,
    installPlanApproval: string)

  type OperatorGroupSpec = seq<string>   // target namespaces

  datatype CatalogSourceSpec = CatalogSourceSpec(displayName: string, image: string, secrets: seq<string>)

  datatype Key = Key(namespace: string, name: string)

  // ----- Specification -----

  function ControllerOf(owners: seq<OwnerRef>): Option<string> {
    if owners == [] then None
    else if owners[0].controller then Some(owners[0].uid)
    else ControllerOf(owners[1..])
  }

  /** The controller is the first owner that is marked as one. */
  lemma {:induction false} ControllerExact(owners: seq<OwnerRef>) returns (j: nat)
    ensures forall l :: 0 <= l < j && l < |owners| ==> !owners[l].controller
    ensures if ControllerOf(owners).None? then j == |owners|
            else j < |owners| && owners[j].controller && ControllerOf(owners) == Some(owners[j].uid)
  {
    j := 0;
    if owners != [] && !owners[0].controller {
      var m := ControllerExact(owners[1..]);
      j := m + 1;
      forall l | 0 < l < |owners| ensures owners[l] == owners[1..][l - 1] {}
    }
  }

  predicate HasSameController(a: seq<OwnerRef>, b: seq<OwnerRef>) {
    ControllerOf(a).Some? && ControllerOf(a) == ControllerOf(b)
  }

  /** Nothing that the operator owns differs. */
  predicate UpToDate<S(==)>(current: Object<S>, desired: Object<S>) {
    && current.spec == desired.spec
    && HasSameController(current.owners, desired.owners)
    && forall l :: l in desired.labels ==> l in current.labels && current.labels[l] == desired.labels[l]
  }

  function Overwritten<S>(current: Object<S>, desired: Object<S>): Object<S> {
    current.(spec := desired.spec, owners := desired.owners, labels := current.labels + desired.labels)
  }

  function Ensured<S(==)>(current: Option<Object<S>>, desired: Object<S>): Object<S> {
    if current.None? then desired
    else if UpToDate(current.value, desired) then current.value
    else Overwritten(current.value, desired)
  }

  predicate Writes<S(==)>(current: Option<Object<S>>, desired: Object<S>) {
    current.None? || !UpToDate(current.value, desired)
  }

  /** An existing Subscription dictates the approval mode. */
  function Approving(current: Option<Object<SubscriptionSpec>>, desired: Object<SubscriptionSpec>): Object<SubscriptionSpec> {
    if current.None? then desired
    else desired.(spec := desired.spec.(installPlanApproval := current.value.spec.installPlanApproval))
  }

  function Lookup<S>(m: map<Key, Object<S>>, k: Key): Option<Object<S>> {
    if k in m then Some(m[k]) else None
  }

  // ----- The reconcilers -----

  class Store {
    var groups: map<Key, Object<OperatorGroupSpec>>
    var subscriptions: map<Key, Object<SubscriptionSpec>>
    var sources: map<Key, Object<CatalogSourceSpec>>
    var writes: nat

    constructor ()
      ensures groups == map[] && subscriptions == map[] && sources == map[] && writes == 0
    {
      groups, subscriptions, sources, writes := map[], map[], map[], 0;
    }

    method ReconcileOperatorGroup(k: Key, desired: Object<OperatorGroupSpec>) returns (ok: bool)
      modifies this`groups, this`writes
      ensures !ok ==> groups == old(groups) && writes == old(writes)
      ensures ok ==> groups == old(groups)[k := Ensured(Lookup(old(groups), k), desired)]
      ensures ok ==> writes == old(writes) + if Writes(Lookup(old(groups), k), desired) then 1 else 0
    {
      if * { return false; }
      if k !in groups {
        if * { return false; }
        groups, writes := groups[k := desired], writes + 1;
        return true;
      }
      var current := groups[k];
      var newLabels := current.labels + desired.labels;
      MergeAddsNothingIff(current.labels, desired.labels);
      if current.spec != desired.spec || !HasSameController(current.owners, desired.owners) || current.labels != newLabels {
        if * { return false; }
        groups := groups[k := current.(spec := desired.spec, owners := desired.owners, labels := newLabels)];
        writes := writes + 1;
      }
      ok := true;
    }

    method ReconcileSubscription(k: Key, desired: Object<SubscriptionSpec>)
      returns (ok: bool, observed: Option<Object<SubscriptionSpec>>)
      modifies this`subscriptions, this`writes
      ensures !ok ==> subscriptions == old(subscriptions) && writes == old(writes)
      ensures ok ==> var current := Lookup(old(subscriptions), k);
        && observed == Some(Ensured(current, Approving(current, desired)))
        && subscriptions == old(subscriptions)[k := observed.value]
        && writes == old(writes) + if Writes(current, Approving(current, desired)) then 1 else 0
    {
      if * { return false, None; }
      if k !in subscriptions {
        if * { return false, None; }
        subscriptions, writes := subscriptions[k := desired], writes + 1;
        return true, Some(desired);
      }
      var current := subscriptions[k];
      var wanted := desired.(spec := desired.spec.(installPlanApproval := current.spec.installPlanApproval));
      var newLabels := current.labels + wanted.labels;
      MergeAddsNothingIff(current.labels, wanted.labels);
      if wanted.spec != current.spec || !HasSameController(current.owners, wanted.owners) || current.labels != newLabels {
        if * { return false, None; }
        current := current.(spec := wanted.spec, owners := wanted.owners, labels := newLabels);
        subscriptions, writes := subscriptions[k := current], writes + 1;
      }
      return true, Some(current);
    }

    method ReconcileCatalogSource(k: Key, desired: Object<CatalogSourceSpec>)
      returns (ok: bool, observed: Option<Object<CatalogSourceSpec>>)
      modifies this`sources, this`writes
      ensures !ok ==> sources == old(sources) && writes == old(writes)
      ensures ok ==>
        && observed == Some(Ensured(Lookup(old(sources), k), desired))
        && sources == old(sources)[k := observed.value]
        && writes == old(writes) + if Writes(Lookup(old(sources), k), desired) then 1 else 0
    {
      if * { return false, None; }
      if k !in sources {
        if * { return false, None; }
        sources, writes := sources[k := desired], writes + 1;
        return true, Some(desired);
      }
      var current := sources[k];
      var newLabels := current.labels + desired.labels;
      MergeAddsNothingIff(current.labels, desired.labels);
      if desired.spec != current.spec || !HasSameController(current.owners, desired.owners) || newLabels != current.labels {
        if * { return false, None; }
        current := current.(spec := desired.spec, owners := desired.owners, labels := newLabels);
        sources, writes := sources[k := current], writes + 1;
      }
      return true, Some(current);
    }

    /** The main catalog source and the additional ones, one after the other; stops at one that fails or that is not
        connected yet. */
    method EnsureCatalogSources(ds: seq<(Key, Object<CatalogSourceSpec>)>) returns (ok: bool)
      modifies this`sources, this`writes
      ensures ok ==> sources == EnsureAll(old(sources), ds) && writes == old(writes) + WriteCount(old(sources), ds)
      ensures !ok ==>
        exists n: nat :: (n <= |ds| && sources == EnsureAll(old(sources), ds[..n])
                          && writes == old(writes) + WriteCount(old(sources), ds[..n]))
    {
      for k := 0 to |ds|
        invariant sources == EnsureAll(old(sources), ds[..k])
        invariant writes == old(writes) + WriteCount(old(sources), ds[..k])
      {
        var done, observed := ReconcileCatalogSource(ds[k].0, ds[k].1);
        if !done { return false; }
        assert ds[..k + 1][..k] == ds[..k];
        if * { return false; }
      }
      assert ds[..|ds|] == ds;
      ok := true;
    }
  }

  lemma MergeAddsNothingIff(current: map<string, string>, desired: map<string, string>)
    ensures current + desired == current <==> forall l :: l in desired ==> l in current && current[l] == desired[l]
  {
    var m := current + desired;
    assert forall l :: l in desired ==> m[l] == desired[l];
    if forall l :: l in desired ==> l in current && current[l] == desired[l] {
      assert m == current;
    }
  }

  // ----- What reconciling achieves -----

  /** Whatever was there, the result has the desired spec and labels and keeps every label outside the desired set. */
  lemma EnsuredIsDesired<S>(current: Option<Object<S>>, desired: Object<S>)
    ensures var r := Ensured(current, desired);
      && r.spec == desired.spec
      && (ControllerOf(desired.owners).Some? ==> HasSameController(r.owners, desired.owners))
      && (forall l :: l in desired.labels ==> l in r.labels && r.labels[l] == desired.labels[l])
      && (current.Some? ==> r.annotations == current.value.annotations)
      && (current.Some? ==> forall l :: l in current.value.labels && l !in desired.labels ==>
            l in r.labels && r.labels[l] == current.value.labels[l])
      && (current.Some? ==> forall l :: l in r.labels ==> l in desired.labels || l in current.value.labels)
  {
  }

  /** A second reconcile with the same desired object writes nothing, exactly because the desired object has a
      controller; and then it leaves the object as it is. */
  lemma SecondReconcileIsIdleIff<S>(current: Option<Object<S>>, desired: Object<S>)
    ensures Writes(Some(Ensured(current, desired)), desired) <==> ControllerOf(desired.owners).None?
    ensures ControllerOf(desired.owners).Some? ==>
      Ensured(Some(Ensured(current, desired)), desired) == Ensured(current, desired)
  {
    EnsuredIsDesired(current, desired);
  }

  /** The approval mode of an existing Subscription survives, and whoever changes it between two reconciles causes
      no write. */
  lemma ApprovalIsUnmanaged(current: Option<Object<SubscriptionSpec>>, desired: Object<SubscriptionSpec>, approval: string)
    requires ControllerOf(desired.owners).Some?
    ensures var r := Ensured(current, Approving(current, desired));
      var edited := Some(r.(spec := r.spec.(installPlanApproval := approval)));
      && (current.Some? ==> r.spec.installPlanApproval == current.value.spec.installPlanApproval)
      && !Writes(edited, Approving(edited, desired))
      && r.spec == desired.spec.(installPlanApproval := r.spec.installPlanApproval)
  {
    var wanted := Approving(current, desired);
    EnsuredIsDesired(current, wanted);
  }

  // ----- A list of desired objects -----

  /** The store after a pass over the list, in order. */
  function EnsureAll<S(==)>(st: map<Key, Object<S>>, ds: seq<(Key, Object<S>)>): map<Key, Object<S>> {
    if ds == [] then st
    else
      var (m, d) := (EnsureAll(st, ds[..|ds| - 1]), ds[|ds| - 1]);
      m[d.0 := Ensured(Lookup(m, d.0), d.1)]
  }

  /** How many writes that pass performs. */
  function WriteCount<S(==)>(st: map<Key, Object<S>>, ds: seq<(Key, Object<S>)>): nat {
    if ds == [] then 0
    else
      var (m, d) := (EnsureAll(st, ds[..|ds| - 1]), ds[|ds| - 1]);
      WriteCount(st, ds[..|ds| - 1]) + if Writes(Lookup(m, d.0), d.1) then 1 else 0
  }

  predicate Satisfied<S(==)>(st: map<Key, Object<S>>, d: (Key, Object<S>)) {
    d.0 in st && UpToDate(st[d.0], d.1)
  }

  /** All objects are built for one Addon: the same labels and the same controller. */
  ghost predicate OneOwner<S(!new)>(ds: seq<(Key, Object<S>)>, labels: map<string, string>, controller: string) {
    forall d :: d in ds ==> d.1.labels == labels && ControllerOf(d.1.owners) == Some(controller)
  }

  /** Objects of the same name have the same spec. */
  ghost predicate NoConflict<S(!new)>(ds: seq<(Key, Object<S>)>) {
    forall c, d :: c in ds && d in ds && c.0 == d.0 ==> c.1.spec == d.1.spec
  }

  lemma StaysSatisfied<S(!new)>(st: map<Key, Object<S>>, c: (Key, Object<S>), d: (Key, Object<S>), labels: map<string, string>, controller: string)
    requires OneOwner([c, d], labels, controller) && (c.0 == d.0 ==> c.1.spec == d.1.spec)
    requires Satisfied(st, c) || c == d
    ensures Satisfied(st[d.0 := Ensured(Lookup(st, d.0), d.1)], c)
  {
    assert c in [c, d] && d in [c, d];
    EnsuredIsDesired(Lookup(st, d.0), d.1);
  }

  lemma {:induction false} PassSatisfies<S(!new)>(st: map<Key, Object<S>>, ds: seq<(Key, Object<S>)>, labels: map<string, string>, controller: string)
    requires OneOwner(ds, labels, controller) && NoConflict(ds)
    ensures forall c :: c in ds ==> Satisfied(EnsureAll(st, ds), c)
  {
    if ds != [] {
      var (m, d) := (ds[..|ds| - 1], ds[|ds| - 1]);
      assert ds == m + [d];
      assert forall c :: c in m ==> c in ds;
      PassSatisfies(st, m, labels, controller);
      forall c | c in ds ensures Satisfied(EnsureAll(st, ds), c) {
        assert d in ds;
        StaysSatisfied(EnsureAll(st, m), c, d, labels, controller);
      }
    }
  }

  /** A pass writes nothing exactly when every object is satisfied, and then the store is as before. */
  lemma {:induction false} IdleIffSatisfied<S(!new)>(st: map<Key, Object<S>>, ds: seq<(Key, Object<S>)>)
    ensures WriteCount(st, ds) == 0 <==> forall d :: d in ds ==> Satisfied(st, d)
    ensures WriteCount(st, ds) == 0 ==> EnsureAll(st, ds) == st
  {
    if ds != [] {
      var (m, d) := (ds[..|ds| - 1], ds[|ds| - 1]);
      assert ds == m + [d];
      IdleIffSatisfied(st, m);
      assert d in ds && forall c :: c in ds <==> c in m || c == d;
      if WriteCount(st, m) == 0 {
        assert Writes(Lookup(st, d.0), d.1) <==> !Satisfied(st, d);
        if Satisfied(st, d) { assert st[d.0 := st[d.0]] == st; }
      }
    }
  }

  /** A second pass over the list is idle if and only if no two of its objects share a name with different specs;
      otherwise every pass goes on writing. */
  lemma SecondPassIsIdleIff<S(!new)>(st: map<Key, Object<S>>, ds: seq<(Key, Object<S>)>, labels: map<string, string>, controller: string)
    requires OneOwner(ds, labels, controller)
    ensures WriteCount(EnsureAll(st, ds), ds) == 0 <==> NoConflict(ds)
  {
    var r := EnsureAll(st, ds);
    IdleIffSatisfied(r, ds);
    if NoConflict(ds) { PassSatisfies(st, ds, labels, controller); }
    if forall d :: d in ds ==> Satisfied(r, d) {
      forall c, d | c in ds && d in ds && c.0 == d.0 ensures c.1.spec == d.1.spec {
        assert Satisfied(r, c) && Satisfied(r, d);
      }
    }
  }
}
