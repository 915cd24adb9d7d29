/** Status conditions as the Kubernetes API machinery keeps them: a list that is searched by type,
    upserted in place and filtered.  The transition time of an entry moves only with its status. */
module Conditions {

  datatype Option<+T> = None | Some(value: T)

  datatype ConditionType =
    | Available | Paused | UpgradeStarted | UpgradeSucceeded | Installed | ReadyToBeDeleted | DeleteTimeout

  datatype ConditionStatus = CTrue | CFalse | CUnknown

  datatype Reason =
    | FullyReconciled | Terminating | ConfigError | AddonPaused | AddonOperatorPaused
    | UnreadyCatalogSource | UnreadyAdditionalCatalogSource | UnreadyNamespaces
    | UnreadyMonitoringFederation | UnreadyMonitoringStack | UnreadyClusterPackageTemplate
    | UnreadyCSV | MissingCSV | MissingSecretForPropagation
    | AddonUpgradeStarted | AddonUpgradeSucceeded | AddonInstalled | AddonNotInstalled
    | AddonReadyToBeDeleted | AddonNotReadyToBeDeleted | DeletionTimedOut
    | InstanceNotInstalled | InstallPlanPending

  /** `Fixed` stands for the one constant text a writer uses with its reason. */
  datatype Message = NoMessage | Fixed | NotYetInstalled | Uninstalled | CSVNotLinked | Detail(text: string)

  datatype Condition = Condition(
    ctype: ConditionType,
    status: ConditionStatus,
    reason: Reason,
    message: Message,
    generation: int,
    transition: int)

  /** The first entry of the given type. */
  function Find(cs: seq<Condition>, t: ConditionType): (r: Option<Condition>)
    ensures r.Some? ==> r.value in cs && r.value.ctype == t
    ensures r.None? <==> forall c :: c in cs ==> c.ctype != t
  {
    if cs == [] then None
    else if cs[0].ctype == t then Some(cs[0])
    else Find(cs[1..], t)
  }

  lemma {:induction false} FindIsFirst(cs: seq<Condition>, t: ConditionType) returns (j: nat)
    ensures if Find(cs, t).None? then j == |cs| else j < |cs| && Find(cs, t) == Some(cs[j])
    ensures forall i :: 0 <= i < j ==> cs[i].ctype != t
  {
    if cs == [] || cs[0].ctype == t { j := 0; }
    else {
      j := FindIsFirst(cs[1..], t);
      j := j + 1;
    }
  }

  predicate Has(cs: seq<Condition>, t: ConditionType) {
    Find(cs, t).Some?
  }

  predicate IsTrue(cs: seq<Condition>, t: ConditionType) {
    var c := Find(cs, t);
    c.Some? && c.value.status == CTrue
  }

  /** At most one entry per type. */
  predicate Unique(cs: seq<Condition>) {
    cs == [] || (!Has(cs[1..], cs[0].ctype) && Unique(cs[1..]))
  }

  /** What becomes of an entry `prior` when `c` is written over it at time `now`. */
  function Merge(prior: Option<Condition>, c: Condition, now: int): Condition {
    c.(transition := if prior.Some? && prior.value.status == c.status then prior.value.transition else now)
  }

  /** Upsert: every other type is untouched, the written type holds the merged entry. */
  function SetCondition(cs: seq<Condition>, c: Condition, now: int): (r: seq<Condition>)
    ensures Find(r, c.ctype) == Some(Merge(Find(cs, c.ctype), c, now))
    ensures forall t :: t != c.ctype ==> Find(r, t) == Find(cs, t)
    ensures Unique(cs) ==> Unique(r)
  {
    if cs == [] then
      var r := [c.(transition := now)];
      assert r[1..] == [];
      r
    else if cs[0].ctype == c.ctype then
      var r := [Merge(Some(cs[0]), c, now)] + cs[1..];
      assert r[1..] == cs[1..];
      r
    else
      var rest := SetCondition(cs[1..], c, now);
      var r := [cs[0]] + rest;
      assert r[1..] == rest;
      r
  }

  /** Removal drops the type and keeps every other entry. */
  function RemoveCondition(cs: seq<Condition>, t: ConditionType): (r: seq<Condition>)
    ensures !Has(r, t)
    ensures forall u :: u != t ==> Find(r, u) == Find(cs, u)
    ensures Unique(cs) ==> Unique(r)
  {
    if cs == [] then []
    else
      var rest := RemoveCondition(cs[1..], t);
      if cs[0].ctype == t then rest
      else
        var r := [cs[0]] + rest;
        assert r[1..] == rest;
        r
  }

  /** The written entry in full: everything from the new condition, except that the transition time of an entry with
      the same status is kept. */
  lemma WrittenEntry(cs: seq<Condition>, c: Condition, now: int)
    ensures Has(SetCondition(cs, c, now), c.ctype)
    ensures var (before, after) := (Find(cs, c.ctype), Find(SetCondition(cs, c, now), c.ctype).value);
      && after.status == c.status && after.reason == c.reason && after.message == c.message && after.generation == c.generation
      && after.transition == if before.Some? && before.value.status == c.status then before.value.transition else now
  {
  }
}
