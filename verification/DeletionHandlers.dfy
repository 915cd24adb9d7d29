/** The deletion handshake with the addon: two handlers that notify it and look for its answer, the deletion
    sub-reconciler that asks them in turn, and the AddonInstance reconciler that must not undo a notice. */
module DeletionHandlers {
  import opened Conditions
  import opened AddonModel
  import opened Lifecycle
  import opened StepProofs
  import opened PassProofs
  import opened Runs
  import RunReports
  import Decisions
  import Controller

  datatype AddonInstance = AddonInstance(
    markedForDeletion: bool,
    heartbeatPeriod: int,
    owner: string,
    readyToBeDeleted: Option<ConditionStatus>)

  /** The cluster objects that the handshake reads and writes, by namespace and name. */
  datatype Objects = Objects(
    configMaps: map<CSVKey, map<string, string>>,
    operators: map<string, seq<RichReference>>,
    subscriptions: map<CSVKey, string>,
    instances: map<string, AddonInstance>)

  datatype Handler = Legacy | Instance

  const DefaultHeartbeatPeriod := 10

  function DeleteLabel(addon: string): string { "api.openshift.com/addon-" + addon + "-delete" }

  function Target(a: Manifest): string
    requires SectionPresent(a.spec.install)
  {
    CommonInstallOptions(a.spec.install).namespace
  }

  // ----- Notice and answer -----

  predicate LabelledConfigMap(o: Objects, a: Manifest)
    requires SectionPresent(a.spec.install)
  {
    var k := CSVKey(Target(a), a.name);
    k in o.configMaps && SetToTrue(o.configMaps[k], DeleteLabel(a.name))
  }

  /** The Operator resource no longer refers to the CSV that the Subscription names. */
  predicate CSVReferenceGone(o: Objects, a: Manifest)
    requires SectionPresent(a.spec.install)
  {
    var (op, sub) := (OperatorName(a.spec.install), CSVKey(Target(a), SubscriptionName(a.name)));
    && op in o.operators && sub in o.subscriptions
    && forall r :: r in o.operators[op] ==> !Refers(r, CSVKey(Target(a), o.subscriptions[sub]))
  }

  predicate InstanceMarked(o: Objects, a: Manifest)
    requires SectionPresent(a.spec.install)
  {
    Target(a) in o.instances && o.instances[Target(a)].markedForDeletion
  }

  predicate InstanceReady(o: Objects, a: Manifest)
    requires SectionPresent(a.spec.install)
  {
    Target(a) in o.instances && o.instances[Target(a)].readyToBeDeleted == Some(CTrue)
  }

  /** A notified addon: the labelled ConfigMap is there, or the AddonInstance is marked if there is one. */
  predicate Notified(h: Handler, o: Objects, a: Manifest)
    requires SectionPresent(a.spec.install)
  {
    match h
    case Legacy => LabelledConfigMap(o, a)
    case Instance => Target(a) in o.instances ==> InstanceMarked(o, a)
  }

  predicate Answered(h: Handler, o: Objects, a: Manifest)
    requires SectionPresent(a.spec.install)
  {
    match h
    case Legacy => CSVReferenceGone(o, a)
    case Instance => InstanceReady(o, a)
  }

  /** Told, and silent so far. */
  predicate Unanswered(h: Handler, o: Objects, a: Manifest)
    requires SectionPresent(a.spec.install)
  {
    Notified(h, o, a) && !Answered(h, o, a)
  }

  /** An answer from the addon with the matching notice in place. */
  predicate Acknowledged(o: Objects, a: Manifest)
    requires SectionPresent(a.spec.install)
  {
    (LabelledConfigMap(o, a) && CSVReferenceGone(o, a)) || (InstanceMarked(o, a) && InstanceReady(o, a))
  }

  /** What asking the handlers does: notices are only added, an ack comes from a handler with its notice in place and its
      answer in, and without an ack every handler has given its notice and none has an answer. */
  ghost predicate Asked(o: Objects, r: Objects, handlers: seq<Handler>, a: Manifest, ack: AckOutcome)
    requires SectionPresent(a.spec.install)
  {
    && NoticesKept(o, r)
    && (ack == Acked ==> exists h :: h in handlers && Notified(h, r, a) && Answered(h, r, a))
    && (ack == NotAcked ==> forall h :: h in handlers ==> Unanswered(h, r, a))
  }

  /** An ack is always backed: an AddonInstance that answers exists, so its notice is the mark. */
  lemma AckIsBacked(o: Objects, r: Objects, handlers: seq<Handler>, a: Manifest)
    requires SectionPresent(a.spec.install) && Asked(o, r, handlers, a, Acked)
    ensures Acknowledged(r, a)
  {
    var h :| h in handlers && Notified(h, r, a) && Answered(h, r, a);
    match h
    case Legacy => assert LabelledConfigMap(r, a) && CSVReferenceGone(r, a);
    case Instance => assert InstanceReady(r, a) && InstanceMarked(r, a);
  }

  /** No AddonInstance loses its mark, no ConfigMap goes and none loses a foreign label, and the resources that
      the addon answers through are left alone. */
  ghost predicate NoticesKept(o: Objects, r: Objects) {
    && r.operators == o.operators && r.subscriptions == o.subscriptions
    && r.instances.Keys >= o.instances.Keys && r.configMaps.Keys >= o.configMaps.Keys
    && (forall n :: n in o.instances ==> r.instances[n].readyToBeDeleted == o.instances[n].readyToBeDeleted)
    && MarksKept(o, r)
  }

  ghost predicate MarksKept(o: Objects, r: Objects) {
    && (forall n :: n in o.instances && n in r.instances && o.instances[n].markedForDeletion ==> r.instances[n].markedForDeletion)
    && (forall k, l :: k in o.configMaps && k in r.configMaps && SetToTrue(o.configMaps[k], l) ==> SetToTrue(r.configMaps[k], l))
  }

  predicate SetToTrue(labels: map<string, string>, l: string) { l in labels && labels[l] == "true" }

  lemma NoticesKeptStep(o: Objects, m: Objects, r: Objects)
    requires NoticesKept(o, m) && NoticesKept(m, r)
    ensures NoticesKept(o, r)
  {
    forall n | n in o.instances
      ensures r.instances[n].readyToBeDeleted == o.instances[n].readyToBeDeleted
      ensures o.instances[n].markedForDeletion ==> r.instances[n].markedForDeletion
    {
      assert n in m.instances;
    }
    forall k, l | k in o.configMaps && SetToTrue(o.configMaps[k], l) ensures SetToTrue(r.configMaps[k], l) {
      assert k in m.configMaps && SetToTrue(m.configMaps[k], l);
    }
  }

  /** Later handlers of the same pass undo no notice and give no answer. */
  lemma NotifiedStays(h: Handler, o: Objects, r: Objects, a: Manifest)
    requires SectionPresent(a.spec.install) && NoticesKept(o, r) && r.instances.Keys == o.instances.Keys
    ensures Notified(h, o, a) ==> Notified(h, r, a)
    ensures Answered(h, r, a) <==> Answered(h, o, a)
  {
  }

  /** What a successful notification leaves behind. */
  function Notify(h: Handler, o: Objects, a: Manifest): Objects
    requires SectionPresent(a.spec.install)
  {
    if Notified(h, o, a) then o
    else
      match h
      case Legacy =>
        var k := CSVKey(Target(a), a.name);
        var labels := if k in o.configMaps then o.configMaps[k] else map[];
        o.(configMaps := o.configMaps[k := labels[DeleteLabel(a.name) := "true"]])
      case Instance =>
        var n := Target(a);
        if n !in o.instances then o
        else o.(instances := o.instances[n := o.instances[n].(markedForDeletion := true)])
  }

  lemma NotifyNotifies(h: Handler, o: Objects, a: Manifest)
    requires SectionPresent(a.spec.install)
    ensures var r := Notify(h, o, a);
      && Notified(h, r, a) && NoticesKept(o, r) && r.instances.Keys == o.instances.Keys
      && (h == Legacy ==> r.instances == o.instances)
      && (h == Instance ==> r.configMaps == o.configMaps)
  {
  }

  /** A notification touches one label of one ConfigMap, or the mark of one AddonInstance. */
  lemma NotifyTouchesOnly(h: Handler, o: Objects, a: Manifest)
    requires SectionPresent(a.spec.install)
    ensures var r := Notify(h, o, a);
      && r.configMaps.Keys >= o.configMaps.Keys && r.instances.Keys >= o.instances.Keys
      && (forall k :: k in o.configMaps && k != CSVKey(Target(a), a.name) ==> r.configMaps[k] == o.configMaps[k])
      && (forall k, l :: k in o.configMaps && l in o.configMaps[k] && l != DeleteLabel(a.name) ==>
            l in r.configMaps[k] && r.configMaps[k][l] == o.configMaps[k][l])
      && (forall n :: n in o.instances ==> r.instances[n] == o.instances[n].(markedForDeletion := r.instances[n].markedForDeletion))
      && (forall n :: n in o.instances && n != Target(a) ==> r.instances[n] == o.instances[n])
  {
  }

  /** The handlers are asked in a pass that wants the Addon deleted, needs an ack, and has none yet. */
  predicate MustAsk(s: Status, a: Manifest) {
    a.markedForDeletion && !s.IsTrue(ReadyToBeDeleted) && a.spec.deleteAckRequired
  }

  class DeletionReconciler {
    const handlers: seq<Handler>
    var objects: Objects

    constructor (handlers: seq<Handler>, objects: Objects)
      ensures this.handlers == handlers && this.objects == objects
    {
      this.handlers, this.objects := handlers, objects;
    }

    // ----- Legacy handler -----

    method NotifyLegacy(a: Manifest) returns (ok: bool)
      requires SectionPresent(a.spec.install)
      modifies this
      ensures objects == if ok then Notify(Legacy, old(objects), a) else old(objects)
    {
      var (k, l) := (CSVKey(Target(a), a.name), DeleteLabel(a.name));
      if * { return false; }
      if k !in objects.configMaps {
        if * { return false; }
        objects := objects.(configMaps := objects.configMaps[k := map[l := "true"]]);
        return true;
      }
      var labels := objects.configMaps[k];
      if l in labels && labels[l] == "true" { return true; }
      if * { return false; }
      objects := objects.(configMaps := objects.configMaps[k := labels[l := "true"]]);
      ok := true;
    }

    method AckFromLegacy(a: Manifest) returns (ok: bool, ack: bool)
      requires SectionPresent(a.spec.install)
      ensures ok ==> (ack <==> CSVReferenceGone(objects, a))
      ensures !ok ==> !ack
    {
      var op := OperatorName(a.spec.install);
      if * { return false, false; }
      if op !in objects.operators { return true, false; }
      var sub := CSVKey(Target(a), SubscriptionName(a.name));
      if * { return false, false; }
      if sub !in objects.subscriptions { return true, false; }
      var ref := Controller.FindConcernedCSVReference(objects.operators[op], CSVKey(Target(a), objects.subscriptions[sub]));
      return true, ref.None?;
    }

    // ----- AddonInstance handler -----

    method NotifyInstance(a: Manifest) returns (ok: bool)
      requires SectionPresent(a.spec.install)
      modifies this
      ensures objects == if ok then Notify(Instance, old(objects), a) else old(objects)
    {
      var n := Target(a);
      if * { return false; }
      if n !in objects.instances { return true; }
      var instance := objects.instances[n];
      if !instance.markedForDeletion {
        if * { return false; }
        objects := objects.(instances := objects.instances[n := instance.(markedForDeletion := true)]);
      }
      ok := true;
    }

    method AckFromInstance(a: Manifest) returns (ok: bool, ack: bool)
      requires SectionPresent(a.spec.install)
      ensures ok ==> (ack <==> InstanceReady(objects, a))
      ensures !ok ==> !ack
    {
      if * { return false, false; }
      if Target(a) !in objects.instances { return true, false; }
      var cond := objects.instances[Target(a)].readyToBeDeleted;
      if cond.None? { return true, false; }
      return true, cond.value == CTrue;
    }

    // ----- The sub-reconciler -----

    /** Asks the handlers in turn, up to the first that fails or has an answer. */
    method AskHandlers(a: Manifest) returns (ack: AckOutcome)
      requires SectionPresent(a.spec.install)
      modifies this
      ensures Asked(old(objects), objects, handlers, a, ack)
    {
      for k := 0 to |handlers|
        invariant NoticesKept(old(objects), objects) && objects.instances.Keys == old(objects).instances.Keys
        invariant forall j :: 0 <= j < k ==> Unanswered(handlers[j], objects, a)
      {
        ghost var before := objects;
        var ok, acked;
        match handlers[k] {
          case Legacy => ok := NotifyLegacy(a);
          case Instance => ok := NotifyInstance(a);
        }
        NotifyNotifies(handlers[k], before, a);
        NoticesKeptStep(old(objects), before, objects);
        if !ok { return HandlerFailed; }
        forall j | 0 <= j < k ensures Unanswered(handlers[j], objects, a) {
          NotifiedStays(handlers[j], before, objects, a);
        }
        match handlers[k] {
          case Legacy => ok, acked := AckFromLegacy(a);
          case Instance => ok, acked := AckFromInstance(a);
        }
        if !ok { return HandlerFailed; }
        if acked {
          assert handlers[k] in handlers && Notified(handlers[k], objects, a) && Answered(handlers[k], objects, a);
          return Acked;
        }
      }
      return NotAcked;
    }

    /** The status moves as `DeletionStatus` says, with an acknowledgement that is backed by the cluster. */
    method Reconcile(addon: Controller.Addon, a: Manifest, now: int, clock: int) returns (out: Outcome, ghost ack: AckOutcome)
      requires SectionPresent(a.spec.install)
      modifies this, addon
      ensures (addon.status, out) == DeletionStatus(old(addon.status), a, ack, now, clock)
      ensures ack == Acked ==> Acknowledged(objects, a)
      ensures if MustAsk(old(addon.status), a) then Asked(old(objects), objects, handlers, a, ack) else objects == old(objects)
    {
      ack := HandlerFailed;
      if !a.markedForDeletion || addon.status.IsTrue(ReadyToBeDeleted) { return Zero, ack; }
      if !a.spec.deleteAckRequired {
        addon.status := RemoveDeleteTimeout(addon.status);
        addon.status := ReportReadyToBeDeleted(addon.status, a.generation, true, now);
        return Zero, ack;
      }
      addon.status := ReportReadyToBeDeleted(addon.status, a.generation, false, now);
      var res := AskHandlers(a);
      ack := res;
      if res == HandlerFailed { return Failed, ack; }
      if res == Acked {
        AckIsBacked(old(objects), objects, handlers, a);
        addon.status := RemoveDeleteTimeout(addon.status);
        addon.status := ReportReadyToBeDeleted(addon.status, a.generation, true, now);
        return Zero, ack;
      }
      if DeletionTimedOutAt(addon.status, a, clock) {
        addon.status := ReportDeletionTimedOut(addon.status, a.generation, now);
        return Zero, ack;
      }
      return RequeueAfter(DeleteTimeoutInterval(a)), ack;
    }
  }

  // ----- The AddonInstance reconciler -----

  class InstanceReconciler {
    var instances: map<string, AddonInstance>

    constructor (instances: map<string, AddonInstance>)
      ensures this.instances == instances
    {
      this.instances := instances;
    }

    /** Creates the AddonInstance or resets its spec; the mark and what the addon reported survive. */
    method ReconcileAddonInstance(namespace: string, owner: string) returns (ok: bool)
      modifies this
      ensures !ok ==> instances == old(instances)
      ensures ok ==> instances == old(instances)[namespace := Ensured(old(instances), namespace, owner)]
    {
      if * { return false; }
      var desired := AddonInstance(false, DefaultHeartbeatPeriod, owner, None);
      if namespace !in instances {
        if * { return false; }
        instances := instances[namespace := desired];
        return true;
      }
      var current := instances[namespace];
      desired := desired.(markedForDeletion := current.markedForDeletion);
      if current.markedForDeletion != desired.markedForDeletion || current.heartbeatPeriod != desired.heartbeatPeriod {
        if * { return false; }
        instances := instances[namespace :=
          current.(markedForDeletion := desired.markedForDeletion, heartbeatPeriod := desired.heartbeatPeriod, owner := desired.owner)];
      }
      ok := true;
    }
  }

  function Ensured(instances: map<string, AddonInstance>, namespace: string, owner: string): AddonInstance {
    if namespace !in instances then AddonInstance(false, DefaultHeartbeatPeriod, owner, None)
    else if instances[namespace].heartbeatPeriod == DefaultHeartbeatPeriod then instances[namespace]
    else instances[namespace].(heartbeatPeriod := DefaultHeartbeatPeriod, owner := owner)
  }

  /** An ensured AddonInstance has the default heartbeat period of ten seconds; a new one belongs to the Addon and is
      neither marked nor answered, an existing one keeps its mark and its answer, and its owner too if nothing had to
      be reset. */
  lemma EnsuredExact(instances: map<string, AddonInstance>, namespace: string, owner: string)
    ensures var r := Ensured(instances, namespace, owner);
      && r.heartbeatPeriod == 10
      && (namespace !in instances ==> r.owner == owner && !r.markedForDeletion && r.readyToBeDeleted == None)
      && (namespace in instances ==>
            var before := instances[namespace];
            && r.markedForDeletion == before.markedForDeletion && r.readyToBeDeleted == before.readyToBeDeleted
            && r.owner == if before.heartbeatPeriod == 10 then before.owner else owner)
  {
  }

  lemma EnsuredKeepsNotices(o: Objects, namespace: string, owner: string)
    ensures NoticesKept(o, o.(instances := o.instances[namespace := Ensured(o.instances, namespace, owner)]))
    ensures var i := o.instances[namespace := Ensured(o.instances, namespace, owner)];
      i[namespace := Ensured(i, namespace, owner)] == i
  {
  }

  // ----- Whole runs -----

  /** The cluster objects right before and right after the handlers of a pass; where they are not asked, nothing is
      known about them. */
  datatype Handshake = Handshake(before: Objects, after: Objects)

  /** In every pass that must ask, the answer it goes on with is the one that the handlers gave. */
  ghost predicate AnswersAreHandlers(cfg: Config, w: World, inputs: seq<Input>, hs: seq<Handshake>, handlers: seq<Handler>) {
    && |hs| == |inputs|
    && forall k :: 0 <= k < |inputs| && MustAsk(At(cfg, w, inputs, k).persisted, inputs[k].manifest) ==>
         && SectionPresent(inputs[k].manifest.spec.install)
         && Asked(hs[k].before, hs[k].after, handlers, inputs[k].manifest, inputs[k].ack)
  }

  lemma ReadyNeedsAck(cfg: Config, u: World, i: Input)
    requires WellConfigured(cfg) && Coherent(u.persisted) && !u.persisted.IsTrue(ReadyToBeDeleted)
    requires Pass(cfg, u, i).persisted.IsTrue(ReadyToBeDeleted)
    ensures i.manifest.markedForDeletion && (i.manifest.spec.deleteAckRequired ==> i.ack == Acked)
  {
    PassKeeps(cfg, u, i);
  }

  lemma {:induction false} FirstFlip(bs: seq<bool>) returns (k: nat)
    requires |bs| > 0 && !bs[0] && bs[|bs| - 1]
    ensures k + 1 < |bs| && !bs[k] && bs[k + 1]
  {
    k := |bs| - 2;
    if bs[k] { k := FirstFlip(bs[..|bs| - 1]); }
  }

  predicate ReadyAt(cfg: Config, w: World, inputs: seq<Input>, k: nat)
    requires k <= |inputs|
  {
    At(cfg, w, inputs, k).persisted.IsTrue(ReadyToBeDeleted)
  }

  lemma ReadyFlips(cfg: Config, w: World, inputs: seq<Input>) returns (k: nat)
    requires !ReadyAt(cfg, w, inputs, 0) && ReadyAt(cfg, w, inputs, |inputs|)
    ensures k < |inputs| && !ReadyAt(cfg, w, inputs, k) && ReadyAt(cfg, w, inputs, k + 1)
  {
    k := FirstFlip(seq(|inputs| + 1, j requires 0 <= j <= |inputs| => ReadyAt(cfg, w, inputs, j)));
  }

  lemma FlipNeedsAck(cfg: Config, w: World, inputs: seq<Input>, k: nat)
    requires WellConfigured(cfg) && Coherent(w.persisted)
    requires k < |inputs| && !ReadyAt(cfg, w, inputs, k) && ReadyAt(cfg, w, inputs, k + 1)
    ensures inputs[k].manifest.markedForDeletion && (inputs[k].manifest.spec.deleteAckRequired ==> inputs[k].ack == Acked)
  {
    AlwaysCoherent(cfg, w, inputs[..k]);
    AtStep(cfg, w, inputs, k);
    ReadyNeedsAck(cfg, At(cfg, w, inputs, k), inputs[k]);
  }

  /** The pass in which an Addon becomes ready to be deleted was asked to delete it; and if it needed an ack, then the
      addon's answer was in and the matching notice in place when the handlers had been asked. */
  lemma NoAckWithoutNotice(cfg: Config, w: World, inputs: seq<Input>, hs: seq<Handshake>, handlers: seq<Handler>) returns (k: nat)
    requires WellConfigured(cfg) && Coherent(w.persisted) && AnswersAreHandlers(cfg, w, inputs, hs, handlers)
    requires !ReadyAt(cfg, w, inputs, 0) && ReadyAt(cfg, w, inputs, |inputs|)
    ensures k < |inputs| && !ReadyAt(cfg, w, inputs, k) && ReadyAt(cfg, w, inputs, k + 1)
    ensures var a := inputs[k].manifest;
      && a.markedForDeletion
      && (a.spec.deleteAckRequired ==> SectionPresent(a.spec.install) && Acknowledged(hs[k].after, a))
  {
    k := ReadyFlips(cfg, w, inputs);
    FlipNeedsAck(cfg, w, inputs, k);
    if inputs[k].manifest.spec.deleteAckRequired {
      assert MustAsk(At(cfg, w, inputs, k).persisted, inputs[k].manifest);
      AckIsBacked(hs[k].before, hs[k].after, handlers, inputs[k].manifest);
    }
  }

  /** A saved pass whose handlers all worked ends the waiting if and only if one of them has the addon's answer. */
  lemma AnswerEndsWaitingIff(cfg: Config, w: World, i: Input, hs: Handshake, handlers: seq<Handler>)
    requires WellConfigured(cfg) && DeletionSub in cfg.subs && i.statusSaved && RunReports.SubsStart(w, i).Some?
    requires MustAsk(w.persisted, i.manifest) && SectionPresent(i.manifest.spec.install)
    requires Asked(hs.before, hs.after, handlers, i.manifest, i.ack) && i.ack != HandlerFailed
    ensures Pass(cfg, w, i).persisted.IsTrue(ReadyToBeDeleted) <==>
      exists h :: h in handlers && Answered(h, hs.after, i.manifest)
  {
    Decisions.DeletionIffs(cfg, w, i);
    assert i.ack == NotAcked ==> forall h :: h in handlers ==> Unanswered(h, hs.after, i.manifest);
  }

  /** What happens to the cluster objects: a notification, a reset of an AddonInstance, or something from outside. */
  datatype Step = NotifyStep(h: Handler, a: Manifest) | ResetStep(namespace: string, owner: string) | OutsideStep(after: Objects)

  /** Only steps from outside are restricted: they set no mark back on an object that they leave in place. */
  ghost predicate Follows(o: Objects, s: Step, r: Objects) {
    match s
    case NotifyStep(h, a) => SectionPresent(a.spec.install) && r == Notify(h, o, a)
    case ResetStep(n, owner) => r == o.(instances := o.instances[n := Ensured(o.instances, n, owner)])
    case OutsideStep(after) => r == after && MarksKept(o, after)
  }

  lemma FollowsKeepsMarks(o: Objects, s: Step, r: Objects)
    requires Follows(o, s, r)
    ensures MarksKept(o, r)
  {
    match s
    case NotifyStep(h, a) => NotifyNotifies(h, o, a);
    case ResetStep(n, owner) => EnsuredKeepsNotices(o, n, owner);
    case OutsideStep(after) =>
  }

  ghost predicate IsHistory(objects: seq<Objects>, steps: seq<Step>) {
    |objects| == |steps| + 1 && forall k :: 0 <= k < |steps| ==> Follows(objects[k], steps[k], objects[k + 1])
  }

  /** Once set, MarkedForDeletion stays for as long as the AddonInstance exists, whatever Addons are notified and
      whatever AddonInstances are reset in between. */
  lemma {:induction false} MarkSticks(objects: seq<Objects>, steps: seq<Step>, namespace: string, j: nat, k: nat)
    requires IsHistory(objects, steps) && j <= k <= |steps|
    requires forall i :: j <= i <= k ==> namespace in objects[i].instances
    requires objects[j].instances[namespace].markedForDeletion
    ensures objects[k].instances[namespace].markedForDeletion
  {
    if j < k {
      MarkSticks(objects, steps, namespace, j, k - 1);
      FollowsKeepsMarks(objects[k - 1], steps[k - 1], objects[k]);
    }
  }
}
