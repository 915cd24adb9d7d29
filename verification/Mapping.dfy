/** The lifecycle speaks of the event map through one flag, `mapped`. Here that flag is tied to the event map itself:
    the calls that the passes of one Addon make, interleaved with any calls of other Addons. */
module Mapping {
  import opened Conditions
  import opened AddonModel
  import opened Lifecycle
  import opened StepProofs
  import opened PassProofs
  import opened Runs
  import opened RunReports
  import RunSafety
  import opened EventMap
  import Admission

  // ----- The calls of a pass -----

  /** The OLM sub-reconciler gets as far as updating the map. */
  predicate AsksForMapping(a: Manifest, o: OLMObservation) {
    && ParseInstall(a.spec.install).ValidInstall? && o.operatorGroupOk && o.networkPolicyOk
    && !o.catalogSource.ProbeFailed? && !o.catalogSource.NotReady?
    && var common := ParseInstall(a.spec.install).common;
    && (common.additionalCatalogSources != [] ==>
          AdditionalSourcesValid(common) && !o.additionalSources.ProbeFailed? && !o.additionalSources.NotReady?)
    && o.subscription.SubscriptionSeen? && o.subscription.installedCSV != "" && o.subscription.currentCSV != ""
    && o.subscriptionReread && o.installPlan != PlanFailed && o.installPlan != RequiresApproval
  }

  function SubCalls(ks: seq<SubKind>, w: World, i: Input, addon: ObjectKey): seq<Call> {
    if ks == [] then []
    else
      var r := SubStep(ks[0], w, i);
      var calls := if ks[0] == OLMSub && AsksForMapping(i.manifest, i.olm)
                   then [UpdateCall(addon, Admission.OperatorKey(i.manifest.spec.install))] else [];
      calls + if r.outcome == Zero then SubCalls(ks[1..], r.w, i, addon) else []
  }

  /** The deletion pass gets as far as freeing the mappings. */
  predicate Frees(w: World, i: Input) {
    i.fetched && i.manifest.deletionTimestamp && w.finalizer && i.terminationSaved && i.template == TemplateGone
  }

  function PassCalls(cfg: Config, w: World, i: Input, addon: ObjectKey): seq<Call> {
    if Frees(w, i) then [FreeCall(addon)]
    else if SubsStart(w, i).Some? then SubCalls(Sorted(cfg.subs), SubsStart(w, i).value, i, addon)
    else []
  }

  lemma OLMMaps(w: World, a: Manifest, o: OLMObservation, now: int)
    ensures OLMStep(w, a, o, now).w.mapped <==> w.mapped || AsksForMapping(a, o)
  {
    match ParseInstall(a.spec.install)
    case InvalidInstall(_) =>
    case UnsupportedInstall =>
    case ValidInstall(common) =>
      if !o.operatorGroupOk || !o.networkPolicyOk || o.catalogSource.ProbeFailed? || o.catalogSource.NotReady? {
      } else if common.additionalCatalogSources != [] && !AdditionalSourcesValid(common) {
      } else if common.additionalCatalogSources != [] && (o.additionalSources.ProbeFailed? || o.additionalSources.NotReady?) {
      } else {
        assert OLMStep(w, a, o, now) == SubscriptionStep(w, a, common, o, now);
      }
  }

  lemma SubMaps(k: SubKind, w: World, i: Input)
    ensures SubStep(k, w, i).w.mapped <==> w.mapped || (k == OLMSub && AsksForMapping(i.manifest, i.olm))
  {
    SubRelations(k, w, i);
    if k == OLMSub { OLMMaps(w.(log := w.log + [Ran(k)]), i.manifest, i.olm, i.now); }
  }

  lemma {:induction false} SubsMap(ks: seq<SubKind>, w: World, i: Input, addon: ObjectKey)
    ensures RunSubs(ks, w, i).w.mapped <==> w.mapped || SubCalls(ks, w, i, addon) != []
  {
    if ks != [] {
      SubMaps(ks[0], w, i);
      var r := SubStep(ks[0], w, i);
      if r.outcome == Zero { SubsMap(ks[1..], r.w, i, addon); }
    }
  }

  lemma {:induction false} SubCallsAre(ks: seq<SubKind>, w: World, i: Input, addon: ObjectKey)
    ensures forall c :: c in SubCalls(ks, w, i, addon) ==>
      ParseInstall(i.manifest.spec.install).ValidInstall? && c == UpdateCall(addon, Admission.OperatorKey(i.manifest.spec.install))
  {
    if ks != [] {
      var r := SubStep(ks[0], w, i);
      if r.outcome == Zero { SubCallsAre(ks[1..], r.w, i, addon); }
    }
  }

  lemma ConcludeMaps(ks: seq<SubKind>, w: World, i: Input)
    ensures Conclude(ks, w, i).mapped == w.mapped
  {
  }

  lemma SubsPassMaps(cfg: Config, w: World, i: Input, addon: ObjectKey)
    ensures SubsPass(cfg, w, i).mapped <==> w.mapped || SubCalls(Sorted(cfg.subs), w, i, addon) != []
  {
    var ks := Sorted(cfg.subs);
    SubsMap(ks, w, i, addon);
    ConcludeMaps(ks, RunSubs(ks, w, i).w, i);
  }

  lemma IdleCoreMaps(cfg: Config, w: World, i: Input)
    requires i.fetched && SubsStart(w, i).None? && !i.manifest.deletionTimestamp
    ensures ReconcileCore(cfg, w.(status := w.persisted), i).mapped == w.mapped
  {
    if !Unhindered(i) {} else if BeingUpgraded(w.persisted, i.manifest) {} else {}
  }

  lemma DeletionMaps(w: World, i: Input)
    requires i.fetched && i.manifest.deletionTimestamp
    ensures DeletionPass(w, i).mapped == (w.mapped && !Frees(w, i))
    ensures DeletionPass(w, i).finalizer ==> w.finalizer
    ensures w.finalizer && !DeletionPass(w, i).finalizer ==> Frees(w, i)
  {
    if !w.finalizer {} else if !i.terminationSaved {} else if i.template != TemplateGone {}
  }

  lemma CoreMaps(cfg: Config, w: World, i: Input, addon: ObjectKey)
    requires i.fetched
    ensures ReconcileCore(cfg, w.(status := w.persisted), i).mapped <==>
      !Frees(w, i) && (w.mapped || PassCalls(cfg, w, i, addon) != [])
  {
    var start := SubsStart(w, i);
    if i.manifest.deletionTimestamp {
      DeletionMaps(w.(status := w.persisted), i);
    } else if start.Some? {
      StartReached(cfg, w, i);
      assert start.value.mapped == w.mapped;
      SubsPassMaps(cfg, start.value, i, addon);
    } else {
      IdleCoreMaps(cfg, w, i);
    }
  }

  /** A pass leaves the Addon mapped exactly when its calls do. */
  lemma PassMaps(cfg: Config, w: World, i: Input, addon: ObjectKey)
    ensures Pass(cfg, w, i).mapped <==> !Frees(w, i) && (w.mapped || PassCalls(cfg, w, i, addon) != [])
  {
    if i.fetched {
      CoreMaps(cfg, w, i, addon);
      ReportingKeeps(cfg, ReconcileCore(cfg, w.(status := w.persisted), i), i.manifest, i.ocm);
    }
  }

  // ----- Histories of the event map -----

  /** All calls up to the end of a run: before each pass any calls of other Addons, then those of the pass. */
  function History(cfg: Config, w: World, inputs: seq<Input>, others: seq<seq<Call>>, addon: ObjectKey): seq<Call>
    requires |others| == |inputs|
  {
    if inputs == [] then []
    else
      var n := |inputs| - 1;
      History(cfg, w, inputs[..n], others[..n], addon) + others[n] +
      PassCalls(cfg, Run(cfg, w, inputs[..n]), inputs[n], addon)
  }

  ghost predicate OfOthers(others: seq<seq<Call>>, addon: ObjectKey) {
    forall k, c :: 0 <= k < |others| && c in others[k] ==> c.addon != addon
  }

  lemma {:induction false} OthersRegister(h: seq<Call>, cs: seq<Call>, a: ObjectKey, k: ObjectKey)
    requires forall c :: c in cs ==> c.addon != a
    ensures Registered(h + cs, a, k) <==> Registered(h, a, k)
  {
    if cs == [] { assert h + cs == h; }
    else {
      var m := cs[..|cs| - 1];
      OthersRegister(h, m, a, k);
      RegisteredStep(h + m, cs[|cs| - 1], a, k);
      assert h + cs == h + m + [cs[|cs| - 1]];
      assert cs[|cs| - 1] in cs;
    }
  }

  lemma {:induction false} UpdatesRegister(h: seq<Call>, cs: seq<Call>, a: ObjectKey, k: ObjectKey)
    requires forall c :: c in cs ==> c == UpdateCall(a, k)
    ensures Registered(h + cs, a, k) <==> Registered(h, a, k) || cs != []
  {
    if cs == [] { assert h + cs == h; }
    else {
      var m := cs[..|cs| - 1];
      assert forall c :: c in m ==> c in cs;
      UpdatesRegister(h, m, a, k);
      RegisteredStep(h + m, cs[|cs| - 1], a, k);
      assert h + cs == h + m + [cs[|cs| - 1]];
      assert cs[|cs| - 1] in cs;
    }
  }

  /** The Operator resource of the Addon never changes; admission sees to that. */
  ghost predicate OneKey(inputs: seq<Input>, key: ObjectKey) {
    forall i :: i in inputs && ParseInstall(i.manifest.spec.install).ValidInstall? ==>
      Admission.OperatorKey(i.manifest.spec.install) == key
  }

  lemma PassCallsAre(cfg: Config, w: World, i: Input, addon: ObjectKey, key: ObjectKey)
    requires ParseInstall(i.manifest.spec.install).ValidInstall? ==> Admission.OperatorKey(i.manifest.spec.install) == key
    requires !Frees(w, i)
    ensures forall c :: c in PassCalls(cfg, w, i, addon) ==> c == UpdateCall(addon, key)
  {
    if SubsStart(w, i).Some? { SubCallsAre(Sorted(cfg.subs), SubsStart(w, i).value, i, addon); }
  }

  lemma PassRegisters(cfg: Config, w: World, i: Input, h: seq<Call>, addon: ObjectKey, key: ObjectKey)
    requires ParseInstall(i.manifest.spec.install).ValidInstall? ==> Admission.OperatorKey(i.manifest.spec.install) == key
    requires w.mapped <==> Registered(h, addon, key)
    ensures Pass(cfg, w, i).mapped <==> Registered(h + PassCalls(cfg, w, i, addon), addon, key)
  {
    PassMaps(cfg, w, i, addon);
    if Frees(w, i) { RegisteredStep(h, FreeCall(addon), addon, key); }
    else {
      PassCallsAre(cfg, w, i, addon, key);
      UpdatesRegister(h, PassCalls(cfg, w, i, addon), addon, key);
    }
  }

  /** After any run the flag says whether the event map lists the operator key for the Addon, whatever other Addons did
      in between. */
  lemma {:induction false} MappedIsListed(cfg: Config, w: World, inputs: seq<Input>, others: seq<seq<Call>>, addon: ObjectKey, key: ObjectKey)
    requires !w.mapped && |others| == |inputs| && OfOthers(others, addon) && OneKey(inputs, key)
    ensures var h := History(cfg, w, inputs, others, addon);
      && (Run(cfg, w, inputs).mapped <==> Registered(h, addon, key))
      && (Run(cfg, w, inputs).mapped <==> key in After(h).ListOf(addon))
  {
    if inputs != [] {
      var n := |inputs| - 1;
      MappedIsListed(cfg, w, inputs[..n], others[..n], addon, key);
      var (u, h) := (Run(cfg, w, inputs[..n]), History(cfg, w, inputs[..n], others[..n], addon));
      OthersRegister(h, others[n], addon, key);
      assert inputs[n] in inputs;
      PassRegisters(cfg, u, inputs[n], h + others[n], addon, key);
    }
    ListsAreRegistrations(History(cfg, w, inputs, others, addon), addon, key);
  }

  /** The map update asks for a requeue exactly when the flag is down or another Addon has taken the route. */
  lemma ChangedIffUnmappedOrTaken(r: Routing, addon: ObjectKey, key: ObjectKey)
    ensures Register(r, addon, key) != r <==> key !in r.ListOf(addon) || !r.RoutesTo(key, addon)
  {
    if key in r.ListOf(addon) && r.RoutesTo(key, addon) {
      assert r.routes[key := addon] == r.routes;
    } else if key !in r.ListOf(addon) {
      assert Register(r, addon, key).ListOf(addon) != r.ListOf(addon);
    }
  }

  // ----- After the finalizer is gone -----

  ghost predicate Unregistered(h: seq<Call>, addon: ObjectKey) {
    forall k :: !Registered(h, addon, k)
  }

  lemma FinalizerLostFrees(cfg: Config, w: World, i: Input)
    requires WellConfigured(cfg) && w.finalizer && !Pass(cfg, w, i).finalizer
    ensures Frees(w, i)
  {
    RunSafety.FinalizerStep(cfg, w, i);
    if i.fetched {
      DeletionMaps(w.(status := w.persisted), i);
      ReportingKeeps(cfg, ReconcileCore(cfg, w.(status := w.persisted), i), i.manifest, i.ocm);
    }
  }

  lemma OthersKeepUnregistered(h: seq<Call>, cs: seq<Call>, addon: ObjectKey)
    requires Unregistered(h, addon) && forall c :: c in cs ==> c.addon != addon
    ensures Unregistered(h + cs, addon)
  {
    forall k ensures !Registered(h + cs, addon, k) { OthersRegister(h, cs, addon, k); }
  }

  lemma FreeUnregisters(h: seq<Call>, addon: ObjectKey)
    ensures Unregistered(h + [FreeCall(addon)], addon)
  {
    forall k ensures !Registered(h + [FreeCall(addon)], addon, k) { RegisteredStep(h, FreeCall(addon), addon, k); }
  }

  lemma UnregisteredIsUnreachable(h: seq<Call>, addon: ObjectKey, k: ObjectKey)
    requires Unregistered(h, addon)
    ensures !After(h).RoutesTo(k, addon) && k !in After(h).ListOf(addon)
  {
    AlwaysConsistent(h);
    ListsAreRegistrations(h, addon, k);
  }

  /** Pass j drops the finalizer, and the deletion timestamp stays from then on. */
  ghost predicate Finished(cfg: Config, w: World, inputs: seq<Input>, j: nat) {
    && j < |inputs| && At(cfg, w, inputs, j).finalizer && !At(cfg, w, inputs, j + 1).finalizer
    && forall k :: j < k < |inputs| ==> inputs[k].manifest.deletionTimestamp
  }

  lemma DroppingUnregisters(cfg: Config, w: World, i: Input, h: seq<Call>, addon: ObjectKey)
    requires WellConfigured(cfg) && w.finalizer && !Pass(cfg, w, i).finalizer
    ensures Unregistered(h + PassCalls(cfg, w, i, addon), addon)
  {
    FinalizerLostFrees(cfg, w, i);
    FreeUnregisters(h, addon);
  }

  lemma StaysUnregistered(cfg: Config, w: World, i: Input, h: seq<Call>, addon: ObjectKey)
    requires WellConfigured(cfg) && i.manifest.deletionTimestamp && !w.finalizer && Unregistered(h, addon)
    ensures Unregistered(h + PassCalls(cfg, w, i, addon), addon) && !Pass(cfg, w, i).finalizer
  {
    RunSafety.FinalizerStep(cfg, w, i);
    assert PassCalls(cfg, w, i, addon) == [] && h + [] == h;
  }

  function HistoryAt(cfg: Config, w: World, inputs: seq<Input>, others: seq<seq<Call>>, addon: ObjectKey, k: nat): seq<Call>
    requires |others| == |inputs| && k <= |inputs|
  {
    History(cfg, w, inputs[..k], others[..k], addon)
  }

  lemma HistoryStep(cfg: Config, w: World, inputs: seq<Input>, others: seq<seq<Call>>, addon: ObjectKey, k: nat)
    requires |others| == |inputs| && k < |inputs|
    ensures HistoryAt(cfg, w, inputs, others, addon, k + 1) ==
      HistoryAt(cfg, w, inputs, others, addon, k) + others[k] + PassCalls(cfg, At(cfg, w, inputs, k), inputs[k], addon)
  {
    assert inputs[..k + 1][..k] == inputs[..k] && others[..k + 1][..k] == others[..k];
  }

  ghost predicate OutAt(cfg: Config, w: World, inputs: seq<Input>, others: seq<seq<Call>>, addon: ObjectKey, k: nat)
    requires |others| == |inputs| && k <= |inputs|
  {
    Unregistered(HistoryAt(cfg, w, inputs, others, addon, k), addon) && !At(cfg, w, inputs, k).finalizer
  }

  lemma OutAtDrop(cfg: Config, w: World, inputs: seq<Input>, others: seq<seq<Call>>, addon: ObjectKey, j: nat)
    requires WellConfigured(cfg) && |others| == |inputs| && Finished(cfg, w, inputs, j)
    ensures OutAt(cfg, w, inputs, others, addon, j + 1)
  {
    HistoryStep(cfg, w, inputs, others, addon, j);
    AtStep(cfg, w, inputs, j);
    DroppingUnregisters(cfg, At(cfg, w, inputs, j), inputs[j], HistoryAt(cfg, w, inputs, others, addon, j) + others[j], addon);
  }

  lemma OutAtStep(cfg: Config, w: World, inputs: seq<Input>, others: seq<seq<Call>>, addon: ObjectKey, k: nat)
    requires WellConfigured(cfg) && |others| == |inputs| && OfOthers(others, addon) && k < |inputs|
    requires inputs[k].manifest.deletionTimestamp && OutAt(cfg, w, inputs, others, addon, k)
    ensures OutAt(cfg, w, inputs, others, addon, k + 1)
  {
    HistoryStep(cfg, w, inputs, others, addon, k);
    AtStep(cfg, w, inputs, k);
    var h := HistoryAt(cfg, w, inputs, others, addon, k);
    OthersKeepUnregistered(h, others[k], addon);
    StaysUnregistered(cfg, At(cfg, w, inputs, k), inputs[k], h + others[k], addon);
  }

  lemma StaysOut(cfg: Config, w: World, inputs: seq<Input>, others: seq<seq<Call>>, addon: ObjectKey, j: nat, k: nat)
    requires WellConfigured(cfg) && |others| == |inputs| && OfOthers(others, addon) && j <= k <= |inputs|
    requires OutAt(cfg, w, inputs, others, addon, j) && forall i :: j <= i < |inputs| ==> inputs[i].manifest.deletionTimestamp
    ensures OutAt(cfg, w, inputs, others, addon, k)
  {
    var bs := seq(|inputs| + 1, i requires 0 <= i <= |inputs| => OutAt(cfg, w, inputs, others, addon, i));
    forall i | j <= i < k ensures bs[i] ==> bs[i + 1] {
      if bs[i] { OutAtStep(cfg, w, inputs, others, addon, i); }
    }
    Persists(bs, j, k);
  }

  /** Once a pass has dropped the finalizer, no later pass brings the Addon back into the event map: whatever other
      Addons do, no event is routed to it again. */
  lemma DeletedAddonIsNeverWoken(cfg: Config, w: World, inputs: seq<Input>, others: seq<seq<Call>>, addon: ObjectKey, j: nat, k: nat, key: ObjectKey)
    requires WellConfigured(cfg) && |others| == |inputs| && OfOthers(others, addon) && Finished(cfg, w, inputs, j)
    requires j < k <= |inputs|
    ensures !After(HistoryAt(cfg, w, inputs, others, addon, k)).RoutesTo(key, addon)
  {
    OutAtDrop(cfg, w, inputs, others, addon, j);
    StaysOut(cfg, w, inputs, others, addon, j + 1, k);
    UnregisteredIsUnreachable(HistoryAt(cfg, w, inputs, others, addon, k), addon, key);
  }
}
