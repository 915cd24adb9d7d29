/** Two promises that span the whole pass: an upgrade is reported completed only after the Addon was
    ready at that version, and a finalizer is dropped only after everything else was cleaned up. */
module RunSafety {
  import opened Conditions
  import opened AddonModel
  import opened Lifecycle
  import opened StepProofs
  import opened PassProofs
  import opened Runs
  import opened RunReports

  // ----- Completed only after ready? -----

  predicate ReadyBefore(log: seq<Event>, n: nat, version: string)
    requires n <= |log|
  {
    exists j :: 0 <= j < n && log[j] == BecameReady(version)
  }

  /** Every reported completion of the version comes after a pass that made the Addon ready at it. */
  ghost predicate ReadyFirst(log: seq<Event>, version: string) {
    forall k :: 0 <= k < |log| && log[k].Completed? && log[k].completedVersion == version ==> ReadyBefore(log, k, version)
  }

  lemma ReadyPersists(log: seq<Event>, r: seq<Event>, n: nat, version: string)
    requires n <= |log| && log <= r && ReadyBefore(log, n, version)
    ensures ReadyBefore(r, n, version) && forall k :: n <= k <= |r| ==> ReadyBefore(r, k, version)
  {
    var j :| 0 <= j < n && log[j] == BecameReady(version);
    assert r[j] == log[j];
  }

  lemma ReadyFirstAppend(log: seq<Event>, r: seq<Event>, version: string)
    requires ReadyFirst(log, version) && log <= r
    requires ReadyBefore(log, |log|, version) || forall k :: |log| <= k < |r| ==> !r[k].Completed?
    ensures ReadyFirst(r, version)
  {
    forall k | 0 <= k < |r| && r[k].Completed? && r[k].completedVersion == version ensures ReadyBefore(r, k, version) {
      if k < |log| {
        assert r[k] == log[k];
        ReadyPersists(log, r, k, version);
      } else {
        ReadyPersists(log, r, |log|, version);
      }
    }
  }

  lemma ChainReadyFirst(w: World, core: World, policy: World, r: World, i: Input)
    requires Chain(w, core, policy, r, i) && ReadyFirst(w.log, i.manifest.spec.version)
    requires w.persisted.IsTrue(Available) ==> ReadyBefore(w.log, |w.log|, i.manifest.spec.version)
    ensures ReadyFirst(r.log, i.manifest.spec.version)
    ensures r.persisted.IsTrue(Available) ==> ReadyBefore(r.log, |r.log|, i.manifest.spec.version)
  {
    var version := i.manifest.spec.version;
    NoCompletionUnlessAvailable(core, policy, i.manifest);
    assert w.log <= core.log <= policy.log <= r.log;
    ReadyFirstAppend(w.log, core.log, version);
    if w.persisted.IsTrue(Available) { ReadyPersists(w.log, r.log, |w.log|, version); }
    if core.status.IsTrue(Available) {
      if w.persisted.IsTrue(Available) { ReadyPersists(w.log, core.log, |w.log|, version); }
      assert ReadyBefore(core.log, |core.log|, version);
      ReadyPersists(core.log, r.log, |core.log|, version);
    }
    ReadyFirstAppend(core.log, r.log, version);
  }

  lemma NoCompletionUnlessAvailable(w: World, r: World, a: Manifest)
    requires PolicyEffect(w, r, a)
    ensures w.log <= r.log && (!w.status.IsTrue(Available) ==> forall k :: |w.log| <= k < |r.log| ==> !r.log[k].Completed?)
  {
  }

  /** If the Addon is not available when a version is set, the version is reported completed only after
      a pass in which every sub-reconciler succeeded at it. */
  lemma {:induction false} CompletedAfterReady(cfg: Config, w: World, inputs: seq<Input>, version: string)
    requires WellConfigured(cfg) && w.log == [] && !w.persisted.IsTrue(Available)
    requires forall i :: i in inputs ==> i.manifest.spec.version == version
    ensures var r := Run(cfg, w, inputs);
      ReadyFirst(r.log, version) && (r.persisted.IsTrue(Available) ==> ReadyBefore(r.log, |r.log|, version))
  {
    if inputs != [] {
      var m := inputs[..|inputs| - 1];
      CompletedAfterReady(cfg, w, m, version);
      var (u, i) := (Run(cfg, w, m), inputs[|inputs| - 1]);
      if i.fetched {
        var core, policy := PassChain(cfg, u, i);
        ChainReadyFirst(u, core, policy, Pass(cfg, u, i), i);
      }
    }
  }

  /** A pass under global pause in which OCM accepts everything and every write is saved. */
  predicate PausedReport(i: Input, a: Manifest) {
    i.manifest == a && i.fetched && i.globalPause && i.statusSaved
    && i.ocm == OCMObservation(true, true, false, Some(StateStarted), true, true, false)
  }

  function PausedPass(a: Manifest): (i: Input)
    ensures PausedReport(i, a)
  {
    var o := OLMObservation(false, false, ProbeFailed, ProbeFailed, SubscriptionFailed, false, PlanFailed, false,
                            OperatorFailed, ConfigMapFailed, InstanceFailed);
    Input(a, 0, 0, true, true, false, false, HandlerFailed, ProbeFailed, ProbeFailed, ProbeFailed, ProbeFailed, false, o,
          ProbeFailed, ProbeFailed, false, TemplateFailed, false,
          OCMObservation(true, true, false, Some(StateStarted), true, true, false), true)
  }

  lemma AvailableReports(w: World, i: Input, a: Manifest)
    requires PausedReport(i, a) && RequiresReporting(w.status, a) && w.status.IsTrue(Available)
    ensures var (r, id) := (PolicyStep(w, a, i.ocm), a.spec.upgradePolicy.value);
      if RecordIs(w.status, ValueStarted, a.spec.version)
      then r.log == w.log + [PolicyRead(id), Completed(id, a.spec.version)]
      else r.log == w.log + [PolicyRead(id), Started(id, a.spec.version)]
           && r.status.upgradePolicy == Some(PolicyRecord(id, ValueStarted, a.spec.version, a.generation))
  {
    var (id, v) := (a.spec.upgradePolicy.value, a.spec.version);
    assert w.log + [PolicyRead(id)] + [Completed(id, v)] == w.log + [PolicyRead(id), Completed(id, v)];
    assert w.log + [PolicyRead(id)] + [Started(id, v)] == w.log + [PolicyRead(id), Started(id, v)];
    if RecordIs(w.status, ValueStarted, v) {} else if w.status.upgradePolicy.None? {} else {}
  }

  lemma PausedPassReports(cfg: Config, w: World, i: Input, a: Manifest)
    requires PausedReport(i, a) && RequiresReporting(w.persisted, a) && !a.deletionTimestamp && w.persisted.IsTrue(Available)
    ensures var (r, id) := (Pass(cfg, w, i), a.spec.upgradePolicy.value);
      && r.persisted.IsTrue(Available)
      && (if RecordIs(w.persisted, ValueStarted, a.spec.version)
          then r.log == w.log + [PolicyRead(id), Completed(id, a.spec.version)]
          else r.log == w.log + [PolicyRead(id), Started(id, a.spec.version)]
               && r.persisted.upgradePolicy == Some(PolicyRecord(id, ValueStarted, a.spec.version, a.generation)))
  {
    var w1 := w.(status := ReportPause(w.persisted, a.generation, AddonOperatorPaused, i.now));
    assert ReconcileCore(cfg, w.(status := w.persisted), i) == w1;
    var w2 := PolicyStep(w1, a, i.ocm);
    AvailableReports(w1, i, a);
    PolicyKeeps(w1, a, i.ocm);
    assert PostStep(cfg, w2, a, i.ocm) == w2;
  }

  lemma ShortRuns(cfg: Config, w: World, i: Input)
    ensures Run(cfg, w, [i]) == Pass(cfg, w, i)
    ensures Run(cfg, w, [i, i]) == Pass(cfg, Pass(cfg, w, i), i)
  {
    assert [i][..0] == [] && [i, i][..1] == [i];
    assert Run(cfg, w, []) == w;
  }

  lemma PrematureLog(before: seq<Event>, log: seq<Event>, id: string, v: string)
    requires log == before + [PolicyRead(id), Completed(id, v)]
    requires forall j :: 0 <= j < |before| ==> !before[j].BecameReady?
    ensures !ReadyFirst(log, v)
  {
    assert log[|before| + 1] == Completed(id, v);
    assert !ReadyBefore(log, |before| + 1, v);
  }

  /** A pass that reports completion after a log without readiness breaks the promise. */
  lemma PrematurePass(cfg: Config, w: World, i: Input, a: Manifest)
    requires PausedReport(i, a) && RequiresReporting(w.persisted, a) && !a.deletionTimestamp && w.persisted.IsTrue(Available)
    requires RecordIs(w.persisted, ValueStarted, a.spec.version) && forall j :: 0 <= j < |w.log| ==> !w.log[j].BecameReady?
    ensures !ReadyFirst(Pass(cfg, w, i).log, a.spec.version)
  {
    PausedPassReports(cfg, w, i, a);
    PrematureLog(w.log, Pass(cfg, w, i).log, a.spec.upgradePolicy.value, a.spec.version);
  }

  lemma FirstPausedPass(cfg: Config, w: World, i: Input, a: Manifest, u: World)
    requires PausedReport(i, a) && RequiresReporting(w.persisted, a) && !a.deletionTimestamp && w.persisted.IsTrue(Available)
    requires !RecordIs(w.persisted, ValueStarted, a.spec.version) && w.log == [] && u == Pass(cfg, w, i)
    ensures RequiresReporting(u.persisted, a) && u.persisted.IsTrue(Available)
    ensures RecordIs(u.persisted, ValueStarted, a.spec.version) && forall j :: 0 <= j < |u.log| ==> !u.log[j].BecameReady?
  {
    PausedPassReports(cfg, w, i, a);
    StartedOnly(u.persisted, u.log, a);
  }

  lemma StartedOnly(s: Status, log: seq<Event>, a: Manifest)
    requires a.spec.upgradePolicy.Some? && a.spec.version != ""
    requires var id := a.spec.upgradePolicy.value;
      && log == [] + [PolicyRead(id), Started(id, a.spec.version)]
      && s.upgradePolicy == Some(PolicyRecord(id, ValueStarted, a.spec.version, a.generation))
    ensures RequiresReporting(s, a) && RecordIs(s, ValueStarted, a.spec.version)
    ensures forall j :: 0 <= j < |log| ==> !log[j].BecameReady?
  {
  }

  /** One pass if the version is already recorded as started, otherwise two; none of them reaches a
      sub-reconciler, and the version is reported completed all the same. */
  lemma StaleAvailabilityCompletes(cfg: Config, w: World, i: Input, a: Manifest)
    requires PausedReport(i, a) && RequiresReporting(w.persisted, a) && !a.deletionTimestamp
    requires w.log == [] && w.persisted.IsTrue(Available)
    ensures !ReadyFirst(Run(cfg, w, [i]).log, a.spec.version) || !ReadyFirst(Run(cfg, w, [i, i]).log, a.spec.version)
  {
    ShortRuns(cfg, w, i);
    if RecordIs(w.persisted, ValueStarted, a.spec.version) {
      PrematurePass(cfg, w, i, a);
    } else {
      var u := Pass(cfg, w, i);
      FirstPausedPass(cfg, w, i, a, u);
      PrematurePass(cfg, u, i, a);
    }
  }

  /** No sequence of passes over this manifest reports its version completed before it was ready. */
  ghost predicate NeverPremature(cfg: Config, w: World, a: Manifest) {
    forall inputs: seq<Input> | (forall i :: i in inputs ==> i.manifest == a) ::
      ReadyFirst(Run(cfg, w, inputs).log, a.spec.version)
  }

  /** The promise "healthy at least once at this version" of a completion report holds for every
      continuation exactly when the Addon is not available at the moment the version is set. */
  lemma CompletionIsHonestIff(cfg: Config, w: World, a: Manifest)
    requires WellConfigured(cfg) && w.log == [] && !a.deletionTimestamp && RequiresReporting(w.persisted, a)
    ensures NeverPremature(cfg, w, a) <==> !w.persisted.IsTrue(Available)
  {
    if w.persisted.IsTrue(Available) {
      var p := PausedPass(a);
      StaleAvailabilityCompletes(cfg, w, p, a);
      assert forall i :: i in [p] || i in [p, p] ==> i.manifest == a;
    } else {
      forall inputs: seq<Input> | (forall i :: i in inputs ==> i.manifest == a)
        ensures ReadyFirst(Run(cfg, w, inputs).log, a.spec.version)
      {
        CompletedAfterReady(cfg, w, inputs, a.spec.version);
      }
    }
  }

  /** At least the conditions never lie in the pass that reports completion. */
  lemma CompletedWhileInstalled(cfg: Config, w: World, i: Input, k: nat)
    requires WellConfigured(cfg) && Coherent(w.persisted) && i.fetched
    requires |w.log| <= k < |Pass(cfg, w, i).log| && Pass(cfg, w, i).log[k].Completed?
    ensures var s := Pass(cfg, w, i).status; s.IsTrue(Available) && s.IsTrue(Installed) && s.phase == PhaseReady
  {
    var core, policy := PassChain(cfg, w, i);
    var w0 := w.(status := w.persisted);
    CoreKeeps(cfg, w0, i);
    NoCompletionUnlessAvailable(core, policy, i.manifest);
    ReportingKeeps(cfg, core, i.manifest, i.ocm);
    assert Coherent(core.status) && core.status.IsTrue(Available);
  }

  // ----- Deletion of the Addon itself -----

  /** A dropped finalizer is immediately preceded by the template seen gone and the mapping freed. */
  ghost predicate DroppedLast(log: seq<Event>) {
    forall k :: 0 <= k < |log| && log[k].FinalizerDropped? ==>
      k >= 2 && log[k - 1] == MappingFreed && log[k - 2] == TemplateSeenGone
  }

  lemma DroppedLastAppend(log: seq<Event>, r: seq<Event>)
    requires DroppedLast(log) && log <= r && forall k :: |log| <= k < |r| ==> !r[k].FinalizerDropped?
    ensures DroppedLast(r)
  {
    forall k | 0 <= k < |r| && r[k].FinalizerDropped?
      ensures k >= 2 && r[k - 1] == MappingFreed && r[k - 2] == TemplateSeenGone
    {
      assert r[k] == log[k];
    }
  }

  lemma DeletionDropsLast(w: World, i: Input)
    requires DroppedLast(w.log)
    ensures DroppedLast(DeletionPass(w, i).log)
  {
    var r := DeletionPass(w, i);
    if r.log != w.log {
      var freed := w.log + [TemplateSeenGone, MappingFreed];
      DroppedLastAppend(w.log, freed);
      if r.log != freed {
        assert r.log == freed + [FinalizerDropped];
        forall k | 0 <= k < |r.log| && r.log[k].FinalizerDropped?
          ensures k >= 2 && r.log[k - 1] == MappingFreed && r.log[k - 2] == TemplateSeenGone
        {
          if k < |freed| { assert freed[k].FinalizerDropped?; }
        }
      }
    }
  }

  /** In every run the finalizer is dropped only when, in the same pass, the object template was already
      gone and the event mapping had been freed. */
  lemma {:induction false} FinalizerGoesLast(cfg: Config, w: World, inputs: seq<Input>)
    requires WellConfigured(cfg) && w.log == []
    ensures DroppedLast(Run(cfg, w, inputs).log)
  {
    if inputs != [] {
      var (m, i) := (inputs[..|inputs| - 1], inputs[|inputs| - 1]);
      FinalizerGoesLast(cfg, w, m);
      var u := Run(cfg, w, m);
      if i.fetched {
        var core, policy := PassChain(cfg, u, i);
        var u0 := u.(status := u.persisted);
        if i.manifest.deletionTimestamp { DeletionDropsLast(u0, i); }
        else {
          CoreLogs(cfg, u0, i);
          DroppedLastAppend(u.log, core.log);
        }
        NoCompletionUnlessAvailable(core, policy, i.manifest);
        ReportsDropNothing(core, policy, i.manifest);
        DroppedLastAppend(core.log, policy.log);
        DroppedLastAppend(policy.log, Pass(cfg, u, i).log);
      }
    }
  }

  lemma ReportsDropNothing(w: World, r: World, a: Manifest)
    requires PolicyEffect(w, r, a)
    ensures w.log <= r.log && forall k :: |w.log| <= k < |r.log| ==> IsPolicyEvent(r.log[k])
  {
  }

  /** The finalizer changes hands only where the code says so: gained by an active pass, lost only by a
      deletion pass that found the template gone and freed the mapping. */
  lemma FinalizerStep(cfg: Config, w: World, i: Input)
    requires WellConfigured(cfg)
    ensures var r := Pass(cfg, w, i);
      && (w.finalizer && !r.finalizer ==> i.manifest.deletionTimestamp && i.template == TemplateGone && !r.mapped)
      && (i.manifest.deletionTimestamp ==> (r.mapped ==> w.mapped) && (r.finalizer ==> w.finalizer))
  {
    if i.fetched {
      var w0 := w.(status := w.persisted);
      var core, policy := PassChain(cfg, w, i);
      ReportingKeeps(cfg, core, i.manifest, i.ocm);
      CorePersisted(cfg, w0, i);
    }
  }

  /** Once the finalizer is gone, no later pass of that Addon maps it again or takes the finalizer back:
      its deletion timestamp never goes away. */
  lemma {:induction false} NeverMappedAgain(cfg: Config, w: World, inputs: seq<Input>)
    requires WellConfigured(cfg) && !w.mapped && !w.finalizer
    requires forall i :: i in inputs ==> i.manifest.deletionTimestamp
    ensures var r := Run(cfg, w, inputs); !r.mapped && !r.finalizer
  {
    if inputs != [] {
      var m := inputs[..|inputs| - 1];
      NeverMappedAgain(cfg, w, m);
      FinalizerStep(cfg, Run(cfg, w, m), inputs[|inputs| - 1]);
    }
  }
}
