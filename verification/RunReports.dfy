/** The reporting protocols over whole runs: upgrade-policy patches, status posts, and the
    clean-up events of a deletion, as they appear in the log of everything sent. */
module RunReports {
  import opened Conditions
  import opened AddonModel
  import opened Lifecycle
  import opened StepProofs
  import opened PassProofs
  import opened Runs

  predicate IsPolicyEvent(e: Event) { e.PolicyRead? || e.Started? || e.Completed? }
  predicate IsReport(e: Event) { IsPolicyEvent(e) || e.Posted? }
  predicate IsCleanup(e: Event) { e.TemplateSeenGone? || e.MappingFreed? || e.FinalizerDropped? }

  // ----- What the core of a pass logs -----

  /** Only `extra` was appended, and it holds no report. */
  predicate Unreported(log: seq<Event>, r: seq<Event>) {
    log <= r && forall k :: |log| <= k < |r| ==> !IsReport(r[k])
  }

  predicate ReadinessLogged(w: World, r: World, version: string) {
    r.status.IsTrue(Available) ==>
      w.status.IsTrue(Available) || (|r.log| > |w.log| && r.log[|r.log| - 1] == BecameReady(version))
  }

  /** Nothing appended is a clean-up event. */
  predicate NoCleanup(log: seq<Event>, r: seq<Event>) {
    forall k :: |log| <= k < |r| ==> !IsCleanup(r[k])
  }

  predicate SilentEffect(w: World, r: World, i: Input) {
    && Unreported(w.log, r.log) && ReadinessLogged(w, r, i.manifest.spec.version)
    && r.status.upgradePolicy == w.status.upgradePolicy && r.status.reportedHash == w.status.reportedHash
    && (!i.manifest.deletionTimestamp ==> NoCleanup(w.log, r.log))
  }

  lemma SilentAppend(log: seq<Event>, es: seq<Event>)
    requires forall k :: 0 <= k < |es| ==> es[k].Ran? || es[k].BecameReady?
    ensures Unreported(log, log + es) && NoCleanup(log, log + es)
  {
  }

  lemma SubsLogged(cfg: Config, w: World, i: Input)
    ensures var r := SubsPass(cfg, w, i); Unreported(w.log, r.log) && NoCleanup(w.log, r.log)
  {
    ExecutionOrder(cfg, w, i);
    SilentAppend(w.log, SubsLog(cfg, w, i));
  }

  lemma ConcludeReadiness(ks: seq<SubKind>, w: World, i: Input)
    ensures var r := Conclude(ks, w, i);
      && (r.status.IsTrue(Available) ==>
            (r.log == w.log && w.status.IsTrue(Available)) || r.log == w.log + [BecameReady(i.manifest.spec.version)])
      && r.status.upgradePolicy == w.status.upgradePolicy && r.status.reportedHash == w.status.reportedHash
  {
    if PackageSub in ks && i.packageCheck == ProbeFailed {
    } else if PackageSub in ks && i.packageCheck != ProbeDone {
    } else {
    }
  }

  lemma SubsReadiness(cfg: Config, w: World, i: Input)
    requires WellConfigured(cfg)
    ensures var r := SubsPass(cfg, w, i);
      && ReadinessLogged(w, r, i.manifest.spec.version)
      && r.status.upgradePolicy == w.status.upgradePolicy && r.status.reportedHash == w.status.reportedHash
  {
    var ks := Sorted(cfg.subs);
    SortedKeepsMembers(cfg.subs);
    RunSubsEffect(ks, w, i);
    RunSubsPrefix(ks, w, i);
    var r := RunSubs(ks, w, i);
    assert r.w.status.IsTrue(Available) ==> w.status.IsTrue(Available);
    if r.outcome == Zero { ConcludeReadiness(ks, r.w, i); }
  }

  lemma CoreLogs(cfg: Config, w: World, i: Input)
    requires WellConfigured(cfg) && w.persisted == w.status
    ensures SilentEffect(w, ReconcileCore(cfg, w, i), i)
  {
    var a := i.manifest;
    if a.deletionTimestamp { DeletionLogs(w, i); }
    else if i.globalPause { PauseLogs(w, i, AddonOperatorPaused); }
    else if a.spec.paused { PauseLogs(w, i, AddonPaused); }
    else if BeingUpgraded(w.status, a) { UpgradeStartLogs(w, i); }
    else { ActiveLogs(cfg, w, i); }
  }

  lemma PauseLogs(w: World, i: Input, reason: Reason)
    ensures SilentEffect(w, w.(status := ReportPause(w.status, i.manifest.generation, reason, i.now)), i)
  {
  }

  lemma UpgradeStartLogs(w: World, i: Input)
    ensures var g := i.manifest.generation;
      SilentEffect(w, w.(status := ReportUpgradeStarted(RemovePause(w.status, g), g, i.now)), i)
  {
    var s := RemovePause(w.status, i.manifest.generation);
    if s.Has(UpgradeSucceeded) {} else {}
  }

  lemma ActiveLogs(cfg: Config, w: World, i: Input)
    requires WellConfigured(cfg) && w.persisted == w.status && !i.manifest.deletionTimestamp
    ensures SilentEffect(w, ActivePass(cfg, w, i), i)
  {
    FinalizerLogs(w, i);
    var f := EnsureFinalizer(w.(status := Prepared(w.status, i)), i);
    if f.outcome == Zero {
      SubsLogged(cfg, f.w, i);
      SubsReadiness(cfg, f.w, i);
      SilentAfter(w, f.w, SubsPass(cfg, f.w, i), i);
    } else {
      SilentAfter(w, f.w, f.w, i);
    }
  }

  predicate SameForReports(w: World, m: World) {
    && m.log == w.log && m.status.Find(Available) == w.status.Find(Available)
    && m.status.upgradePolicy == w.status.upgradePolicy && m.status.reportedHash == w.status.reportedHash
  }

  lemma SilentAfter(w: World, m: World, r: World, i: Input)
    requires SameForReports(w, m) && SilentEffect(m, r, i)
    ensures SilentEffect(w, r, i)
  {
  }

  lemma FinalizerLogs(w: World, i: Input)
    requires w.persisted == w.status
    ensures SameForReports(w, EnsureFinalizer(w.(status := Prepared(w.status, i)), i).w)
  {
    PreparedLogs(w.status, i);
  }

  lemma PreparedLogs(s: Status, i: Input)
    ensures var r := Prepared(s, i);
      r.upgradePolicy == s.upgradePolicy && r.reportedHash == s.reportedHash && r.Find(Available) == s.Find(Available)
  {
    if RemovePause(s, i.manifest.generation).Has(Installed) {} else {}
  }

  lemma DeletionLogs(w: World, i: Input)
    requires i.manifest.deletionTimestamp
    ensures SilentEffect(w, DeletionPass(w, i), i)
  {
    DeletionTail(w, i);
    var r := DeletionPass(w, i);
    if w.finalizer { assert r.status == ReportTermination(w.status, i.manifest.generation, i.now); }
  }

  // ----- The log of a whole pass -----

  /** The state in which the sub-reconcilers of a pass start, if it gets that far. */
  function SubsStart(w: World, i: Input): Option<World> {
    if !i.fetched || !Unhindered(i) || BeingUpgraded(w.persisted, i.manifest) then None
    else
      var f := EnsureFinalizer(w.(status := Prepared(w.persisted, i)), i);
      if f.outcome == Zero then Some(f.w) else None
  }

  /** The part of a pass's log that tells what was executed. */
  function ExecutionLog(cfg: Config, start: Option<World>, i: Input): seq<Event> {
    if start.None? then [] else SubsLog(cfg, start.value, i)
  }

  lemma StartReached(cfg: Config, w: World, i: Input)
    requires i.fetched && SubsStart(w, i).Some?
    ensures var s := SubsStart(w, i).value;
      s.log == w.log && ReconcileCore(cfg, w.(status := w.persisted), i) == SubsPass(cfg, s, i)
  {
  }

  lemma StartNotReached(cfg: Config, w: World, i: Input)
    requires i.fetched && SubsStart(w, i).None? && !i.manifest.deletionTimestamp
    ensures ReconcileCore(cfg, w.(status := w.persisted), i).log == w.log
  {
    if !Unhindered(i) {} else if BeingUpgraded(w.persisted, i.manifest) {} else {}
  }

  predicate Tail(log: seq<Event>, r: seq<Event>) {
    log <= r && forall k :: |log| <= k < |r| ==> IsReport(r[k]) || IsCleanup(r[k])
  }

  lemma TailExtends(log: seq<Event>, m: seq<Event>, r: seq<Event>)
    requires Tail(log, m) && m <= r && forall k :: |m| <= k < |r| ==> IsReport(r[k])
    ensures Tail(log, r)
  {
    forall k | |log| <= k < |r| ensures IsReport(r[k]) || IsCleanup(r[k]) { if k < |m| { assert r[k] == m[k]; } }
  }

  /** A deletion pass logs nothing but clean-up. */
  lemma DeletionTail(w: World, i: Input)
    ensures var r := DeletionPass(w, i).log; w.log <= r && forall k :: |w.log| <= k < |r| ==> IsCleanup(r[k])
  {
    var r := DeletionPass(w, i).log;
    if w.finalizer && i.terminationSaved && i.template == TemplateGone {
      var freed := w.log + [TemplateSeenGone, MappingFreed];
      assert r == freed || r == freed + [FinalizerDropped];
    } else {
      assert r == w.log;
    }
  }

  lemma CoreOrder(cfg: Config, w: World, i: Input)
    requires i.fetched
    ensures Tail(w.log + ExecutionLog(cfg, SubsStart(w, i), i), ReconcileCore(cfg, w.(status := w.persisted), i).log)
  {
    var start := SubsStart(w, i);
    if start.Some? {
      StartReached(cfg, w, i);
      ExecutionOrder(cfg, start.value, i);
    } else {
      assert w.log + [] == w.log;
      if i.manifest.deletionTimestamp { DeletionTail(w.(status := w.persisted), i); } else { StartNotReached(cfg, w, i); }
    }
  }

  /** In the log of a pass come first the executed sub-reconcilers, a prefix of the order-sorted permutation of the
      registered ones, then readiness if all of them returned zero and the package check passed, and after that
      only reports and clean-up. */
  lemma PassOrder(cfg: Config, w: World, i: Input)
    requires WellConfigured(cfg) && i.fetched
    ensures InOrder(Sorted(cfg.subs)) && multiset(Sorted(cfg.subs)) == multiset(cfg.subs)
    ensures Tail(w.log + ExecutionLog(cfg, SubsStart(w, i), i), Pass(cfg, w, i).log)
  {
    SortedIsOrderedPermutation(cfg.subs);
    var first := w.log + ExecutionLog(cfg, SubsStart(w, i), i);
    CoreOrder(cfg, w, i);
    var core, policy := PassChain(cfg, w, i);
    PolicyLogsReports(core, policy, i.manifest);
    TailExtends(first, core.log, policy.log);
    TailExtends(first, policy.log, Pass(cfg, w, i).log);
  }

  lemma PolicyLogsReports(w: World, r: World, a: Manifest)
    requires PolicyEffect(w, r, a)
    ensures w.log <= r.log && forall k :: |w.log| <= k < |r.log| ==> IsReport(r.log[k])
  {
  }

  // ----- What one policy report does -----

  predicate RecordIs(s: Status, v: PolicyValue, version: string) {
    s.upgradePolicy.Some? && s.upgradePolicy.value.value == v && s.upgradePolicy.value.version == version
  }

  /** The patches a pass may send, and what each of them requires of and does to the record. */
  predicate PolicyEffect(w: World, r: World, a: Manifest) {
    var v := a.spec.version;
    || r == w
    || (RequiresReporting(w.status, a) &&
        var id := a.spec.upgradePolicy.value;
        var read := w.log + [PolicyRead(id)];
        var started := Recorded(w.status, a, id, ValueStarted);
        var completed := Recorded(w.status, a, id, ValueCompleted);
        || (r.log == read && r.status == w.status)
        || (r.log == read && r.status == completed
            && w.status.upgradePolicy.Some? && w.status.upgradePolicy.value.version == "")
        || (r.log == read + [Started(id, v)] && r.status == started)
        || (r.log == read + [Completed(id, v)] && r.status == completed
            && RecordIs(w.status, ValueStarted, v) && w.status.IsTrue(Available))
        || (r.log == read + [Started(id, v), Completed(id, v)] && r.status == completed
            && RecordIs(w.status, ValueStarted, v) && w.status.IsTrue(Available)))
  }

  lemma PolicyStepEffect(w: World, a: Manifest, o: OCMObservation)
    ensures PolicyEffect(w, PolicyStep(w, a, o), a)
  {
    if RequiresReporting(w.status, a) && o.policyEnabled && o.client {
      var id := a.spec.upgradePolicy.value;
      var r := PolicyStep(w, a, o);
      var read := w.log + [PolicyRead(id)];
      assert read + [Started(id, a.spec.version)] + [Completed(id, a.spec.version)]
          == read + [Started(id, a.spec.version), Completed(id, a.spec.version)];
      var record := w.status.upgradePolicy;
      if o.policyState.None? {
      } else if record.None? {
      } else if record.value.version == "" && o.policyState.value in {StateCompleted, StatePending} {
      } else if record.value.version != a.spec.version {
      } else if !w.status.IsTrue(Available) {
      } else if o.policyState.value != StateScheduled {
      } else {
      }
    }
  }

  /** A pass as a chain: silent core, policy report, status post. */
  predicate Chain(w: World, core: World, policy: World, r: World, i: Input) {
    && Unreported(w.log, core.log) && ReadinessLogged(w.(status := w.persisted), core, i.manifest.spec.version)
    && core.status.upgradePolicy == w.persisted.upgradePolicy && core.status.reportedHash == w.persisted.reportedHash
    && PolicyEffect(core, policy, i.manifest) && policy.status.reportedHash == core.status.reportedHash
    && policy.status.conditions == core.status.conditions
    && (r.log == policy.log || (|r.log| == |policy.log| + 1 && policy.log < r.log && r.log[|policy.log|].Posted?))
    && r.status.upgradePolicy == policy.status.upgradePolicy && r.status.conditions == policy.status.conditions
    && (if i.statusSaved then r.persisted == r.status
        else r.persisted.upgradePolicy == w.persisted.upgradePolicy && r.persisted.reportedHash == w.persisted.reportedHash
             && (r.persisted.IsTrue(Available) ==> w.persisted.IsTrue(Available)))
  }

  lemma PassChain(cfg: Config, w: World, i: Input) returns (core: World, policy: World)
    requires WellConfigured(cfg) && i.fetched
    ensures Chain(w, core, policy, Pass(cfg, w, i), i)
    ensures core == ReconcileCore(cfg, w.(status := w.persisted), i)
    ensures policy == PolicyStep(core, i.manifest, i.ocm)
    ensures Pass(cfg, w, i).log == PostStep(cfg, policy, i.manifest, i.ocm).log
    ensures Pass(cfg, w, i).status.reportedHash == PostStep(cfg, policy, i.manifest, i.ocm).status.reportedHash
  {
    var w0 := w.(status := w.persisted);
    core := ReconcileCore(cfg, w0, i);
    policy := PolicyStep(core, i.manifest, i.ocm);
    CoreLogs(cfg, w0, i);
    CorePersisted(cfg, w0, i);
    PolicyStepEffect(core, i.manifest, i.ocm);
    PolicyKeeps(core, i.manifest, i.ocm);
    assert ReadinessLogged(w0, core, i.manifest.spec.version);
  }

  // ----- Started before completed -----

  predicate StartedBefore(log: seq<Event>, n: nat, version: string)
    requires n <= |log|
  {
    exists j :: 0 <= j < n && log[j].Started? && log[j].startedVersion == version
  }

  /** Every completion of the log is preceded by a start for its version, unless `first`, the record the
      run began with, already said that this version was started. */
  ghost predicate CompletionsStarted(log: seq<Event>, first: Status) {
    forall k :: 0 <= k < |log| && log[k].Completed? ==>
      StartedBefore(log, k, log[k].completedVersion) || RecordIs(first, ValueStarted, log[k].completedVersion)
  }

  ghost predicate RecordStarted(s: Status, log: seq<Event>, first: Status) {
    s.upgradePolicy.Some? && s.upgradePolicy.value.value == ValueStarted ==>
      var v := s.upgradePolicy.value.version; StartedBefore(log, |log|, v) || RecordIs(first, ValueStarted, v)
  }

  lemma StartedPersists(log: seq<Event>, r: seq<Event>, n: nat, version: string)
    requires n <= |log| && log <= r && StartedBefore(log, n, version)
    ensures StartedBefore(r, n, version) && StartedBefore(r, |r|, version)
  {
    var j :| 0 <= j < n && log[j].Started? && log[j].startedVersion == version;
    assert r[j] == log[j];
  }

  /** Appending events that hold no completion keeps both properties. */
  lemma QuietAppend(s: Status, log: seq<Event>, r: seq<Event>, first: Status)
    requires log <= r && CompletionsStarted(log, first) && RecordStarted(s, log, first)
    requires forall k :: |log| <= k < |r| ==> !r[k].Completed?
    ensures CompletionsStarted(r, first) && RecordStarted(s, r, first)
  {
    forall k | 0 <= k < |r| && r[k].Completed?
      ensures StartedBefore(r, k, r[k].completedVersion) || RecordIs(first, ValueStarted, r[k].completedVersion)
    {
      assert r[k] == log[k];
      if StartedBefore(log, k, log[k].completedVersion) { StartedPersists(log, r, k, log[k].completedVersion); }
    }
    if s.upgradePolicy.Some? && s.upgradePolicy.value.value == ValueStarted {
      var v := s.upgradePolicy.value.version;
      if StartedBefore(log, |log|, v) { StartedPersists(log, r, |log|, v); }
    }
  }

  lemma PolicyStepOrdered(w: World, r: World, a: Manifest, first: Status)
    requires PolicyEffect(w, r, a) && CompletionsStarted(w.log, first) && RecordStarted(w.status, w.log, first)
    ensures CompletionsStarted(r.log, first) && RecordStarted(r.status, r.log, first) && w.log <= r.log
  {
    if r != w {
      var (id, v) := (a.spec.upgradePolicy.value, a.spec.version);
      var read := w.log + [PolicyRead(id)];
      QuietAppend(w.status, w.log, read, first);
      var started := read + [Started(id, v)];
      QuietAppend(w.status, w.log, started, first);
      assert started[|read|] == Started(id, v);
      assert StartedBefore(started, |started|, v);
      if r.log == read + [Completed(id, v)] {
        OneCompletion(read, id, v, first);
      } else if r.log == read + [Started(id, v), Completed(id, v)] {
        assert r.log == started + [Completed(id, v)];
        OneCompletion(started, id, v, first);
      }
    }
  }

  lemma OneCompletion(log: seq<Event>, id: string, v: string, first: Status)
    requires CompletionsStarted(log, first)
    requires StartedBefore(log, |log|, v) || RecordIs(first, ValueStarted, v)
    ensures CompletionsStarted(log + [Completed(id, v)], first)
  {
    var r := log + [Completed(id, v)];
    forall k | 0 <= k < |r| && r[k].Completed?
      ensures StartedBefore(r, k, r[k].completedVersion) || RecordIs(first, ValueStarted, r[k].completedVersion)
    {
      if k < |log| {
        if StartedBefore(log, k, log[k].completedVersion) { StartedPersists(log, r, k, log[k].completedVersion); }
      } else if StartedBefore(log, |log|, v) {
        StartedPersists(log, r, |log|, v);
      }
    }
  }

  /** Under any interleaving of spec changes, remote states, failed calls and lost status writes, no
      version is reported completed that was not reported started before; the one exception is the
      version an initial record already holds as started. */
  lemma {:induction false} StartedPrecedesCompleted(cfg: Config, w: World, inputs: seq<Input>)
    requires WellConfigured(cfg) && w.log == []
    ensures var r := Run(cfg, w, inputs);
      CompletionsStarted(r.log, w.persisted) && RecordStarted(r.persisted, r.log, w.persisted)
  {
    if inputs != [] {
      var (m, i) := (inputs[..|inputs| - 1], inputs[|inputs| - 1]);
      StartedPrecedesCompleted(cfg, w, m);
      var u := Run(cfg, w, m);
      if i.fetched {
        var core, policy := PassChain(cfg, u, i);
        var r := Pass(cfg, u, i);
        QuietAppend(u.persisted, u.log, core.log, w.persisted);
        PolicyStepOrdered(core, policy, i.manifest, w.persisted);
        QuietAppend(policy.status, policy.log, r.log, w.persisted);
        RecordSurvives(u.persisted, u.log, r.log, w.persisted);
      }
    }
  }

  lemma RecordSurvives(s: Status, log: seq<Event>, r: seq<Event>, first: Status)
    requires log <= r && RecordStarted(s, log, first)
    ensures RecordStarted(s, r, first)
  {
    if s.upgradePolicy.Some? && s.upgradePolicy.value.value == ValueStarted {
      var v := s.upgradePolicy.value.version;
      if StartedBefore(log, |log|, v) { StartedPersists(log, r, |log|, v); }
    }
  }

  // ----- With every status write saved: the record is the last patch -----

  predicate IsPatch(e: Event) { e.Started? || e.Completed? }

  /** The accepted patches, in order. */
  function Patches(log: seq<Event>): seq<Event> {
    if log == [] then []
    else
      var e := log[|log| - 1];
      Patches(log[..|log| - 1]) + if IsPatch(e) then [e] else []
  }

  lemma {:induction false} PatchesAppend(log: seq<Event>, es: seq<Event>)
    ensures Patches(log + es) == Patches(log) + Patches(es)
  {
    if es == [] { assert log + es == log; }
    else {
      var m := es[..|es| - 1];
      PatchesAppend(log, m);
      assert (log + es)[..|log + es| - 1] == log + m;
    }
  }

  lemma {:induction false} NoPatches(es: seq<Event>)
    requires forall k :: 0 <= k < |es| ==> !IsPatch(es[k])
    ensures Patches(es) == []
  {
    if es != [] { NoPatches(es[..|es| - 1]); }
  }

  lemma SilentPatches(log: seq<Event>, r: seq<Event>)
    requires log <= r && forall k :: |log| <= k < |r| ==> !IsPatch(r[k])
    ensures Patches(r) == Patches(log)
  {
    assert r == log + r[|log|..];
    PatchesAppend(log, r[|log|..]);
    NoPatches(r[|log|..]);
  }

  predicate Matches(p: PolicyRecord, e: Event) {
    || (e == Started(p.id, p.version) && p.value == ValueStarted)
    || (e == Completed(p.id, p.version) && p.value == ValueCompleted)
  }

  /** The record says exactly what the last accepted patch said. */
  predicate RecordAgrees(s: Status, ps: seq<Event>) {
    if ps == [] then s.upgradePolicy.None?
    else s.upgradePolicy.Some? && s.upgradePolicy.value.version != "" && Matches(s.upgradePolicy.value, ps[|ps| - 1])
  }

  /** Each completion directly follows the start of the same version. */
  predicate Alternates(ps: seq<Event>) {
    forall k :: 0 <= k < |ps| && ps[k].Completed? ==>
      k > 0 && ps[k - 1].Started? && ps[k - 1].startedVersion == ps[k].completedVersion
  }

  lemma PatchOne(log: seq<Event>, e: Event)
    ensures Patches(log + [e]) == Patches(log) + if IsPatch(e) then [e] else []
  {
    assert (log + [e])[..|log|] == log;
  }

  lemma AlternatesSnoc(ps: seq<Event>, e: Event)
    requires Alternates(ps)
    requires e.Completed? ==> ps != [] && ps[|ps| - 1].Started? && ps[|ps| - 1].startedVersion == e.completedVersion
    ensures Alternates(ps + [e])
  {
  }

  lemma CompletionAgrees(s: Status, log: seq<Event>, a: Manifest, id: string)
    requires Alternates(Patches(log)) && a.spec.version != ""
    requires RecordAgrees(s, Patches(log)) && RecordIs(s, ValueStarted, a.spec.version)
    ensures var r := log + [Completed(id, a.spec.version)];
      RecordAgrees(Recorded(s, a, id, ValueCompleted), Patches(r)) && Alternates(Patches(r))
  {
    PatchOne(log, Completed(id, a.spec.version));
    AlternatesSnoc(Patches(log), Completed(id, a.spec.version));
  }

  lemma StartAgrees(s: Status, log: seq<Event>, a: Manifest, id: string)
    requires Alternates(Patches(log)) && a.spec.version != ""
    ensures var r := log + [Started(id, a.spec.version)];
      RecordAgrees(Recorded(s, a, id, ValueStarted), Patches(r)) && Alternates(Patches(r))
  {
    PatchOne(log, Started(id, a.spec.version));
    AlternatesSnoc(Patches(log), Started(id, a.spec.version));
  }

  lemma PolicyStepAgrees(w: World, r: World, a: Manifest)
    requires PolicyEffect(w, r, a) && RecordAgrees(w.status, Patches(w.log)) && Alternates(Patches(w.log))
    ensures RecordAgrees(r.status, Patches(r.log)) && Alternates(Patches(r.log))
  {
    if r != w {
      var (id, v) := (a.spec.upgradePolicy.value, a.spec.version);
      var read := w.log + [PolicyRead(id)];
      PatchOne(w.log, PolicyRead(id));
      if r.log == read {
      } else if r.log == read + [Started(id, v)] {
        StartAgrees(w.status, read, a, id);
      } else if r.log == read + [Completed(id, v)] {
        CompletionAgrees(w.status, read, a, id);
      } else {
        var started := read + [Started(id, v)];
        StartAgrees(w.status, read, a, id);
        CompletionAgrees(Recorded(w.status, a, id, ValueStarted), started, a, id);
        assert r.log == started + [Completed(id, v)];
      }
    }
  }

  lemma ChainPatches(w: World, core: World, policy: World, r: World, i: Input)
    requires Chain(w, core, policy, r, i) && i.statusSaved
    requires RecordAgrees(w.persisted, Patches(w.log)) && Alternates(Patches(w.log))
    ensures RecordAgrees(r.persisted, Patches(r.log)) && Alternates(Patches(r.log))
  {
    SilentPatches(w.log, core.log);
    PolicyStepAgrees(core, policy, i.manifest);
    SilentPatches(policy.log, r.log);
  }

  lemma PassPatches(cfg: Config, w: World, i: Input)
    requires WellConfigured(cfg) && i.fetched && i.statusSaved
    requires RecordAgrees(w.persisted, Patches(w.log)) && Alternates(Patches(w.log))
    ensures var r := Pass(cfg, w, i); RecordAgrees(r.persisted, Patches(r.log)) && Alternates(Patches(r.log))
  {
    var core, policy := PassChain(cfg, w, i);
    ChainPatches(w, core, policy, Pass(cfg, w, i), i);
  }

  /** If no status write is lost, then after any run the recorded value and version are those of the last
      accepted patch, and every completion directly follows the start of its version. */
  lemma {:induction false} RecordIsLastPatch(cfg: Config, w: World, inputs: seq<Input>)
    requires WellConfigured(cfg) && w.log == [] && w.persisted.upgradePolicy == None
    requires forall i :: i in inputs ==> i.statusSaved
    ensures var r := Run(cfg, w, inputs);
      RecordAgrees(r.persisted, Patches(r.log)) && Alternates(Patches(r.log))
  {
    if inputs != [] {
      var (m, i) := (inputs[..|inputs| - 1], inputs[|inputs| - 1]);
      RecordIsLastPatch(cfg, w, m);
      if i.fetched { PassPatches(cfg, Run(cfg, w, m), i); }
    }
  }

  /** Once completion of a version is recorded, OCM is neither asked nor patched again until the
      version changes, even if later status writes are lost. */
  lemma {:induction false} QuietAfterCompletion(cfg: Config, w: World, inputs: seq<Input>, version: string)
    requires WellConfigured(cfg) && RecordIs(w.persisted, ValueCompleted, version)
    requires forall i :: i in inputs ==> i.manifest.spec.version == version
    ensures var r := Run(cfg, w, inputs);
      && r.persisted.upgradePolicy == w.persisted.upgradePolicy && w.log <= r.log
      && forall k :: |w.log| <= k < |r.log| ==> !IsPolicyEvent(r.log[k])
  {
    if inputs != [] {
      var (m, i) := (inputs[..|inputs| - 1], inputs[|inputs| - 1]);
      QuietAfterCompletion(cfg, w, m, version);
      var u := Run(cfg, w, m);
      if i.fetched {
        var core, policy := PassChain(cfg, u, i);
        assert policy == core;
      }
    }
  }

  // ----- Status posts -----

  function Posts(log: seq<Event>): seq<Payload> {
    if log == [] then []
    else
      var e := log[|log| - 1];
      Posts(log[..|log| - 1]) + if e.Posted? then [e.payload] else []
  }

  lemma {:induction false} SilentPosts(log: seq<Event>, r: seq<Event>)
    requires log <= r && forall k :: |log| <= k < |r| ==> !r[k].Posted?
    ensures Posts(r) == Posts(log)
  {
    if |r| > |log| { SilentPosts(log, r[..|r| - 1]); } else { assert r == log; }
  }

  predicate HashAgrees(cfg: Config, s: Status, ps: seq<Payload>) {
    if ps == [] then s.reportedHash.None?
    else s.reportedHash.Some? && s.reportedHash.value.hash == cfg.hash(ps[|ps| - 1])
  }

  predicate NoRepeats(ps: seq<Payload>) {
    forall k :: 0 < k < |ps| ==> ps[k - 1] != ps[k]
  }

  lemma PostAgrees(cfg: Config, w: World, a: Manifest, o: OCMObservation)
    requires HashAgrees(cfg, w.status, Posts(w.log)) && NoRepeats(Posts(w.log))
    ensures var r := PostStep(cfg, w, a, o); HashAgrees(cfg, r.status, Posts(r.log)) && NoRepeats(Posts(r.log))
  {
    var p := PayloadOf(w.status, a);
    assert (w.log + [Posted(p)])[..|w.log|] == w.log;
  }

  lemma PassPosts(cfg: Config, w: World, i: Input)
    requires WellConfigured(cfg) && i.fetched && i.statusSaved
    requires HashAgrees(cfg, w.persisted, Posts(w.log)) && NoRepeats(Posts(w.log))
    ensures var r := Pass(cfg, w, i); HashAgrees(cfg, r.persisted, Posts(r.log)) && NoRepeats(Posts(r.log))
  {
    var core, policy := PassChain(cfg, w, i);
    SilentPosts(w.log, core.log);
    PolicyIsNoPost(core, policy, i.manifest);
    SilentPosts(core.log, policy.log);
    assert HashAgrees(cfg, policy.status, Posts(policy.log));
    PostAgrees(cfg, policy, i.manifest, i.ocm);
  }

  /** If no status write is lost, the stored hash is that of the last accepted post, and no two
      consecutive accepted posts carry the same payload. */
  lemma {:induction false} PostsAreDeduplicated(cfg: Config, w: World, inputs: seq<Input>)
    requires WellConfigured(cfg) && w.log == [] && w.persisted.reportedHash == None
    requires forall i :: i in inputs ==> i.statusSaved
    ensures var r := Run(cfg, w, inputs); HashAgrees(cfg, r.persisted, Posts(r.log)) && NoRepeats(Posts(r.log))
  {
    if inputs != [] {
      var (m, i) := (inputs[..|inputs| - 1], inputs[|inputs| - 1]);
      PostsAreDeduplicated(cfg, w, m);
      if i.fetched { PassPosts(cfg, Run(cfg, w, m), i); }
    }
  }

  lemma PolicyIsNoPost(w: World, r: World, a: Manifest)
    requires PolicyEffect(w, r, a)
    ensures w.log <= r.log && forall k :: |w.log| <= k < |r.log| ==> !r.log[k].Posted?
  {
  }

  /** A refused post leaves the hash alone. */
  lemma RefusedPostKeepsHash(cfg: Config, w: World, a: Manifest, o: OCMObservation)
    ensures !o.postAccepted ==> PostStep(cfg, w, a, o) == w
    ensures PostStep(cfg, w, a, o) != w ==>
      StatusDiffers(cfg, w.status, a) && !StatusDiffers(cfg, PostStep(cfg, w, a, o).status, a)
  {
    var r := PostStep(cfg, w, a, o);
    if r != w { assert PayloadOf(r.status, a) == PayloadOf(w.status, a); }
  }

  /** Conditions that differ only in transition time or observed generation give the same payload,
      so such a change alone never causes a post. */
  lemma TimesAreNotReported(cfg: Config, s: Status, t: Status, a: Manifest, b: Manifest)
    requires |s.conditions| == |t.conditions|
    requires forall k :: 0 <= k < |s.conditions| ==>
      t.conditions[k].(transition := 0, generation := 0) == s.conditions[k].(transition := 0, generation := 0)
    requires s.reportedHash == t.reportedHash && b == a.(generation := b.generation)
    ensures StatusDiffers(cfg, s, a) == StatusDiffers(cfg, t, b)
  {
    forall k | 0 <= k < |s.conditions|
      ensures PayloadConditions(s.conditions)[k] == PayloadConditions(t.conditions)[k]
    {
      assert t.conditions[k].(transition := 0, generation := 0) == s.conditions[k].(transition := 0, generation := 0);
    }
    assert PayloadConditions(s.conditions) == PayloadConditions(t.conditions);
  }
}
