/** Upgrade-policy patches told apart by policy ID. The code compares versions only, so whether a policy is started
    before it is completed depends on how the manifests of a run name their policies. */
module PolicyIDs {
  import opened Conditions
  import opened AddonModel
  import opened Lifecycle
  import opened StepProofs
  import opened PassProofs
  import opened Runs
  import opened RunReports
  import opened RunSafety

  /** Every completion is preceded by a start of the same policy for the same version, unless `first`, the record the
      run began with, already said that this version was started. */
  ghost predicate CompletionsMatch(log: seq<Event>, first: Status) {
    forall k :: 0 <= k < |log| && log[k].Completed? ==>
      || Started(log[k].completedID, log[k].completedVersion) in log[..k]
      || RecordIs(first, ValueStarted, log[k].completedVersion)
  }

  predicate Reportable(a: Manifest) { a.spec.version != "" && a.spec.upgradePolicy.Some? }

  /** Manifests of one version name one policy. */
  ghost predicate OneIDPerVersion(ms: set<Manifest>) {
    forall a, b :: a in ms && b in ms && Reportable(a) && Reportable(b) && a.spec.version == b.spec.version ==>
      a.spec.upgradePolicy == b.spec.upgradePolicy
  }

  function Manifests(inputs: seq<Input>): set<Manifest> { set i | i in inputs :: i.manifest }

  // ----- One ID per version suffices -----

  predicate Names(a: Manifest, id: string, version: string) {
    Reportable(a) && a.spec.upgradePolicy == Some(id) && a.spec.version == version
  }

  /** The patch names the policy of one of the manifests, with that manifest's version. */
  ghost predicate NamedIn(e: Event, ms: set<Manifest>) {
    && (e.Started? ==> exists a :: a in ms && Names(a, e.startedID, e.startedVersion))
    && (e.Completed? ==> exists a :: a in ms && Names(a, e.completedID, e.completedVersion))
  }

  ghost predicate AllNamed(log: seq<Event>, ms: set<Manifest>) {
    forall k :: 0 <= k < |log| ==> NamedIn(log[k], ms)
  }

  lemma MoreManifests(log: seq<Event>, ms: set<Manifest>, ns: set<Manifest>)
    requires AllNamed(log, ms) && ms <= ns
    ensures AllNamed(log, ns)
  {
    forall k | 0 <= k < |log| ensures NamedIn(log[k], ns) { assert NamedIn(log[k], ms); }
  }

  lemma QuietNamed(log: seq<Event>, r: seq<Event>, ms: set<Manifest>)
    requires AllNamed(log, ms) && log <= r && forall k :: |log| <= k < |r| ==> !IsPatch(r[k])
    ensures AllNamed(r, ms)
  {
    forall k | 0 <= k < |r| ensures NamedIn(r[k], ms) { if k < |log| { assert NamedIn(log[k], ms); } }
  }

  lemma PolicyNamed(w: World, r: World, a: Manifest, ms: set<Manifest>)
    requires PolicyEffect(w, r, a) && AllNamed(w.log, ms) && a in ms
    ensures AllNamed(r.log, ms)
  {
    if r != w {
      var (id, v) := (a.spec.upgradePolicy.value, a.spec.version);
      assert Names(a, id, v) && NamedIn(Started(id, v), ms) && NamedIn(Completed(id, v), ms);
      forall k | 0 <= k < |r.log| ensures NamedIn(r.log[k], ms) {
        if k < |w.log| { assert r.log[k] == w.log[k] && NamedIn(w.log[k], ms); }
      }
    }
  }

  lemma ChainNamed(w: World, core: World, policy: World, r: World, i: Input, ms: set<Manifest>)
    requires Chain(w, core, policy, r, i) && AllNamed(w.log, ms) && i.manifest in ms
    ensures AllNamed(r.log, ms)
  {
    QuietNamed(w.log, core.log, ms);
    PolicyNamed(core, policy, i.manifest, ms);
    QuietNamed(policy.log, r.log, ms);
  }

  lemma {:induction false} PatchesAreNamed(cfg: Config, w: World, inputs: seq<Input>)
    requires WellConfigured(cfg) && w.log == []
    ensures AllNamed(Run(cfg, w, inputs).log, Manifests(inputs))
  {
    if inputs != [] {
      var (m, i) := (inputs[..|inputs| - 1], inputs[|inputs| - 1]);
      assert inputs == m + [i];
      PatchesAreNamed(cfg, w, m);
      var u := Run(cfg, w, m);
      MoreManifests(u.log, Manifests(m), Manifests(inputs));
      if i.fetched {
        var core, policy := PassChain(cfg, u, i);
        ChainNamed(u, core, policy, Pass(cfg, u, i), i, Manifests(inputs));
      }
    }
  }

  lemma NamedMatch(log: seq<Event>, first: Status, ms: set<Manifest>)
    requires CompletionsStarted(log, first) && AllNamed(log, ms) && OneIDPerVersion(ms)
    ensures CompletionsMatch(log, first)
  {
    forall k | 0 <= k < |log| && log[k].Completed? && !RecordIs(first, ValueStarted, log[k].completedVersion)
      ensures Started(log[k].completedID, log[k].completedVersion) in log[..k]
    {
      assert StartedBefore(log, k, log[k].completedVersion);
      var j :| 0 <= j < k && log[j].Started? && log[j].startedVersion == log[k].completedVersion;
      assert NamedIn(log[j], ms) && NamedIn(log[k], ms);
      assert log[j] == Started(log[k].completedID, log[k].completedVersion);
      assert log[..k][j] == log[j];
    }
  }

  /** If the manifests of a run name one policy per version, then every completed policy has been started, under any
      interleaving of spec changes, remote states, failed calls and lost status writes. */
  lemma StartedPrecedesCompletedByID(cfg: Config, w: World, inputs: seq<Input>)
    requires WellConfigured(cfg) && w.log == [] && OneIDPerVersion(Manifests(inputs))
    ensures CompletionsMatch(Run(cfg, w, inputs).log, w.persisted)
  {
    StartedPrecedesCompleted(cfg, w, inputs);
    PatchesAreNamed(cfg, w, inputs);
    NamedMatch(Run(cfg, w, inputs).log, w.persisted, Manifests(inputs));
  }

  // ----- And it is necessary -----

  lemma FirstPolicyStarted(cfg: Config, w: World, a: Manifest)
    requires Reportable(a) && !a.deletionTimestamp
    requires w.log == [] && w.persisted.upgradePolicy == None && w.persisted.IsTrue(Available)
    ensures var (u, id) := (Pass(cfg, w, PausedPass(a)), a.spec.upgradePolicy.value);
      && u.log == [PolicyRead(id), Started(id, a.spec.version)]
      && u.persisted.IsTrue(Available) && RecordIs(u.persisted, ValueStarted, a.spec.version)
  {
    PausedPassReports(cfg, w, PausedPass(a), a);
  }

  lemma SecondPolicyCompleted(cfg: Config, u: World, b: Manifest)
    requires Reportable(b) && !b.deletionTimestamp
    requires u.persisted.IsTrue(Available) && RecordIs(u.persisted, ValueStarted, b.spec.version)
    ensures var (r, id) := (Pass(cfg, u, PausedPass(b)), b.spec.upgradePolicy.value);
      r.log == u.log + [PolicyRead(id), Completed(id, b.spec.version)]
  {
    PausedPassReports(cfg, u, PausedPass(b), b);
  }

  lemma TwoPasses(cfg: Config, w: World, i: Input, j: Input)
    ensures Run(cfg, w, [i, j]) == Pass(cfg, Pass(cfg, w, i), j)
  {
    assert [i, j][..1] == [i] && [i][..0] == [];
    assert Run(cfg, w, []) == w && Run(cfg, w, [i]) == Pass(cfg, w, i);
  }

  lemma Unmatched(log: seq<Event>, first: Status, id: string, other: string, v: string)
    requires log == [PolicyRead(other), Started(other, v)] + [PolicyRead(id), Completed(id, v)]
    requires id != other && first.upgradePolicy == None
    ensures !CompletionsMatch(log, first)
  {
    assert log[3] == Completed(id, v);
    assert log[..3] == [PolicyRead(other), Started(other, v), PolicyRead(id)];
  }

  /** An available Addon without a record, and two manifests that differ in the policy but not in the version: one
      paused pass on each completes the second policy, which nobody started. */
  lemma ChangedIDIsCompletedUnstarted(cfg: Config, w: World, a: Manifest, b: Manifest)
    requires Reportable(a) && Reportable(b) && !a.deletionTimestamp && !b.deletionTimestamp
    requires a.spec.version == b.spec.version && a.spec.upgradePolicy != b.spec.upgradePolicy
    requires w.log == [] && w.persisted.upgradePolicy == None && w.persisted.IsTrue(Available)
    ensures !CompletionsMatch(Run(cfg, w, [PausedPass(a), PausedPass(b)]).log, w.persisted)
  {
    FirstPolicyStarted(cfg, w, a);
    var u := Pass(cfg, w, PausedPass(a));
    SecondPolicyCompleted(cfg, u, b);
    TwoPasses(cfg, w, PausedPass(a), PausedPass(b));
    Unmatched(Pass(cfg, u, PausedPass(b)).log, w.persisted, b.spec.upgradePolicy.value, a.spec.upgradePolicy.value, b.spec.version);
  }

  // ----- The exact condition -----

  /** No run over these manifests completes a policy that was not started. */
  ghost predicate AlwaysMatches(cfg: Config, w: World, ms: set<Manifest>) {
    forall inputs: seq<Input> | Manifests(inputs) <= ms :: CompletionsMatch(Run(cfg, w, inputs).log, w.persisted)
  }

  lemma FewerManifests(ms: set<Manifest>, ns: set<Manifest>)
    requires OneIDPerVersion(ns) && ms <= ns
    ensures OneIDPerVersion(ms)
  {
  }

  /** For an available Addon without a record, policies are started before they are completed in all runs over a set of
      manifests if and only if these name one policy per version. */
  lemma MatchesIffOneIDPerVersion(cfg: Config, w: World, ms: set<Manifest>)
    requires WellConfigured(cfg) && w.log == [] && w.persisted.upgradePolicy == None && w.persisted.IsTrue(Available)
    requires forall a :: a in ms ==> !a.deletionTimestamp
    ensures AlwaysMatches(cfg, w, ms) <==> OneIDPerVersion(ms)
  {
    if OneIDPerVersion(ms) {
      forall inputs: seq<Input> | Manifests(inputs) <= ms ensures CompletionsMatch(Run(cfg, w, inputs).log, w.persisted) {
        FewerManifests(Manifests(inputs), ms);
        StartedPrecedesCompletedByID(cfg, w, inputs);
      }
    } else {
      var a, b :| a in ms && b in ms && Reportable(a) && Reportable(b) && a.spec.version == b.spec.version
        && a.spec.upgradePolicy != b.spec.upgradePolicy;
      ChangedIDIsCompletedUnstarted(cfg, w, a, b);
      var inputs := [PausedPass(a), PausedPass(b)];
      assert Manifests(inputs) <= ms;
    }
  }
}
