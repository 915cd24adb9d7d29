/** What every run of passes keeps: any number of passes, each with its own manifest, with failing
    calls, lost status writes and conflicting observations at every point. */
module Runs {
  import opened Conditions
  import opened AddonModel
  import opened Lifecycle
  import opened StepProofs
  import opened PassProofs

  /** The state after the first `k` passes. */
  function At(cfg: Config, w: World, inputs: seq<Input>, k: nat): World
    requires k <= |inputs|
  {
    Run(cfg, w, inputs[..k])
  }

  lemma AtStep(cfg: Config, w: World, inputs: seq<Input>, k: nat)
    requires k < |inputs|
    ensures At(cfg, w, inputs, k + 1) == Pass(cfg, At(cfg, w, inputs, k), inputs[k])
  {
    assert inputs[..k + 1][..k] == inputs[..k];
  }

  /** Induction along a run: what every step from `j` on hands on holds at `k`. */
  lemma {:induction false} Persists(bs: seq<bool>, j: nat, k: nat)
    requires j <= k < |bs| && bs[j] && forall i :: j <= i < k ==> (bs[i] ==> bs[i + 1])
    ensures bs[k]
  {
    if j < k { Persists(bs, j, k - 1); }
  }

  // ----- Coherence of the persisted conditions -----

  lemma PolicyKeeps(w: World, a: Manifest, o: OCMObservation)
    ensures var r := PolicyStep(w, a, o);
      r == w.(status := w.status.(upgradePolicy := r.status.upgradePolicy), log := r.log)
  {
  }

  lemma ReportingKeeps(cfg: Config, w: World, a: Manifest, o: OCMObservation)
    ensures var r := PostStep(cfg, PolicyStep(w, a, o), a, o);
      && r == w.(status := r.status, log := r.log)
      && r.status == w.status.(upgradePolicy := r.status.upgradePolicy, reportedHash := r.status.reportedHash)
  {
    PolicyKeeps(w, a, o);
  }

  /** A saved pass that ends with the detection of an upgrade. */
  predicate StartsIn(w: World, i: Input) {
    i.fetched && i.statusSaved && StartsUpgrade(w.persisted, i)
  }

  /** A saved pass that gets past the OLM sub-reconciler. */
  predicate FinishesOLM(cfg: Config, w: World, i: Input) {
    i.fetched && i.statusSaved && CoreDone(cfg, w.(status := w.persisted), i)
  }

  predicate Kept(s: Status, r: Status, i: Input, starts: bool, done: bool) {
    Coherent(r) && UpgradePass(s, r, starts) && DeletionStep(s, r, i) && CSVAfter(s, r, done, ObservedCSV(i))
  }

  /** The relations read nothing but the conditions, the phase and the last available CSV. */
  lemma ReportsDoNotMatter(s: Status, r: Status, t: Status, i: Input, starts: bool, done: bool)
    requires CoreEffect(s, r, i, starts, done)
    requires t.conditions == r.conditions && t.phase == r.phase && t.lastAvailableCSV == r.lastAvailableCSV
    ensures Kept(s, t, i, starts, done)
  {
    SameConditions(r, t);
    assert Coherent(t);
    if starts { assert UpgradePass(s, t, true); } else { assert UpgradeStep(s, t); }
    assert DeletionStep(s, t, i);
  }

  lemma SameConditions(r: Status, t: Status)
    requires t.conditions == r.conditions
    ensures forall c :: t.Find(c) == r.Find(c) && t.Has(c) == r.Has(c) && t.IsTrue(c) == r.IsTrue(c)
  {
  }

  lemma PassKeeps(cfg: Config, w: World, i: Input)
    requires WellConfigured(cfg) && Coherent(w.persisted)
    ensures Kept(w.persisted, Pass(cfg, w, i).persisted, i, StartsIn(w, i), FinishesOLM(cfg, w, i))
  {
    SameEffect(w.persisted, i);
    if i.fetched {
      var w0 := w.(status := w.persisted);
      CoreKeeps(cfg, w0, i);
      var c := ReconcileCore(cfg, w0, i);
      ReportingKeeps(cfg, c, i.manifest, i.ocm);
      if i.statusSaved {
        ReportsDoNotMatter(w.persisted, c.status, Pass(cfg, w, i).status, i, StartsIn(w, i), FinishesOLM(cfg, w, i));
      } else if c.persisted != w.persisted {
        TerminationEffect(w.persisted, i);
      }
    }
  }

  /** In every reachable persisted state Available implies Installed, Available and the Ready phase
      agree, UpgradeStarted and UpgradeSucceeded exclude each other, ReadyToBeDeleted=True and
      DeleteTimeout exclude each other, and no condition type occurs twice. */
  lemma {:induction false} AlwaysCoherent(cfg: Config, w: World, inputs: seq<Input>)
    requires WellConfigured(cfg) && Coherent(w.persisted)
    ensures Coherent(Run(cfg, w, inputs).persisted)
  {
    if inputs != [] {
      var m := inputs[..|inputs| - 1];
      AlwaysCoherent(cfg, w, m);
      PassKeeps(cfg, Run(cfg, w, m), inputs[|inputs| - 1]);
    }
  }

  lemma FreshIsCoherent()
    ensures Coherent(FreshStatus)
  {
  }

  // ----- Upgrades -----

  /** The last available CSV after a pass: the observed one if the pass gets past the OLM sub-reconciler and is saved,
      otherwise the old one. */
  lemma LastAvailableCSVExact(cfg: Config, w: World, i: Input)
    requires WellConfigured(cfg) && Coherent(w.persisted)
    ensures var csv := Pass(cfg, w, i).persisted.lastAvailableCSV;
      if FinishesOLM(cfg, w, i) then ObservedCSV(i) == Some(csv) else csv == w.persisted.lastAvailableCSV
  {
    PassKeeps(cfg, w, i);
  }

  /** The pass sees the operator installed by a CSV other than the given one. */
  predicate BringsNewCSV(cfg: Config, w: World, i: Input, csv: string) {
    FinishesOLM(cfg, w, i) && ObservedCSV(i) != Some(csv)
  }

  /** While an upgrade runs, a pass concludes it exactly when it gets past the OLM sub-reconciler with a new CSV; it
      keeps UpgradeStarted exactly when it keeps the last available CSV. */
  lemma UpgradeTracked(cfg: Config, w: World, i: Input)
    requires WellConfigured(cfg) && Coherent(w.persisted) && w.persisted.IsTrue(UpgradeStarted)
    ensures var r := Pass(cfg, w, i).persisted;
      && (r.IsTrue(UpgradeSucceeded) <==> BringsNewCSV(cfg, w, i, w.persisted.lastAvailableCSV))
      && (r.IsTrue(UpgradeStarted) <==> r.lastAvailableCSV == w.persisted.lastAvailableCSV)
      && (r.IsTrue(UpgradeStarted) <==> !r.IsTrue(UpgradeSucceeded))
  {
    PassKeeps(cfg, w, i);
  }

  /** Over a whole run: as long as UpgradeStarted has not gone, the last available CSV is the one
      the upgrade started from. */
  lemma {:induction false} UpgradeWindow(cfg: Config, w: World, inputs: seq<Input>)
    requires WellConfigured(cfg) && Coherent(w.persisted)
    requires forall k :: 0 <= k <= |inputs| ==> At(cfg, w, inputs, k).persisted.IsTrue(UpgradeStarted)
    ensures Run(cfg, w, inputs).persisted.lastAvailableCSV == w.persisted.lastAvailableCSV
  {
    var n := |inputs|;
    assert inputs[..n] == inputs;
    if n > 0 {
      var m := inputs[..n - 1];
      forall k | 0 <= k <= |m| ensures At(cfg, w, m, k).persisted.IsTrue(UpgradeStarted) {
        assert m[..k] == inputs[..k];
        assert At(cfg, w, inputs, k).persisted.IsTrue(UpgradeStarted);
      }
      UpgradeWindow(cfg, w, m);
      AlwaysCoherent(cfg, w, m);
      assert At(cfg, w, inputs, n - 1).persisted.IsTrue(UpgradeStarted);
      assert At(cfg, w, inputs, n).persisted.IsTrue(UpgradeStarted);
      UpgradeTracked(cfg, Run(cfg, w, m), inputs[n - 1]);
    }
  }

  lemma {:induction false} RunSubsPersisted(ks: seq<SubKind>, w: World, i: Input)
    ensures RunSubs(ks, w, i).w.persisted == w.persisted && RunSubs(ks, w, i).w.finalizer == w.finalizer
  {
    if ks != [] {
      SubRelations(ks[0], w, i);
      if SubStep(ks[0], w, i).outcome == Zero { RunSubsPersisted(ks[1..], SubStep(ks[0], w, i).w, i); }
    }
  }

  /** One of the first `n` passes of the run sees the operator installed by a CSV other than the given one. */
  ghost predicate SeesNewCSV(cfg: Config, w: World, inputs: seq<Input>, csv: string, n: nat)
    requires n <= |inputs|
  {
    exists k :: 0 <= k < n && BringsNewCSV(cfg, At(cfg, w, inputs, k), inputs[k], csv)
  }

  /** The upgrade is concluded exactly if a new CSV has been seen, and otherwise goes on from the old one. */
  predicate Concluded(s: Status, csv: string, seen: bool) {
    && (s.IsTrue(UpgradeSucceeded) <==> seen)
    && (s.IsTrue(UpgradeStarted) <==> !seen)
    && (!seen ==> s.lastAvailableCSV == csv)
  }

  lemma ConcludedStep(cfg: Config, u: World, i: Input, csv: string, seen: bool)
    requires WellConfigured(cfg) && Coherent(u.persisted) && !StartsIn(u, i) && Concluded(u.persisted, csv, seen)
    ensures Concluded(Pass(cfg, u, i).persisted, csv, seen || BringsNewCSV(cfg, u, i, csv))
  {
    PassKeeps(cfg, u, i);
    if !seen { UpgradeTracked(cfg, u, i); }
  }

  ghost predicate ConcludedAt(cfg: Config, w: World, inputs: seq<Input>, n: nat)
    requires n <= |inputs|
  {
    var csv := w.persisted.lastAvailableCSV;
    Concluded(At(cfg, w, inputs, n).persisted, csv, SeesNewCSV(cfg, w, inputs, csv, n))
  }

  lemma ConcludedAtStep(cfg: Config, w: World, inputs: seq<Input>, n: nat)
    requires WellConfigured(cfg) && Coherent(w.persisted) && n < |inputs|
    requires !StartsIn(At(cfg, w, inputs, n), inputs[n]) && ConcludedAt(cfg, w, inputs, n)
    ensures ConcludedAt(cfg, w, inputs, n + 1)
  {
    var (u, csv) := (At(cfg, w, inputs, n), w.persisted.lastAvailableCSV);
    AlwaysCoherent(cfg, w, inputs[..n]);
    ConcludedStep(cfg, u, inputs[n], csv, SeesNewCSV(cfg, w, inputs, csv, n));
    AtStep(cfg, w, inputs, n);
    SeesNewCSVStep(cfg, w, inputs, csv, n);
  }

  lemma SeesNewCSVStep(cfg: Config, w: World, inputs: seq<Input>, csv: string, n: nat)
    requires n < |inputs|
    ensures SeesNewCSV(cfg, w, inputs, csv, n + 1) <==>
      SeesNewCSV(cfg, w, inputs, csv, n) || BringsNewCSV(cfg, At(cfg, w, inputs, n), inputs[n], csv)
  {
  }

  /** Over a run in which no further upgrade is detected, a running upgrade is reported as succeeded exactly when some
      pass got past the OLM sub-reconciler with a new CSV. In particular an upgrade that brings no new CSV is never
      concluded, however often the Addon becomes ready. */
  lemma UpgradeConcludedIff(cfg: Config, w: World, inputs: seq<Input>)
    requires WellConfigured(cfg) && Coherent(w.persisted) && w.persisted.IsTrue(UpgradeStarted)
    requires forall k :: 0 <= k < |inputs| ==> !StartsIn(At(cfg, w, inputs, k), inputs[k])
    ensures var csv := w.persisted.lastAvailableCSV;
      Concluded(Run(cfg, w, inputs).persisted, csv, SeesNewCSV(cfg, w, inputs, csv, |inputs|))
  {
    var bs := seq(|inputs| + 1, k requires 0 <= k <= |inputs| => ConcludedAt(cfg, w, inputs, k));
    forall k | 0 <= k < |inputs| ensures bs[k] ==> bs[k + 1] {
      if bs[k] { ConcludedAtStep(cfg, w, inputs, k); }
    }
    assert ConcludedAt(cfg, w, inputs, 0);
    Persists(bs, 0, |inputs|);
    assert inputs[..|inputs|] == inputs;
  }

  // ----- Versions -----

  /** Upgrade detection ends the pass. */
  predicate ShortCircuits(w: World, i: Input) {
    i.fetched && StartsUpgrade(w.persisted, i)
  }

  lemma CorePersisted(cfg: Config, w: World, i: Input)
    requires w.persisted == w.status
    ensures var r := ReconcileCore(cfg, w, i);
      && (r.persisted == w.persisted || r.persisted == Terminated(w, i))
      && (!i.manifest.deletionTimestamp && w.finalizer ==> r.finalizer)
  {
    var a := i.manifest;
    if a.deletionTimestamp {
    } else if i.globalPause || a.spec.paused || BeingUpgraded(w.status, a) {
    } else {
      var f := EnsureFinalizer(w.(status := Prepared(w.status, i)), i);
      if f.outcome == Zero { SubsPersisted(cfg, f.w, i); }
    }
  }

  lemma SubsPersisted(cfg: Config, w: World, i: Input)
    ensures SubsPass(cfg, w, i).persisted == w.persisted && SubsPass(cfg, w, i).finalizer == w.finalizer
  {
    RunSubsPersisted(Sorted(cfg.subs), w, i);
  }

  lemma VersionStep(cfg: Config, w: World, i: Input)
    ensures var r := Pass(cfg, w, i).persisted;
      && (i.fetched && i.statusSaved ==> r.observedVersion == i.manifest.spec.version)
      && r.observedVersion in {w.persisted.observedVersion, i.manifest.spec.version}
  {
    if i.fetched {
      var w0 := w.(status := w.persisted);
      CorePersisted(cfg, w0, i);
      ReportingKeeps(cfg, ReconcileCore(cfg, w0, i), i.manifest, i.ocm);
    }
  }

  predicate ObservedAt(cfg: Config, w: World, inputs: seq<Input>, version: string, k: nat)
    requires k <= |inputs|
  {
    At(cfg, w, inputs, k).persisted.observedVersion == version
  }

  lemma ObservedStep(cfg: Config, w: World, inputs: seq<Input>, k: nat)
    requires k < |inputs|
    requires (inputs[k].fetched && inputs[k].statusSaved) || ObservedAt(cfg, w, inputs, inputs[k].manifest.spec.version, k)
    ensures ObservedAt(cfg, w, inputs, inputs[k].manifest.spec.version, k + 1)
  {
    AtStep(cfg, w, inputs, k);
    VersionStep(cfg, At(cfg, w, inputs, k), inputs[k]);
  }

  /** Once a pass has been saved, the observed version is the spec version for as long as that does not change. */
  lemma ObservedVersionStays(cfg: Config, w: World, inputs: seq<Input>, version: string, j: nat, k: nat)
    requires forall i :: 0 <= i < |inputs| ==> inputs[i].manifest.spec.version == version
    requires j < k <= |inputs| && inputs[j].fetched && inputs[j].statusSaved
    ensures ObservedAt(cfg, w, inputs, version, k)
  {
    var bs := seq(|inputs| + 1, i requires 0 <= i <= |inputs| => ObservedAt(cfg, w, inputs, version, i));
    forall i | j < i < k ensures bs[i] ==> bs[i + 1] {
      if bs[i] { ObservedStep(cfg, w, inputs, i); }
    }
    ObservedStep(cfg, w, inputs, j);
    Persists(bs, j + 1, k);
  }

  /** Per version at most one pass whose status write succeeds is cut short by upgrade detection. */
  lemma ShortCircuitsOnce(cfg: Config, w: World, inputs: seq<Input>, version: string, j: nat, k: nat)
    requires forall i :: 0 <= i < |inputs| ==> inputs[i].manifest.spec.version == version
    requires j < k < |inputs|
    requires ShortCircuits(At(cfg, w, inputs, j), inputs[j]) && inputs[j].statusSaved
    ensures ObservedAt(cfg, w, inputs, version, k) && !ShortCircuits(At(cfg, w, inputs, k), inputs[k])
  {
    ObservedVersionStays(cfg, w, inputs, version, j, k);
  }

  // ----- Order of execution and readiness -----

  /** The executed sub-reconcilers, and readiness if it is reached. */
  function SubsLog(cfg: Config, w: World, i: Input): seq<Event> {
    var ks := Sorted(cfg.subs);
    RanAll(ks[..Executed(ks, w, i)]) + if ReadyAfterAll(cfg, w, i) then [BecameReady(i.manifest.spec.version)] else []
  }

  /** The executed sub-reconcilers are a prefix of the order-sorted permutation of the registered
      ones; readiness comes last, after all of them, and only with the package check passed. */
  lemma ExecutionOrder(cfg: Config, w: World, i: Input)
    ensures var (ks, r) := (Sorted(cfg.subs), SubsPass(cfg, w, i));
      && InOrder(ks) && multiset(ks) == multiset(cfg.subs) && r.log == w.log + SubsLog(cfg, w, i)
      && (ReadyAfterAll(cfg, w, i) ==> Executed(ks, w, i) == |ks| && r.status.IsTrue(Available))
  {
    var ks := Sorted(cfg.subs);
    SortedIsOrderedPermutation(cfg.subs);
    RunSubsPrefix(ks, w, i);
    assert PackageSub in ks <==> PackageSub in cfg.subs by {
      assert PackageSub in multiset(ks) <==> PackageSub in multiset(cfg.subs);
    }
    var r := RunSubs(ks, w, i);
    if r.outcome == Zero {
      ConcludeLogs(ks, r.w, i);
      if ReadyAfterAll(cfg, w, i) {
        assert r.w.log + [BecameReady(i.manifest.spec.version)] == w.log + SubsLog(cfg, w, i);
      }
    }
  }

  lemma ConcludeLogs(ks: seq<SubKind>, w: World, i: Input)
    ensures var r := Conclude(ks, w, i);
      if PackageSub in ks ==> i.packageCheck == ProbeDone
      then r.status.IsTrue(Available) && r.log == w.log + [BecameReady(i.manifest.spec.version)]
      else r.log == w.log
  {
  }

  /** Every sub-reconciler returned zero and the non-blocking one confirmed. */
  predicate ReadyAfterAll(cfg: Config, w: World, i: Input) {
    RunSubs(Sorted(cfg.subs), w, i).outcome == Zero && (PackageSub in cfg.subs ==> i.packageCheck == ProbeDone)
  }

  // ----- Deletion acknowledgement -----

  /** ReadyToBeDeleted=True is never taken back, and its entry never changes. */
  lemma {:induction false} ReadyToBeDeletedSticks(cfg: Config, w: World, inputs: seq<Input>)
    requires WellConfigured(cfg) && Coherent(w.persisted) && w.persisted.IsTrue(ReadyToBeDeleted)
    ensures var r := Run(cfg, w, inputs).persisted;
      r.Find(ReadyToBeDeleted) == w.persisted.Find(ReadyToBeDeleted) && !r.Has(DeleteTimeout)
  {
    if inputs != [] {
      var m := inputs[..|inputs| - 1];
      ReadyToBeDeletedSticks(cfg, w, m);
      AlwaysCoherent(cfg, w, m);
      PassKeeps(cfg, Run(cfg, w, m), inputs[|inputs| - 1]);
    }
  }

  /** The time from which the timeout is counted stays the one of the first saved
      ReadyToBeDeleted=False, until the Addon is ready to be deleted. */
  lemma {:induction false} WaitingTimeIsFixed(cfg: Config, w: World, inputs: seq<Input>)
    requires WellConfigured(cfg) && Coherent(w.persisted) && AwaitingAck(w.persisted)
    ensures var r := Run(cfg, w, inputs).persisted;
      || r.IsTrue(ReadyToBeDeleted)
      || (AwaitingAck(r) && r.Find(ReadyToBeDeleted).value.transition == w.persisted.Find(ReadyToBeDeleted).value.transition)
  {
    if inputs != [] {
      var (m, i) := (inputs[..|inputs| - 1], inputs[|inputs| - 1]);
      WaitingTimeIsFixed(cfg, w, m);
      AlwaysCoherent(cfg, w, m);
      PassKeeps(cfg, Run(cfg, w, m), i);
    }
  }

  /** Whenever a run that began waiting at `w` ends with DeleteTimeout newly set by its last pass, that
      pass required an ack, received none, and ran strictly later than the first waiting time plus
      the interval in force. */
  lemma TimeoutIsJustified(cfg: Config, w: World, inputs: seq<Input>, i: Input)
    requires WellConfigured(cfg) && Coherent(w.persisted) && AwaitingAck(w.persisted)
    requires var u := Run(cfg, w, inputs);
      !u.persisted.Has(DeleteTimeout) && Pass(cfg, u, i).persisted.Has(DeleteTimeout)
    ensures i.manifest.markedForDeletion && i.manifest.spec.deleteAckRequired && i.ack == NotAcked
    ensures i.clock > w.persisted.Find(ReadyToBeDeleted).value.transition + DeleteTimeoutInterval(i.manifest)
  {
    var u := Run(cfg, w, inputs);
    WaitingTimeIsFixed(cfg, w, inputs);
    AlwaysCoherent(cfg, w, inputs);
    PassKeeps(cfg, u, i);
    assert u.persisted.IsTrue(ReadyToBeDeleted) ==> SameDeletion(u.persisted, Pass(cfg, u, i).persisted);
  }
}
