/** What one whole pass keeps: coherence of the conditions, upgrade tracking, deletion conditions,
    order of execution, and which events it may log. */
module PassProofs {
  import opened Conditions
  import opened AddonModel
  import opened Lifecycle
  import opened StepProofs

  /** Agreement between the conditions, the phase and each other. */
  predicate Coherent(s: Status) {
    && Unique(s.conditions)
    && (s.IsTrue(Available) ==> s.IsTrue(Installed))
    && (s.IsTrue(Available) <==> s.phase == PhaseReady)
    && !(s.Has(UpgradeStarted) && s.Has(UpgradeSucceeded))
    && (s.Has(UpgradeStarted) ==> s.IsTrue(UpgradeStarted))
    && !(s.IsTrue(ReadyToBeDeleted) && s.Has(DeleteTimeout))
  }

  ghost predicate NoDuplicates(ks: seq<SubKind>) {
    forall k :: multiset(ks)[k] <= 1
  }

  /** The registered sub-reconcilers: OLM is always among them, none twice. */
  ghost predicate WellConfigured(cfg: Config) {
    OLMSub in cfg.subs && NoDuplicates(cfg.subs)
  }

  // ----- Order of execution -----

  predicate InOrder(ks: seq<SubKind>) {
    |ks| <= 1 || (Order(ks[0]) <= Order(ks[1]) && InOrder(ks[1..]))
  }

  lemma {:induction false} HeadIsLeast(ks: seq<SubKind>, k: SubKind)
    requires InOrder(ks) && k in ks
    ensures Order(ks[0]) <= Order(k)
  {
    if k != ks[0] { HeadIsLeast(ks[1..], k); }
  }

  lemma {:induction false} InsertSorts(k: SubKind, ks: seq<SubKind>)
    requires InOrder(ks)
    ensures InOrder(Insert(k, ks)) && multiset(Insert(k, ks)) == multiset{k} + multiset(ks)
    ensures Insert(k, ks) != [] && Insert(k, ks)[0] in {k, if ks == [] then k else ks[0]}
  {
    if ks == [] || Order(k) <= Order(ks[0]) {
      assert ([k] + ks)[1..] == ks;
    } else {
      var rest := Insert(k, ks[1..]);
      InsertSorts(k, ks[1..]);
      assert ([ks[0]] + rest)[1..] == rest;
      TailCounts(ks);
    }
  }

  /** The sorted list is an order-sorted permutation of the registered sub-reconcilers. */
  lemma {:induction false} SortedIsOrderedPermutation(ks: seq<SubKind>)
    ensures InOrder(Sorted(ks)) && multiset(Sorted(ks)) == multiset(ks)
  {
    if ks != [] {
      SortedIsOrderedPermutation(ks[1..]);
      InsertSorts(ks[0], Sorted(ks[1..]));
      TailCounts(ks);
    }
  }

  lemma OrderDistinguishes(x: SubKind, y: SubKind)
    requires Order(x) == Order(y)
    ensures x == y
  {
  }

  lemma TailCounts(ks: seq<SubKind>)
    requires ks != []
    ensures multiset(ks[1..]) == multiset(ks) - multiset{ks[0]}
  {
    assert ks == [ks[0]] + ks[1..];
  }

  /** Orders are pairwise different, so any sorting routine, stable or not, gives the same list. */
  lemma {:induction false} SortedUnique(xs: seq<SubKind>, ys: seq<SubKind>)
    requires InOrder(xs) && InOrder(ys) && multiset(xs) == multiset(ys)
    ensures xs == ys
  {
    if xs == [] {
      assert |ys| == |multiset(ys)|;
    } else {
      assert xs[0] in multiset(ys) && ys[0] in multiset(xs);
      HeadIsLeast(xs, ys[0]);
      HeadIsLeast(ys, xs[0]);
      OrderDistinguishes(xs[0], ys[0]);
      TailCounts(xs);
      TailCounts(ys);
      SortedUnique(xs[1..], ys[1..]);
    }
  }

  lemma SortedKeepsMembers(ks: seq<SubKind>)
    requires NoDuplicates(ks)
    ensures NoDuplicates(Sorted(ks)) && forall k :: k in Sorted(ks) <==> k in ks
  {
    SortedIsOrderedPermutation(ks);
    forall k ensures k in Sorted(ks) <==> k in ks {
      assert k in multiset(Sorted(ks)) <==> k in multiset(ks);
    }
  }

  lemma DistinctTail(ks: seq<SubKind>)
    requires NoDuplicates(ks) && ks != []
    ensures NoDuplicates(ks[1..]) && ks[0] !in ks[1..] && forall k :: k in ks <==> k == ks[0] || k in ks[1..]
  {
    assert ks == [ks[0]] + ks[1..];
    assert multiset(ks) == multiset{ks[0]} + multiset(ks[1..]);
    assert forall k :: multiset(ks)[k] == multiset{ks[0]}[k] + multiset(ks[1..])[k];
    assert multiset(ks)[ks[0]] <= 1;
  }

  /** How many sub-reconcilers a pass executes. */
  function Executed(ks: seq<SubKind>, w: World, i: Input): (n: nat)
    ensures n <= |ks|
  {
    if ks == [] then 0
    else
      var r := SubStep(ks[0], w, i);
      if r.outcome != Zero then 1 else 1 + Executed(ks[1..], r.w, i)
  }

  function RanAll(ks: seq<SubKind>): (es: seq<Event>)
    ensures |es| == |ks| && forall j :: 0 <= j < |ks| ==> es[j] == Ran(ks[j])
  {
    seq(|ks|, j requires 0 <= j < |ks| => Ran(ks[j]))
  }

  // ----- Running the list -----

  /** The run gets past the OLM sub-reconciler. */
  predicate OLMDone(ks: seq<SubKind>, w: World, i: Input) {
    ks != [] &&
    var r := SubStep(ks[0], w, i);
    r.outcome == Zero && (ks[0] == OLMSub || OLMDone(ks[1..], r.w, i))
  }

  /** What a run of sub-reconcilers may do, knowing whether OLM and deletion were among them and whether OLM was done. */
  predicate ListEffect(olm: bool, deletion: bool, done: bool, w: World, i: Input, r: World, out: Outcome) {
    && SameReports(w.status, r.status) && AvailabilityStep(w.status, r.status)
    && (Unique(w.status.conditions) ==> Unique(r.status.conditions))
    && (if olm then UpgradeStep(w.status, r.status) else SameUpgrade(w.status, r.status))
    && (if deletion then DeletionStep(w.status, r.status, i) else SameDeletion(w.status, r.status))
    && (olm && out == Zero ==> r.status.IsTrue(Installed))
    && (!olm ==> r.status.Find(Installed) == w.status.Find(Installed))
    && CSVAfter(w.status, r.status, done, ObservedCSV(i)) && (done ==> olm)
    && r.persisted == w.persisted && r.finalizer == w.finalizer
  }

  lemma SameDeletionAllowed(s: Status, r: Status, i: Input)
    requires SameDeletion(s, r)
    ensures DeletionStep(s, r, i)
  {
  }

  lemma {:induction false} RunSubsEffect(ks: seq<SubKind>, w: World, i: Input)
    requires NoDuplicates(ks)
    ensures var r := RunSubs(ks, w, i); ListEffect(OLMSub in ks, DeletionSub in ks, OLMDone(ks, w, i), w, i, r.w, r.outcome)
  {
    if ks == [] {
      SameDeletionAllowed(w.status, w.status, i);
    } else {
      var (k, r) := (ks[0], SubStep(ks[0], w, i));
      SubRelations(k, w, i);
      DistinctTail(ks);
      if r.outcome == Zero {
        RunSubsEffect(ks[1..], r.w, i);
        var rest := RunSubs(ks[1..], r.w, i);
        ComposeEffects(k, OLMSub in ks[1..], DeletionSub in ks[1..], OLMDone(ks[1..], r.w, i), w, i, r.w, rest.w, rest.outcome);
      } else if k != DeletionSub {
        SameDeletionAllowed(w.status, r.w.status, i);
      }
    }
  }

  lemma AvailabilityComposes(s: Status, m: Status, r: Status)
    requires AvailabilityStep(s, m) && AvailabilityStep(m, r)
    ensures AvailabilityStep(s, r)
  {
  }

  lemma UpgradeComposes(s: Status, m: Status, r: Status)
    requires (SameUpgrade(s, m) && UpgradeStep(m, r)) || (UpgradeStep(s, m) && SameUpgrade(m, r))
    ensures UpgradeStep(s, r)
  {
  }

  lemma DeletionComposes(s: Status, m: Status, r: Status, i: Input)
    requires (SameDeletion(s, m) && DeletionStep(m, r, i)) || (DeletionStep(s, m, i) && SameDeletion(m, r))
    ensures DeletionStep(s, r, i)
  {
    if SameDeletion(s, m) {} else {}
  }

  lemma ComposeEffects(k: SubKind, olm: bool, deletion: bool, done: bool, w: World, i: Input, m: World, r: World, out: Outcome)
    requires SubEffect(k, w, i, m, Zero) && ListEffect(olm, deletion, done, m, i, r, out)
    requires (olm ==> k != OLMSub) && (deletion ==> k != DeletionSub)
    ensures ListEffect(k == OLMSub || olm, k == DeletionSub || deletion, k == OLMSub || done, w, i, r, out)
  {
    var (s, n, t) := (w.status, m.status, r.status);
    AvailabilityComposes(s, n, t);
    if k == OLMSub || olm { UpgradeComposes(s, n, t); }
    if k == DeletionSub || deletion { DeletionComposes(s, n, t, i); }
  }

  lemma SubLogs(k: SubKind, w: World, i: Input)
    ensures SubStep(k, w, i).w.log == w.log + [Ran(k)]
  {
    SubRelations(k, w, i);
  }

  /** The executed sub-reconcilers are a prefix of the list; all of it when every result was zero. */
  lemma {:induction false} RunSubsPrefix(ks: seq<SubKind>, w: World, i: Input)
    ensures var (r, n) := (RunSubs(ks, w, i), Executed(ks, w, i));
      && r.w.log == w.log + RanAll(ks[..n])
      && (r.outcome == Zero ==> n == |ks|)
      && (r.outcome != Zero ==> n > 0)
  {
    if ks != [] {
      SubLogs(ks[0], w, i);
      var r := SubStep(ks[0], w, i);
      if r.outcome == Zero {
        var rest := ks[1..];
        RunSubsPrefix(rest, r.w, i);
        PrependRan(w.log, ks, Executed(rest, r.w, i));
      } else {
        assert RanAll(ks[..1]) == [Ran(ks[0])];
      }
    }
  }

  /** Each executed sub-reconciler but the last returned zero, and the rest of the list plays no part. */
  lemma {:induction false} ExecutedReturnZero(ks: seq<SubKind>, w: World, i: Input, j: nat)
    requires j <= Executed(ks, w, i)
    ensures j < Executed(ks, w, i) ==> RunSubs(ks[..j], w, i).outcome == Zero
    ensures j == Executed(ks, w, i) ==> RunSubs(ks[..j], w, i) == RunSubs(ks, w, i)
  {
    if j > 0 {
      var r := SubStep(ks[0], w, i);
      assert ks[..j][0] == ks[0] && ks[..j][1..] == ks[1..][..j - 1];
      if r.outcome == Zero { ExecutedReturnZero(ks[1..], r.w, i, j - 1); }
    }
  }

  lemma PrependRan(log: seq<Event>, ks: seq<SubKind>, n: nat)
    requires n < |ks|
    ensures log + [Ran(ks[0])] + RanAll(ks[1..][..n]) == log + RanAll(ks[..n + 1])
  {
    assert [Ran(ks[0])] + RanAll(ks[1..][..n]) == RanAll(ks[..n + 1]);
  }

  // ----- The core of a pass -----

  /** A pass that starts an upgrade keeps the last available CSV; any other pass goes on with a running one. */
  predicate UpgradePass(s: Status, r: Status, starts: bool) {
    if starts then r.IsTrue(UpgradeStarted) && !r.Has(UpgradeSucceeded) && r.lastAvailableCSV == s.lastAvailableCSV
    else UpgradeStep(s, r)
  }

  /** What the core of a pass guarantees of the working copy, from a coherent start. */
  predicate CoreEffect(s: Status, r: Status, i: Input, starts: bool, done: bool) {
    && Coherent(r) && UpgradePass(s, r, starts) && DeletionStep(s, r, i) && CSVAfter(s, r, done, ObservedCSV(i))
    && r.upgradePolicy == s.upgradePolicy && r.reportedHash == s.reportedHash
  }

  lemma ListKeepsCoherence(olm: bool, deletion: bool, done: bool, w: World, i: Input, r: World, out: Outcome)
    requires ListEffect(olm, deletion, done, w, i, r, out) && Coherent(w.status)
    ensures Coherent(r.status)
  {
  }

  lemma ConcludeEffect(ks: seq<SubKind>, w: World, i: Input)
    requires Coherent(w.status) && w.status.IsTrue(Installed)
    ensures var r := Conclude(ks, w, i);
      && Coherent(r.status) && SameUpgrade(w.status, r.status) && SameDeletion(w.status, r.status)
      && r.status.upgradePolicy == w.status.upgradePolicy && r.status.reportedHash == w.status.reportedHash
      && r.persisted == w.persisted
  {
    if PackageSub in ks && i.packageCheck == ProbeFailed {
    } else if PackageSub in ks && i.packageCheck != ProbeDone {
    } else {
    }
  }

  lemma SubsEffect(cfg: Config, w: World, i: Input)
    requires WellConfigured(cfg) && Coherent(w.status)
    ensures var e := SubsPass(cfg, w, i);
      CoreEffect(w.status, e.status, i, false, OLMDone(Sorted(cfg.subs), w, i)) && e.persisted == w.persisted
  {
    var ks := Sorted(cfg.subs);
    SortedKeepsMembers(cfg.subs);
    RunSubsEffect(ks, w, i);
    var r := RunSubs(ks, w, i);
    ListKeepsCoherence(OLMSub in ks, DeletionSub in ks, OLMDone(ks, w, i), w, i, r.w, r.outcome);
    if SameDeletion(w.status, r.w.status) { SameDeletionAllowed(w.status, r.w.status, i); }
    if r.outcome == Zero {
      ConcludeEffect(ks, r.w, i);
      var e := Conclude(ks, r.w, i);
      UpgradeComposes(w.status, r.w.status, e.status);
      DeletionComposes(w.status, r.w.status, e.status, i);
    }
  }

  lemma DeletionPassEffect(w: World, i: Input)
    requires Coherent(w.status) && w.persisted == w.status
    ensures var r := DeletionPass(w, i);
      && CoreEffect(w.status, r.status, i, false, false)
      && (r.persisted == w.persisted || r.persisted == r.status == Terminated(w, i))
  {
    var r := DeletionPass(w, i);
    TerminationEffect(w.status, i);
    SameEffect(w.status, i);
    if !w.finalizer {
      assert r == w;
    } else {
      assert r.status == ReportTermination(w.status, i.manifest.generation, i.now);
      if !i.terminationSaved { assert r.persisted == w.persisted; }
      else { assert r.persisted == r.status; }
    }
  }

  lemma SameEffect(s: Status, i: Input)
    requires Coherent(s)
    ensures CoreEffect(s, s, i, false, false)
  {
    SameDeletionAllowed(s, s, i);
  }

  lemma TerminationEffect(s: Status, i: Input)
    requires Coherent(s)
    ensures CoreEffect(s, ReportTermination(s, i.manifest.generation, i.now), i, false, false)
  {
    SameDeletionAllowed(s, ReportTermination(s, i.manifest.generation, i.now), i);
  }

  /** The status saved in the middle of a deletion pass. */
  function Terminated(w: World, i: Input): Status {
    ReportTermination(w.persisted, i.manifest.generation, i.now)
  }

  lemma PrepareEffect(s: Status, i: Input)
    requires Coherent(s)
    ensures var t := Prepared(s, i);
      && Coherent(t) && SameUpgrade(s, t) && SameDeletion(s, t)
      && t.upgradePolicy == s.upgradePolicy && t.reportedHash == s.reportedHash
  {
    if RemovePause(s, i.manifest.generation).Has(Installed) {}
  }

  /** An active pass gets past the finalizer and past the OLM sub-reconciler. */
  predicate ActiveDone(cfg: Config, w: World, i: Input) {
    var f := EnsureFinalizer(w.(status := Prepared(w.status, i)), i);
    f.outcome == Zero && OLMDone(Sorted(cfg.subs), f.w, i)
  }

  lemma ActiveEffect(cfg: Config, w: World, i: Input)
    requires WellConfigured(cfg) && Coherent(w.status) && w.persisted == w.status
    ensures var r := ActivePass(cfg, w, i);
      CoreEffect(w.status, r.status, i, false, ActiveDone(cfg, w, i)) && r.persisted == w.persisted
  {
    PrepareEffect(w.status, i);
    var f := EnsureFinalizer(w.(status := Prepared(w.status, i)), i);
    SameDeletionAllowed(w.status, f.w.status, i);
    if f.outcome == Zero {
      SubsEffect(cfg, f.w, i);
      var e := SubsPass(cfg, f.w, i);
      UpgradeComposes(w.status, f.w.status, e.status);
      DeletionComposes(w.status, f.w.status, e.status, i);
    }
  }

  lemma UpgradeStartWrites(s: Status, g: int, now: int)
    requires Coherent(s)
    ensures var r := ReportUpgradeStarted(s, g, now);
      && Coherent(r) && r.IsTrue(UpgradeStarted) && !r.Has(UpgradeSucceeded) && SameDeletion(s, r)
      && r.lastAvailableCSV == s.lastAvailableCSV
      && r.upgradePolicy == s.upgradePolicy && r.reportedHash == s.reportedHash
  {
    if s.Has(UpgradeSucceeded) {} else {}
  }

  lemma UpgradeStartEffect(s: Status, i: Input)
    requires Coherent(s)
    ensures CoreEffect(s, ReportUpgradeStarted(RemovePause(s, i.manifest.generation), i.manifest.generation, i.now), i, true, false)
  {
    var g := i.manifest.generation;
    assert Coherent(RemovePause(s, g)) && SameDeletion(s, RemovePause(s, g));
    UpgradeStartWrites(RemovePause(s, g), g, i.now);
    SameDeletionAllowed(s, ReportUpgradeStarted(RemovePause(s, g), g, i.now), i);
  }

  lemma PauseEffect(s: Status, i: Input, reason: Reason)
    requires Coherent(s)
    ensures CoreEffect(s, ReportPause(s, i.manifest.generation, reason, i.now), i, false, false)
  {
    SameDeletionAllowed(s, ReportPause(s, i.manifest.generation, reason, i.now), i);
  }

  /** No deletion, no pause: the pass looks at versions and then at the sub-reconcilers. */
  predicate Unhindered(i: Input) {
    !i.manifest.deletionTimestamp && !i.globalPause && !i.manifest.spec.paused
  }

  /** Upgrade detection ends the pass before any sub-reconciler runs. */
  predicate StartsUpgrade(s: Status, i: Input) {
    Unhindered(i) && BeingUpgraded(s, i.manifest)
  }

  /** The pass gets past the OLM sub-reconciler. */
  predicate CoreDone(cfg: Config, w: World, i: Input) {
    Unhindered(i) && !BeingUpgraded(w.status, i.manifest) && ActiveDone(cfg, w, i)
  }

  lemma CoreKeeps(cfg: Config, w: World, i: Input)
    requires WellConfigured(cfg) && Coherent(w.status) && w.persisted == w.status
    ensures var r := ReconcileCore(cfg, w, i);
      && CoreEffect(w.status, r.status, i, StartsUpgrade(w.status, i), CoreDone(cfg, w, i))
      && (r.persisted == w.persisted || r.persisted == r.status == Terminated(w, i))
  {
    if i.manifest.deletionTimestamp { DeletionPassEffect(w, i); }
    else if i.globalPause { PauseEffect(w.status, i, AddonOperatorPaused); }
    else if i.manifest.spec.paused { PauseEffect(w.status, i, AddonPaused); }
    else if BeingUpgraded(w.status, i.manifest) { UpgradeStartEffect(w.status, i); }
    else { ActiveEffect(cfg, w, i); }
  }
}
