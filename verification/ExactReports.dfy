/** What is sent to OCM, exactly: the upgrade-policy calls of a pass as a table over the record, the policy's state,
    availability and the accepted calls, and the status posts with everything they carry. */
module ExactReports {
  import opened Conditions
  import opened AddonModel
  import opened Lifecycle
  import opened StepProofs
  import opened PassProofs
  import opened Runs
  import opened RunReports

  // ----- Upgrade policy -----

  /** There is a version and a policy, and the record does not say that this version is completed. */
  predicate Due(s: Status, a: Manifest) {
    a.spec.version != "" && a.spec.upgradePolicy.Some? &&
    var record := s.upgradePolicy;
    record.None? || record.value.version != a.spec.version || record.value.value != ValueCompleted
  }

  /** The record is of another version, or there is none; an unversioned one counts only while OCM does not say that the
      upgrade is behind us. */
  predicate StartDue(s: Status, a: Manifest, state: PolicyState) {
    s.upgradePolicy.None? ||
    var version := s.upgradePolicy.value.version;
    version != a.spec.version && (version != "" || (state != StateCompleted && state != StatePending))
  }

  /** The record has no version and OCM says that the upgrade is behind us. */
  predicate VersionUnknown(s: Status, state: PolicyState) {
    s.upgradePolicy.Some? && s.upgradePolicy.value.version == "" && (state == StateCompleted || state == StatePending)
  }

  function Said(s: Status, a: Manifest, v: PolicyValue): Status
    requires a.spec.upgradePolicy.Some?
  {
    s.(upgradePolicy := Some(PolicyRecord(a.spec.upgradePolicy.value, v, a.spec.version, a.generation)))
  }

  /** The calls that OCM accepts, after the read. */
  function Sent(s: Status, a: Manifest, o: OCMObservation): seq<Event>
    requires Due(s, a) && o.policyState.Some?
  {
    var (id, v, state) := (a.spec.upgradePolicy.value, a.spec.version, o.policyState.value);
    if VersionUnknown(s, state) then []
    else if StartDue(s, a, state) then (if o.startedAccepted then [Started(id, v)] else [])
    else if !s.IsTrue(Available) then []
    else if state != StateScheduled then (if o.completedAccepted then [Completed(id, v)] else [])
    else if !o.startedAccepted then []
    else if o.completedAccepted then [Started(id, v), Completed(id, v)]
    else [Started(id, v)]
  }

  /** The record says what was last accepted, and what is already known to be completed. */
  function RecordAfter(s: Status, a: Manifest, o: OCMObservation): Status
    requires Due(s, a) && o.policyState.Some?
  {
    var sent := Sent(s, a, o);
    if VersionUnknown(s, o.policyState.value) then Said(s, a, ValueCompleted)
    else if sent == [] then s
    else Said(s, a, if sent[|sent| - 1].Completed? then ValueCompleted else ValueStarted)
  }

  /** For every record, state, availability and combination of accepted calls: what is logged and what is recorded. */
  lemma PolicyStepExact(w: World, a: Manifest, o: OCMObservation)
    ensures var r := PolicyStep(w, a, o);
      if !Due(w.status, a) || !o.policyEnabled || !o.client then r == w
      else
        var read := w.log + [PolicyRead(a.spec.upgradePolicy.value)];
        if o.policyState.None? then r == w.(log := read)
        else r == w.(status := RecordAfter(w.status, a, o), log := read + Sent(w.status, a, o))
  {
    if Due(w.status, a) && o.policyEnabled && o.client {
      var (id, v) := (a.spec.upgradePolicy.value, a.spec.version);
      var read := w.log + [PolicyRead(id)];
      assert read + [] == read;
      assert read + [Started(id, v)] + [Completed(id, v)] == read + [Started(id, v), Completed(id, v)];
      assert RequiresReporting(w.status, a);
      if o.policyState.None? {
      } else if VersionUnknown(w.status, o.policyState.value) {
      } else if StartDue(w.status, a, o.policyState.value) {
      } else if !w.status.IsTrue(Available) {
      } else if o.policyState.value != StateScheduled {
      } else {
      }
    }
  }

  /** A start that is due is reported at once when OCM accepts it, whether or not the Addon is available. */
  lemma StartIsReportedAtOnce(w: World, a: Manifest, o: OCMObservation)
    requires Due(w.status, a) && o.policyEnabled && o.client && o.policyState.Some? && StartDue(w.status, a, o.policyState.value)
    ensures var (r, id) := (PolicyStep(w, a, o), a.spec.upgradePolicy.value);
      r.log == w.log + [PolicyRead(id)] + if o.startedAccepted then [Started(id, a.spec.version)] else []
  {
    PolicyStepExact(w, a, o);
  }

  /** OCM answers and accepts everything in a saved pass over the manifest. */
  predicate Accepting(i: Input, a: Manifest) {
    && i.manifest == a && i.fetched && i.statusSaved && a.spec.version != "" && a.spec.upgradePolicy.Some?
    && i.ocm.policyEnabled && i.ocm.client && i.ocm.policyState.Some? && i.ocm.startedAccepted && i.ocm.completedAccepted
  }

  predicate SaysStarted(s: Status, a: Manifest) {
    s.upgradePolicy.Some? && s.upgradePolicy.value.version == a.spec.version
  }

  lemma AcceptedStep(w: World, a: Manifest, o: OCMObservation)
    requires a.spec.version != "" && a.spec.upgradePolicy.Some?
    requires o.policyEnabled && o.client && o.policyState.Some? && o.startedAccepted && o.completedAccepted
    ensures var r := PolicyStep(w, a, o).status;
      SaysStarted(r, a) && (SaysStarted(w.status, a) && w.status.IsTrue(Available) ==> RecordIs(r, ValueCompleted, a.spec.version))
  {
    PolicyStepExact(w, a, o);
    if Due(w.status, a) {
      var state := o.policyState.value;
      if VersionUnknown(w.status, state) {} else if StartDue(w.status, a, state) {} else if !w.status.IsTrue(Available) {} else {}
    }
  }

  lemma AcceptedPass(cfg: Config, w: World, i: Input, a: Manifest)
    requires WellConfigured(cfg) && Accepting(i, a)
    ensures var r := Pass(cfg, w, i).persisted;
      && SaysStarted(r, a)
      && (SaysStarted(w.persisted, a) && r.IsTrue(Available) ==> RecordIs(r, ValueCompleted, a.spec.version))
  {
    var core, policy := PassChain(cfg, w, i);
    AcceptedStep(core, a, i.ocm);
    SameConditions(policy.status, Pass(cfg, w, i).persisted);
    SameConditions(core.status, policy.status);
  }

  /** Two saved passes in which OCM accepts everything report the version completed, if the second leaves the Addon
      available, whatever was recorded before. */
  lemma CompletionWithinTwo(cfg: Config, w: World, i: Input, j: Input, a: Manifest)
    requires WellConfigured(cfg) && Accepting(i, a) && Accepting(j, a)
    requires Pass(cfg, Pass(cfg, w, i), j).persisted.IsTrue(Available)
    ensures RecordIs(Pass(cfg, Pass(cfg, w, i), j).persisted, ValueCompleted, a.spec.version)
  {
    AcceptedPass(cfg, w, i, a);
    AcceptedPass(cfg, Pass(cfg, w, i), j, a);
  }

  // ----- Status posts -----

  /** The payload that describes a status: identifiers of the Addon, and of each condition type, status, reason and
      message, in order. */
  ghost predicate Describes(p: Payload, s: Status, a: Manifest) {
    && p.addonID == a.name && p.correlationID == a.spec.correlationID && p.version == a.spec.version
    && |p.conditions| == |s.conditions|
    && forall k :: 0 <= k < |s.conditions| ==>
         && p.conditions[k].ctype == s.conditions[k].ctype && p.conditions[k].status == s.conditions[k].status
         && p.conditions[k].reason == s.conditions[k].reason && p.conditions[k].message == s.conditions[k].message
  }

  lemma DescriptionIsPayload(p: Payload, s: Status, a: Manifest)
    ensures Describes(p, s, a) <==> p == PayloadOf(s, a)
  {
    if Describes(p, s, a) {
      assert p.conditions == PayloadOf(s, a).conditions;
    }
  }

  /** Reporting is on, OCM is there and accepts, and what is stored is not the hash of this payload. */
  predicate PostDue(cfg: Config, s: Status, p: Payload, o: OCMObservation) {
    o.statusEnabled && o.client && o.postAccepted && (s.reportedHash.None? || s.reportedHash.value.hash != cfg.hash(p))
  }

  lemma PostStepExact(cfg: Config, w: World, a: Manifest, o: OCMObservation, p: Payload)
    requires Describes(p, w.status, a)
    ensures PostStep(cfg, w, a, o) ==
      if PostDue(cfg, w.status, p, o)
      then w.(status := w.status.(reportedHash := Some(ReportedHash(cfg.hash(p), a.generation))), log := w.log + [Posted(p)])
      else w
  {
    DescriptionIsPayload(p, w.status, a);
  }

  lemma PostsSnoc(log: seq<Event>, p: Payload)
    ensures Posts(log + [Posted(p)]) == Posts(log) + [p]
  {
    assert (log + [Posted(p)])[..|log|] == log;
  }

  /** A pass posts the payload that describes its own status, once, if that is due, and nothing otherwise; and the stored
      hash is that of the payload exactly then. */
  lemma PassPostsExactly(cfg: Config, w: World, i: Input, p: Payload)
    requires WellConfigured(cfg) && i.fetched && Describes(p, Pass(cfg, w, i).status, i.manifest)
    ensures var r := Pass(cfg, w, i);
      if PostDue(cfg, w.persisted, p, i.ocm)
      then Posts(r.log) == Posts(w.log) + [p] && r.status.reportedHash == Some(ReportedHash(cfg.hash(p), i.manifest.generation))
      else Posts(r.log) == Posts(w.log) && r.status.reportedHash == w.persisted.reportedHash
  {
    var core, policy := PassChain(cfg, w, i);
    SilentPosts(w.log, core.log);
    PolicyIsNoPost(core, policy, i.manifest);
    SilentPosts(core.log, policy.log);
    assert policy.status.conditions == Pass(cfg, w, i).status.conditions;
    PostStepExact(cfg, policy, i.manifest, i.ocm, p);
    PostsSnoc(policy.log, p);
  }

  /** The payload exists for every status, so the statement above is never empty. */
  lemma EveryStatusIsDescribed(s: Status, a: Manifest) returns (p: Payload)
    ensures Describes(p, s, a)
  {
    p := PayloadOf(s, a);
  }

  /** A change of a condition's type, status, reason or message gives another payload. */
  lemma ChangedConditionChangesPayload(p: Payload, q: Payload, s: Status, t: Status, a: Manifest, k: nat)
    requires Describes(p, s, a) && Describes(q, t, a) && k < |s.conditions| && k < |t.conditions|
    requires s.conditions[k].status != t.conditions[k].status || s.conditions[k].reason != t.conditions[k].reason
          || s.conditions[k].message != t.conditions[k].message || s.conditions[k].ctype != t.conditions[k].ctype
    ensures p != q
  {
    assert p.conditions[k] != q.conditions[k];
  }
}
