/** The secret propagation reconciler as it runs: loops over references, namespaces and listed Secrets that
    change the store step by step. Any call to the cluster may fail. */
module SecretReconciler {
  import opened Conditions
  import opened Secrets

  datatype Outcome = Failed | Requeue | Fine

  // ----- What an interrupted pass may have done -----

  /** No more than a complete pass: only Secrets that a complete pass deletes are gone, unwanted Secrets are as
      they were or adopted, and a destination outside the cache is untouched. */
  ghost predicate Partial(st: Store, r: Store, opNs: string, p: Propagation) {
    forall k :: PartialAt(Get(st, k), Get(r, k), k in Wanted(p), k in Sources(opNs, p.refs), p)
  }

  predicate PartialAt(v: Option<Secret>, w: Option<Secret>, wanted: bool, source: bool, p: Propagation) {
    && (v.Some? && w.None? ==> !wanted && Claimed(v.value, p.addon) && (Cached(v.value) || source))
    && (w.Some? && !wanted ==> v.Some? && (w == v || (source && w.value == Adopted(p, v.value, true))))
    && (v.Some? && !Cached(v.value) && !source ==> w == v)
  }

  lemma SourcesPrefix(opNs: string, refs: seq<SecretRef>, n: nat)
    requires n <= |refs|
    ensures Sources(opNs, refs[..n]) <= Sources(opNs, refs)
  {
  }

  lemma PartialGather(st: Store, r: Store, opNs: string, p: Propagation, n: nat)
    requires n <= |p.refs| && GatherEffect(st, r, p, Sources(opNs, p.refs[..n]))
    ensures Partial(st, r, opNs, p)
  {
    SourcesPrefix(opNs, p.refs, n);
    forall k ensures PartialAt(Get(st, k), Get(r, k), k in Wanted(p), k in Sources(opNs, p.refs), p) {
      if k in st {
        if k in Sources(opNs, p.refs[..n]) { assert k in Sources(opNs, p.refs); }
      }
    }
  }

  /** The stores between gathering and the clean-up. */
  ghost predicate Midway(st: Store, m: Store, opNs: string, p: Propagation) {
    forall k :: MidwayAt(Get(st, k), Get(m, k), k in Wanted(p), k in Sources(opNs, p.refs), p)
  }

  predicate MidwayAt(v: Option<Secret>, w: Option<Secret>, wanted: bool, source: bool, p: Propagation) {
    && (v.Some? ==> w.Some?)
    && (w.Some? && !wanted ==> v.Some? && w.value == Adopted(p, v.value, source))
    && (v.Some? && !Cached(v.value) && !source ==> w == v)
  }

  lemma {:induction false} PutValuesKeeps(v: Option<Secret>, ds: seq<Secret>)
    ensures v.Some? ==> PutValues(v, ds).Some?
  {
    if ds != [] { PutValuesKeeps(v, ds[..|ds| - 1]); }
  }

  lemma MidwayPut(st: Store, g: Store, ps: seq<(Key, Secret)>, opNs: string, p: Propagation)
    requires GatherEffect(st, g, p, Sources(opNs, p.refs)) && Keys(ps) <= Wanted(p)
    ensures Midway(st, PutAll(g, ps), opNs, p)
  {
    forall k
      ensures MidwayAt(Get(st, k), Get(PutAll(g, ps), k), k in Wanted(p), k in Sources(opNs, p.refs), p)
    {
      PutAllAt(g, ps, k);
      ForKeyMembers(ps, k);
      PutValuesKeeps(Get(g, k), ForKey(ps, k));
      if k in st && !Cached(st[k]) && k !in Sources(opNs, p.refs) {
        PutUncached(st[k], ForKey(ps, k));
      }
    }
  }

  lemma PartialMidway(st: Store, m: Store, opNs: string, p: Propagation)
    requires Midway(st, m, opNs, p)
    ensures Partial(st, m, opNs, p)
  {
    forall k ensures PartialAt(Get(st, k), Get(m, k), k in Wanted(p), k in Sources(opNs, p.refs), p) {
      assert MidwayAt(Get(st, k), Get(m, k), k in Wanted(p), k in Sources(opNs, p.refs), p);
    }
  }

  /** Some of the Secrets that the clean-up lists have been deleted. */
  ghost predicate PartlySwept(m: Store, r: Store, known: set<Key>, addon: string) {
    && r.Keys <= m.Keys
    && (forall k :: k in r ==> r[k] == m[k])
    && (forall k :: k in m && k !in r ==> k !in known && Selected(m[k], addon))
  }

  lemma PartialSweep(st: Store, m: Store, r: Store, opNs: string, p: Propagation)
    requires Midway(st, m, opNs, p) && PartlySwept(m, r, Wanted(p), p.addon)
    ensures Partial(st, r, opNs, p)
  {
    forall k ensures PartialAt(Get(st, k), Get(r, k), k in Wanted(p), k in Sources(opNs, p.refs), p) {
      assert MidwayAt(Get(st, k), Get(m, k), k in Wanted(p), k in Sources(opNs, p.refs), p);
      if k in r { assert r[k] == m[k]; }
      else if k in m && k in st { assert Selected(m[k], p.addon); }
    }
  }

  // ----- Prefixes of the lists that the loops walk -----

  lemma {:induction false} GatherMissingEarly(st: Store, opNs: string, p: Propagation, refs: seq<SecretRef>, n: nat)
    requires n <= |refs| && Gather(st, opNs, p, refs[..n]).Missing?
    ensures Gather(st, opNs, p, refs) == Gather(st, opNs, p, refs[..n])
  {
    if n < |refs| {
      var m := refs[..|refs| - 1];
      assert m[..n] == refs[..n];
      GatherMissingEarly(st, opNs, p, m, n);
    } else {
      assert refs[..n] == refs;
    }
  }

  lemma {:induction false} RowPrefix(d: (string, Secret), nss: seq<string>, j: nat)
    requires j <= |nss|
    ensures Row(d, nss[..j]) <= Row(d, nss)
  {
    if j == |nss| { assert nss[..j] == nss; }
    else {
      var m := nss[..|nss| - 1];
      RowPrefix(d, m, j);
      assert m[..j] == nss[..j];
    }
  }

  lemma {:induction false} PairsPrefix(ds: seq<(string, Secret)>, nss: seq<string>, i: nat)
    requires i <= |ds|
    ensures Pairs(ds[..i], nss) <= Pairs(ds, nss)
  {
    if i == |ds| { assert ds[..i] == ds; }
    else {
      var m := ds[..|ds| - 1];
      PairsPrefix(m, nss, i);
      assert m[..i] == ds[..i];
    }
  }

  /** The pairs written after i whole rows and j entries of the next one. */
  ghost function Done(ds: seq<(string, Secret)>, nss: seq<string>, i: nat, j: nat): seq<(Key, Secret)>
    requires i < |ds| && j <= |nss|
  {
    Pairs(ds[..i], nss) + Row(ds[i], nss[..j])
  }

  lemma DonePrefix(ds: seq<(string, Secret)>, nss: seq<string>, i: nat, j: nat)
    requires i < |ds| && j <= |nss|
    ensures Done(ds, nss, i, j) <= Pairs(ds, nss)
  {
    RowPrefix(ds[i], nss, j);
    PairsPrefix(ds, nss, i + 1);
    assert ds[..i + 1][..i] == ds[..i];
    assert Pairs(ds[..i + 1], nss) == Pairs(ds[..i], nss) + Row(ds[i], nss);
  }

  lemma DoneNext(ds: seq<(string, Secret)>, nss: seq<string>, i: nat, j: nat)
    requires i < |ds| && j < |nss|
    ensures Done(ds, nss, i, j + 1) == Done(ds, nss, i, j) + [(Key(nss[j], ds[i].0), ds[i].1)]
  {
    assert nss[..j + 1][..j] == nss[..j];
  }

  lemma PutAllNext(st: Store, ps: seq<(Key, Secret)>, k: Key, d: Secret)
    ensures PutAll(st, ps + [(k, d)]) == Put(PutAll(st, ps), k, d)
    ensures Keys(ps + [(k, d)]) == Keys(ps) + {k}
  {
    assert (ps + [(k, d)])[..|ps|] == ps;
    assert forall x :: x in ps + [(k, d)] <==> x in ps || x == (k, d);
    assert (k, d) in ps + [(k, d)];
  }

  // ----- The reconciler -----

  class Reconciler {
    var store: Store
    const opNs: string

    constructor (opNs: string, store: Store)
      ensures this.opNs == opNs && this.store == store
    {
      this.opNs, this.store := opNs, store;
    }

    /** Cached read, uncached read, adoption. The returned Secret is the one read, before the patch. */
    method GetReferencedSecret(p: Propagation, k: Key) returns (o: Outcome, s: Option<Secret>)
      modifies this
      ensures o == Failed ==> store == old(store)
      ensures o == Requeue ==> k !in old(store) && store == old(store)
      ensures o == Fine ==> k in old(store) && s == Some(old(store)[k]) && store == AdoptSource(old(store), p, k)
    {
      if * { return Failed, None; }
      if k in store && Cached(store[k]) { return Fine, Some(store[k]); }
      if * { return Failed, None; }
      if k !in store { return Requeue, None; }
      if * { return Failed, None; }
      s := Some(store[k]);
      store := store[k := Adopt(p, store[k])];
      o := Fine;
    }

    method GetDestinationSecrets(p: Propagation) returns (o: Outcome, ds: seq<(string, Secret)>)
      modifies this
      ensures o == Fine ==> Gather(old(store), opNs, p, p.refs) == Gathered(store, ds)
      ensures o == Requeue ==> Gather(old(store), opNs, p, p.refs) == Missing(store)
      ensures o == Failed ==>
        exists n: nat :: n <= |p.refs| && GatherEffect(old(store), store, p, Sources(opNs, p.refs[..n]))
    {
      ds := [];
      var i := 0;
      while i < |p.refs|
        invariant i <= |p.refs|
        invariant Gather(old(store), opNs, p, p.refs[..i]) == Gathered(store, ds)
      {
        var k := Key(opNs, p.refs[i].source);
        assert p.refs[..i + 1][..i] == p.refs[..i] && p.refs[..i + 1][i] == p.refs[i];
        var res, src := GetReferencedSecret(p, k);
        if res == Failed {
          GatherDescribed(old(store), opNs, p, p.refs[..i]);
          return Failed, [];
        }
        if res == Requeue {
          GatherMissingEarly(old(store), opNs, p, p.refs, i + 1);
          return Requeue, [];
        }
        ds := ds + [(p.refs[i].destination, Destination(p, src.value))];
        i := i + 1;
      }
      assert p.refs[..i] == p.refs;
      o := Fine;
    }

    /** Adds or overwrites every desired label. */
    method MergeLabels(actual: map<Label, string>, desired: map<Label, string>) returns (r: map<Label, string>)
      ensures r == actual + desired
    {
      r := actual;
      var todo := desired.Keys;
      while todo != {}
        invariant todo <= desired.Keys
        invariant r == actual + (map k | k in desired && k !in todo :: desired[k])
        decreases todo
      {
        var k :| k in todo;
        r := r[k := desired[k]];
        todo := todo - {k};
      }
    }

    method ReconcileSecret(k: Key, d: Secret) returns (ok: bool)
      modifies this
      ensures store == if ok then Put(old(store), k, d) else old(store)
    {
      if * { return false; }
      if !(k in store && Cached(store[k])) {
        if k in store { return true; }
        if * { return false; }
        store := store[k := d];
        return true;
      }
      var labels := MergeLabels(store[k].labels, d.labels);
      if * { return false; }
      store := store[k := store[k].(labels := labels, data := d.data, owners := d.owners)];
      ok := true;
    }

    method ReconcileSecretsInAddonNamespaces(p: Propagation, ds: seq<(string, Secret)>)
      returns (ok: bool, known: set<Key>)
      modifies this
      ensures ok ==> store == PutAll(old(store), Pairs(ds, p.namespaces)) && known == Keys(Pairs(ds, p.namespaces))
      ensures !ok ==> exists ps :: ps <= Pairs(ds, p.namespaces) && store == PutAll(old(store), ps)
    {
      known := {};
      var i := 0;
      while i < |ds|
        invariant i <= |ds|
        invariant store == PutAll(old(store), Pairs(ds[..i], p.namespaces))
        invariant known == Keys(Pairs(ds[..i], p.namespaces))
      {
        var j := 0;
        assert Done(ds, p.namespaces, i, j) == Pairs(ds[..i], p.namespaces);
        while j < |p.namespaces|
          invariant j <= |p.namespaces|
          invariant store == PutAll(old(store), Done(ds, p.namespaces, i, j))
          invariant known == Keys(Done(ds, p.namespaces, i, j))
        {
          var k := Key(p.namespaces[j], ds[i].0);
          known := known + {k};
          DoneNext(ds, p.namespaces, i, j);
          PutAllNext(old(store), Done(ds, p.namespaces, i, j), k, ds[i].1);
          var fine := ReconcileSecret(k, ds[i].1);
          if !fine {
            DonePrefix(ds, p.namespaces, i, j);
            return false, {};
          }
          j := j + 1;
        }
        assert p.namespaces[..j] == p.namespaces && ds[..i + 1][..i] == ds[..i];
        i := i + 1;
      }
      assert ds[..i] == ds;
      ok := true;
    }

    /** The cached Secrets matching the Addon's selector, in some order. */
    method ListSelected(addon: string) returns (ks: seq<Key>)
      ensures forall k :: k in ks <==> k in store && Selected(store[k], addon)
      ensures forall i, j :: 0 <= i < j < |ks| ==> ks[i] != ks[j]
    {
      var todo := set k | k in store && Selected(store[k], addon);
      ghost var all := todo;
      ks := [];
      while todo != {}
        invariant todo <= all
        invariant forall k :: k in ks <==> k in all && k !in todo
        invariant forall i, j :: 0 <= i < j < |ks| ==> ks[i] != ks[j]
        decreases todo
      {
        var k :| k in todo;
        ks := ks + [k];
        todo := todo - {k};
      }
    }

    method CleanupUnknownSecrets(p: Propagation, known: set<Key>) returns (ok: bool)
      modifies this
      ensures ok ==> store == Sweep(old(store), known, p.addon)
      ensures !ok ==> PartlySwept(old(store), store, known, p.addon)
    {
      if * { return false; }
      var ks := ListSelected(p.addon);
      var i := 0;
      while i < |ks|
        invariant i <= |ks|
        invariant PartlySwept(old(store), store, known, p.addon)
        invariant forall k :: k in old(store) ==> (k in store <==> k in known || k !in ks[..i])
      {
        if ks[i] !in known {
          if * { return false; }
          store := store - {ks[i]};
        }
        i := i + 1;
      }
      assert ks[..i] == ks;
      assert store == Sweep(old(store), known, p.addon);
      ok := true;
    }

    method Reconcile(p: Propagation) returns (o: Outcome)
      modifies this
      ensures o == Fine ==> Propagate(old(store), opNs, p) == Propagated(store)
      ensures o == Requeue ==> Propagate(old(store), opNs, p) == Requeued(store)
      ensures o == Failed ==> Partial(old(store), store, opNs, p)
    {
      ghost var st := store;
      GatherDescribed(st, opNs, p, p.refs);
      if |p.refs| == 0 {
        var swept := CleanupUnknownSecrets(p, {});
        if !swept {
          MidwayPut(st, st, [], opNs, p);
          PartialSweep(st, st, store, opNs, p);
          return Failed;
        }
        return Fine;
      }
      var res, ds := GetDestinationSecrets(p);
      if res == Failed {
        ghost var n: nat :| n <= |p.refs| && GatherEffect(st, store, p, Sources(opNs, p.refs[..n]));
        PartialGather(st, store, opNs, p, n);
        return Failed;
      }
      if res == Requeue { return Requeue; }
      ghost var g := store;
      WantedIsWritten(ds, st, opNs, p);
      var ok, known := ReconcileSecretsInAddonNamespaces(p, ds);
      if !ok {
        ghost var ps :| ps <= Pairs(ds, p.namespaces) && store == PutAll(g, ps);
        MidwayPut(st, g, ps, opNs, p);
        PartialMidway(st, store, opNs, p);
        return Failed;
      }
      ghost var m := store;
      MidwayPut(st, g, Pairs(ds, p.namespaces), opNs, p);
      ok := CleanupUnknownSecrets(p, known);
      if !ok {
        PartialSweep(st, m, store, opNs, p);
        return Failed;
      }
      o := Fine;
    }
  }
}
