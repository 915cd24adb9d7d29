/** Secret propagation: copies referenced Secrets from the operator's namespace into every Addon
    namespace, through a cache that only shows Secrets carrying the cache label. */
module Secrets {
  import opened Conditions

  datatype Key = Key(namespace: string, name: string)
  datatype Owner = Owner(name: string, controller: bool)

  /** Label keys: "app.kubernetes.io/managed-by", "addons.managed.openshift.io/cached",
      "app.kubernetes.io/instance", and all others. */
  datatype Label = ManagedByLabel | CacheLabel | InstanceLabel | OtherLabel(name: string)

  const OperatorName := "addon-operator"

  datatype Secret = Secret(
    labels: map<Label, string>,
    annotations: map<string, string>,
    data: map<string, string>,
    stype: string,
    owners: set<Owner>)

  datatype SecretRef = SecretRef(source: string, destination: string)

  /** The parts of an Addon that matter here. */
  datatype Propagation = Propagation(
    addon: string,
    commonLabels: map<Label, string>,
    commonAnnotations: map<string, string>,
    namespaces: seq<string>,
    refs: seq<SecretRef>)

  type Store = map<Key, Secret>


  predicate HasLabel(s: Secret, key: Label, value: string) {
    key in s.labels && s.labels[key] == value
  }

  /** Visible through the cache. */
  predicate Cached(s: Secret) { HasLabel(s, CacheLabel, OperatorName) }

  /** Carries the two labels of the selector that only this Addon's objects should have. */
  predicate Claimed(s: Secret, addon: string) {
    HasLabel(s, ManagedByLabel, OperatorName) && HasLabel(s, InstanceLabel, addon)
  }

  /** Matches the selector with which the clean-up lists Secrets. */
  predicate Selected(s: Secret, addon: string) { Cached(s) && Claimed(s, addon) }

  /** The labels of every destination; labels of the spec win over the operator's own. */
  function CommonLabels(p: Propagation): map<Label, string> {
    map[ManagedByLabel := OperatorName, CacheLabel := OperatorName, InstanceLabel := p.addon] + p.commonLabels
  }

  function Destination(p: Propagation, src: Secret): Secret {
    Secret(CommonLabels(p), p.commonAnnotations, src.data, src.stype, {Owner(p.addon, true)})
  }

  /** A source gets the cache label and one more owner. */
  function Adopt(p: Propagation, s: Secret): Secret {
    s.(labels := s.labels[CacheLabel := OperatorName],
       owners := (set o | o in s.owners && o.name != p.addon) + {Owner(p.addon, false)})
  }

  // ----- Reading the sources -----

  datatype Gathered = Missing(store: Store) | Gathered(store: Store, dests: seq<(string, Secret)>)

  function AdoptSource(st: Store, p: Propagation, k: Key): Store
    requires k in st
  {
    if Cached(st[k]) then st else st[k := Adopt(p, st[k])]
  }

  function Gather(st: Store, opNs: string, p: Propagation, refs: seq<SecretRef>): Gathered
    decreases |refs|
  {
    if refs == [] then Gathered(st, [])
    else
      var n := |refs| - 1;
      match Gather(st, opNs, p, refs[..n])
      case Missing(s) => Missing(s)
      case Gathered(s, ds) =>
        var k := Key(opNs, refs[n].source);
        if k !in s then Missing(s)
        else Gathered(AdoptSource(s, p, k), ds + [(refs[n].destination, Destination(p, s[k]))])
  }

  // ----- Writing the destinations -----

  /** Creation, update of a visible Secret, or nothing: a Secret that exists outside the cache answers the
      creation with "already exists", which is taken for success. */
  function Put(st: Store, k: Key, d: Secret): Store {
    if k !in st then st[k := d]
    else if !Cached(st[k]) then st
    else st[k := Updated(st[k], d)]
  }

  function Updated(s: Secret, d: Secret): Secret {
    s.(labels := s.labels + d.labels, data := d.data, owners := d.owners)
  }

  /** The (key, secret) pairs in the order in which they are written. */
  function Pairs(ds: seq<(string, Secret)>, namespaces: seq<string>): seq<(Key, Secret)> {
    if ds == [] then []
    else
      var (ds0, d) := (ds[..|ds| - 1], ds[|ds| - 1]);
      Pairs(ds0, namespaces) + Row(d, namespaces)
  }

  function Row(d: (string, Secret), namespaces: seq<string>): seq<(Key, Secret)> {
    if namespaces == [] then []
    else
      var n := |namespaces| - 1;
      Row(d, namespaces[..n]) + [(Key(namespaces[n], d.0), d.1)]
  }

  function PutAll(st: Store, ps: seq<(Key, Secret)>): Store {
    if ps == [] then st
    else Put(PutAll(st, ps[..|ps| - 1]), ps[|ps| - 1].0, ps[|ps| - 1].1)
  }

  function Keys(ps: seq<(Key, Secret)>): set<Key> {
    set x | x in ps :: x.0
  }

  // ----- Cleaning up and the pass -----

  function Sweep(st: Store, known: set<Key>, addon: string): Store {
    map k | k in st && (k in known || !Selected(st[k], addon)) :: st[k]
  }

  datatype PassResult = Requeued(store: Store) | Propagated(store: Store)

  function Propagate(st: Store, opNs: string, p: Propagation): PassResult {
    match Gather(st, opNs, p, p.refs)
    case Missing(s) => Requeued(s)
    case Gathered(s, ds) =>
      var ps := Pairs(ds, p.namespaces);
      Propagated(Sweep(PutAll(s, ps), Keys(ps), p.addon))
  }

  /** Where the spec wants copies, and where it takes them from. */
  function Wanted(p: Propagation): set<Key> {
    set n, r | n in p.namespaces && r in p.refs :: Key(n, r.destination)
  }

  function Sources(opNs: string, refs: seq<SecretRef>): set<Key> {
    set r | r in refs :: Key(opNs, r.source)
  }

  // ----- Effect on a single key -----

  function Get(st: Store, k: Key): Option<Secret> {
    if k in st then Some(st[k]) else None
  }

  function PutValue(v: Option<Secret>, d: Secret): Option<Secret> {
    if v.None? then Some(d) else if Cached(v.value) then Some(Updated(v.value, d)) else v
  }

  function PutValues(v: Option<Secret>, ds: seq<Secret>): Option<Secret> {
    if ds == [] then v else PutValue(PutValues(v, ds[..|ds| - 1]), ds[|ds| - 1])
  }

  function ForKey(ps: seq<(Key, Secret)>, k: Key): seq<Secret> {
    if ps == [] then []
    else
      var ds := ForKey(ps[..|ps| - 1], k);
      if ps[|ps| - 1].0 == k then ds + [ps[|ps| - 1].1] else ds
  }

  lemma PutAt(st: Store, k: Key, x: Key, d: Secret)
    ensures Get(Put(st, x, d), k) == if x == k then PutValue(Get(st, k), d) else Get(st, k)
  {
  }

  lemma PutValuesSnoc(v: Option<Secret>, ds: seq<Secret>, d: Secret)
    ensures PutValues(v, ds + [d]) == PutValue(PutValues(v, ds), d)
  {
    assert (ds + [d])[..|ds|] == ds;
  }

  /** The writes to different keys do not interfere. */
  lemma {:induction false} PutAllAt(st: Store, ps: seq<(Key, Secret)>, k: Key)
    ensures Get(PutAll(st, ps), k) == PutValues(Get(st, k), ForKey(ps, k))
  {
    if ps != [] {
      var (m, x) := (ps[..|ps| - 1], ps[|ps| - 1]);
      PutAllAt(st, m, k);
      PutAt(PutAll(st, m), k, x.0, x.1);
      PutValuesSnoc(Get(st, k), ForKey(m, k), x.1);
    }
  }

  lemma {:induction false} ForKeyMembers(ps: seq<(Key, Secret)>, k: Key)
    ensures ForKey(ps, k) == [] <==> k !in Keys(ps)
    ensures forall d :: d in ForKey(ps, k) ==> (k, d) in ps
  {
    if ps != [] {
      var (m, x) := (ps[..|ps| - 1], ps[|ps| - 1]);
      ForKeyMembers(m, k);
      assert ps == m + [x];
      assert Keys(ps) == Keys(m) + {x.0};
    }
  }

  // ----- Gathering, described -----

  function Adopted(p: Propagation, s: Secret, source: bool): Secret {
    if source && !Cached(s) then Adopt(p, s) else s
  }

  /** Gathering changes sources only: a source is adopted unless it is cached already. */
  ghost predicate GatherEffect(st: Store, g: Store, p: Propagation, sources: set<Key>) {
    g.Keys == st.Keys && forall k :: k in st ==> g[k] == Adopted(p, st[k], k in sources)
  }

  /** One copy per reference, in order, holding what the source held before the pass. */
  ghost predicate AreCopies(ds: seq<(string, Secret)>, st: Store, opNs: string, p: Propagation, refs: seq<SecretRef>) {
    && |ds| == |refs|
    && forall j :: 0 <= j < |refs| ==>
         var k := Key(opNs, refs[j].source);
         k in st && ds[j] == (refs[j].destination, Destination(p, st[k]))
  }

  lemma GatherOne(st: Store, s: Store, p: Propagation, sources: set<Key>, k: Key)
    requires GatherEffect(st, s, p, sources) && k in st
    ensures GatherEffect(st, AdoptSource(s, p, k), p, sources + {k})
    ensures Destination(p, s[k]) == Destination(p, st[k])
  {
    assert Cached(Adopt(p, st[k]));
  }

  lemma SourcesSnoc(opNs: string, refs: seq<SecretRef>, r: SecretRef)
    ensures Sources(opNs, refs + [r]) == Sources(opNs, refs) + {Key(opNs, r.source)}
  {
    assert forall x :: x in refs + [r] <==> x in refs || x == r;
  }

  /** What gathering yields when every source exists, and that it otherwise stops. */
  lemma {:induction false} GatherDescribed(st: Store, opNs: string, p: Propagation, refs: seq<SecretRef>)
    ensures Gather(st, opNs, p, refs).Gathered? <==> Sources(opNs, refs) <= st.Keys
    ensures var g := Gather(st, opNs, p, refs);
      g.Gathered? ==> GatherEffect(st, g.store, p, Sources(opNs, refs)) && AreCopies(g.dests, st, opNs, p, refs)
  {
    if refs != [] {
      var n := |refs| - 1;
      var (m, r) := (refs[..n], refs[n]);
      GatherDescribed(st, opNs, p, m);
      assert refs == m + [r];
      SourcesSnoc(opNs, m, r);
      var g := Gather(st, opNs, p, m);
      if g.Gathered? && Key(opNs, r.source) in st {
        GatherOne(st, g.store, p, Sources(opNs, m), Key(opNs, r.source));
      }
    }
  }

  ghost predicate StopsAt(st: Store, g: Store, opNs: string, p: Propagation, refs: seq<SecretRef>, n: nat) {
    && n < |refs| && Key(opNs, refs[n].source) !in st
    && Sources(opNs, refs[..n]) <= st.Keys && GatherEffect(st, g, p, Sources(opNs, refs[..n]))
  }

  /** A pass that finds a source missing has adopted the sources in front of it and done nothing else. */
  lemma {:induction false} GatherStops(st: Store, opNs: string, p: Propagation, refs: seq<SecretRef>)
    requires Gather(st, opNs, p, refs).Missing?
    ensures exists n: nat :: StopsAt(st, Gather(st, opNs, p, refs).store, opNs, p, refs, n)
  {
    if refs != [] {
      var n := |refs| - 1;
      GatherDescribed(st, opNs, p, refs[..n]);
      if Gather(st, opNs, p, refs[..n]).Missing? {
        GatherStops(st, opNs, p, refs[..n]);
        var q: nat :| StopsAt(st, Gather(st, opNs, p, refs).store, opNs, p, refs[..n], q);
        assert refs[..n][..q] == refs[..q] && refs[..n][q] == refs[q];
        assert StopsAt(st, Gather(st, opNs, p, refs).store, opNs, p, refs, q);
      } else {
        assert StopsAt(st, Gather(st, opNs, p, refs).store, opNs, p, refs, n);
      }
    }
  }

  // ----- What is written where -----

  lemma {:induction false} RowMembers(d: (string, Secret), namespaces: seq<string>, k: Key, v: Secret)
    ensures (k, v) in Row(d, namespaces) <==> k.namespace in namespaces && d == (k.name, v)
  {
    if namespaces != [] {
      var n := |namespaces| - 1;
      RowMembers(d, namespaces[..n], k, v);
      assert namespaces == namespaces[..n] + [namespaces[n]];
      assert (k, v) == (Key(namespaces[n], d.0), d.1) <==> k.namespace == namespaces[n] && d == (k.name, v);
    }
  }

  lemma {:induction false} PairsMembers(ds: seq<(string, Secret)>, namespaces: seq<string>, k: Key, v: Secret)
    ensures (k, v) in Pairs(ds, namespaces) <==> k.namespace in namespaces && (k.name, v) in ds
  {
    if ds != [] {
      var (m, d) := (ds[..|ds| - 1], ds[|ds| - 1]);
      PairsMembers(m, namespaces, k, v);
      RowMembers(d, namespaces, k, v);
      assert ds == m + [d];
    }
  }

  lemma WantedIsWritten(ds: seq<(string, Secret)>, st: Store, opNs: string, p: Propagation)
    requires AreCopies(ds, st, opNs, p, p.refs)
    ensures Keys(Pairs(ds, p.namespaces)) == Wanted(p)
  {
    var ps := Pairs(ds, p.namespaces);
    forall k | k in Keys(ps) ensures k in Wanted(p) {
      var x :| x in ps && x.0 == k;
      PairsMembers(ds, p.namespaces, k, x.1);
      var j :| 0 <= j < |ds| && ds[j] == (k.name, x.1);
      assert k == Key(k.namespace, p.refs[j].destination);
    }
    forall k | k in Wanted(p) ensures k in Keys(ps) {
      var n, r :| n in p.namespaces && r in p.refs && k == Key(n, r.destination);
      var j :| 0 <= j < |p.refs| && p.refs[j] == r;
      PairsMembers(ds, p.namespaces, k, ds[j].1);
      assert (k, ds[j].1) in ps;
    }
  }

  /** What the pass writes at one key, in order. */
  ghost function Writes(st: Store, opNs: string, p: Propagation, k: Key): seq<Secret>
    requires Sources(opNs, p.refs) <= st.Keys
  {
    GatherDescribed(st, opNs, p, p.refs);
    ForKey(Pairs(Gather(st, opNs, p, p.refs).dests, p.namespaces), k)
  }

  lemma WritesWanted(st: Store, opNs: string, p: Propagation, k: Key)
    requires Sources(opNs, p.refs) <= st.Keys
    ensures Writes(st, opNs, p, k) == [] <==> k !in Wanted(p)
  {
    GatherDescribed(st, opNs, p, p.refs);
    var ds := Gather(st, opNs, p, p.refs).dests;
    WantedIsWritten(ds, st, opNs, p);
    ForKeyMembers(Pairs(ds, p.namespaces), k);
  }

  lemma CopyComesFrom(ds: seq<(string, Secret)>, st: Store, opNs: string, p: Propagation, k: Key, d: Secret) returns (r: SecretRef)
    requires AreCopies(ds, st, opNs, p, p.refs) && d in ForKey(Pairs(ds, p.namespaces), k)
    ensures r in p.refs && r.destination == k.name && Key(opNs, r.source) in st && d == Destination(p, st[Key(opNs, r.source)])
  {
    ForKeyMembers(Pairs(ds, p.namespaces), k);
    PairsMembers(ds, p.namespaces, k, d);
    var j :| 0 <= j < |ds| && ds[j] == (k.name, d);
    r := p.refs[j];
  }

  /** All writes to a key carry the Addon's labels and the Addon as controller. */
  lemma WritesHeader(st: Store, opNs: string, p: Propagation, k: Key)
    requires Sources(opNs, p.refs) <= st.Keys
    ensures SameHeader(Writes(st, opNs, p, k), CommonLabels(p), {Owner(p.addon, true)})
  {
    GatherDescribed(st, opNs, p, p.refs);
    forall d | d in Writes(st, opNs, p, k) ensures d.labels == CommonLabels(p) && d.owners == {Owner(p.addon, true)} {
      var r := CopyComesFrom(Gather(st, opNs, p, p.refs).dests, st, opNs, p, k, d);
    }
  }

  predicate SameHeader(ds: seq<Secret>, labels: map<Label, string>, owners: set<Owner>) {
    forall d :: d in ds ==> d.labels == labels && d.owners == owners
  }

  /** The state of one key after the pass. */
  lemma PassAt(st: Store, opNs: string, p: Propagation, k: Key)
    requires Sources(opNs, p.refs) <= st.Keys
    ensures Propagate(st, opNs, p).Propagated?
    ensures var v := Get(st, k);
      var a := if v.Some? then Some(Adopted(p, v.value, k in Sources(opNs, p.refs))) else v;
      Get(Propagate(st, opNs, p).store, k) ==
        if k in Wanted(p) then PutValues(a, Writes(st, opNs, p, k))
        else if a.Some? && Selected(a.value, p.addon) then None else a
  {
    GatherDescribed(st, opNs, p, p.refs);
    var g := Gather(st, opNs, p, p.refs);
    var ps := Pairs(g.dests, p.namespaces);
    WantedIsWritten(g.dests, st, opNs, p);
    PutAllAt(g.store, ps, k);
    WritesWanted(st, opNs, p, k);
    PutValuesSome(Get(g.store, k), Writes(st, opNs, p, k));
  }

  lemma {:induction false} PutValuesSome(v: Option<Secret>, ds: seq<Secret>)
    ensures ds != [] ==> PutValues(v, ds).Some?
  {
    if |ds| > 1 { PutValuesSome(v, ds[..|ds| - 1]); }
  }

  // ----- The pass -----

  /** A pass gets to the end exactly when every source exists. Then every wanted Secret exists, every Secret
      matching the selector is wanted, and the deleted Secrets are exactly the unwanted ones that claim to be
      the Addon's and are either cached or a source. */
  lemma PropagationConverges(st: Store, opNs: string, p: Propagation)
    ensures Propagate(st, opNs, p).Propagated? <==> Sources(opNs, p.refs) <= st.Keys
    ensures var r := Propagate(st, opNs, p); r.Propagated? ==>
      && Wanted(p) <= r.store.Keys
      && (forall k :: k in r.store && Selected(r.store[k], p.addon) ==> k in Wanted(p))
      && (forall k :: k in st ==> (k !in r.store <==>
            k !in Wanted(p) && Claimed(st[k], p.addon) && (Cached(st[k]) || k in Sources(opNs, p.refs))))
      && (forall k :: k in r.store && k !in Wanted(p) ==>
            k in st && r.store[k] == Adopted(p, st[k], k in Sources(opNs, p.refs)))
  {
    GatherDescribed(st, opNs, p, p.refs);
    if Sources(opNs, p.refs) <= st.Keys {
      var r := Propagate(st, opNs, p).store;
      forall k
        ensures k in Wanted(p) ==> k in r
        ensures k in r && Selected(r[k], p.addon) ==> k in Wanted(p)
        ensures k in st ==> (k !in r <==>
            k !in Wanted(p) && Claimed(st[k], p.addon) && (Cached(st[k]) || k in Sources(opNs, p.refs)))
        ensures k in r && k !in Wanted(p) ==> k in st && r[k] == Adopted(p, st[k], k in Sources(opNs, p.refs))
      {
        ConvergesAt(st, opNs, p, k);
      }
    }
  }

  lemma ConvergesAt(st: Store, opNs: string, p: Propagation, k: Key)
    requires Sources(opNs, p.refs) <= st.Keys
    ensures var r := Propagate(st, opNs, p).store;
      && (k in Wanted(p) ==> k in r)
      && (k in r && Selected(r[k], p.addon) ==> k in Wanted(p))
      && (k in st ==> (k !in r <==>
            k !in Wanted(p) && Claimed(st[k], p.addon) && (Cached(st[k]) || k in Sources(opNs, p.refs))))
      && (k in r && k !in Wanted(p) ==> k in st && r[k] == Adopted(p, st[k], k in Sources(opNs, p.refs)))
  {
    PassAt(st, opNs, p, k);
    if k in Wanted(p) {
      WritesWanted(st, opNs, p, k);
      var v := Get(st, k);
      PutValuesSome(if v.Some? then Some(Adopted(p, v.value, k in Sources(opNs, p.refs))) else v, Writes(st, opNs, p, k));
    } else if k in st {
      assert Claimed(Adopt(p, st[k]), p.addon) <==> Claimed(st[k], p.addon);
    }
  }

  /** Deletion reaches further than the selector: a source outside the cache that carries the other two labels is
      given the cache label and then deleted by the same pass. */
  lemma UnselectedSecretIsDeleted(opNs: string, addon: string, ns: string, source: string, dest: string)
    returns (st: Store, p: Propagation, k: Key)
    requires ns != opNs
    ensures p == Propagation(addon, map[], map[], [ns], [SecretRef(source, dest)])
    ensures k in st && !Selected(st[k], p.addon)
    ensures Propagate(st, opNs, p).Propagated? && k !in Propagate(st, opNs, p).store
  {
    var s := Secret(map[ManagedByLabel := OperatorName, InstanceLabel := addon], map[], map[], "Opaque", {});
    k := Key(opNs, source);
    p := Propagation(addon, map[], map[], [ns], [SecretRef(source, dest)]);
    st := map[k := s];
    SingleSource(opNs, p, source, dest);
    SourceAfterPass(st, opNs, p, k);
    PassAt(st, opNs, p, k);
  }

  lemma SingleSource(opNs: string, p: Propagation, source: string, dest: string)
    requires p.refs == [SecretRef(source, dest)]
    ensures Sources(opNs, p.refs) == {Key(opNs, source)}
  {
    assert p.refs[0] in p.refs;
  }

  // ----- Contents of the copies -----

  lemma {:induction false} PutUncached(s: Secret, ds: seq<Secret>)
    requires !Cached(s)
    ensures PutValues(Some(s), ds) == Some(s)
  {
    if ds != [] { PutUncached(s, ds[..|ds| - 1]); }
  }

  /** The labels of the spec may override the cache label; a copy then drops out of the cache with its first write. */
  predicate KeepsCache(p: Propagation) { CommonLabels(p)[CacheLabel] == OperatorName }

  /** Of several writes to one key the last prevails, or the first if it takes the key out of the cache. */
  lemma {:induction false} PrevailingWrite(v: Option<Secret>, ds: seq<Secret>, p: Propagation)
    requires ds != [] && SameHeader(ds, CommonLabels(p), {Owner(p.addon, true)}) && (v.Some? ==> Cached(v.value))
    ensures PutValues(v, ds).Some?
    ensures var s := PutValues(v, ds).value;
      if KeepsCache(p) then Cached(s) && s.data == ds[|ds| - 1].data else !Cached(s) && s.data == ds[0].data
  {
    var m := ds[..|ds| - 1];
    assert ds[|ds| - 1] in ds;
    if m != [] {
      assert forall x :: x in m ==> x in ds;
      PrevailingWrite(v, m, p);
    }
  }

  lemma {:induction false} ForKeyAppend(x: seq<(Key, Secret)>, y: seq<(Key, Secret)>, k: Key)
    ensures ForKey(x + y, k) == ForKey(x, k) + ForKey(y, k)
  {
    if y == [] { assert x + y == x; }
    else {
      var m := y[..|y| - 1];
      ForKeyAppend(x, m, k);
      assert (x + y)[..|x + y| - 1] == x + m;
    }
  }

  /** A row writes its own Secret to a key, or nothing. */
  lemma RowWrites(d: (string, Secret), namespaces: seq<string>, k: Key)
    ensures forall v :: v in ForKey(Row(d, namespaces), k) ==> v == d.1
    ensures ForKey(Row(d, namespaces), k) != [] <==> k.namespace in namespaces && d.0 == k.name
  {
    var row := Row(d, namespaces);
    ForKeyMembers(row, k);
    forall v | v in ForKey(row, k) ensures v == d.1 { RowMembers(d, namespaces, k, v); }
    RowMembers(d, namespaces, k, d.1);
    if k in Keys(row) {
      var x :| x in row && x.0 == k;
      RowMembers(d, namespaces, k, x.1);
    }
    if k.namespace in namespaces && d.0 == k.name { assert (k, d.1) in row; }
  }

  lemma PairsSnoc(x: seq<(string, Secret)>, d: (string, Secret), namespaces: seq<string>)
    ensures Pairs(x + [d], namespaces) == Pairs(x, namespaces) + Row(d, namespaces)
  {
    assert (x + [d])[..|x|] == x;
  }

  lemma {:induction false} PairsAppend(x: seq<(string, Secret)>, y: seq<(string, Secret)>, namespaces: seq<string>)
    ensures Pairs(x + y, namespaces) == Pairs(x, namespaces) + Pairs(y, namespaces)
  {
    if y == [] { assert x + y == x; }
    else {
      var (m, d) := (y[..|y| - 1], y[|y| - 1]);
      PairsAppend(x, m, namespaces);
      AppendSnoc(x, m, d, namespaces);
      assert y == m + [d];
    }
  }

  lemma AppendSnoc(x: seq<(string, Secret)>, m: seq<(string, Secret)>, d: (string, Secret), namespaces: seq<string>)
    requires Pairs(x + m, namespaces) == Pairs(x, namespaces) + Pairs(m, namespaces)
    ensures Pairs(x + (m + [d]), namespaces) == Pairs(x, namespaces) + Pairs(m + [d], namespaces)
  {
    assert x + (m + [d]) == (x + m) + [d];
    PairsSnoc(x + m, d, namespaces);
    PairsSnoc(m, d, namespaces);
    Assoc(Pairs(x, namespaces), Pairs(m, namespaces), Row(d, namespaces));
  }

  lemma Assoc(a: seq<(Key, Secret)>, b: seq<(Key, Secret)>, c: seq<(Key, Secret)>)
    ensures (a + b) + c == a + (b + c)
  {
  }

  lemma PairsOne(d: (string, Secret), namespaces: seq<string>)
    ensures Pairs([d], namespaces) == Row(d, namespaces)
  {
    assert Pairs([], namespaces) == [] && [d][..0] == [];
  }

  /** The writes to a key: those of the references in front, of one reference, and of the references behind. */
  lemma WritesAround(ds: seq<(string, Secret)>, namespaces: seq<string>, k: Key, j: nat)
    requires j < |ds|
    ensures ForKey(Pairs(ds, namespaces), k) ==
      ForKey(Pairs(ds[..j], namespaces), k) + (ForKey(Row(ds[j], namespaces), k) + ForKey(Pairs(ds[j + 1..], namespaces), k))
  {
    var (x, d, y) := (ds[..j], ds[j], ds[j + 1..]);
    assert ds == x + ([d] + y);
    PairsAppend(x, [d] + y, namespaces);
    PairsAppend([d], y, namespaces);
    PairsOne(d, namespaces);
    ForKeyAppend(Pairs(x, namespaces), Row(d, namespaces) + Pairs(y, namespaces), k);
    ForKeyAppend(Row(d, namespaces), Pairs(y, namespaces), k);
  }

  lemma {:induction false} NoWrite(ds: seq<(string, Secret)>, namespaces: seq<string>, k: Key)
    requires forall l :: 0 <= l < |ds| ==> ds[l].0 != k.name
    ensures ForKey(Pairs(ds, namespaces), k) == []
  {
    ForKeyMembers(Pairs(ds, namespaces), k);
    if k in Keys(Pairs(ds, namespaces)) {
      var x :| x in Pairs(ds, namespaces) && x.0 == k;
      PairsMembers(ds, namespaces, k, x.1);
    }
  }

  lemma LastWrite(ds: seq<(string, Secret)>, namespaces: seq<string>, k: Key, j: nat)
    requires j < |ds| && ds[j].0 == k.name && k.namespace in namespaces
    requires forall l :: j < l < |ds| ==> ds[l].0 != k.name
    ensures var ws := ForKey(Pairs(ds, namespaces), k); ws != [] && ws[|ws| - 1] == ds[j].1
  {
    WritesAround(ds, namespaces, k, j);
    NoWrite(ds[j + 1..], namespaces, k);
    RowWrites(ds[j], namespaces, k);
    LastOf(ForKey(Pairs(ds[..j], namespaces), k), ForKey(Row(ds[j], namespaces), k), ds[j].1);
  }

  lemma LastOf(a: seq<Secret>, b: seq<Secret>, d: Secret)
    requires b != [] && forall v :: v in b ==> v == d
    ensures var ws := a + (b + []); ws != [] && ws[|ws| - 1] == d
  {
    assert b[|b| - 1] in b;
  }

  lemma FirstWrite(ds: seq<(string, Secret)>, namespaces: seq<string>, k: Key, j: nat)
    requires j < |ds| && ds[j].0 == k.name && k.namespace in namespaces
    requires forall l :: 0 <= l < j ==> ds[l].0 != k.name
    ensures var ws := ForKey(Pairs(ds, namespaces), k); ws != [] && ws[0] == ds[j].1
  {
    WritesAround(ds, namespaces, k, j);
    NoWrite(ds[..j], namespaces, k);
    RowWrites(ds[j], namespaces, k);
    FirstOf(ForKey(Row(ds[j], namespaces), k), ForKey(Pairs(ds[j + 1..], namespaces), k), ds[j].1);
  }

  lemma FirstOf(b: seq<Secret>, c: seq<Secret>, d: Secret)
    requires b != [] && forall v :: v in b ==> v == d
    ensures var ws := [] + (b + c); ws != [] && ws[0] == d
  {
    assert b[0] in b;
  }

  /** The reference that prevails among those to one destination name: the last one, or the first one if copies drop out
      of the cache. */
  predicate Prevails(p: Propagation, j: nat) {
    && j < |p.refs|
    && (KeepsCache(p) ==> forall l :: j < l < |p.refs| ==> p.refs[l].destination != p.refs[j].destination)
    && (!KeepsCache(p) ==> forall l :: 0 <= l < j ==> p.refs[l].destination != p.refs[j].destination)
  }

  lemma {:induction false} SomePrevails(p: Propagation, i: nat) returns (j: nat)
    requires i < |p.refs|
    ensures Prevails(p, j) && p.refs[j].destination == p.refs[i].destination
    decreases if KeepsCache(p) then |p.refs| - i else i
  {
    j := i;
    if KeepsCache(p) {
      if l :| i < l < |p.refs| && p.refs[l].destination == p.refs[i].destination { j := SomePrevails(p, l); }
    } else {
      if l :| 0 <= l < i && p.refs[l].destination == p.refs[i].destination { j := SomePrevails(p, l); }
    }
  }

  function SourceData(st: Store, opNs: string, p: Propagation, j: nat): map<string, string>
    requires j < |p.refs| && Sources(opNs, p.refs) <= st.Keys
  {
    SourceOf(st, opNs, p, j).data
  }

  /** The existing Secret answers the creation with "already exists" and is not looked at any further. */
  predicate LeftAlone(st: Store, opNs: string, p: Propagation, k: Key) {
    k in st && !Cached(st[k]) && k !in Sources(opNs, p.refs)
  }

  lemma PrevailingCopy(ds: seq<(string, Secret)>, st: Store, opNs: string, p: Propagation, ns: string, j: nat)
    requires Prevails(p, j) && ns in p.namespaces && AreCopies(ds, st, opNs, p, p.refs)
    ensures var ws := ForKey(Pairs(ds, p.namespaces), Key(ns, p.refs[j].destination));
      ws != [] && PrevailingIn(ws, p) == ds[j].1
  {
    var k := Key(ns, p.refs[j].destination);
    forall l | 0 <= l < |ds| ensures ds[l].0 == p.refs[l].destination {}
    if KeepsCache(p) { LastWrite(ds, p.namespaces, k, j); } else { FirstWrite(ds, p.namespaces, k, j); }
  }

  lemma PrevailingData(st: Store, opNs: string, p: Propagation, ns: string, j: nat)
    requires Prevails(p, j) && ns in p.namespaces && Sources(opNs, p.refs) <= st.Keys
    ensures var ws := Writes(st, opNs, p, Key(ns, p.refs[j].destination));
      ws != [] && PrevailingIn(ws, p).data == SourceData(st, opNs, p, j)
  {
    var g := Gather(st, opNs, p, p.refs);
    assert g.Gathered? && AreCopies(g.dests, st, opNs, p, p.refs) by { GatherDescribed(st, opNs, p, p.refs); }
    var ds := g.dests;
    PrevailingCopy(ds, st, opNs, p, ns, j);
    assert ds[j].1 == Destination(p, st[Key(opNs, p.refs[j].source)]);
  }

  lemma DataAfterPass(st: Store, opNs: string, p: Propagation, ns: string, j: nat)
    requires Prevails(p, j) && ns in p.namespaces && Sources(opNs, p.refs) <= st.Keys
    ensures var (k, after) := (Key(ns, p.refs[j].destination), Propagate(st, opNs, p).store);
      k in after && after[k].data == if LeftAlone(st, opNs, p, k) then st[k].data else SourceData(st, opNs, p, j)
  {
    var k := Key(ns, p.refs[j].destination);
    assert p.refs[j] in p.refs && k in Wanted(p);
    PassAt(st, opNs, p, k);
    WritesHeader(st, opNs, p, k);
    PrevailingData(st, opNs, p, ns, j);
    if LeftAlone(st, opNs, p, k) { PutUncached(st[k], Writes(st, opNs, p, k)); }
    else {
      var v := if k in st then Some(Adopted(p, st[k], k in Sources(opNs, p.refs))) else None;
      PrevailingWrite(v, Writes(st, opNs, p, k), p);
    }
  }

  /** For every reference and namespace: the copy holds the data of the reference's source after a pass, if and only if
      the destination was left alone and held it already, or the prevailing reference to that name has it. */
  lemma CopyIsFresh(st: Store, opNs: string, p: Propagation, ns: string, i: nat) returns (j: nat)
    requires i < |p.refs| && ns in p.namespaces && Sources(opNs, p.refs) <= st.Keys
    ensures Prevails(p, j) && p.refs[j].destination == p.refs[i].destination
    ensures var (k, after) := (Key(ns, p.refs[i].destination), Propagate(st, opNs, p).store);
      && k in after
      && (after[k].data == SourceData(st, opNs, p, i) <==>
            if LeftAlone(st, opNs, p, k) then st[k].data == SourceData(st, opNs, p, i)
            else SourceData(st, opNs, p, j) == SourceData(st, opNs, p, i))
  {
    j := SomePrevails(p, i);
    DataAfterPass(st, opNs, p, ns, j);
  }

  /** The labels of every copy: those of the spec, and the operator's own where the spec says nothing. */
  lemma CommonLabelsExact(p: Propagation, l: Label)
    ensures l in p.commonLabels ==> l in CommonLabels(p) && CommonLabels(p)[l] == p.commonLabels[l]
    ensures l !in p.commonLabels && l.OtherLabel? ==> l !in CommonLabels(p)
    ensures l !in p.commonLabels && !l.OtherLabel? ==>
      l in CommonLabels(p) && CommonLabels(p)[l] == if l == InstanceLabel then p.addon else OperatorName
  {
  }

  /** Adoption sets the cache label and adds the Addon as an owner that does not control; nothing else changes. */
  lemma AdoptExact(p: Propagation, s: Secret)
    ensures var r := Adopt(p, s);
      && Cached(r) && r.data == s.data && r.stype == s.stype && r.annotations == s.annotations
      && (forall l :: l != CacheLabel ==> (l in r.labels <==> l in s.labels) && (l in s.labels ==> r.labels[l] == s.labels[l]))
      && (forall o :: o in r.owners <==> (o in s.owners && o.name != p.addon) || o == Owner(p.addon, false))
  {
  }

  /** What the writes leave besides the data: a created Secret has type and annotations of the first write, an existing one
      keeps its own; labels are merged and the Addon becomes the controller. */
  lemma {:induction false} WrittenHeader(v: Option<Secret>, ds: seq<Secret>, p: Propagation)
    requires ds != [] && SameHeader(ds, CommonLabels(p), {Owner(p.addon, true)}) && (v.Some? ==> Cached(v.value))
    ensures PutValues(v, ds).Some?
    ensures var s := PutValues(v, ds).value;
      && s.owners == {Owner(p.addon, true)}
      && (v.None? ==> s.stype == ds[0].stype && s.annotations == ds[0].annotations && s.labels == CommonLabels(p))
      && (v.Some? ==> s.stype == v.value.stype && s.annotations == v.value.annotations && s.labels == v.value.labels + CommonLabels(p))
  {
    var m := ds[..|ds| - 1];
    assert ds[|ds| - 1] in ds;
    if m != [] {
      assert forall x :: x in m ==> x in ds;
      WrittenHeader(v, m, p);
    }
  }

  /** The first reference to its destination name. */
  predicate ComesFirst(p: Propagation, f: nat) {
    f < |p.refs| && forall l :: 0 <= l < f ==> p.refs[l].destination != p.refs[f].destination
  }

  function SourceOf(st: Store, opNs: string, p: Propagation, j: nat): Secret
    requires j < |p.refs| && Sources(opNs, p.refs) <= st.Keys
  {
    assert p.refs[j] in p.refs;
    st[Key(opNs, p.refs[j].source)]
  }

  lemma FirstCopy(st: Store, opNs: string, p: Propagation, ns: string, f: nat)
    requires ComesFirst(p, f) && ns in p.namespaces && Sources(opNs, p.refs) <= st.Keys
    ensures var ws := Writes(st, opNs, p, Key(ns, p.refs[f].destination));
      ws != [] && ws[0].stype == SourceOf(st, opNs, p, f).stype && ws[0].annotations == p.commonAnnotations
  {
    var g := Gather(st, opNs, p, p.refs);
    assert g.Gathered? && AreCopies(g.dests, st, opNs, p, p.refs) by { GatherDescribed(st, opNs, p, p.refs); }
    var (ds, k) := (g.dests, Key(ns, p.refs[f].destination));
    forall l | 0 <= l < |ds| ensures ds[l].0 == p.refs[l].destination {}
    FirstWrite(ds, p.namespaces, k, f);
    assert ds[f].1 == Destination(p, st[Key(opNs, p.refs[f].source)]);
  }

  /** A destination after a complete pass, in full: left as it is outside the cache; otherwise with the prevailing
      reference's data, the Addon's labels and the Addon as controller, and with the first reference's type and the
      spec's annotations if it was created, its own if it existed. */
  lemma SecretAfterPass(st: Store, opNs: string, p: Propagation, ns: string, f: nat, j: nat)
    requires ComesFirst(p, f) && Prevails(p, j) && p.refs[f].destination == p.refs[j].destination
    requires ns in p.namespaces && Sources(opNs, p.refs) <= st.Keys
    ensures var (k, after) := (Key(ns, p.refs[j].destination), Propagate(st, opNs, p).store);
      && k in after
      && after[k] ==
         if LeftAlone(st, opNs, p, k) then st[k]
         else if k in st then
           st[k].(labels := st[k].labels + CommonLabels(p), data := SourceData(st, opNs, p, j), owners := {Owner(p.addon, true)})
         else
           Secret(CommonLabels(p), p.commonAnnotations, SourceData(st, opNs, p, j), SourceOf(st, opNs, p, f).stype, {Owner(p.addon, true)})
  {
    var k := Key(ns, p.refs[j].destination);
    assert p.refs[j] in p.refs && k in Wanted(p);
    PassAt(st, opNs, p, k);
    if LeftAlone(st, opNs, p, k) { PutUncached(st[k], Writes(st, opNs, p, k)); }
    else {
      PrevailingData(st, opNs, p, ns, j);
      FirstCopy(st, opNs, p, ns, f);
      WritesHeader(st, opNs, p, k);
      WrittenSecret(Get(st, k), k in Sources(opNs, p.refs), Writes(st, opNs, p, k), p);
    }
  }

  function PrevailingIn(ws: seq<Secret>, p: Propagation): Secret
    requires ws != []
  {
    if KeepsCache(p) then ws[|ws| - 1] else ws[0]
  }

  lemma WrittenNew(ws: seq<Secret>, p: Propagation)
    requires ws != [] && SameHeader(ws, CommonLabels(p), {Owner(p.addon, true)})
    ensures PutValues(None, ws) ==
      Some(Secret(CommonLabels(p), ws[0].annotations, PrevailingIn(ws, p).data, ws[0].stype, {Owner(p.addon, true)}))
  {
    WrittenHeader(None, ws, p);
    PrevailingWrite(None, ws, p);
  }

  lemma WrittenCached(s: Secret, ws: seq<Secret>, p: Propagation)
    requires Cached(s) && ws != [] && SameHeader(ws, CommonLabels(p), {Owner(p.addon, true)})
    ensures PutValues(Some(s), ws) ==
      Some(s.(labels := s.labels + CommonLabels(p), data := PrevailingIn(ws, p).data, owners := {Owner(p.addon, true)}))
  {
    WrittenHeader(Some(s), ws, p);
    PrevailingWrite(Some(s), ws, p);
  }

  lemma AdoptedLabels(p: Propagation, s: Secret, source: bool)
    ensures Adopted(p, s, source).labels + CommonLabels(p) == s.labels + CommonLabels(p)
    ensures Adopted(p, s, source).stype == s.stype && Adopted(p, s, source).annotations == s.annotations
    ensures source || Cached(s) ==> Cached(Adopted(p, s, source))
  {
  }

  lemma WrittenSecret(v: Option<Secret>, source: bool, ws: seq<Secret>, p: Propagation)
    requires ws != [] && SameHeader(ws, CommonLabels(p), {Owner(p.addon, true)}) && (v.Some? ==> Cached(v.value) || source)
    ensures v.None? ==>
      PutValues(v, ws) == Some(Secret(CommonLabels(p), ws[0].annotations, PrevailingIn(ws, p).data, ws[0].stype, {Owner(p.addon, true)}))
    ensures v.Some? ==>
      PutValues(Some(Adopted(p, v.value, source)), ws) == Some(v.value.(labels := v.value.labels + CommonLabels(p), data := PrevailingIn(ws, p).data, owners := {Owner(p.addon, true)}))
  {
    if v.None? { WrittenNew(ws, p); }
    else {
      AdoptedLabels(p, v.value, source);
      var a := Adopted(p, v.value, source);
      WrittenCached(a, ws, p);
      assert a.data == v.value.data;
    }
  }

  /** A destination that exists outside the cache with other data keeps that data. */
  lemma StaleCopy(opNs: string, addon: string, ns: string, source: string, dest: string)
    returns (st: Store, p: Propagation, k: Key)
    requires ns != opNs
    ensures p == Propagation(addon, map[], map[], [ns], [SecretRef(source, dest)]) && k == Key(ns, dest)
    ensures Sources(opNs, p.refs) <= st.Keys
    ensures var r := Propagate(st, opNs, p);
      r.Propagated? && k in r.store && r.store[k].data != SourceData(st, opNs, p, 0)
  {
    k := Key(ns, dest);
    p := Propagation(addon, map[], map[], [ns], [SecretRef(source, dest)]);
    var src := Key(opNs, source);
    st := map[src := Secret(map[], map[], map["x" := ""], "Opaque", {}), k := Secret(map[], map[], map[], "Opaque", {})];
    SingleSource(opNs, p, source, dest);
    assert Prevails(p, 0) && LeftAlone(st, opNs, p, k);
    DataAfterPass(st, opNs, p, ns, 0);
    PassAt(st, opNs, p, k);
    assert "x" in st[src].data && "x" !in st[k].data;
  }

  // ----- A second pass -----

  predicate Settled(s: Secret, labels: map<Label, string>, owners: set<Owner>) {
    Cached(s) && s.labels + labels == s.labels && s.owners == owners
  }

  /** A visible Secret that has been written once only changes its data from then on. */
  lemma {:induction false} PutSettled(s: Secret, ds: seq<Secret>, labels: map<Label, string>, owners: set<Owner>)
    requires Settled(s, labels, owners) && SameHeader(ds, labels, owners)
    ensures PutValues(Some(s), ds) == Some(if ds == [] then s else s.(data := ds[|ds| - 1].data))
  {
    if ds != [] { PutSettled(s, ds[..|ds| - 1], labels, owners); }
  }

  lemma PutTwice(v: Option<Secret>, ds: seq<Secret>, labels: map<Label, string>, owners: set<Owner>)
    requires SameHeader(ds, labels, owners)
    ensures var w := PutValues(v, ds); PutValues(w, ds) == w
  {
    var w := PutValues(v, ds);
    if ds != [] {
      PutValuesSome(v, ds);
      if !Cached(w.value) { PutUncached(w.value, ds); }
      else {
        var (u, d) := (PutValues(v, ds[..|ds| - 1]), ds[|ds| - 1]);
        assert w == PutValue(u, d);
        assert d.labels == labels;
        assert w.value.labels + labels == w.value.labels;
        PutSettled(w.value, ds, labels, owners);
      }
    }
  }

  /** Outside the Addon's namespaces nothing but adoption and deletion happens to a source. */
  lemma SourceAfterPass(st: Store, opNs: string, p: Propagation, k: Key)
    requires opNs !in p.namespaces && Sources(opNs, p.refs) <= st.Keys && k in Sources(opNs, p.refs)
    ensures var r := Propagate(st, opNs, p).store;
      && (k in r <==> !Claimed(st[k], p.addon))
      && (k in r ==> r[k] == Adopted(p, st[k], true) && Cached(r[k]))
  {
    assert k !in Wanted(p);
    ConvergesAt(st, opNs, p, k);
  }

  /** The second pass reads the same sources and writes the same copies. */
  lemma SameWrites(st: Store, r: Store, opNs: string, p: Propagation, k: Key)
    requires Sources(opNs, p.refs) <= st.Keys && Sources(opNs, p.refs) <= r.Keys
    requires forall x :: x in Sources(opNs, p.refs) ==> r[x] == Adopted(p, st[x], true)
    ensures Writes(r, opNs, p, k) == Writes(st, opNs, p, k)
  {
    GatherDescribed(st, opNs, p, p.refs);
    GatherDescribed(r, opNs, p, p.refs);
    var (a, b) := (Gather(st, opNs, p, p.refs).dests, Gather(r, opNs, p, p.refs).dests);
    forall j | 0 <= j < |p.refs| ensures a[j] == b[j] {
      var x := Key(opNs, p.refs[j].source);
      assert x in Sources(opNs, p.refs);
    }
    assert a == b;
  }

  lemma SecondPassAt(st: Store, opNs: string, p: Propagation, k: Key)
    requires opNs !in p.namespaces && Sources(opNs, p.refs) <= st.Keys
    requires forall x :: x in Sources(opNs, p.refs) ==> !Claimed(st[x], p.addon)
    ensures var r := Propagate(st, opNs, p).store;
      && Sources(opNs, p.refs) <= r.Keys
      && Get(Propagate(r, opNs, p).store, k) == Get(r, k)
  {
    var r := Propagate(st, opNs, p).store;
    forall x | x in Sources(opNs, p.refs) ensures x in r && r[x] == Adopted(p, st[x], true) && Cached(r[x]) {
      SourceAfterPass(st, opNs, p, x);
    }
    PassAt(st, opNs, p, k);
    PassAt(r, opNs, p, k);
    SameWrites(st, r, opNs, p, k);
    if k in Wanted(p) {
      assert k !in Sources(opNs, p.refs);
      WritesHeader(st, opNs, p, k);
      PutTwice(Get(st, k), Writes(st, opNs, p, k), CommonLabels(p), {Owner(p.addon, true)});
    }
  }

  /** When the operator's namespace is not one of the Addon's, a second pass leaves the store as it is exactly
      when no source claims to be one of the Addon's own objects. Otherwise the first pass deletes that source
      and the second waits for it. */
  lemma SecondPassIsIdle(st: Store, opNs: string, p: Propagation)
    requires opNs !in p.namespaces && Propagate(st, opNs, p).Propagated?
    ensures var r := Propagate(st, opNs, p);
      Propagate(r.store, opNs, p) == r <==>
        forall k :: k in Sources(opNs, p.refs) && k in st ==> !Claimed(st[k], p.addon)
  {
    PropagationConverges(st, opNs, p);
    var r := Propagate(st, opNs, p);
    PropagationConverges(r.store, opNs, p);
    if k :| k in Sources(opNs, p.refs) && k in st && Claimed(st[k], p.addon) {
      SourceAfterPass(st, opNs, p, k);
    } else {
      SecondPass(st, opNs, p);
    }
  }

  lemma SecondPass(st: Store, opNs: string, p: Propagation)
    requires opNs !in p.namespaces && Sources(opNs, p.refs) <= st.Keys
    requires forall x :: x in Sources(opNs, p.refs) ==> !Claimed(st[x], p.addon)
    ensures Propagate(Propagate(st, opNs, p).store, opNs, p) == Propagated(Propagate(st, opNs, p).store)
  {
    var r := Propagate(st, opNs, p).store;
    SecondPassAt(st, opNs, p, Key("", ""));
    PassAt(r, opNs, p, Key("", ""));
    var r2 := Propagate(r, opNs, p).store;
    forall k ensures Get(r2, k) == Get(r, k) {
      SecondPassAt(st, opNs, p, k);
    }
    SameStore(r2, r);
  }

  lemma SameStore(a: Store, b: Store)
    requires forall k :: Get(a, k) == Get(b, k)
    ensures a == b
  {
    forall k ensures k in a <==> k in b
      ensures k in a && k in b ==> a[k] == b[k]
    {
      assert Get(a, k) == Get(b, k);
    }
  }
}
