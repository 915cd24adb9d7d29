/** The two-way index between Addons and the Operator resources whose events should wake them. */
module EventMap {
  datatype ObjectKey = ObjectKey(namespace: string, name: string)

  datatype Routing = Routing(lists: map<ObjectKey, seq<ObjectKey>>, routes: map<ObjectKey, ObjectKey>)
  {
    function ListOf(addon: ObjectKey): seq<ObjectKey> {
      if addon in lists then lists[addon] else []
    }

    predicate RoutesTo(key: ObjectKey, addon: ObjectKey) {
      key in routes && routes[key] == addon
    }
  }

  const Empty := Routing(map[], map[])

  // ----- Specification -----

  function Register(r: Routing, addon: ObjectKey, key: ObjectKey): Routing {
    var lists := if key in r.ListOf(addon) then r.lists else r.lists[addon := r.ListOf(addon) + [key]];
    Routing(lists, r.routes[key := addon])
  }

  function Release(r: Routing, addon: ObjectKey): Routing {
    Routing(r.lists - {addon}, map k | k in r.routes && k !in r.ListOf(addon) :: r.routes[k])
  }

  predicate NoDuplicates(ks: seq<ObjectKey>) {
    forall i, j :: 0 <= i < j < |ks| ==> ks[i] != ks[j]
  }

  /** Every route is backed by the list of its target, and lists have no duplicates. */
  ghost predicate Consistent(r: Routing) {
    && (forall k, a :: r.RoutesTo(k, a) ==> k in r.ListOf(a))
    && (forall a :: NoDuplicates(r.ListOf(a)))
  }

  /** The two maps are inverse to each other. */
  ghost predicate Inverse(r: Routing) {
    forall k, a :: r.RoutesTo(k, a) <==> k in r.ListOf(a)
  }

  // ----- The handler -----

  class OperatorResourceHandler {
    var addonKeyToOperatorKeys: map<ObjectKey, seq<ObjectKey>>
    var operatorKeyToAddon: map<ObjectKey, ObjectKey>

    function View(): Routing
      reads this
    {
      Routing(addonKeyToOperatorKeys, operatorKeyToAddon)
    }

    constructor ()
      ensures View() == Empty
    {
      addonKeyToOperatorKeys, operatorKeyToAddon := map[], map[];
    }

    method IsKeyPresent(existing: seq<ObjectKey>, key: ObjectKey) returns (present: bool)
      ensures present <==> key in existing
    {
      for i := 0 to |existing|
        invariant key !in existing[..i]
      {
        if existing[i] == key { return true; }
      }
      return false;
    }

    /** Whom an event of the given Operator resource wakes. */
    method EnqueueObject(key: ObjectKey, queue: seq<ObjectKey>) returns (r: seq<ObjectKey>)
      ensures forall a :: View().RoutesTo(key, a) ==> r == queue + [a]
      ensures (forall a :: !View().RoutesTo(key, a)) ==> r == queue
    {
      if key !in operatorKeyToAddon { return queue; }
      assert View().RoutesTo(key, operatorKeyToAddon[key]);
      return queue + [operatorKeyToAddon[key]];
    }

    method UpdateMap(addon: ObjectKey, key: ObjectKey) returns (changed: bool)
      modifies this
      ensures View() == Register(old(View()), addon, key)
      ensures changed <==> View() != old(View())
    {
      changed := false;
      var existing := View().ListOf(addon);
      var present := IsKeyPresent(existing, key);
      if !present {
        addonKeyToOperatorKeys := addonKeyToOperatorKeys[addon := existing + [key]];
        changed := true;
        assert addonKeyToOperatorKeys[addon] != existing;
      }
      if key !in operatorKeyToAddon || operatorKeyToAddon[key] != addon {
        operatorKeyToAddon := operatorKeyToAddon[key := addon];
        changed := true;
      } else {
        assert operatorKeyToAddon == operatorKeyToAddon[key := addon];
      }
    }

    method Free(addon: ObjectKey)
      modifies this
      ensures View() == Release(old(View()), addon)
    {
      var keys := View().ListOf(addon);
      for i := 0 to |keys|
        invariant addonKeyToOperatorKeys == old(addonKeyToOperatorKeys)
        invariant operatorKeyToAddon == map k | k in old(operatorKeyToAddon) && k !in keys[..i] :: old(operatorKeyToAddon)[k]
      {
        operatorKeyToAddon := operatorKeyToAddon - {keys[i]};
      }
      addonKeyToOperatorKeys := addonKeyToOperatorKeys - {addon};
    }
  }

  // ----- One call -----

  lemma UpdateAt(r: Routing, addon: ObjectKey, key: ObjectKey, a: ObjectKey, k: ObjectKey)
    ensures Register(r, addon, key).RoutesTo(k, a) <==> if k == key then a == addon else r.RoutesTo(k, a)
    ensures k in Register(r, addon, key).ListOf(a) <==> k in r.ListOf(a) || (a == addon && k == key)
  {
  }

  lemma FreeAt(r: Routing, addon: ObjectKey, a: ObjectKey, k: ObjectKey)
    ensures Release(r, addon).RoutesTo(k, a) <==> r.RoutesTo(k, a) && k !in r.ListOf(addon)
    ensures Release(r, addon).ListOf(a) == if a == addon then [] else r.ListOf(a)
  {
  }

  /** After Free nothing routes to the Addon, and the Addon has no list. */
  lemma FreedIsUnreachable(r: Routing, addon: ObjectKey, k: ObjectKey)
    requires Consistent(r)
    ensures !Release(r, addon).RoutesTo(k, addon) && Release(r, addon).ListOf(addon) == []
  {
    FreeAt(r, addon, addon, k);
  }

  /** Free leaves the routing of all other Addons alone exactly when no key of the freed Addon's list has been
      taken over by another Addon. */
  lemma FreeSparesOthersIff(r: Routing, addon: ObjectKey)
    ensures (forall k, b :: b != addon ==> (Release(r, addon).RoutesTo(k, b) <==> r.RoutesTo(k, b)))
       <==> (forall k :: k in r.ListOf(addon) && k in r.routes ==> r.routes[k] == addon)
  {
    forall k, b ensures Release(r, addon).RoutesTo(k, b) <==> r.RoutesTo(k, b) && k !in r.ListOf(addon) {
      FreeAt(r, addon, b, k);
    }
    if k :| k in r.ListOf(addon) && k in r.routes && r.routes[k] != addon {
      assert r.RoutesTo(k, r.routes[k]) && !Release(r, addon).RoutesTo(k, r.routes[k]);
    }
  }

  /** A key that moved from one Addon to another leaves a stale entry; freeing the first Addon cuts off the second. */
  lemma MovedKeyIsLost(a: ObjectKey, b: ObjectKey, k: ObjectKey)
    requires a != b
    ensures var r := Register(Register(Empty, a, k), b, k);
      Consistent(r) && r.RoutesTo(k, b) && !Release(r, a).RoutesTo(k, b)
  {
    var m := Register(Empty, a, k);
    assert m.ListOf(a) == [k];
    var r := Register(m, b, k);
    assert r.ListOf(a) == [k] && r.ListOf(b) == [k];
    forall k', a' | r.RoutesTo(k', a') ensures k' in r.ListOf(a') {
      UpdateAt(m, b, k, a', k');
      UpdateAt(Empty, a, k, a', k');
    }
  }

  // ----- Histories -----

  datatype Call = UpdateCall(addon: ObjectKey, key: ObjectKey) | FreeCall(addon: ObjectKey)

  function Apply(r: Routing, c: Call): Routing {
    match c
    case UpdateCall(a, k) => Register(r, a, k)
    case FreeCall(a) => Release(r, a)
  }

  function After(calls: seq<Call>): Routing {
    if calls == [] then Empty else Apply(After(calls[..|calls| - 1]), calls[|calls| - 1])
  }

  lemma ApplyKeeps(r: Routing, c: Call)
    requires Consistent(r)
    ensures Consistent(Apply(r, c))
  {
    var s := Apply(r, c);
    forall k, a | s.RoutesTo(k, a) ensures k in s.ListOf(a) {
      match c
      case UpdateCall(b, x) => UpdateAt(r, b, x, a, k);
      case FreeCall(b) =>
        FreeAt(r, b, a, k);
    }
    forall a ensures NoDuplicates(s.ListOf(a)) {
      assert NoDuplicates(r.ListOf(a));
      if c.FreeCall? { FreeAt(r, c.addon, a, c.addon); }
      else { assert s.ListOf(a) == r.ListOf(a) || (c.key !in r.ListOf(a) && s.ListOf(a) == r.ListOf(a) + [c.key]); }
    }
  }

  lemma {:induction false} AlwaysConsistent(calls: seq<Call>)
    ensures Consistent(After(calls))
  {
    if calls != [] {
      AlwaysConsistent(calls[..|calls| - 1]);
      ApplyKeeps(After(calls[..|calls| - 1]), calls[|calls| - 1]);
    }
  }

  /** The Addon asked for the key and has not been freed since. */
  ghost predicate Registered(calls: seq<Call>, a: ObjectKey, k: ObjectKey) {
    exists i :: 0 <= i < |calls| && calls[i] == UpdateCall(a, k) && FreeCall(a) !in calls[i..]
  }

  lemma RegisteredStep(calls: seq<Call>, c: Call, a: ObjectKey, k: ObjectKey)
    ensures Registered(calls + [c], a, k) <==>
      c == UpdateCall(a, k) || (Registered(calls, a, k) && c != FreeCall(a))
  {
    var all := calls + [c];
    if c == UpdateCall(a, k) { assert all[|calls|] == UpdateCall(a, k) && all[|calls|..] == [c]; }
    if i :| 0 <= i < |all| && all[i] == UpdateCall(a, k) && FreeCall(a) !in all[i..] {
      if i < |calls| { assert all[i..] == calls[i..] + [c]; }
    }
    if i :| 0 <= i < |calls| && calls[i] == UpdateCall(a, k) && FreeCall(a) !in calls[i..] {
      assert all[i..] == calls[i..] + [c] && all[i] == UpdateCall(a, k);
    }
  }

  /** An Addon's list holds exactly the keys it asked for since it was last freed. */
  lemma {:induction false} ListsAreRegistrations(calls: seq<Call>, a: ObjectKey, k: ObjectKey)
    ensures k in After(calls).ListOf(a) <==> Registered(calls, a, k)
  {
    if calls != [] {
      var (m, c) := (calls[..|calls| - 1], calls[|calls| - 1]);
      assert calls == m + [c];
      ListsAreRegistrations(m, a, k);
      RegisteredStep(m, c, a, k);
      match c
      case UpdateCall(b, x) => UpdateAt(After(m), b, x, a, k);
      case FreeCall(b) =>
        FreeAt(After(m), b, a, k);
    }
  }

  /** No Operator resource is ever asked for by two Addons. */
  ghost predicate DistinctKeys(calls: seq<Call>) {
    forall c, d :: c in calls && d in calls && c.UpdateCall? && d.UpdateCall? && c.key == d.key ==> c.addon == d.addon
  }

  lemma DistinctPrefix(calls: seq<Call>, n: nat)
    requires DistinctKeys(calls) && n <= |calls|
    ensures DistinctKeys(calls[..n])
  {
  }

  /** Addons with pairwise distinct keys: the two maps are exact inverses, and an event wakes exactly the Addon that
      asked for it and has not been freed since. */
  lemma {:induction false} DistinctKeysInvert(calls: seq<Call>)
    requires DistinctKeys(calls)
    ensures Inverse(After(calls))
    ensures forall k, a :: After(calls).RoutesTo(k, a) <==> Registered(calls, a, k)
  {
    if calls != [] {
      var (m, c) := (calls[..|calls| - 1], calls[|calls| - 1]);
      DistinctPrefix(calls, |calls| - 1);
      DistinctKeysInvert(m);
      forall k, a ensures After(calls).RoutesTo(k, a) <==> k in After(calls).ListOf(a) {
        InvertAt(calls, k, a);
      }
    }
    forall k, a ensures After(calls).RoutesTo(k, a) <==> Registered(calls, a, k) {
      ListsAreRegistrations(calls, a, k);
    }
  }

  lemma InvertAt(calls: seq<Call>, k: ObjectKey, a: ObjectKey)
    requires calls != [] && DistinctKeys(calls) && Inverse(After(calls[..|calls| - 1]))
    ensures After(calls).RoutesTo(k, a) <==> k in After(calls).ListOf(a)
  {
    var (m, c) := (calls[..|calls| - 1], calls[|calls| - 1]);
    var r := After(m);
    assert r.RoutesTo(k, a) <==> k in r.ListOf(a);
    match c
    case UpdateCall(b, x) =>
      UpdateAt(r, b, x, a, k);
      if k in r.ListOf(a) {
        ListsAreRegistrations(m, a, k);
        assert UpdateCall(a, k) in calls && c in calls;
      }
    case FreeCall(b) =>
      FreeAt(r, b, a, k);
      if k in r.ListOf(b) { assert r.RoutesTo(k, b); }
  }

  /** Then freeing one Addon leaves every other Addon's routing and list as they are. */
  lemma DistinctKeysFree(calls: seq<Call>, addon: ObjectKey, b: ObjectKey, k: ObjectKey)
    requires DistinctKeys(calls) && b != addon
    ensures var (r, s) := (After(calls), After(calls + [FreeCall(addon)]));
      (s.RoutesTo(k, b) <==> r.RoutesTo(k, b)) && s.ListOf(b) == r.ListOf(b)
  {
    DistinctKeysInvert(calls);
    assert (calls + [FreeCall(addon)])[..|calls|] == calls;
    FreeAt(After(calls), addon, b, k);
    if k in After(calls).ListOf(addon) { assert After(calls).RoutesTo(k, addon); }
  }

  lemma Repeated(ks: seq<ObjectKey>, k: ObjectKey)
    requires |ks| > 1 && forall i :: 0 <= i < |ks| ==> ks[i] == k
    ensures !NoDuplicates(ks)
  {
    assert ks[0] == ks[1];
  }

  /** An Addon that always asks for the same key never has more than one entry. */
  lemma SingleKeyList(calls: seq<Call>, a: ObjectKey, k: ObjectKey)
    requires forall c :: c in calls && c.UpdateCall? && c.addon == a ==> c.key == k
    ensures After(calls).ListOf(a) in {[], [k]}
  {
    AlwaysConsistent(calls);
    var ks := After(calls).ListOf(a);
    forall i | 0 <= i < |ks| ensures ks[i] == k {
      ListsAreRegistrations(calls, a, ks[i]);
      var j :| 0 <= j < |calls| && calls[j] == UpdateCall(a, ks[i]);
      assert calls[j] in calls;
    }
    assert NoDuplicates(ks);
    if |ks| > 1 { Repeated(ks, k); }
    assert |ks| == 1 ==> ks == [k];
  }
}
