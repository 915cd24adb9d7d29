/** Feature flags kept as one comma-separated string, edited by the feature toggles and compared as a multiset to
    decide whether the operator restarts. */
module FeatureFlags {
  import opened Conditions

  const MonitoringStackIdentifier := "EXPERIMENTAL_FEATURES"
  const PlugAndPlayIdentifier := "ADDONS_PLUG_AND_PLAY"

  // ----- Splitting and joining at commas -----

  /** The pieces between commas; the empty string has one empty piece. */
  function Split(s: string): (r: seq<string>)
    ensures |r| > 0 && forall p :: p in r ==> ',' !in p
  {
    if s == "" then [""]
    else Prepend(s[0], Split(s[1..]))
  }

  function Prepend(c: char, r: seq<string>): (q: seq<string>)
    requires |r| > 0
    ensures |q| > 0
  {
    if c == ',' then [""] + r else [[c] + r[0]] + r[1..]
  }

  lemma PrependAppend(c: char, r: seq<string>, t: seq<string>)
    requires |r| > 0
    ensures Prepend(c, r + t) == Prepend(c, r) + t
  {
  }

  function Join(ps: seq<string>): string {
    if ps == [] then "" else if |ps| == 1 then ps[0] else ps[0] + "," + Join(ps[1..])
  }

  lemma {:induction false} JoinSplit(s: string)
    ensures Join(Split(s)) == s
  {
    if s != "" {
      JoinSplit(s[1..]);
      var r := Split(s[1..]);
      if s[0] == ',' { assert ([""] + r)[1..] == r; }
      else { assert ([[s[0]] + r[0]] + r[1..])[1..] == r[1..]; }
    }
  }

  lemma {:induction false} SplitPlain(p: string)
    requires ',' !in p
    ensures Split(p) == [p]
  {
    if p != "" {
      SplitPlain(p[1..]);
      assert p == [p[0]] + p[1..];
    }
  }

  lemma SplitHead(c: char, s: string)
    ensures Split([c] + s) == Prepend(c, Split(s))
  {
    assert ([c] + s)[1..] == s;
  }

  /** A comma separates what is in front of it from what is behind it. */
  lemma {:induction false} SplitAtComma(s: string, t: string)
    ensures Split(s + "," + t) == Split(s) + Split(t)
  {
    if s == "" {
      assert s + "," + t == [','] + t;
      SplitHead(',', t);
    } else {
      var (c, rest) := (s[0], s[1..]);
      assert s == [c] + rest;
      SplitAtComma(rest, t);
      SplitHead(c, rest);
      SplitHead(c, rest + "," + t);
      assert s + "," + t == [c] + (rest + "," + t);
      PrependAppend(c, Split(rest), Split(t));
    }
  }

  lemma {:induction false} SplitJoin(ps: seq<string>)
    requires ps != [] && forall p :: p in ps ==> ',' !in p
    ensures Split(Join(ps)) == ps
  {
    SplitPlain(ps[0]);
    if |ps| > 1 {
      SplitJoin(ps[1..]);
      SplitAtComma(ps[0], Join(ps[1..]));
    }
  }

  lemma {:induction false} JoinSnoc(ps: seq<string>, p: string)
    requires ps != []
    ensures Join(ps + [p]) == Join(ps) + "," + p
  {
    if |ps| > 1 {
      JoinSnoc(ps[1..], p);
      assert (ps + [p])[1..] == ps[1..] + [p];
    } else {
      assert (ps + [p])[1..] == [p];
    }
  }

  // ----- Editing -----

  predicate IsIdentifier(id: string) { id != "" && ',' !in id }

  predicate Holds(flags: string, id: string) { id in Split(flags) }

  function Enabled(flags: string, id: string): string {
    if Holds(flags, id) then flags else if flags == "" then id else flags + "," + id
  }

  function Without(ps: seq<string>, id: string): seq<string> {
    if ps == [] then []
    else
      var m := Without(ps[..|ps| - 1], id);
      if ps[|ps| - 1] == id then m else m + [ps[|ps| - 1]]
  }

  function Disabled(flags: string, id: string): string {
    if Holds(flags, id) then Join(Without(Split(flags), id)) else flags
  }

  lemma {:induction false} WithoutCounts(ps: seq<string>, id: string)
    ensures multiset(Without(ps, id)) == multiset(ps)[id := 0]
    ensures forall p :: p in Without(ps, id) <==> p in ps && p != id
  {
    if ps != [] {
      var (m, p) := (ps[..|ps| - 1], ps[|ps| - 1]);
      assert ps == m + [p];
      WithoutCounts(m, id);
    }
  }

  lemma EnabledSplit(flags: string, id: string)
    requires IsIdentifier(id)
    ensures Split(Enabled(flags, id)) ==
      if Holds(flags, id) then Split(flags) else if flags == "" then [id] else Split(flags) + [id]
  {
    SplitPlain(id);
    if flags != "" { SplitAtComma(flags, id); }
  }

  lemma DisabledSplit(flags: string, id: string)
    ensures Split(Disabled(flags, id)) ==
      var kept := Without(Split(flags), id);
      if !Holds(flags, id) then Split(flags) else if kept == [] then [""] else kept
  {
    var kept := Without(Split(flags), id);
    WithoutCounts(Split(flags), id);
    if Holds(flags, id) && kept != [] { SplitJoin(kept); }
  }

  // ----- What the edits mean -----

  /** Enabling switches the flag on, disabling switches it off, and neither changes how often any other flag occurs. */
  lemma EditsAreExact(flags: string, id: string)
    requires IsIdentifier(id)
    ensures Holds(Enabled(flags, id), id) && !Holds(Disabled(flags, id), id)
    ensures forall x :: x != id && x != "" ==>
      && multiset(Split(Enabled(flags, id)))[x] == multiset(Split(flags))[x]
      && multiset(Split(Disabled(flags, id)))[x] == multiset(Split(flags))[x]
  {
    EnabledSplit(flags, id);
    DisabledSplit(flags, id);
    WithoutCounts(Split(flags), id);
  }

  /** Membership of every flag after an edit. */
  lemma FlagAfterEdit(flags: string, id: string, x: string)
    requires IsIdentifier(id) && x != ""
    ensures Holds(Enabled(flags, id), x) <==> Holds(flags, x) || x == id
    ensures Holds(Disabled(flags, id), x) <==> Holds(flags, x) && x != id
  {
    EditsAreExact(flags, id);
    assert multiset(Split(Enabled(flags, id)))[x] > 0 <==> Holds(Enabled(flags, id), x);
    assert multiset(Split(Disabled(flags, id)))[x] > 0 <==> Holds(Disabled(flags, id), x);
    assert multiset(Split(flags))[x] > 0 <==> Holds(flags, x);
  }

  /** The two toggles are well-formed and different. */
  lemma ToggleIdentifiers()
    ensures IsIdentifier(MonitoringStackIdentifier) && IsIdentifier(PlugAndPlayIdentifier)
    ensures MonitoringStackIdentifier != PlugAndPlayIdentifier
  {
    assert MonitoringStackIdentifier[0] == 'E' && PlugAndPlayIdentifier[0] == 'A';
  }

  /** Disabling undoes enabling, to the letter. */
  lemma DisableUndoesEnable(flags: string, id: string)
    requires IsIdentifier(id) && !Holds(flags, id)
    ensures Disabled(Enabled(flags, id), id) == flags
  {
    EnabledSplit(flags, id);
    if flags == "" {
      assert Without([id], id) == [];
    } else {
      var ps := Split(flags);
      assert (ps + [id])[..|ps|] == ps;
      WithoutAbsent(ps, id);
      JoinSplit(flags);
    }
  }

  lemma {:induction false} WithoutAbsent(ps: seq<string>, id: string)
    requires id !in ps
    ensures Without(ps, id) == ps
  {
    if ps != [] { WithoutAbsent(ps[..|ps| - 1], id); }
  }

  /** The flag stands once, at the end, and not behind a lone comma. */
  predicate LastOnce(flags: string, id: string) {
    var ps := Split(flags);
    ps[|ps| - 1] == id && id !in ps[..|ps| - 1] && ps != ["", id]
  }

  lemma EnableRestores(flags: string, id: string)
    requires IsIdentifier(id) && LastOnce(flags, id)
    ensures Enabled(Disabled(flags, id), id) == flags
  {
    var ps := Split(flags);
    var m := ps[..|ps| - 1];
    assert ps == m + [id];
    assert Without(ps, id) == Without(m, id);
    WithoutAbsent(m, id);
    JoinSplit(flags);
    EditsAreExact(flags, id);
    if m != [] {
      JoinSnoc(m, id);
      SplitJoin(m);
      assert Disabled(flags, id) == Join(m) != "";
    }
  }

  lemma RestoredIsLastOnce(flags: string, id: string)
    requires IsIdentifier(id) && Enabled(Disabled(flags, id), id) == flags
    ensures LastOnce(flags, id)
  {
    var d := Disabled(flags, id);
    EditsAreExact(flags, id);
    EditsAreExact(d, id);
    EnabledSplit(d, id);
    assert Holds(flags, id);
    if d != "" {
      assert Split(flags)[..|Split(d)|] == Split(d);
      if Split(d) == [""] { JoinSplit(d); }
    }
  }

  /** Enabling undoes disabling exactly when the flag stands once, at the end, and not behind a lone comma. */
  lemma EnableUndoesDisableIff(flags: string, id: string)
    requires IsIdentifier(id)
    ensures Enabled(Disabled(flags, id), id) == flags <==> LastOnce(flags, id)
  {
    if LastOnce(flags, id) { EnableRestores(flags, id); }
    else if Enabled(Disabled(flags, id), id) == flags { RestoredIsLastOnce(flags, id); }
  }

  lemma WithoutSnoc(ps: seq<string>, p: string, id: string)
    ensures Without(ps + [p], id) == if p == id then Without(ps, id) else Without(ps, id) + [p]
  {
    assert (ps + [p])[..|ps|] == ps;
  }

  /** Switching the first of two flags off and on again moves it behind the other: "A,B" becomes "B,A". */
  lemma TogglingReorders(a: string, b: string)
    requires IsIdentifier(a) && IsIdentifier(b) && a != b
    ensures var flags := a + "," + b;
      Enabled(Disabled(flags, a), a) == b + "," + a && b + "," + a != flags
  {
    var flags := a + "," + b;
    SplitPlain(a);
    SplitPlain(b);
    SplitAtComma(a, b);
    SplitAtComma(b, a);
    WithoutSnoc([], a, a);
    WithoutSnoc([a], b, a);
    assert Split(flags) == [a] + [b] && [] + [a] == [a];
    assert Without(Split(flags), a) == [b];
    assert Disabled(flags, a) == b;
    assert [b, a][0] != [a, b][0];
  }

  // ----- The toggles -----

  function Collected(ps: seq<string>): string { if ps == [] then "" else "," + Join(ps) }

  lemma CollectedSnoc(ps: seq<string>, p: string)
    ensures Collected(ps + [p]) == Collected(ps) + "," + p
  {
    if ps != [] { JoinSnoc(ps, p); }
  }

  class FeatureToggle {
    const id: string
    var flags: Option<string>   // of the AddonOperator object, if it exists

    constructor (id: string, flags: Option<string>)
      ensures this.id == id && this.flags == flags
    {
      this.id, this.flags := id, flags;
    }

    method StringPresentInSlice(target: string, slice: seq<string>) returns (present: bool)
      ensures present <==> target in slice
    {
      for k := 0 to |slice|
        invariant target !in slice[..k]
      {
        if slice[k] == target { return true; }
      }
      return false;
    }

    method IsEnabled(text: string) returns (enabled: bool)
      ensures enabled <==> Holds(text, id)
    {
      enabled := StringPresentInSlice(id, Split(text));
    }

    method Enable() returns (ok: bool)
      modifies this`flags
      ensures flags == if !ok then old(flags) else if old(flags).None? then Some(id) else Some(Enabled(old(flags).value, id))
    {
      if * { return false; }
      if flags.None? {
        if * { return false; }
        flags := Some(id);
        return true;
      }
      var existing := Split(flags.value);
      var present := StringPresentInSlice(id, existing);
      if present { return true; }
      var updated := if flags.value == "" then id else flags.value + "," + id;
      if * { return false; }
      flags := Some(updated);
      ok := true;
    }

    /** Collects all other flags behind commas and drops the first comma. */
    method RemoveFlag(existing: seq<string>) returns (updated: string)
      ensures updated == Join(Without(existing, id))
    {
      updated := "";
      for k := 0 to |existing|
        invariant updated == Collected(Without(existing[..k], id))
      {
        assert existing[..k + 1][..k] == existing[..k];
        if existing[k] == id { continue; }
        CollectedSnoc(Without(existing[..k], id), existing[k]);
        updated := updated + "," + existing[k];
      }
      assert existing[..|existing|] == existing;
      if |updated| != 0 { updated := updated[1..]; }
    }

    method Disable() returns (ok: bool)
      modifies this`flags
      ensures flags == if !ok then old(flags) else if old(flags).None? then Some("") else Some(Disabled(old(flags).value, id))
    {
      if * { return false; }
      if flags.None? {
        if * { return false; }
        flags := Some("");
        return true;
      }
      var existing := Split(flags.value);
      var present := StringPresentInSlice(id, existing);
      if !present { return true; }
      var updated := RemoveFlag(existing);
      if * { return false; }
      flags := Some(updated);
      ok := true;
    }
  }

  // ----- Comparing flag states -----

  function Diff(tracker: map<string, int>, x: string): int {
    if x in tracker then tracker[x] else 0
  }

  lemma DiffNext(tracker: map<string, int>, y: string, d: int, x: string)
    ensures Diff(tracker[y := Diff(tracker, y) + d], x) == Diff(tracker, x) + if x == y then d else 0
  {
  }

  lemma CountNext(s: seq<string>, k: nat, x: string)
    requires k < |s|
    ensures multiset(s[..k + 1])[x] == multiset(s[..k])[x] + if s[k] == x then 1 else 0
  {
    assert s[..k + 1] == s[..k] + [s[k]];
  }

  /** Counts up for one slice and down for the other: all differences vanish exactly for equal multisets. */
  method AreSlicesEquivalent(a: seq<string>, b: seq<string>) returns (r: bool)
    ensures r <==> multiset(a) == multiset(b)
  {
    if |a| != |b| {
      assert |multiset(a)| != |multiset(b)|;
      return false;
    }
    var tracker: map<string, int> := map[];
    for k := 0 to |a|
      invariant forall x :: Diff(tracker, x) == multiset(a[..k])[x]
    {
      var next := tracker[a[k] := Diff(tracker, a[k]) + 1];
      forall x ensures Diff(next, x) == multiset(a[..k + 1])[x] {
        CountNext(a, k, x);
        DiffNext(tracker, a[k], 1, x);
      }
      tracker := next;
    }
    assert a[..|a|] == a;
    for k := 0 to |b|
      invariant forall x :: Diff(tracker, x) + multiset(b[..k])[x] == multiset(a)[x]
    {
      var next := tracker[b[k] := Diff(tracker, b[k]) - 1];
      forall x ensures Diff(next, x) + multiset(b[..k + 1])[x] == multiset(a)[x] {
        CountNext(b, k, x);
        DiffNext(tracker, b[k], -1, x);
      }
      tracker := next;
    }
    assert b[..|b|] == b;
    var keys := tracker.Keys;
    while keys != {}
      invariant keys <= tracker.Keys
      invariant forall x :: x !in keys ==> Diff(tracker, x) == 0
      decreases keys
    {
      var x :| x in keys;
      if tracker[x] != 0 {
        assert Diff(tracker, x) != 0;
        return false;
      }
      keys := keys - {x};
    }
    forall x ensures multiset(a)[x] == multiset(b)[x] { assert Diff(tracker, x) == 0; }
    return true;
  }

  /** Whether the operator exits: it started with `state` and now finds `flags`. */
  method FoundDifferentState(state: seq<string>, flags: string) returns (exit: bool)
    ensures exit <==> Restarts(state, flags)
  {
    var same := AreSlicesEquivalent(state, Split(flags));
    exit := !same;
  }

  predicate Restarts(state: seq<string>, flags: string) { multiset(state) != multiset(Split(flags)) }

  /** Enabling two toggles in either order never looks like a change. */
  lemma OrderOfEnablingIsInvisible(flags: string, p: string, q: string)
    requires IsIdentifier(p) && IsIdentifier(q)
    ensures !Restarts(Split(Enabled(Enabled(flags, p), q)), Enabled(Enabled(flags, q), p))
  {
    EnabledSplit(flags, p);
    EnabledSplit(flags, q);
    EnabledSplit(Enabled(flags, p), q);
    EnabledSplit(Enabled(flags, q), p);
  }

  /** The operator restarts exactly for edits that change something. */
  lemma RestartsExactlyOnChange(flags: string, id: string)
    requires IsIdentifier(id)
    ensures Restarts(Split(flags), Enabled(flags, id)) <==> !Holds(flags, id)
    ensures Restarts(Split(flags), Disabled(flags, id)) <==> Holds(flags, id)
  {
    EditsAreExact(flags, id);
    var (e, d, f) := (multiset(Split(Enabled(flags, id))), multiset(Split(Disabled(flags, id))), multiset(Split(flags)));
    assert e[id] > 0 && d[id] == 0 && (f[id] > 0 <==> Holds(flags, id));
  }
}
