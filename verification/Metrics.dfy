/** The metrics recorder: gauges kept by increments and decrements, and a vector with one health series per Addon. */
module Metrics {
  datatype Flags = Flags(available: bool, paused: bool)

  /** What one call reads from the Addon, with the reason that the AddonHealth argument supplies. */
  datatype Observation = Observation(
    uid: string,
    name: string,
    flags: Flags,
    condition: AvailableCondition,
    healthReason: string,
    observedVersion: string,
    deleting: bool)

  datatype AvailableCondition = Absent | IsTrue(trueReason: string) | IsFalse(falseReason: string) | IsUnknown(unknownReason: string)

  datatype Series = Series(name: string, version: string, reason: string, value: int)

  datatype Gauges = Gauges(entries: map<string, Flags>, total: int, available: int, paused: int, health: set<Series>)

  const NoGauges := Gauges(map[], 0, 0, 0, {})

  // ----- Specification: a recount -----

  datatype Gauge = Total | Available | Paused

  predicate Counts(g: Gauge, f: Flags) {
    match g
    case Total => true
    case Available => f.available
    case Paused => f.paused
  }

  function Counted(g: Gauge, m: map<string, Flags>): set<string> { set u | u in m && Counts(g, m[u]) }

  ghost predicate IsRecount(g: Gauges) {
    && g.total == |Counted(Total, g.entries)|
    && g.available == |Counted(Available, g.entries)|
    && g.paused == |Counted(Paused, g.entries)|
  }

  function SeriesNames(health: set<Series>): set<string> { set s | s in health :: s.name }

  /** Exactly one series for every name recorded. */
  ghost predicate OneSeriesPer(health: set<Series>, names: set<string>) {
    && SeriesNames(health) == names
    && (forall s, t :: s in health && t in health && s.name == t.name ==> s == t)
  }

  /** The entry that an observation leaves: it is dropped only when it was there before and the Addon is going. */
  function Entries(m: map<string, Flags>, o: Observation): map<string, Flags> {
    if o.uid in m && o.deleting then m - {o.uid} else m[o.uid := o.flags]
  }

  function SeriesOf(o: Observation): Series {
    var version := if o.observedVersion != "" then o.observedVersion else "0.0.0";
    match o.condition
    case Absent => Series(o.name, version, "Unknown", 2)
    case IsTrue(reason) => Series(o.name, version, reason, 1)
    case IsUnknown(reason) => Series(o.name, version, reason, 2)
    case IsFalse(reason) => Series(o.name, version, if |o.healthReason| > 0 then o.healthReason else reason, 0)
  }

  function HealthAfter(health: set<Series>, o: Observation): set<Series> {
    (set s | s in health && s.name != o.name) + {SeriesOf(o)}
  }

  // ----- Counting one entry more or less -----

  function Bit(b: bool): int { if b then 1 else 0 }

  lemma SetBit(s: set<string>, t: set<string>, u: string, b: bool)
    requires t == if b then s + {u} else s - {u}
    ensures |t| == |s| - Bit(u in s) + Bit(b)
  {
  }

  lemma SetEntry(g: Gauge, m: map<string, Flags>, u: string, f: Flags)
    ensures |Counted(g, m[u := f])| == |Counted(g, m)| - Bit(u in m && Counts(g, m[u])) + Bit(Counts(g, f))
  {
    SetBit(Counted(g, m), Counted(g, m[u := f]), u, Counts(g, f));
  }

  lemma DropEntry(g: Gauge, m: map<string, Flags>, u: string)
    requires u in m
    ensures |Counted(g, m - {u})| == |Counted(g, m)| - Bit(Counts(g, m[u]))
  {
    SetBit(Counted(g, m), Counted(g, m - {u}), u, false);
  }

  /** How much a gauge has to change when an observation comes in. */
  function Change(g: Gauge, m: map<string, Flags>, o: Observation): int {
    Bit(Counts(g, o.flags) && !(o.uid in m && o.deleting)) - Bit(o.uid in m && Counts(g, m[o.uid]))
  }

  lemma RecountChanges(g: Gauge, m: map<string, Flags>, o: Observation)
    ensures |Counted(g, Entries(m, o))| == |Counted(g, m)| + Change(g, m, o)
  {
    if o.uid in m && o.deleting { DropEntry(g, m, o.uid); } else { SetEntry(g, m, o.uid, o.flags); }
  }

  // ----- The recorder -----

  class Recorder {
    var conditionMap: map<string, Flags>
    var total: int
    var available: int
    var paused: int
    var addonHealthInfo: set<Series>

    function View(): Gauges
      reads this
    {
      Gauges(conditionMap, total, available, paused, addonHealthInfo)
    }

    constructor ()
      ensures View() == NoGauges
    {
      conditionMap, total, available, paused, addonHealthInfo := map[], 0, 0, 0, {};
    }

    method RecordAddonHealthInfo(o: Observation)
      modifies this`addonHealthInfo
      ensures addonHealthInfo == HealthAfter(old(addonHealthInfo), o)
    {
      var status, reason, version := 2, "Unknown", "0.0.0";
      match o.condition {
        case Absent =>
        case IsTrue(r) => reason, status := r, 1;
        case IsUnknown(r) => reason, status := r, 2;
        case IsFalse(r) =>
          reason, status := r, 0;
          if |o.healthReason| > 0 { reason := o.healthReason; }
      }
      if o.observedVersion != "" { version := o.observedVersion; }
      addonHealthInfo := set s | s in addonHealthInfo && s.name != o.name;
      addonHealthInfo := addonHealthInfo + {Series(o.name, version, reason, status)};
    }

    /** Increments and decrements of the gauges amount to a recount of the new entries. */
    method RecordAddonMetrics(o: Observation)
      requires IsRecount(View())
      modifies this
      ensures IsRecount(View())
      ensures conditionMap == Entries(old(conditionMap), o)
      ensures addonHealthInfo == HealthAfter(old(addonHealthInfo), o)
    {
      RecordAddonHealthInfo(o);
      RecountChanges(Total, conditionMap, o);
      RecountChanges(Available, conditionMap, o);
      RecountChanges(Paused, conditionMap, o);
      ReconcileGauges(o);
    }

    method MoveFlags(prev: Flags, curr: Flags)
      modifies this`available, this`paused
      ensures available == old(available) + Bit(curr.available) - Bit(prev.available)
      ensures paused == old(paused) + Bit(curr.paused) - Bit(prev.paused)
    {
      if prev.available != curr.available {
        if curr.available { available := available + 1; } else { available := available - 1; }
      }
      if prev.paused != curr.paused {
        if curr.paused { paused := paused + 1; } else { paused := paused - 1; }
      }
    }

    method ReconcileGauges(o: Observation)
      modifies this`conditionMap, this`total, this`available, this`paused
      ensures conditionMap == Entries(old(conditionMap), o)
      ensures total == old(total) + Change(Total, old(conditionMap), o)
      ensures available == old(available) + Change(Available, old(conditionMap), o)
      ensures paused == old(paused) + Change(Paused, old(conditionMap), o)
    {
      var curr := o.flags;
      if o.uid !in conditionMap {
        conditionMap := conditionMap[o.uid := curr];
        total := total + 1;
        if curr.available { available := available + 1; }
        if curr.paused { paused := paused + 1; }
        return;
      }
      var prev := conditionMap[o.uid];
      if prev != curr {
        MoveFlags(prev, curr);
        conditionMap := conditionMap[o.uid := curr];
      }
      assert conditionMap == old(conditionMap)[o.uid := curr];
      if o.deleting {
        total := total - 1;
        if curr.available { available := available - 1; }
        if curr.paused { paused := paused - 1; }
        conditionMap := conditionMap - {o.uid};
        assert conditionMap == old(conditionMap) - {o.uid};
      }
    }
  }

  /** Any sequence of calls on a new recorder keeps the gauges equal to a recount, and the entries and series are those
      that the observations determine. */
  method RecordAll(os: seq<Observation>) returns (g: Gauges)
    ensures IsRecount(g)
    ensures g.entries == EntriesAfter(os) && g.health == SeriesAfter(os)
    ensures g.total == |g.entries|
    ensures 0 <= g.available <= g.total && 0 <= g.paused <= g.total
  {
    var r := new Recorder();
    for k := 0 to |os|
      invariant IsRecount(r.View())
      invariant r.conditionMap == EntriesAfter(os[..k]) && r.addonHealthInfo == SeriesAfter(os[..k])
    {
      r.RecordAddonMetrics(os[k]);
      assert os[..k + 1][..k] == os[..k];
    }
    assert os[..|os|] == os;
    g := r.View();
    Bounds(g);
  }

  lemma Bounds(g: Gauges)
    requires IsRecount(g)
    ensures g.total == |g.entries|
    ensures 0 <= g.available <= g.total && 0 <= g.paused <= g.total
  {
    assert Counted(Total, g.entries) == g.entries.Keys;
    Subsets(Counted(Available, g.entries), g.entries.Keys);
    Subsets(Counted(Paused, g.entries), g.entries.Keys);
  }

  lemma {:induction false} Subsets(a: set<string>, b: set<string>)
    requires a <= b
    ensures |a| <= |b|
  {
    if a != {} {
      var x :| x in a;
      Subsets(a - {x}, b - {x});
    }
  }

  // ----- Sequences of observations -----

  function EntriesAfter(os: seq<Observation>): map<string, Flags> {
    if os == [] then map[] else Entries(EntriesAfter(os[..|os| - 1]), os[|os| - 1])
  }

  function SeriesAfter(os: seq<Observation>): set<Series> {
    if os == [] then {} else HealthAfter(SeriesAfter(os[..|os| - 1]), os[|os| - 1])
  }

  function Names(os: seq<Observation>): set<string> { set o | o in os :: o.name }

  lemma {:induction false} HealthSeriesAreUnique(os: seq<Observation>)
    ensures OneSeriesPer(SeriesAfter(os), Names(os))
  {
    if os != [] {
      var (m, o) := (os[..|os| - 1], os[|os| - 1]);
      HealthSeriesAreUnique(m);
      assert os == m + [o];
      assert Names(os) == Names(m) + {o.name};
      OneMoreSeries(SeriesAfter(m), Names(m), o);
    }
  }

  lemma OneMoreSeries(health: set<Series>, names: set<string>, o: Observation)
    requires OneSeriesPer(health, names)
    ensures OneSeriesPer(HealthAfter(health, o), names + {o.name})
  {
    var h := HealthAfter(health, o);
    forall n | n in names + {o.name} ensures n in SeriesNames(h) {
      if n == o.name { assert SeriesOf(o) in h; }
      else {
        var s :| s in health && s.name == n;
        assert s in h;
      }
    }
  }

  /** The series of a name is the one of its latest observation. */
  lemma {:induction false} HealthIsLatest(os: seq<Observation>, k: nat)
    requires k < |os| && forall j :: k < j < |os| ==> os[j].name != os[k].name
    ensures SeriesOf(os[k]) in SeriesAfter(os)
  {
    if k < |os| - 1 { HealthIsLatest(os[..|os| - 1], k); }
  }

  /** The one series of a name, by what the latest observation of it said: 0 for unavailable, 1 for available, 2 for
      unknown; the reason of an unavailable Addon is the one that its health supplies, if any. */
  lemma HealthExact(os: seq<Observation>, k: nat, s: Series)
    requires k < |os| && forall j :: k < j < |os| ==> os[j].name != os[k].name
    requires s in SeriesAfter(os) && s.name == os[k].name
    ensures s.version == if os[k].observedVersion == "" then "0.0.0" else os[k].observedVersion
    ensures os[k].condition.Absent? ==> s.value == 2 && s.reason == "Unknown"
    ensures os[k].condition.IsTrue? ==> s.value == 1 && s.reason == os[k].condition.trueReason
    ensures os[k].condition.IsUnknown? ==> s.value == 2 && s.reason == os[k].condition.unknownReason
    ensures os[k].condition.IsFalse? ==>
      s.value == 0 && s.reason == if os[k].healthReason == "" then os[k].condition.falseReason else os[k].healthReason
  {
    HealthSeriesAreUnique(os);
    HealthIsLatest(os, k);
    assert s == SeriesOf(os[k]);
  }

  // ----- Deletion -----

  /** How often, at the end of the sequence, the Addon was seen with a deletion timestamp. */
  function DeletionsSeen(os: seq<Observation>, uid: string): nat {
    if os == [] then 0
    else
      var (m, o) := (os[..|os| - 1], os[|os| - 1]);
      if o.uid != uid then DeletionsSeen(m, uid) else if o.deleting then DeletionsSeen(m, uid) + 1 else 0
  }

  predicate SeenAlive(os: seq<Observation>, uid: string) {
    exists o :: o in os && o.uid == uid && !o.deleting
  }

  /** The entry of an Addon under deletion is dropped and re-added by turns: an Addon once seen alive is counted
      exactly after an even number of deletion passes, one never seen alive after an odd number. */
  lemma {:induction false} EntryAlternates(os: seq<Observation>, uid: string)
    ensures uid in EntriesAfter(os) <==> (DeletionsSeen(os, uid) % 2 == 0) == SeenAlive(os, uid)
  {
    if os != [] {
      var (m, o) := (os[..|os| - 1], os[|os| - 1]);
      assert os == m + [o];
      EntryAlternates(m, uid);
      assert SeenAlive(os, uid) <==> SeenAlive(m, uid) || (o.uid == uid && !o.deleting);
    }
  }

  /** Once an Addon was seen alive, its last deletion pass leaves it uncounted exactly when the number of deletion
      passes was odd; with one pass, as the recorder expects, the count is right. */
  lemma CountedAfterDeletion(os: seq<Observation>, uid: string)
    requires SeenAlive(os, uid) && DeletionsSeen(os, uid) > 0
    ensures uid !in EntriesAfter(os) <==> DeletionsSeen(os, uid) % 2 == 1
  {
    EntryAlternates(os, uid);
  }

  /** An entry that is present shows the flags of the Addon's latest observation. */
  lemma {:induction false} EntryIsLatest(os: seq<Observation>, k: nat)
    requires k < |os| && forall j :: k < j < |os| ==> os[j].uid != os[k].uid
    ensures os[k].uid in EntriesAfter(os) ==> EntriesAfter(os)[os[k].uid] == os[k].flags
  {
    if k < |os| - 1 { EntryIsLatest(os[..|os| - 1], k); }
  }
}
