/**
 * The change journal behind incremental transfer: a window of the last 64 serial-to-serial diffs of
 * each zone, and the chain of diffs that takes a client's serial to the current one.
 */
module Journals {
  import opened Bytes
  import opened Names
  import opened Messages
  import opened Seqs
  import opened Zones
  import opened Axfr
  import opened ZoneServer

  const JOURNAL_DEPTH: nat := 64

  datatype Diff = Diff(from: nat, to: nat, deleted: seq<Record>, added: seq<Record>)

  type Logs = map<DnsName, seq<Diff>>

  /** One call of `record`, with the order in which each of the two record maps was iterated. */
  datatype Edit = Edit(before: Zone, after: Zone, beforeOrder: seq<DnsName>, afterOrder: seq<DnsName>)

  ghost predicate Listed(e: Edit) {
    Lists(e.beforeOrder, e.before.records) && Lists(e.afterOrder, e.after.records)
  }

  predicate Changed(e: Edit) { Serial(e.before) != Serial(e.after) }

  function Missing(rs: seq<Record>, other: seq<Record>): seq<Record> { Filter(rs, (r: Record) => r !in other) }

  function DiffOf(e: Edit): Diff {
    var was := AllRecords(e.before, e.beforeOrder);
    var now := AllRecords(e.after, e.afterOrder);
    Diff(Serial(e.before), Serial(e.after), Missing(was, now), Missing(now, was))
  }

  function Log(logs: Logs, origin: DnsName): seq<Diff> { if origin in logs then logs[origin] else [] }

  function Window(ds: seq<Diff>): seq<Diff> {
    if |ds| <= JOURNAL_DEPTH then ds else ds[|ds| - JOURNAL_DEPTH..]
  }

  function RecordEdit(logs: Logs, e: Edit): Logs {
    if !Changed(e) then logs
    else logs[e.after.origin := Window(Log(logs, e.after.origin) + [DiffOf(e)])]
  }

  function History(es: seq<Edit>): Logs
    decreases |es|
  {
    if es == [] then map[] else RecordEdit(History(es[..|es| - 1]), es[|es| - 1])
  }

  // -------------------------------------------------------------- the chain

  function Find(log: seq<Diff>, serial: nat): (r: Option<Diff>)
    ensures r.Some? ==> r.value in log && r.value.from == serial
    ensures r.None? ==> forall d :: d in log ==> d.from != serial
  {
    if log == [] then None
    else if log[0].from == serial then Some(log[0])
    else Find(log[1..], serial)
  }

  function ChainFrom(log: seq<Diff>, serial: nat, current: nat, out: seq<Diff>): Option<seq<Diff>>
    requires |out| <= JOURNAL_DEPTH
    decreases JOURNAL_DEPTH - |out|
  {
    if serial == current then Some(out)
    else
      var d := Find(log, serial);
      if d.None? || |out| + 1 > JOURNAL_DEPTH then None
      else ChainFrom(log, d.value.to, current, out + [d.value])
  }

  function Chain(logs: Logs, origin: DnsName, from: nat, current: nat): Option<seq<Diff>> {
    if from == current then Some([])
    else if origin !in logs then None
    else ChainFrom(logs[origin], from, current, [])
  }

  /** A path of recorded diffs from one serial to another. */
  predicate Path(log: seq<Diff>, ds: seq<Diff>, from: nat, to: nat) {
    && (forall d :: d in ds ==> d in log)
    && Linked(ds)
    && (if ds == [] then from == to else ds[0].from == from && ds[|ds| - 1].to == to)
  }

  predicate Linked(ds: seq<Diff>) { forall k :: 0 < k < |ds| ==> ds[k - 1].to == ds[k].from }

  /** Whatever was recorded, a chain is a path of recorded diffs to the current serial, within the depth. */
  lemma {:induction false} ChainFromPath(log: seq<Diff>, start: nat, serial: nat, current: nat, out: seq<Diff>)
    requires |out| <= JOURNAL_DEPTH && Path(log, out, start, serial)
    ensures var r := ChainFrom(log, serial, current, out);
      r.Some? ==> Path(log, r.value, start, current) && |r.value| <= JOURNAL_DEPTH
    decreases JOURNAL_DEPTH - |out|
  {
    if serial != current {
      var d := Find(log, serial);
      if d.Some? && |out| + 1 <= JOURNAL_DEPTH {
        ChainFromPath(log, start, d.value.to, current, out + [d.value]);
      }
    }
  }

  class Journal {
    var zones: Logs

    constructor ()
      ensures zones == map[]
    {
      zones := map[];
    }

    method Record(e: Edit)
      modifies this
      ensures zones == RecordEdit(old(zones), e)
    {
      var from, to := Serial(e.before), Serial(e.after);
      if from == to {
        return;
      }
      var oldRecs := AllRecords(e.before, e.beforeOrder);
      var newRecs := AllRecords(e.after, e.afterOrder);
      var deleted := Missing(oldRecs, newRecs);
      var added := Missing(newRecs, oldRecs);
      var log := Log(zones, e.after.origin) + [Diff(from, to, deleted, added)];
      ghost var pushed := log;
      while |log| > JOURNAL_DEPTH
        invariant Window(log) == Window(pushed)
      {
        log := log[1..];
      }
      zones := zones[e.after.origin := log];
    }

    method GetChain(origin: DnsName, from: nat, current: nat) returns (r: Option<seq<Diff>>)
      ensures r == Chain(zones, origin, from, current)
      ensures r.Some? ==> Path(Log(zones, origin), r.value, from, current) && |r.value| <= JOURNAL_DEPTH
    {
      if from == current {
        return Some([]);
      }
      if origin !in zones {
        return None;
      }
      var log := zones[origin];
      ChainFromPath(log, from, from, current, []);
      var out := [];
      var serial := from;
      while serial != current
        invariant |out| <= JOURNAL_DEPTH
        invariant ChainFrom(log, serial, current, out) == ChainFrom(log, from, current, [])
        decreases JOURNAL_DEPTH - |out|
      {
        var i := 0;
        while i < |log| && log[i].from != serial
          invariant 0 <= i <= |log|
          invariant Find(log[i..], serial) == Find(log, serial)
        {
          i := i + 1;
        }
        if i == |log| {
          return None;
        }
        serial := log[i].to;
        out := out + [log[i]];
        if |out| > JOURNAL_DEPTH {
          return None;
        }
      }
      r := Some(out);
    }
  }

  // -------------------------------------------------- which chain is served

  /** Serial of the zone after `k` of the recorded edits. */
  function SerialAt(log: seq<Diff>, k: nat): nat
    requires k <= |log| && log != []
  {
    if k < |log| then log[k].from else log[k - 1].to
  }

  predicate Distinct(log: seq<Diff>)
    requires log != []
  {
    forall i, j :: 0 <= i < j <= |log| ==> SerialAt(log, i) != SerialAt(log, j)
  }

  lemma {:induction false} FindAt(log: seq<Diff>, k: nat)
    requires k < |log| && forall i :: 0 <= i < k ==> log[i].from != log[k].from
    ensures Find(log, log[k].from) == Some(log[k])
  {
    if k > 0 {
      assert log[0].from != log[k].from;
      assert log[1..][k - 1] == log[k];
      FindAt(log[1..], k - 1);
    }
  }

  lemma {:induction false} ChainFromAt(log: seq<Diff>, k: nat, out: seq<Diff>)
    requires log != [] && Linked(log) && Distinct(log) && |log| <= JOURNAL_DEPTH
    requires k <= |log| && |out| <= k
    ensures ChainFrom(log, SerialAt(log, k), SerialAt(log, |log|), out) == Some(out + log[k..])
    decreases |log| - k
  {
    if k < |log| {
      forall i | 0 <= i < k ensures log[i].from != log[k].from {
        assert SerialAt(log, i) != SerialAt(log, k);
      }
      FindAt(log, k);
      assert SerialAt(log, k) != SerialAt(log, |log|);
      assert log[k].to == SerialAt(log, k + 1);
      ChainFromAt(log, k + 1, out + [log[k]]);
      assert out + [log[k]] + log[k + 1..] == out + log[k..];
    } else {
      assert out + log[k..] == out;
    }
  }

  lemma ChainAt(logs: Logs, o: DnsName, k: nat)
    requires o in logs && logs[o] != [] && Linked(logs[o]) && Distinct(logs[o])
    requires k <= |logs[o]| <= JOURNAL_DEPTH
    ensures var log := logs[o]; Chain(logs, o, SerialAt(log, k), SerialAt(log, |log|)) == Some(log[k..])
  {
    var log := logs[o];
    if k < |log| {
      assert SerialAt(log, k) != SerialAt(log, |log|);
    }
    ChainFromAt(log, k, []);
    assert [] + log[k..] == log[k..];
  }

  lemma ChainNone(logs: Logs, o: DnsName, s: nat)
    requires o in logs && logs[o] != [] && forall k :: 0 <= k <= |logs[o]| ==> SerialAt(logs[o], k) != s
    ensures Chain(logs, o, s, SerialAt(logs[o], |logs[o]|)) == None
  {
    var log := logs[o];
    assert SerialAt(log, |log|) != s;
    forall d | d in log ensures d.from != s {
      var k :| 0 <= k < |log| && log[k] == d;
      assert SerialAt(log, k) != s;
    }
  }

  /** The serials are told apart exactly when every version in the log is served the diffs since it. */
  lemma ChainExact(logs: Logs, o: DnsName)
    requires o in logs && logs[o] != [] && Linked(logs[o]) && |logs[o]| <= JOURNAL_DEPTH
    ensures var log := logs[o];
      Distinct(log) <==>
      forall k :: 0 <= k <= |log| ==> Chain(logs, o, SerialAt(log, k), SerialAt(log, |log|)) == Some(log[k..])
  {
    var log := logs[o];
    if Distinct(log) {
      forall k | 0 <= k <= |log| ensures Chain(logs, o, SerialAt(log, k), SerialAt(log, |log|)) == Some(log[k..]) {
        ChainAt(logs, o, k);
      }
    } else {
      var i, j :| 0 <= i < j <= |log| && SerialAt(log, i) == SerialAt(log, j);
      assert |log[i..]| != |log[j..]|;
    }
  }

  // ------------------------------------------------------------- the window

  /** The edits of one zone that reach its log. */
  function Recorded(es: seq<Edit>, o: DnsName): seq<Edit> {
    Filter(es, (e: Edit) => e.after.origin == o && Changed(e))
  }

  function Diffs(es: seq<Edit>): (r: seq<Diff>)
    ensures |r| == |es| && forall i :: 0 <= i < |es| ==> r[i] == DiffOf(es[i])
  {
    seq(|es|, i requires 0 <= i < |es| => DiffOf(es[i]))
  }

  lemma DiffsAppend(es: seq<Edit>, e: Edit)
    ensures Window(Diffs(es + [e])) == Window(Window(Diffs(es)) + [DiffOf(e)])
  {
    hide DiffOf;
    assert Diffs(es + [e]) == Diffs(es) + [DiffOf(e)];
  }

  /** The log of a zone is the last 64 diffs of its own edits, whatever happened to other zones. */
  lemma {:induction false} HistoryLog(es: seq<Edit>, o: DnsName)
    ensures Log(History(es), o) == Window(Diffs(Recorded(es, o)))
    ensures o in History(es) <==> Recorded(es, o) != []
    decreases |es|
  {
    hide DiffOf, Window, Changed;
    if es == [] {
      WindowNil();
    } else {
      var init, e := es[..|es| - 1], es[|es| - 1];
      assert es == init + [e];
      HistoryLog(init, o);
      FilterAppend(init, [e], (x: Edit) => x.after.origin == o && Changed(x));
      RecordedOne(e, o);
      assert Recorded(es, o) == Recorded(init, o) + Recorded([e], o);
      assert Recorded(init, o) + [] == Recorded(init, o);
      DiffsAppend(Recorded(init, o), e);
    }
  }

  lemma WindowNil()
    ensures Window(Diffs([])) == []
  {
  }

  lemma RecordedOne(e: Edit, o: DnsName)
    ensures Recorded([e], o) == if e.after.origin == o && Changed(e) then [e] else []
  {
    hide Changed;
    if e.after.origin == o && Changed(e) {
      FilterAll([e], (x: Edit) => x.after.origin == o && Changed(x));
    } else {
      FilterNone([e], (x: Edit) => x.after.origin == o && Changed(x));
    }
  }

  // ----------------------------------------------------------------- replay

  /** What a transfer of the zone carries, whatever the listing order. */
  ghost function RecordSet(z: Zone): set<Record> {
    {z.soa} + set o, r | o in z.records && r in z.records[o] && !IsSoa(r) :: r
  }

  function Elements(rs: seq<Record>): set<Record> { set r | r in rs }

  lemma {:induction false} NonSoaHas(m: Store, order: seq<DnsName>, o: DnsName, r: Record)
    requires o in order && r in Node(m, o) && !IsSoa(r)
    ensures r in NonSoa(m, order)
    decreases |order|
  {
    FilterIn(Node(m, order[0]), (x: Record) => Type(x) != TYPE_SOA);
    if o != order[0] {
      NonSoaHas(m, order[1..], o, r);
    }
  }

  lemma AllRecordsSet(z: Zone, order: seq<DnsName>)
    requires Lists(order, z.records)
    ensures Elements(AllRecords(z, order)) == RecordSet(z)
  {
    forall r ensures r in AllRecords(z, order) <==> r in RecordSet(z) {
      NonSoaIn(z.records, order, r);
      if r in RecordSet(z) && r != z.soa {
        var o :| o in z.records && r in z.records[o] && !IsSoa(r);
        NonSoaHas(z.records, order, o, r);
      }
    }
  }

  ghost function ApplyDiff(s: set<Record>, d: Diff): set<Record> { s - Elements(d.deleted) + Elements(d.added) }

  ghost function Replay(s: set<Record>, ds: seq<Diff>): set<Record>
    decreases |ds|
  {
    if ds == [] then s else Replay(ApplyDiff(s, ds[0]), ds[1..])
  }

  lemma DiffCarries(e: Edit)
    requires Listed(e)
    ensures ApplyDiff(RecordSet(e.before), DiffOf(e)) == RecordSet(e.after)
  {
    hide AllRecords, RecordSet, Serial;
    AllRecordsSet(e.before, e.beforeOrder);
    AllRecordsSet(e.after, e.afterOrder);
    var was, now := AllRecords(e.before, e.beforeOrder), AllRecords(e.after, e.afterOrder);
    FilterIn(was, (r: Record) => r !in now);
    FilterIn(now, (r: Record) => r !in was);
    var s, t := RecordSet(e.before), RecordSet(e.after);
    assert forall r :: r in was <==> r in Elements(was);
    assert forall r :: r in now <==> r in Elements(now);
    assert Elements(DiffOf(e).deleted) == s - t;
    assert Elements(DiffOf(e).added) == t - s;
  }

  /** Successive edits of one zone, each starting from what the one before published. */
  ghost predicate Consecutive(es: seq<Edit>) {
    && (forall e :: e in es ==> Listed(e))
    && (forall k :: 0 < k < |es| ==> es[k - 1].after == es[k].before)
  }

  function Last(es: seq<Edit>): Zone
    requires es != []
  {
    es[|es| - 1].after
  }

  lemma {:induction false} ReplayReaches(es: seq<Edit>)
    requires es != [] && Consecutive(es)
    ensures Replay(RecordSet(es[0].before), Diffs(es)) == RecordSet(Last(es))
    decreases |es|
  {
    hide RecordSet, DiffOf, Listed, ApplyDiff;
    assert es[0] in es;
    DiffCarries(es[0]);
    assert Diffs(es)[1..] == Diffs(es[1..]);
    if |es| == 1 {
      ReplayNone(RecordSet(Last(es)));
    } else {
      assert es[0].after == es[1].before;
      ReplayReaches(es[1..]);
    }
  }

  lemma ReplayNone(s: set<Record>)
    ensures Replay(s, Diffs([])) == s
  {
  }

  lemma ConsecutiveTail(es: seq<Edit>, k: nat)
    requires Consecutive(es) && k <= |es|
    ensures Consecutive(es[k..])
  {
    hide Listed;
    var t := es[k..];
    forall i | 0 < i < |t| ensures t[i - 1].after == t[i].before {
      assert es[k + i - 1].after == es[k + i].before;
    }
  }

  // ------------------------------------- runs in which each edit bumps once

  ghost predicate UnitSteps(es: seq<Edit>) {
    forall e :: e in es ==>
      Serial(e.before) < U32 && Serial(e.after) == (Serial(e.before) + 1) % U32
  }

  /** 32-bit wrapping subtraction. */
  function WrappingSub(a: nat, b: nat): (r: nat)
    requires a < U32 && b < U32
    ensures r < U32 && (r + b == a || r + b == a + U32)
  {
    if b <= a then a - b else a + U32 - b
  }

  /** How many bumps lie between two serials. */
  function Behind(from: nat, current: nat): nat
    requires from < U32 && current < U32
  {
    WrappingSub(current, from)
  }

  lemma {:induction false} SerialSteps(es: seq<Edit>, k: nat)
    requires es != [] && Consecutive(es) && UnitSteps(es) && k < |es| <= k + JOURNAL_DEPTH
    ensures Serial(Last(es)) < U32
    ensures Serial(es[k].before) == WrappingSub(Serial(Last(es)), |es| - k)
    decreases |es| - k
  {
    hide Serial, Listed;
    assert es[k] in es;
    if k + 1 < |es| {
      assert es[k].after == es[k + 1].before;
      SerialSteps(es, k + 1);
    }
  }

  lemma DiffSerials(e: Edit)
    ensures DiffOf(e).from == Serial(e.before) && DiffOf(e).to == Serial(e.after)
  {
  }

  lemma WindowLinked(es: seq<Edit>)
    requires es != [] && Consecutive(es)
    ensures var w := Window(Diffs(es)); w != [] && Linked(w) && SerialAt(w, |w|) == Serial(Last(es))
  {
    hide Serial, Listed, DiffOf, Window;
    var w := Window(Diffs(es));
    WindowIs(es);
    var lo := |es| - |w|;
    forall i | 0 < i < |w| ensures w[i - 1].to == w[i].from {
      assert w[i] == DiffOf(es[lo + i]) && w[i - 1] == DiffOf(es[lo + i - 1]);
      DiffSerials(es[lo + i]);
      DiffSerials(es[lo + i - 1]);
      assert es[lo + i - 1].after == es[lo + i].before;
    }
    DiffSerials(es[|es| - 1]);
  }

  lemma WindowAt(es: seq<Edit>, k: nat)
    requires es != [] && Consecutive(es) && UnitSteps(es)
    requires k <= |Window(Diffs(es))|
    ensures var w := Window(Diffs(es));
      && w != [] && Serial(Last(es)) < U32
      && SerialAt(w, k) == WrappingSub(Serial(Last(es)), |w| - k)
  {
    hide Serial, DiffOf, Window, Linked, UnitSteps, Consecutive;
    var w := Window(Diffs(es));
    WindowIs(es);
    var lo := |es| - |w|;
    WindowLinked(es);
    SerialSteps(es, |es| - 1);
    if k < |w| {
      assert w[k] == DiffOf(es[lo + k]);
      DiffSerials(es[lo + k]);
      SerialSteps(es, lo + k);
    }
  }

  lemma WindowDistinct(es: seq<Edit>)
    requires es != [] && Consecutive(es) && UnitSteps(es)
    ensures var w := Window(Diffs(es)); w != [] && Linked(w) && Distinct(w)
  {
    hide Window, SerialAt, Serial, Linked, UnitSteps, Consecutive;
    var w := Window(Diffs(es));
    WindowLinked(es);
    WindowIs(es);
    forall i, j | 0 <= i < j <= |w| ensures SerialAt(w, i) != SerialAt(w, j) {
      WindowAt(es, i);
      WindowAt(es, j);
    }
  }

  /**
   * Every client is told apart by its distance from the current serial: up to the window it gets
   * exactly the diffs since its version, and replaying them on that version's records gives the
   * current records; beyond it there is no chain.
   */
  lemma ReplayExact(es: seq<Edit>, o: DnsName, from: nat)
    requires var mine := Recorded(es, o); mine != [] && Consecutive(mine) && UnitSteps(mine)
    requires from < U32
    ensures Serial(Last(Recorded(es, o))) < U32
    ensures var mine := Recorded(es, o);
      var n := |mine|;
      var d := Behind(from, Serial(Last(mine)));
      var r := Chain(History(es), o, from, Serial(Last(mine)));
      if d <= n && d <= JOURNAL_DEPTH then
        && r == Some(Diffs(mine[n - d..]))
        && Replay(RecordSet(if d == 0 then Last(mine) else mine[n - d].before), r.value) == RecordSet(Last(mine))
      else r == None
  {
    hide DiffOf, RecordSet, Serial, History, Recorded, Window, SerialAt, Distinct, UnitSteps, Consecutive, Replay, Linked, Chain;
    var mine := Recorded(es, o);
    WindowAt(mine, 0);
    ServedExactly(es, o, from);
    var n, d := |mine|, Behind(from, Serial(Last(mine)));
    if d == 0 {
      assert mine[n..] == [];
      ReplayNone(RecordSet(Last(mine)));
    } else if d <= n {
      ConsecutiveTail(mine, n - d);
      ReplayReaches(mine[n - d..]);
    }
  }

  lemma ServedExactly(es: seq<Edit>, o: DnsName, from: nat)
    requires var mine := Recorded(es, o); mine != [] && Consecutive(mine) && UnitSteps(mine)
    requires from < U32
    ensures Serial(Last(Recorded(es, o))) < U32
    ensures var mine := Recorded(es, o);
      var n := |mine|;
      var d := Behind(from, Serial(Last(mine)));
      Chain(History(es), o, from, Serial(Last(mine))) ==
      if d <= n && d <= JOURNAL_DEPTH then Some(Diffs(mine[n - d..])) else None
  {
    hide DiffOf, Serial, History, Recorded, Window, SerialAt, Distinct, UnitSteps, Consecutive, Linked, Chain;
    var mine := Recorded(es, o);
    var logs := History(es);
    HistoryLog(es, o);
    WindowAt(mine, 0);
    if Behind(from, Serial(Last(mine))) <= |Window(Diffs(mine))| {
      ServedInside(logs, mine, o, from);
    } else {
      ServedOutside(logs, mine, o, from);
    }
    WindowIs(mine);
  }

  lemma {:induction false} ServedInside(logs: Logs, mine: seq<Edit>, o: DnsName, from: nat)
    requires mine != [] && Consecutive(mine) && UnitSteps(mine) && from < U32
    requires o in logs && logs[o] == Window(Diffs(mine))
    requires Serial(Last(mine)) < U32 && Behind(from, Serial(Last(mine))) <= |logs[o]|
    ensures var d := Behind(from, Serial(Last(mine)));
      d <= |mine| && Chain(logs, o, from, Serial(Last(mine))) == Some(Diffs(mine[|mine| - d..]))
  {
    hide DiffOf, Serial, Window, SerialAt, Distinct, UnitSteps, Consecutive, Linked, Chain, Diffs, Behind, WrappingSub;
    var d := Behind(from, Serial(Last(mine)));
    var w := logs[o];
    WindowDistinct(mine);
    WindowLinked(mine);
    WindowSize(mine);
    WindowAt(mine, |w| - d);
    BackFrom(from, Serial(Last(mine)));
    ChainAt(logs, o, |w| - d);
    WindowTail(mine, d);
  }

  lemma WindowSize(es: seq<Edit>)
    ensures |Window(Diffs(es))| <= JOURNAL_DEPTH
  {
    hide DiffOf;
  }

  lemma BackFrom(from: nat, current: nat)
    requires from < U32 && current < U32
    ensures Behind(from, current) < U32 && WrappingSub(current, Behind(from, current)) == from
  {
  }

  lemma WindowTail(es: seq<Edit>, d: nat)
    requires d <= |Window(Diffs(es))|
    ensures d <= |es|
    ensures var w := Window(Diffs(es)); w[|w| - d..] == Diffs(es[|es| - d..])
  {
    hide DiffOf;
  }

  lemma ServedOutside(logs: Logs, mine: seq<Edit>, o: DnsName, from: nat)
    requires mine != [] && Consecutive(mine) && UnitSteps(mine) && from < U32
    requires o in logs && logs[o] == Window(Diffs(mine))
    requires Serial(Last(mine)) < U32 && Behind(from, Serial(Last(mine))) > |logs[o]|
    ensures Chain(logs, o, from, Serial(Last(mine))) == None
  {
    hide DiffOf, Serial, Window, SerialAt, Distinct, UnitSteps, Consecutive, Linked, Chain, Diffs;
    WindowLinked(mine);
    var w := logs[o];
    forall k | 0 <= k <= |w| ensures SerialAt(w, k) != from {
      WindowIs(mine);
      WindowAt(mine, k);
    }
    ChainNone(logs, o, from);
  }

  lemma WindowIs(es: seq<Edit>)
    ensures var w := Window(Diffs(es));
      && |w| == (if |es| <= JOURNAL_DEPTH then |es| else JOURNAL_DEPTH)
      && w == Diffs(es)[|es| - |w|..]
  {
  }

  // ------------------------------------------------------- the server's runs

  /** A request that does not set the serial itself. */
  predicate KeepsSerial(q: Request) {
    && Proper(q)
    && (q.Patch? ==> forall e :: e in q.edits ==> !(e.ReplaceSet? && e.code == Some(TYPE_SOA)))
  }

  /** The journal calls of a run: one for each request, from what was published to what is published. */
  ghost predicate Journaled(z: Zone, qs: seq<Request>, es: seq<Edit>)
    decreases |qs|
  {
    if qs == [] then es == []
    else
      && es != []
      && es[0].before == z && es[0].after == Commit(z, qs[0]) && Listed(es[0])
      && Journaled(es[0].after, qs[1..], es[1..])
  }

  lemma {:induction false} EditsKeepSoa(z: Zone, edits: seq<RrsetEdit>)
    requires ApplyEdits(z, edits).ok
    requires forall e :: e in edits ==> !(e.ReplaceSet? && e.code == Some(TYPE_SOA))
    ensures ApplyEdits(z, edits).zone.soa == z.soa
    decreases |edits|
  {
    if edits != [] {
      assert edits[0] in edits;
      EditKeepsSoa(z, edits[0]);
      hide ApplyEdit;
      EditsKeepSoa(ApplyEdit(z, edits[0]).zone, edits[1..]);
    }
  }

  lemma EditKeepsSoa(z: Zone, e: RrsetEdit)
    requires !(e.ReplaceSet? && e.code == Some(TYPE_SOA))
    ensures ApplyEdit(z, e).zone.soa == z.soa
  {
    hide Unwrap, AllRead;
    if e.ReplaceSet? && e.code.Some? {
      assert e.code == Some(e.code.value);
    }
  }

  lemma CommitSteps(z: Zone, q: Request)
    requires ZoneOk(z) && z.soa.rdata.SoaData? && KeepsSerial(q)
    ensures Commit(z, q).soa.rdata.SoaData?
    ensures Commit(z, q) == z || Serial(Commit(z, q)) == (Serial(z) + 1) % U32
  {
    hide ApplyEdits, Updates, Prereqs, ProperEdit, NoSoaEdit, Total, NodeOk;
    match q {
      case Patch(edits) =>
        if ApplyEdits(z, edits).ok {
          EditsKeepSoa(z, edits);
        }
      case Update(_, _) =>
    }
  }

  /** A run's own edits are consecutive, step the serial by one and end at the published zone. */
  lemma {:induction false} RunSteps(z: Zone, qs: seq<Request>, es: seq<Edit>)
    requires ZoneOk(z) && z.soa.rdata.SoaData? && Serial(z) < U32
    requires forall q :: q in qs ==> KeepsSerial(q)
    requires Journaled(z, qs, es)
    ensures var mine := Recorded(es, z.origin);
      && Consecutive(mine) && UnitSteps(mine)
      && (if mine == [] then Run(z, qs) == z else mine[0].before == z && Last(mine) == Run(z, qs))
    decreases |qs|
  {
    hide ZoneOk, Commit, Proper, Listed, Serial, KeepsSerial, Recorded;
    if qs == [] {
      RecordedNil(z.origin);
    } else {
      assert qs[0] in qs;
      ProperOf(qs[0]);
      CommitKeeps(z, qs[0]);
      CommitSteps(z, qs[0]);
      var e := es[0];
      RunSteps(e.after, qs[1..], es[1..]);
      RecordedCons(es, z.origin);
      var rest := Recorded(es[1..], z.origin);
      if Changed(e) {
        forall k | 0 < k < |[e] + rest| ensures ([e] + rest)[k - 1].after == ([e] + rest)[k].before {
          if k > 1 {
            assert rest[k - 2].after == rest[k - 1].before;
          }
        }
      } else {
        Unstepped(z);
        assert e.after == z;
      }
    }
  }

  lemma Unstepped(z: Zone)
    requires Serial(z) < U32
    ensures Serial(z) != (Serial(z) + 1) % U32
  {
  }

  lemma ProperOf(q: Request)
    requires KeepsSerial(q)
    ensures Proper(q)
  {
  }

  lemma RecordedNil(o: DnsName)
    ensures Recorded([], o) == []
  {
  }

  lemma RecordedCons(es: seq<Edit>, o: DnsName)
    requires es != []
    ensures Recorded(es, o) ==
      (if es[0].after.origin == o && Changed(es[0]) then [es[0]] else []) + Recorded(es[1..], o)
  {
    hide Changed;
    var rest := Recorded(es[1..], o);
    assert [] + rest == rest;
  }

  /**
   * Over every run of the server from a sound zone, in any listing orders, a client at any serial is
   * served exactly the diffs between its version and the published one, or nothing when its version
   * is more than 64 edits back.
   */
  lemma RunReplays(z: Zone, qs: seq<Request>, es: seq<Edit>, from: nat)
    requires ZoneOk(z) && z.soa.rdata.SoaData? && Serial(z) < U32 && from < U32
    requires forall q :: q in qs ==> KeepsSerial(q)
    requires Journaled(z, qs, es)
    ensures Serial(Run(z, qs)) < U32
    ensures var mine := Recorded(es, z.origin);
      var now := Run(z, qs);
      var d := Behind(from, Serial(now));
      var r := Chain(History(es), z.origin, from, Serial(now));
      if d <= |mine| && d <= JOURNAL_DEPTH then
        && r == Some(Diffs(mine[|mine| - d..]))
        && Replay(RecordSet(if d == 0 then now else mine[|mine| - d].before), r.value) == RecordSet(now)
      else r == None
  {
    hide ZoneOk, KeepsSerial, Journaled, DiffOf, RecordSet, Serial, History, Recorded, Run, UnitSteps, Consecutive, Chain, Replay;
    RunSteps(z, qs, es);
    var mine := Recorded(es, z.origin);
    if mine != [] {
      ReplayExact(es, z.origin, from);
    } else {
      HistoryLog(es, z.origin);
      NoChain(History(es), z.origin, from, Serial(z));
      ReplayNone(RecordSet(z));
      SerialAgain(z, from);
      assert mine[0..] == [];
      assert Diffs([]) == [];
    }
  }

  lemma SerialAgain(z: Zone, from: nat)
    requires Serial(z) < U32 && from < U32
    ensures Behind(from, Serial(z)) == 0 <==> from == Serial(z)
  {
  }

  lemma NoChain(logs: Logs, o: DnsName, from: nat, current: nat)
    requires o !in logs
    ensures Chain(logs, o, from, current) == if from == current then Some([]) else None
  {
  }

  // ------------------------------------------------ RFC 1982 serial compare

  predicate SerialGt(a: nat, b: nat)
    requires a < U32 && b < U32
  {
    a != b && WrappingSub(a, b) < 0x8000_0000
  }

  lemma BehindSelf(serial: nat)
    requires serial < U32
    ensures Behind(serial, serial) == 0
  {
  }

  lemma BehindStep(from: nat, current: nat, n: nat)
    requires from < U32 && current < U32
    requires Behind((from + 1) % U32, current) == n % U32
    ensures Behind(from, current) == (n + 1) % U32
  {
    assert (n + 1) % U32 == if n % U32 + 1 == U32 then 0 else n % U32 + 1;
  }

  lemma {:induction false} SerialAfter(es: seq<Edit>, k: nat)
    requires es != [] && Consecutive(es) && UnitSteps(es) && k < |es|
    ensures Serial(Last(es)) < U32 && Serial(es[k].before) < U32
    ensures Behind(Serial(es[k].before), Serial(Last(es))) == (|es| - k) % U32
    decreases |es| - k
  {
    hide Serial, Listed, Behind;
    assert es[k] in es;
    BehindSelf(Serial(es[k].after));
    if k + 1 < |es| {
      assert es[k].after == es[k + 1].before;
      SerialAfter(es, k + 1);
      BehindStep(Serial(es[k].before), Serial(Last(es)), |es| - k - 1);
    } else {
      BehindStep(Serial(es[k].before), Serial(Last(es)), 0);
    }
  }

  /**
   * A secondary compares serials alone. After any number of edits it takes the primary for newer
   * exactly when the edits it lacks, counted modulo 2^32, are some but less than half of that.
   */
  lemma SecondaryNotices(es: seq<Edit>, k: nat)
    requires es != [] && Consecutive(es) && UnitSteps(es) && k < |es|
    ensures Serial(Last(es)) < U32 && Serial(es[k].before) < U32
    ensures SerialGt(Serial(Last(es)), Serial(es[k].before)) <==> 0 < (|es| - k) % U32 < 0x8000_0000
    ensures SerialGt(Serial(es[k].before), Serial(Last(es))) <==> (|es| - k) % U32 > 0x8000_0000
  {
    SerialAfter(es, k);
  }

  // --------------------------------------------------- a serial that comes back

  /** An edit that changes nothing, and one that sets the serial to two less. */
  function SetBack(): seq<Request> {
    [Patch([]), Patch([ReplaceSet(APEX, Some(TYPE_SOA), 0, [Some(TinySoa(6, 1).rdata)])])]
  }

  lemma FirstCommit()
    ensures var z := Tiny([]);
      Commit(z, SetBack()[0]) == z.(soa := TinySoa(8, 0), records := map[APEX := [TinySoa(8, 0)]])
  {
    var z := Tiny([]);
    assert [z.soa] + [] == [z.soa];
    assert RefreshSoa([z.soa], TinySoa(8, 0)) == [TinySoa(8, 0)];
  }

  lemma SecondCommit(z: Zone)
    requires z == Tiny([]).(soa := TinySoa(8, 0), records := map[APEX := [TinySoa(8, 0)]])
    ensures var now := Commit(z, SetBack()[1]); now.soa == TinySoa(7, 1) && now.origin == APEX
  {
    hide Total;
    var e := SetBack()[1].edits[0];
    var made := TinySoa(6, 1);
    assert EndsWith(APEX, APEX);
    assert Unwrap(e.contents) == [made.rdata] && NewRecords(APEX, 0, [made.rdata]) == [made];
    assert !HasType(Node(z.records, APEX), TYPE_CNAME);
    assert ApplyEdit(z, e).ok && ApplyEdit(z, e).zone.soa == made;
    assert SetBack()[1].edits[1..] == [];
    assert ApplyEdits(z, [e]) == ApplyEdits(ApplyEdit(z, e).zone, []);
  }

  /**
   * Two accepted requests bring the serial back while the SOA changed. The log holds both diffs but
   * its serials are not distinct, and a client at the first version is told it has everything.
   */
  lemma {:induction false} SerialComesBack(es: seq<Edit>)
    requires Journaled(Tiny([]), SetBack(), es)
    ensures var z := Tiny([]);
      var now := Run(z, SetBack());
      var log := Log(History(es), APEX);
      && Serial(now) == Serial(z) && RecordSet(now) != RecordSet(z)
      && log == [DiffOf(es[0]), DiffOf(es[1])] && Linked(log) && !Distinct(log)
      && Chain(History(es), APEX, Serial(z), Serial(now)) == Some([])
  {
    hide Commit, DiffOf, History, Recorded, Chain, Journaled, Tiny, TinySoa, SetBack, Run, RecordSet, Log, Distinct, Linked;
    var z := Tiny([]);
    BackAgain(es);
    TwoLogged(es);
    RecordSetsDiffer(z, Run(z, SetBack()));
    ChainHere(History(es), APEX, Serial(z));
  }

  lemma {:induction false} BackAgain(es: seq<Edit>)
    requires Journaled(Tiny([]), SetBack(), es)
    ensures var z, now := Tiny([]), Run(Tiny([]), SetBack());
      && |es| == 2 && es[0].before == z && es[1].before == es[0].after && es[1].after == now
      && es[0].after.origin == es[1].after.origin == APEX
      && Serial(z) == 7 && Serial(es[0].after) == 8 && Serial(now) == 7
      && IsSoa(z.soa) && IsSoa(now.soa) && z.soa != now.soa
  {
    hide Commit, Journaled, Run;
    var z := Tiny([]);
    FirstCommit();
    SecondCommit(Commit(z, SetBack()[0]));
    TwoSteps(z, es);
  }

  lemma {:induction false} TwoLogged(es: seq<Edit>)
    requires |es| == 2 && es[0].after.origin == es[1].after.origin == APEX && es[1].before == es[0].after
    requires Serial(es[0].before) == 7 && Serial(es[0].after) == 8 && Serial(es[1].after) == 7
    ensures var log := Log(History(es), APEX);
      log == [DiffOf(es[0]), DiffOf(es[1])] && Linked(log) && !Distinct(log)
  {
    hide DiffOf, History, Recorded;
    HistoryLog(es, APEX);
    TwoRecorded(es);
    DiffSerials(es[0]);
    DiffSerials(es[1]);
    var log := [DiffOf(es[0]), DiffOf(es[1])];
    assert SerialAt(log, 0) == 7 && SerialAt(log, 2) == 7;
  }

  lemma RecordSetsDiffer(a: Zone, b: Zone)
    requires IsSoa(a.soa) && IsSoa(b.soa) && a.soa != b.soa
    ensures RecordSet(a) != RecordSet(b)
  {
    assert a.soa in RecordSet(a) && a.soa !in RecordSet(b);
  }

  lemma {:induction false} TwoSteps(z: Zone, es: seq<Edit>)
    requires Journaled(z, SetBack(), es)
    ensures |es| == 2 && es[0].before == z && es[1].before == es[0].after
    ensures es[0].after == Commit(z, SetBack()[0]) && es[1].after == Commit(es[0].after, SetBack()[1])
    ensures Run(z, SetBack()) == es[1].after
  {
    hide Commit, Listed;
    var qs := SetBack();
    assert |qs| == 2 && qs[1..][0] == qs[1] && qs[1..][1..] == [];
    assert Journaled(es[0].after, qs[1..], es[1..]);
    assert Journaled(es[1].after, [], es[2..]) by { assert es[1..][1..] == es[2..]; }
    assert Run(es[0].after, qs[1..]) == es[1].after;
  }

  lemma {:induction false} TwoRecorded(es: seq<Edit>)
    requires |es| == 2 && Changed(es[0]) && Changed(es[1]) && es[0].after.origin == es[1].after.origin == APEX
    ensures Window(Diffs(Recorded(es, APEX))) == [DiffOf(es[0]), DiffOf(es[1])]
  {
    hide Changed, DiffOf;
    FilterAll(es, (e: Edit) => e.after.origin == APEX && Changed(e));
  }

  lemma ChainHere(logs: Logs, o: DnsName, serial: nat)
    ensures Chain(logs, o, serial, serial) == Some([])
  {
  }
}
