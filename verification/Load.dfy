/** `Zone::from_records`: exactly which record lists make a zone, and what zone they make. */
module Load {
  import opened Bytes
  import opened Names
  import opened Messages
  import opened Seqs
  import opened Zones

  datatype LoadError = Outside | SoaOwner | DuplicateSoa | NoSoa
  datatype Loaded = Loaded(zone: Zone) | Refused(why: LoadError)

  /** The loop state: the SOA seen, the map built and the number of records. */
  datatype Built = Built(soa: Option<Record>, records: Store, count: nat)

  const EMPTY: Built := Built(None, map[], 0)

  function AddRecord(b: Built, r: Record): Built {
    Built(if IsSoa(r) then Some(r) else b.soa, b.records[r.name := Node(b.records, r.name) + [r]], b.count + 1)
  }

  function Fault(origin: DnsName, b: Built, r: Record): Option<LoadError> {
    if !EndsWith(r.name, origin) then Some(Outside)
    else if IsSoa(r) && r.name != origin then Some(SoaOwner)
    else if IsSoa(r) && b.soa.Some? then Some(DuplicateSoa)
    else None
  }

  function AddAll(origin: DnsName, b: Built, all: seq<Record>): Loaded
    decreases |all|
  {
    if all == [] then
      if b.soa.None? then Refused(NoSoa) else Loaded(Zone(origin, b.soa.value, b.count, b.records))
    else match Fault(origin, b, all[0])
      case Some(e) => Refused(e)
      case None => AddAll(origin, AddRecord(b, all[0]), all[1..])
  }

  function FromRecords(origin: DnsName, all: seq<Record>): Loaded { AddAll(origin, EMPTY, all) }

  /** `from_records`: the loop. */
  method LoadRecords(origin: DnsName, all: seq<Record>) returns (r: Loaded)
    ensures r == FromRecords(origin, all)
  {
    hide AddRecord, Fault;
    var b := EMPTY;
    var i := 0;
    assert all[0..] == all;
    while i < |all|
      invariant i <= |all| && AddAll(origin, b, all[i..]) == FromRecords(origin, all)
    {
      assert all[i..][0] == all[i] && all[i..][1..] == all[i + 1..];
      var f := Fault(origin, b, all[i]);
      if f.Some? {
        return Refused(f.value);
      }
      b := AddRecord(b, all[i]);
      i := i + 1;
    }
    assert all[i..] == [];
    if b.soa.None? {
      return Refused(NoSoa);
    }
    r := Loaded(Zone(origin, b.soa.value, b.count, b.records));
  }

  function Named(all: seq<Record>, o: DnsName): seq<Record> { Filter(all, (r: Record) => r.name == o) }

  /** Every owner holds exactly its records, in list order. */
  ghost predicate Groups(m: Store, done: seq<Record>) {
    && (forall o :: Node(m, o) == Named(done, o))
    && (forall o :: o in m ==> m[o] != [])
  }

  ghost predicate InZone(origin: DnsName, done: seq<Record>) {
    forall r :: r in done ==> EndsWith(r.name, origin) && (IsSoa(r) ==> r.name == origin)
  }

  /** The map groups the records done so far; the SOA is the only one, and is remembered. */
  ghost predicate BuiltFrom(origin: DnsName, b: Built, done: seq<Record>) {
    && Groups(b.records, done)
    && InZone(origin, done)
    && Filter(done, IsSoa) == (if b.soa.Some? then [b.soa.value] else [])
    && b.count == |done| == Total(b.records)
  }

  lemma TotalPush(m: Store, o: DnsName, r: Record)
    ensures Total(m[o := Node(m, o) + [r]]) == Total(m) + 1
  {
    var m' := m[o := Node(m, o) + [r]];
    TotalRemove(m', o);
    if o in m {
      TotalRemove(m, o);
      assert m' - {o} == m - {o};
    } else {
      assert m' - {o} == m;
    }
  }

  lemma NamedPush(done: seq<Record>, r: Record, o: DnsName)
    ensures Named(done + [r], o) == if r.name == o then Named(done, o) + [r] else Named(done, o)
  {
    FilterAppend(done, [r], (x: Record) => x.name == o);
    assert Named([r], o) == if r.name == o then [r] else [];
    assert Named(done, o) + [] == Named(done, o);
  }

  lemma GroupsPush(m: Store, done: seq<Record>, r: Record)
    requires Groups(m, done)
    ensures Groups(m[r.name := Node(m, r.name) + [r]], done + [r])
  {
    hide Named;
    var m' := m[r.name := Node(m, r.name) + [r]];
    forall o ensures Node(m', o) == Named(done + [r], o) {
      NamedPush(done, r, o);
    }
  }

  lemma SoaPush(done: seq<Record>, r: Record)
    ensures Filter(done + [r], IsSoa) == Filter(done, IsSoa) + if IsSoa(r) then [r] else []
  {
    FilterAppend(done, [r], IsSoa);
    assert Filter([r], IsSoa) == if IsSoa(r) then [r] else [];
  }

  lemma BuiltPush(origin: DnsName, b: Built, done: seq<Record>, r: Record)
    requires BuiltFrom(origin, b, done) && Fault(origin, b, r).None?
    ensures BuiltFrom(origin, AddRecord(b, r), done + [r])
  {
    hide Total, Groups, EndsWith, Filter, Node;
    GroupsPush(b.records, done, r);
    TotalPush(b.records, r.name, r);
    SoaPush(done, r);
    assert Filter(done, IsSoa) + [] == Filter(done, IsSoa);
    assert [] + [r] == [r];
  }

  /** The list is accepted when everything is under the origin and there is exactly one SOA, at the origin. */
  predicate Loadable(origin: DnsName, all: seq<Record>) {
    && (forall r :: r in all ==> EndsWith(r.name, origin) && (IsSoa(r) ==> r.name == origin))
    && |Filter(all, IsSoa)| == 1
  }

  lemma {:induction false} AddAllExact(origin: DnsName, b: Built, done: seq<Record>, rest: seq<Record>)
    requires BuiltFrom(origin, b, done)
    ensures var r := AddAll(origin, b, rest);
      && (r.Loaded? <==> Loadable(origin, done + rest))
      && (r.Loaded? ==> r.zone.origin == origin &&
                        BuiltFrom(origin, Built(Some(r.zone.soa), r.zone.records, r.zone.count), done + rest))
    decreases |rest|
  {
    hide BuiltFrom, AddRecord, EndsWith;
    if rest == [] {
      assert done + [] == done;
      BuiltLoadable(origin, b, done);
    } else {
      var r := rest[0];
      assert done + rest == done + [r] + rest[1..];
      if Fault(origin, b, r).None? {
        BuiltPush(origin, b, done, r);
        AddAllExact(origin, AddRecord(b, r), done + [r], rest[1..]);
      } else {
        FaultUnloadable(origin, b, done, r, rest[1..]);
      }
    }
  }

  lemma BuiltLoadable(origin: DnsName, b: Built, done: seq<Record>)
    requires BuiltFrom(origin, b, done)
    ensures b.soa.Some? <==> Loadable(origin, done)
  {
    hide Named, EndsWith, Total;
  }

  lemma FaultUnloadable(origin: DnsName, b: Built, done: seq<Record>, r: Record, rest: seq<Record>)
    requires BuiltFrom(origin, b, done) && Fault(origin, b, r).Some?
    ensures !Loadable(origin, done + [r] + rest)
  {
    hide Named, EndsWith, Total;
    var all := done + [r] + rest;
    assert all[|done|] == r;
    assert r in all;
    if EndsWith(r.name, origin) && (IsSoa(r) ==> r.name == origin) {
      FilterAppend(done + [r], rest, IsSoa);
      FilterAppend(done, [r], IsSoa);
      assert Filter([r], IsSoa) == [r];
    }
  }

  /** `from_records` accepts exactly the loadable lists; the zone groups them by owner and is in order. */
  lemma FromRecordsExact(origin: DnsName, all: seq<Record>)
    ensures var r := FromRecords(origin, all);
      && (r.Loaded? <==> Loadable(origin, all))
      && (r.Loaded? ==>
            && r.zone.origin == origin && ZoneOk(r.zone) && r.zone.count == |all|
            && Filter(all, IsSoa) == [r.zone.soa]
            && forall o :: Node(r.zone.records, o) == Named(all, o))
  {
    hide BuiltFrom, AddAll, ZoneOk, Filter, Named, Node;
    BuiltEmpty(origin);
    AddAllExact(origin, EMPTY, [], all);
    assert [] + all == all;
    var r := FromRecords(origin, all);
    if r.Loaded? {
      BuiltOk(origin, r.zone, all);
    }
  }

  lemma BuiltEmpty(origin: DnsName)
    ensures BuiltFrom(origin, EMPTY, [])
  {
  }

  lemma GroupNode(origin: DnsName, m: Store, all: seq<Record>, o: DnsName)
    requires Groups(m, all) && InZone(origin, all) && o in m
    ensures NodeOk(origin, o, m[o])
  {
    hide EndsWith;
    assert m[o] == Node(m, o) == Named(all, o);
    FilterIn(all, (r: Record) => r.name == o);
    assert m[o][0] in m[o];
  }

  lemma GroupSoa(origin: DnsName, m: Store, all: seq<Record>, soa: Record)
    requires Groups(m, all) && InZone(origin, all) && Filter(all, IsSoa) == [soa]
    ensures origin in m && IsSoa(soa) && soa.name == origin && Filter(m[origin], IsSoa) == [soa]
  {
    hide EndsWith;
    OnlySoa(all, soa);
    assert Node(m, origin) == Named(all, origin);
    FilterIn(all, (r: Record) => r.name == origin);
    assert soa in Named(all, origin);
    FilterTwice(all, (r: Record) => r.name == origin, IsSoa, IsSoa);
  }

  lemma BuiltOk(origin: DnsName, z: Zone, all: seq<Record>)
    requires z.origin == origin && BuiltFrom(origin, Built(Some(z.soa), z.records, z.count), all)
    ensures ZoneOk(z) && z.count == |all| && Filter(all, IsSoa) == [z.soa]
    ensures forall o :: Node(z.records, o) == Named(all, o)
  {
    hide Total, Filter, NodeOk, InZone, Named;
    GroupSoa(origin, z.records, all, z.soa);
    forall o | o in z.records ensures NodeOk(origin, o, z.records[o]) {
      GroupNode(origin, z.records, all, o);
    }
  }
}
