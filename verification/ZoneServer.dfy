/**
 * Zone edits as the server performs them: in place on a copy, then committed as a whole or dropped.
 */
module ZoneServer {
  import opened Bytes
  import opened Names
  import opened Messages
  import opened Seqs
  import opened Zones

  // ------------------------------------------------------------- one commit

  /** One rrset change of a management request; `None` marks text the readers refused. */
  datatype RrsetEdit =
    | ReplaceSet(name: DnsName, code: Option<nat>, ttl: nat, contents: seq<Option<RData>>)
    | DeleteSet(dname: DnsName, dcode: Option<nat>)
    | BadEdit

  datatype Request = Patch(edits: seq<RrsetEdit>) | Update(prereqs: seq<Record>, updates: seq<Record>)

  predicate AllRead(contents: seq<Option<RData>>) { forall c :: c in contents ==> c.Some? }

  function Unwrap(contents: seq<Option<RData>>): (r: seq<RData>)
    requires AllRead(contents)
    ensures |r| == |contents| && forall i :: 0 <= i < |r| ==> r[i] == contents[i].value
  {
    seq(|contents|, i requires 0 <= i < |contents| => assert contents[i] in contents; contents[i].value)
  }

  ghost function ApplyEdit(z: Zone, e: RrsetEdit): Edited {
    match e
    case BadEdit => Edited(false, z)
    case DeleteSet(name, code) => if code.None? then Edited(false, z) else Delete(z, name, code.value)
    case ReplaceSet(name, code, ttl, contents) =>
      if code.None? || !AllRead(contents) then Edited(false, z)
      else Replace(z, name, code.value, ttl, Unwrap(contents))
  }

  ghost function ApplyEdits(z: Zone, es: seq<RrsetEdit>): Edited
    decreases |es|
  {
    if es == [] then Edited(true, z)
    else
      var e := ApplyEdit(z, es[0]);
      if e.ok then ApplyEdits(e.zone, es[1..]) else e
  }

  /** What is published after a request: the edited zone with its serial bumped, or the old zone. */
  ghost function Commit(z: Zone, q: Request): Zone {
    match q
    case Patch(edits) =>
      var e := ApplyEdits(z, edits);
      if e.ok then Bump(e.zone) else z
    case Update(prereqs, updates) =>
      var (rc, z') := ApplyUpdate(z, prereqs, updates);
      if rc == RCODE_NOERROR then Bump(z') else z
  }

  /** Contents were read as the type they are stored under, and updates leave individual SOAs alone. */
  predicate Proper(q: Request) {
    match q
    case Patch(edits) => forall e :: e in edits ==> ProperEdit(e)
    case Update(_, updates) => NoSoaEdit(updates)
  }

  predicate ProperEdit(e: RrsetEdit) {
    e.ReplaceSet? && e.code.Some? ==>
      forall c :: c in e.contents && c.Some? ==> RType(c.value) == e.code.value
  }

  ghost function Run(z: Zone, qs: seq<Request>): Zone
    decreases |qs|
  {
    if qs == [] then z else Run(Commit(z, qs[0]), qs[1..])
  }

  lemma ApplyEditKeeps(z: Zone, e: RrsetEdit)
    requires ZoneOk(z) && ProperEdit(e)
    ensures ApplyEdit(z, e).ok ==> ZoneOk(ApplyEdit(z, e).zone) && ApplyEdit(z, e).zone.origin == z.origin
  {
    hide ZoneOk, Replace, Delete;
    match e {
      case BadEdit =>
      case DeleteSet(name, code) =>
        if code.Some? {
          DeleteKeeps(z, name, code.value);
        }
      case ReplaceSet(name, code, ttl, contents) =>
        if code.Some? && AllRead(contents) {
          var rds := Unwrap(contents);
          forall rd | rd in rds ensures RType(rd) == code.value {
            var i :| 0 <= i < |rds| && rds[i] == rd;
            assert contents[i] in contents;
          }
          ReplaceKeeps(z, name, code.value, ttl, rds);
        }
    }
  }

  lemma {:induction false} ApplyEditsKeep(z: Zone, es: seq<RrsetEdit>)
    requires ZoneOk(z) && forall e :: e in es ==> ProperEdit(e)
    ensures ApplyEdits(z, es).ok ==> ZoneOk(ApplyEdits(z, es).zone) && ApplyEdits(z, es).zone.origin == z.origin
    decreases |es|
  {
    hide ZoneOk, ApplyEdit, ProperEdit;
    if es != [] {
      assert es[0] in es;
      ApplyEditKeeps(z, es[0]);
      var e := ApplyEdit(z, es[0]);
      if e.ok {
        ApplyEditsKeep(e.zone, es[1..]);
      }
    }
  }

  lemma CommitKeeps(z: Zone, q: Request)
    requires ZoneOk(z) && Proper(q)
    ensures ZoneOk(Commit(z, q)) && Commit(z, q).origin == z.origin
  {
    hide ZoneOk, ApplyEdits, ApplyUpdate, Bump, NoSoaEdit, ProperEdit;
    match q {
      case Patch(edits) =>
        ApplyEditsKeep(z, edits);
        var e := ApplyEdits(z, edits);
        if e.ok {
          BumpKeeps(e.zone);
        }
      case Update(prereqs, updates) =>
        ApplyUpdateKeeps(z, prereqs, updates);
        var (rc, z') := ApplyUpdate(z, prereqs, updates);
        if rc == RCODE_NOERROR {
          BumpKeeps(z');
        }
    }
  }

  /** Over every sequence of requests, accepted or refused, the published zone keeps the store invariant. */
  lemma {:induction false} RunKeeps(z: Zone, qs: seq<Request>)
    requires ZoneOk(z) && forall q :: q in qs ==> Proper(q)
    ensures ZoneOk(Run(z, qs)) && Run(z, qs).origin == z.origin
    decreases |qs|
  {
    hide ZoneOk, Commit, Proper;
    if qs != [] {
      assert qs[0] in qs;
      CommitKeeps(z, qs[0]);
      RunKeeps(Commit(z, qs[0]), qs[1..]);
    }
  }

  /**
   * A refused replace is not harmless on the copy it ran on: two CNAMEs for a new name leave an
   * empty node behind. Only dropping the copy keeps the published zone in order.
   */
  lemma RefusedReplaceBreaks(z: Zone, name: DnsName, ttl: nat, a: DnsName, b: DnsName)
    requires ZoneOk(z) && EndsWith(name, z.origin) && name !in z.records
    ensures var e := Replace(z, name, TYPE_CNAME, ttl, [Cname(a), Cname(b)]);
      !e.ok && !ZoneOk(e.zone)
  {
    hide Total;
    var e := Replace(z, name, TYPE_CNAME, ttl, [Cname(a), Cname(b)]);
    assert |NewRecords(name, ttl, [Cname(a), Cname(b)])| == 2;
    assert e.zone.records[name] == [];
    assert !NodeOk(z.origin, name, e.zone.records[name]);
  }

  // ------------------------------------------------------- in-place store

  class LiveZone {
    var origin: DnsName
    var soa: Record
    var count: nat
    var records: Store

    ghost function View(): Zone
      reads this
    {
      Zone(origin, soa, count, records)
    }

    /** A copy of a zone value (`clone`). */
    constructor (z: Zone)
      ensures View() == z
    {
      origin, soa, count, records := z.origin, z.soa, z.count, z.records;
    }

    method Recount()
      modifies this`count
      ensures count == Total(records)
    {
      var left := records;
      var n := 0;
      while left.Keys != {}
        invariant n + Total(left) == Total(records)
        decreases left.Keys
      {
        var k :| k in left.Keys;
        TotalRemove(left, k);
        n := n + |left[k]|;
        left := left - {k};
      }
      count := n;
    }

    /** `delete_rrset`, once the type name is known. */
    method DeleteRrset(name: DnsName, code: nat) returns (ok: bool)
      modifies this
      ensures Edited(ok, View()) == Delete(old(View()), name, code)
    {
      hide Total, Without;
      if code == TYPE_SOA {
        return false;
      }
      if name in records {
        var node := Without(records[name], code);
        records := records[name := node];
        if node == [] {
          assert records - {name} == old(records) - {name};
          records := records - {name};
        }
      }
      Recount();
      ok := true;
    }

    /** `replace_rrset`, once the type name is known and the contents are read. */
    method ReplaceRrset(name: DnsName, code: nat, ttl: nat, contents: seq<RData>) returns (ok: bool)
      modifies this
      ensures Edited(ok, View()) == Replace(old(View()), name, code, ttl, contents)
    {
      hide Total, Without, NewRecords, HasOther, HasType, EndsWith;
      if !EndsWith(name, origin) || contents == [] {
        return false;
      }
      var made := NewRecords(name, ttl, contents);
      if code == TYPE_SOA {
        if name != origin || |made| != 1 {
          return false;
        }
        soa := made[0];
      }
      var node := Node(records, name);
      records := records[name := node];
      if code == TYPE_CNAME && HasOther(node, code) {
        return false;
      }
      if code != TYPE_CNAME && HasType(node, TYPE_CNAME) {
        return false;
      }
      if |made| > 1 && code == TYPE_CNAME {
        return false;
      }
      records := records[name := Without(node, code) + made];
      Recount();
      ok := true;
    }

    method BumpSerial()
      modifies this
      ensures View() == Bump(old(View()))
    {
      if !soa.rdata.SoaData? {
        return;
      }
      var s := soa.rdata.soa;
      soa := soa.(rdata := SoaData(s.(serial := (s.serial + 1) % U32)));
      if origin in records {
        records := records[origin := RefreshSoa(records[origin], soa)];
      }
    }

    /** `apply_update`: prerequisites, a scan of the owners, then the updates one by one. */
    method ApplyUpdateInPlace(prereqs: seq<Record>, us: seq<Record>) returns (rc: nat)
      modifies this
      ensures (rc, View()) == ApplyUpdate(old(View()), prereqs, us)
    {
      hide Total, Prereq, EndsWith, UpdatedNode, SetNode;
      var i := 0;
      ghost var z := View();
      while i < |prereqs|
        invariant i <= |prereqs| && View() == z
        invariant Prereqs(z, prereqs[i..]) == Prereqs(z, prereqs)
      {
        var p := Prereq(Zone(origin, soa, count, records), prereqs[i]);
        if p != RCODE_NOERROR {
          return p;
        }
        assert prereqs[i..][1..] == prereqs[i + 1..];
        i := i + 1;
      }
      i := 0;
      while i < |us|
        invariant i <= |us| && View() == z
        invariant forall j :: 0 <= j < i ==> EndsWith(us[j].name, origin)
      {
        if !EndsWith(us[i].name, origin) {
          assert us[i] in us;
          return RCODE_NOTAUTH;
        }
        i := i + 1;
      }
      i := 0;
      assert us[0..] == us;
      while i < |us|
        invariant i <= |us|
        invariant View() == z.(records := records)
        invariant Updates(origin, records, us[i..]) == Updates(z.origin, z.records, us)
      {
        var u := us[i];
        assert us[i..][0] == u && us[i..][1..] == us[i + 1..];
        if !KnownClass(u) {
          return RCODE_FORMERR;
        }
        records := SetNode(records, u.name, UpdatedNode(origin, Node(records, u.name), u));
        i := i + 1;
      }
      Recount();
      rc := RCODE_NOERROR;
    }
  }

  /** The first zone with the given origin, or the number of zones. */
  function IndexOf(zones: seq<Zone>, origin: DnsName): (k: nat)
    ensures k <= |zones| && (k < |zones| ==> zones[k].origin == origin)
    ensures forall i :: 0 <= i < k ==> zones[i].origin != origin
  {
    if zones == [] || zones[0].origin == origin then 0 else 1 + IndexOf(zones[1..], origin)
  }

  ghost predicate AllOk(zones: seq<Zone>) { forall i :: 0 <= i < |zones| ==> ZoneOk(zones[i]) }

  /** The published zones. */
  class Server {
    var zones: seq<Zone>

    constructor ()
      ensures zones == []
    {
      zones := [];
    }

    /** The commit part of `handle_update`: copy, apply, and publish only on NOERROR. */
    method HandleUpdate(origin: DnsName, prereqs: seq<Record>, updates: seq<Record>) returns (rc: nat)
      modifies this
      ensures var k := IndexOf(old(zones), origin);
        if k == |old(zones)| then rc == RCODE_NOTAUTH && zones == old(zones)
        else
          && rc == ApplyUpdate(old(zones)[k], prereqs, updates).0
          && zones == old(zones)[k := Commit(old(zones)[k], Update(prereqs, updates))]
      ensures rc != RCODE_NOERROR ==> zones == old(zones)
      ensures AllOk(old(zones)) && NoSoaEdit(updates) ==> AllOk(zones)
    {
      hide ZoneOk, ApplyUpdate, Bump, NoSoaEdit;
      var k := IndexOf(zones, origin);
      if k == |zones| {
        return RCODE_NOTAUTH;
      }
      if AllOk(zones) && NoSoaEdit(updates) {
        CommitKeeps(zones[k], Update(prereqs, updates));
      }
      var copy := new LiveZone(zones[k]);
      rc := copy.ApplyUpdateInPlace(prereqs, updates);
      if rc != RCODE_NOERROR {
        assert zones[k := zones[k]] == zones;
        return;
      }
      copy.BumpSerial();
      zones := zones[k := Zone(copy.origin, copy.soa, copy.count, copy.records)];
    }
  }
}
