/**
 * The authoritative zone store: lookups, management edits, RFC 2136 updates and the
 * invariant that every committed edit keeps.
 */
module Zones {
  import opened Names
  import opened Messages
  import opened Seqs

  const RCODE_NOERROR: nat := 0
  const RCODE_FORMERR: nat := 1
  const RCODE_SERVFAIL: nat := 2
  const RCODE_NXDOMAIN: nat := 3
  const RCODE_YXDOMAIN: nat := 6
  const RCODE_YXRRSET: nat := 7
  const RCODE_NXRRSET: nat := 8
  const RCODE_NOTAUTH: nat := 9

  type Store = map<DnsName, seq<Record>>

  datatype Zone = Zone(origin: DnsName, soa: Record, count: nat, records: Store)

  function Type(r: Record): nat { RType(r.rdata) }

  predicate IsSoa(r: Record) { Type(r) == TYPE_SOA }

  function Without(rs: seq<Record>, t: nat): seq<Record> { Filter(rs, r => Type(r) != t) }

  // -------------------------------------------------------------- invariant

  /** Owners lie under the origin and are not empty; the only SOA is the apex one, equal to `soa`. */
  ghost predicate StoreOk(origin: DnsName, soa: Record, records: Store) {
    && origin in records
    && Type(soa) == TYPE_SOA && soa.name == origin
    && Filter(records[origin], IsSoa) == [soa]
    && (forall o :: o in records ==> NodeOk(origin, o, records[o]))
  }

  ghost predicate NodeOk(origin: DnsName, o: DnsName, node: seq<Record>) {
    && EndsWith(o, origin)
    && node != []
    && (forall r :: r in node ==> r.name == o && (IsSoa(r) ==> o == origin))
  }

  ghost predicate ZoneOk(z: Zone) { StoreOk(z.origin, z.soa, z.records) && z.count == Total(z.records) }

  // ----------------------------------------------------------------- edits

  datatype Edited = Edited(ok: bool, zone: Zone)

  /** Set, or with no records remove, the node of `o`. */
  function SetNode(m: Store, o: DnsName, node: seq<Record>): Store {
    if node == [] then m - {o} else m[o := node]
  }

  ghost function Recounted(z: Zone): Zone { z.(count := Total(z.records)) }

  function Node(m: Store, o: DnsName): seq<Record> { if o in m then m[o] else [] }

  function NewRecords(name: DnsName, ttl: nat, contents: seq<RData>): seq<Record> {
    seq(|contents|, i requires 0 <= i < |contents| => Record(name, CLASS_IN, ttl, contents[i]))
  }

  predicate HasType(node: seq<Record>, t: nat) { exists r :: r in node && Type(r) == t }

  predicate HasOther(node: seq<Record>, t: nat) { exists r :: r in node && Type(r) != t }

  /**
   * `replace_rrset` once the type code is known and the contents have been read. A refused SOA or
   * CNAME edit leaves behind what it had already written: the new `soa`, or an empty node.
   */
  ghost function Replace(z: Zone, name: DnsName, code: nat, ttl: nat, contents: seq<RData>): Edited {
    var made := NewRecords(name, ttl, contents);
    if !EndsWith(name, z.origin) || contents == [] then Edited(false, z)
    else if code == TYPE_SOA && (name != z.origin || |made| != 1) then Edited(false, z)
    else
      var z1 := if code == TYPE_SOA then z.(soa := made[0]) else z;
      var node := Node(z1.records, name);
      var z2 := z1.(records := z1.records[name := node]);
      if code == TYPE_CNAME && HasOther(node, code) then Edited(false, z2)
      else if code != TYPE_CNAME && HasType(node, TYPE_CNAME) then Edited(false, z2)
      else if |made| > 1 && code == TYPE_CNAME then Edited(false, z2)
      else Edited(true, Recounted(z2.(records := z2.records[name := Without(node, code) + made])))
  }

  /** `delete_rrset`. */
  ghost function Delete(z: Zone, name: DnsName, code: nat): Edited {
    if code == TYPE_SOA then Edited(false, z)
    else if name in z.records then
      Edited(true, Recounted(z.(records := SetNode(z.records, name, Without(z.records[name], code)))))
    else Edited(true, Recounted(z))
  }

  function RefreshSoa(node: seq<Record>, made: Record): seq<Record> {
    seq(|node|, i requires 0 <= i < |node| => if IsSoa(node[i]) then made else node[i])
  }

  /** `bump_serial`: wrapping increment, written to the field and to the apex copy. */
  function Bump(z: Zone): Zone {
    if !z.soa.rdata.SoaData? then z
    else
      var s := z.soa.rdata.soa;
      var made := z.soa.(rdata := SoaData(s.(serial := (s.serial + 1) % U32)));
      var z1 := z.(soa := made);
      if z.origin in z.records
      then z1.(records := z.records[z.origin := RefreshSoa(z.records[z.origin], made)])
      else z1
  }

  function Serial(z: Zone): nat { if z.soa.rdata.SoaData? then z.soa.rdata.soa.serial else 0 }

  // ------------------------------------------------- RFC 2136 dynamic update

  predicate SameRr(r: Record, u: Record) { Type(r) == Type(u) && r.rdata == u.rdata }

  predicate HasRr(node: seq<Record>, u: Record) { exists r :: r in node && SameRr(r, u) }

  /** The rcode of one prerequisite, NOERROR when it holds. */
  function Prereq(z: Zone, p: Record): nat {
    if !EndsWith(p.name, z.origin) then RCODE_NOTAUTH
    else
      var exists_ := p.name in z.records;
      var node := Node(z.records, p.name);
      if p.class_ == CLASS_ANY then
        if Type(p) != TYPE_ANY then if HasType(node, Type(p)) then RCODE_NOERROR else RCODE_NXRRSET
        else if exists_ then RCODE_NOERROR else RCODE_NXDOMAIN
      else if p.class_ == CLASS_NONE then
        if Type(p) != TYPE_ANY then if HasType(node, Type(p)) then RCODE_YXRRSET else RCODE_NOERROR
        else if exists_ then RCODE_YXDOMAIN else RCODE_NOERROR
      else if p.class_ == CLASS_IN then if HasRr(node, p) then RCODE_NOERROR else RCODE_NXRRSET
      else RCODE_FORMERR
  }

  function Prereqs(z: Zone, ps: seq<Record>): nat {
    if ps == [] then RCODE_NOERROR
    else if Prereq(z, ps[0]) != RCODE_NOERROR then Prereq(z, ps[0])
    else Prereqs(z, ps[1..])
  }

  /** The first equal record gets the new TTL. */
  function RefreshTtl(node: seq<Record>, u: Record): seq<Record> {
    if node == [] then []
    else if SameRr(node[0], u) then [node[0].(ttl := u.ttl)] + node[1..]
    else [node[0]] + RefreshTtl(node[1..], u)
  }

  function AddRr(node: seq<Record>, u: Record): seq<Record> {
    if HasRr(node, u) then RefreshTtl(node, u) else node + [u]
  }

  predicate KnownClass(u: Record) { u.class_ == CLASS_IN || u.class_ == CLASS_ANY || u.class_ == CLASS_NONE }

  /** The node of `u.name` after one update record of a known class. */
  function UpdatedNode(origin: DnsName, node: seq<Record>, u: Record): seq<Record> {
    if u.class_ == CLASS_IN then AddRr(node, u)
    else if u.class_ == CLASS_ANY then
      if Type(u) == TYPE_ANY then
        if u.name == origin then Filter(node, r => Type(r) == TYPE_SOA || Type(r) == TYPE_NS) else []
      else if u.name == origin && Type(u) == TYPE_SOA then node
      else Without(node, Type(u))
    else Filter(node, r => !SameRr(r, u))
  }

  function UpdateOne(origin: DnsName, m: Store, u: Record): Store {
    SetNode(m, u.name, UpdatedNode(origin, Node(m, u.name), u))
  }

  /** The update loop: stops with FORMERR at a record of unknown class, keeping what it had done. */
  function Updates(origin: DnsName, m: Store, us: seq<Record>): (nat, Store)
    decreases |us|
  {
    if us == [] then (RCODE_NOERROR, m)
    else if !KnownClass(us[0]) then (RCODE_FORMERR, m)
    else Updates(origin, UpdateOne(origin, m, us[0]), us[1..])
  }

  /** `apply_update`: rcode and the zone it leaves. */
  ghost function ApplyUpdate(z: Zone, prereqs: seq<Record>, us: seq<Record>): (nat, Zone) {
    var rc := Prereqs(z, prereqs);
    if rc != RCODE_NOERROR then (rc, z)
    else if exists u :: u in us && !EndsWith(u.name, z.origin) then (RCODE_NOTAUTH, z)
    else
      var (rc2, m) := Updates(z.origin, z.records, us);
      (rc2, if rc2 == RCODE_NOERROR then Recounted(z.(records := m)) else z.(records := m))
  }

  /** No update record adds or deletes an individual SOA. */
  predicate NoSoaEdit(us: seq<Record>) {
    forall u :: u in us && IsSoa(u) ==> u.class_ != CLASS_IN && u.class_ != CLASS_NONE
  }

  // ------------------------------------------------------ invariant is kept

  lemma NodeOkFilter(origin: DnsName, o: DnsName, node: seq<Record>, p: Record -> bool)
    requires NodeOk(origin, o, node) && Filter(node, p) != []
    ensures NodeOk(origin, o, Filter(node, p))
  {
    FilterIn(node, p);
  }

  /** Changing one node keeps the store in order when the new node is, and keeps the apex SOA. */
  lemma SetNodeOk(origin: DnsName, soa: Record, m: Store, o: DnsName, node: seq<Record>)
    requires StoreOk(origin, soa, m)
    requires node != [] ==> NodeOk(origin, o, node)
    requires o == origin ==> Filter(node, IsSoa) == [soa]
    ensures StoreOk(origin, soa, SetNode(m, o, node))
  {
    hide NodeOk;
    assert o == origin ==> node != [];
  }

  lemma SoaSurvives(node: seq<Record>, p: Record -> bool, soa: Record)
    requires Filter(node, IsSoa) == [soa]
    requires forall r :: r in node && IsSoa(r) ==> p(r)
    ensures Filter(Filter(node, p), IsSoa) == [soa]
  {
    FilterTwice(node, p, IsSoa, IsSoa);
  }

  lemma ReplaceKeeps(z: Zone, name: DnsName, code: nat, ttl: nat, contents: seq<RData>)
    requires ZoneOk(z)
    requires forall rd :: rd in contents ==> RType(rd) == code
    ensures var e := Replace(z, name, code, ttl, contents);
      e.ok ==> ZoneOk(e.zone) && e.zone.origin == z.origin
  {
    hide NodeOk, StoreOk, Filter, HasOther, HasType, EndsWith;
    var made := NewRecords(name, ttl, contents);
    var e := Replace(z, name, code, ttl, contents);
    if e.ok {
      var node := Node(z.records, name);
      ReplacedNode(z, name, code, node, made);
      StoreSoa(z.origin, z.soa, z.records);
      if name == z.origin {
        ReplacedSoa(z.soa, code, node, made);
      }
      assert e.zone.records == z.records[name := Without(node, code) + made];
      StorePut(z.origin, z.soa, e.zone.soa, z.records, name, Without(node, code) + made);
    }
  }

  lemma StoreSoa(origin: DnsName, soa: Record, m: Store)
    requires StoreOk(origin, soa, m)
    ensures origin in m && Type(soa) == TYPE_SOA && soa.name == origin && Filter(m[origin], IsSoa) == [soa]
  {
  }

  lemma ReplacedSoa(soa: Record, code: nat, node: seq<Record>, made: seq<Record>)
    requires Filter(node, IsSoa) == [soa] && forall r :: r in made ==> Type(r) == code
    requires code == TYPE_SOA ==> |made| == 1
    ensures Filter(Without(node, code) + made, IsSoa) == [if code == TYPE_SOA then made[0] else soa]
  {
    if code == TYPE_SOA {
      assert made == [made[0]];
      SoaReplaced(node, made[0]);
    } else {
      SoaSurvives(node, r => Type(r) != code, soa);
      FilterAppend(Without(node, code), made, IsSoa);
      FilterNone(made, IsSoa);
      assert [soa] + [] == [soa];
    }
  }

  lemma StorePut(origin: DnsName, soa: Record, soa': Record, m: Store, o: DnsName, node: seq<Record>)
    requires StoreOk(origin, soa, m) && NodeOk(origin, o, node)
    requires Type(soa') == TYPE_SOA && soa'.name == origin && (o != origin ==> soa' == soa)
    requires o == origin ==> Filter(node, IsSoa) == [soa']
    ensures StoreOk(origin, soa', m[o := node])
  {
    hide NodeOk;
  }

  lemma ReplacedNode(z: Zone, name: DnsName, code: nat, node: seq<Record>, made: seq<Record>)
    requires ZoneOk(z) && EndsWith(name, z.origin) && node == Node(z.records, name) && made != []
    requires forall r :: r in made ==> r.name == name && Type(r) == code
    requires code == TYPE_SOA ==> name == z.origin
    ensures NodeOk(z.origin, name, Without(node, code) + made)
  {
    FilterIn(node, r => Type(r) != code);
    assert name in z.records ==> NodeOk(z.origin, name, z.records[name]);
  }

  lemma SoaReplaced(node: seq<Record>, made: Record)
    requires IsSoa(made)
    ensures Filter(Without(node, TYPE_SOA) + [made], IsSoa) == [made]
  {
    var kept := Without(node, TYPE_SOA);
    FilterIn(node, r => Type(r) != TYPE_SOA);
    FilterNone(kept, IsSoa);
    FilterAppend(kept, [made], IsSoa);
    assert [] + [made] == [made];
  }

  lemma DeleteKeeps(z: Zone, name: DnsName, code: nat)
    requires ZoneOk(z)
    ensures var e := Delete(z, name, code);
      e.ok ==> ZoneOk(e.zone) && e.zone.origin == z.origin
  {
    if code != TYPE_SOA && name in z.records {
      var node := z.records[name];
      assert NodeOk(z.origin, name, node);
      if Without(node, code) != [] {
        NodeOkFilter(z.origin, name, node, r => Type(r) != code);
      }
      if name == z.origin {
        SoaSurvives(node, r => Type(r) != code, z.soa);
      }
      SetNodeOk(z.origin, z.soa, z.records, name, Without(node, code));
    }
  }

  lemma {:induction false} RefreshSoaFilter(node: seq<Record>, made: Record, k: nat)
    requires IsSoa(made) && |Filter(node, IsSoa)| == k
    ensures Filter(RefreshSoa(node, made), IsSoa) == seq(k, _ => made)
    decreases |node|
  {
    if node != [] {
      var rest := RefreshSoa(node[1..], made);
      var head := if IsSoa(node[0]) then made else node[0];
      assert RefreshSoa(node, made) == [head] + rest;
      assert RefreshSoa(node, made)[1..] == rest;
      RefreshSoaFilter(node[1..], made, |Filter(node[1..], IsSoa)|);
    }
  }

  lemma {:induction false} TotalSame(a: Store, b: Store)
    requires a.Keys == b.Keys && forall k :: k in a ==> |a[k]| == |b[k]|
    ensures Total(a) == Total(b)
    decreases a.Keys
  {
    if a.Keys != {} {
      var k :| k in a.Keys;
      TotalRemove(a, k);
      TotalRemove(b, k);
      TotalSame(a - {k}, b - {k});
    }
  }

  lemma BumpedNode(origin: DnsName, soa: Record, node: seq<Record>, made: Record)
    requires NodeOk(origin, origin, node) && Filter(node, IsSoa) == [soa]
    requires IsSoa(made) && made.name == origin
    ensures NodeOk(origin, origin, RefreshSoa(node, made)) && Filter(RefreshSoa(node, made), IsSoa) == [made]
    ensures |RefreshSoa(node, made)| == |node|
  {
    RefreshSoaFilter(node, made, 1);
    var node' := RefreshSoa(node, made);
    assert node'[0] in node';
    assert seq(1, _ => made) == [made];
  }

  /** Bumping keeps the invariant and advances the serial by one, modulo 2^32. */
  lemma BumpKeeps(z: Zone)
    requires ZoneOk(z)
    ensures ZoneOk(Bump(z)) && Bump(z).origin == z.origin
    ensures z.soa.rdata.SoaData? ==> Serial(Bump(z)) == (Serial(z) + 1) % U32
  {
    hide NodeOk, Filter, RefreshSoa;
    if z.soa.rdata.SoaData? {
      var z' := Bump(z);
      var node := z.records[z.origin];
      assert NodeOk(z.origin, z.origin, node);
      BumpedNode(z.origin, z.soa, node, z'.soa);
      StorePut(z.origin, z.soa, z'.soa, z.records, z.origin, RefreshSoa(node, z'.soa));
      TotalSame(z.records, z'.records);
    }
  }

  lemma {:induction false} RefreshTtlSame(node: seq<Record>, u: Record)
    ensures var n := RefreshTtl(node, u);
      |n| == |node| && forall i :: 0 <= i < |node| ==> n[i].name == node[i].name && n[i].rdata == node[i].rdata
    ensures !IsSoa(u) ==> Filter(RefreshTtl(node, u), IsSoa) == Filter(node, IsSoa)
    decreases |node|
  {
    if node != [] && !SameRr(node[0], u) {
      RefreshTtlSame(node[1..], u);
    } else if node != [] {
      var n := RefreshTtl(node, u);
      assert n[1..] == node[1..];
    }
  }

  lemma AddRrOk(origin: DnsName, o: DnsName, node: seq<Record>, u: Record)
    requires EndsWith(o, origin) && u.name == o && !IsSoa(u)
    requires forall r :: r in node ==> r.name == o && (IsSoa(r) ==> o == origin)
    ensures NodeOk(origin, o, AddRr(node, u)) && Filter(AddRr(node, u), IsSoa) == Filter(node, IsSoa)
  {
    if HasRr(node, u) {
      RefreshTtlSame(node, u);
      var n := RefreshTtl(node, u);
      forall r | r in n ensures r.name == o && (IsSoa(r) ==> o == origin) {
        var i :| 0 <= i < |n| && n[i] == r;
        assert node[i] in node;
      }
    } else {
      FilterAppend(node, [u], IsSoa);
      assert Filter([u], IsSoa) == [];
      assert Filter(node, IsSoa) + [] == Filter(node, IsSoa);
    }
  }

  lemma UpdateOneKeeps(origin: DnsName, soa: Record, m: Store, u: Record)
    requires StoreOk(origin, soa, m) && KnownClass(u) && EndsWith(u.name, origin)
    requires IsSoa(u) ==> u.class_ == CLASS_ANY
    ensures StoreOk(origin, soa, UpdateOne(origin, m, u))
  {
    var node := Node(m, u.name);
    var node' := UpdatedNode(origin, node, u);
    assert u.name in m ==> NodeOk(origin, u.name, m[u.name]);
    if u.class_ == CLASS_IN {
      AddRrOk(origin, u.name, node, u);
    } else {
      UpdateDeleteOk(origin, soa, node, u);
    }
    SetNodeOk(origin, soa, m, u.name, node');
  }

  lemma UpdateDeleteOk(origin: DnsName, soa: Record, node: seq<Record>, u: Record)
    requires u.class_ != CLASS_IN && EndsWith(u.name, origin) && (IsSoa(u) ==> u.class_ == CLASS_ANY)
    requires node != [] ==> NodeOk(origin, u.name, node)
    requires u.name == origin ==> Filter(node, IsSoa) == [soa]
    ensures var node' := UpdatedNode(origin, node, u);
      && (node' != [] ==> NodeOk(origin, u.name, node'))
      && (u.name == origin ==> Filter(node', IsSoa) == [soa])
  {
    var p: Record -> bool :=
      if u.class_ == CLASS_ANY then
        if Type(u) == TYPE_ANY then r => Type(r) == TYPE_SOA || Type(r) == TYPE_NS
        else r => Type(r) != Type(u)
      else r => !SameRr(r, u);
    if u.name == origin {
      if !(u.class_ == CLASS_ANY && Type(u) == TYPE_SOA) {
        SoaSurvives(node, p, soa);
        NodeOkFilter(origin, u.name, node, p);
      }
    } else if node != [] && Filter(node, p) != [] {
      NodeOkFilter(origin, u.name, node, p);
    }
  }

  lemma {:induction false} UpdatesKeep(origin: DnsName, soa: Record, m: Store, us: seq<Record>)
    requires StoreOk(origin, soa, m) && NoSoaEdit(us)
    requires forall u :: u in us ==> EndsWith(u.name, origin)
    ensures StoreOk(origin, soa, Updates(origin, m, us).1)
    decreases |us|
  {
    hide StoreOk, UpdateOne, EndsWith;
    if us != [] && KnownClass(us[0]) {
      assert us[0] in us;
      UpdateOneKeeps(origin, soa, m, us[0]);
      UpdatesKeep(origin, soa, UpdateOne(origin, m, us[0]), us[1..]);
    }
  }

  lemma ApplyUpdateKeeps(z: Zone, prereqs: seq<Record>, us: seq<Record>)
    requires ZoneOk(z) && NoSoaEdit(us)
    ensures var (rc, z') := ApplyUpdate(z, prereqs, us);
      rc == RCODE_NOERROR ==> ZoneOk(z') && z'.origin == z.origin && z'.soa == z.soa
  {
    if Prereqs(z, prereqs) == RCODE_NOERROR && forall u :: u in us ==> EndsWith(u.name, z.origin) {
      UpdatesKeep(z.origin, z.soa, z.records, us);
    }
  }

  // ------------------------------------------- exactly which updates are safe

  /** The update records that would leave two SOAs, a stale one, or none. */
  predicate HarmsSoa(origin: DnsName, soa: Record, u: Record) {
    IsSoa(u) &&
    ((u.class_ == CLASS_IN && !(u.name == origin && u.rdata == soa.rdata && u.ttl == soa.ttl)) ||
     (u.class_ == CLASS_NONE && u.name == origin && u.rdata == soa.rdata))
  }

  lemma {:induction false} RefreshTtlNoop(node: seq<Record>, u: Record)
    requires forall r :: r in node && SameRr(r, u) ==> r.ttl == u.ttl
    ensures RefreshTtl(node, u) == node
    decreases |node|
  {
    if node != [] {
      if SameRr(node[0], u) {
        assert node[0] in node;
      } else {
        RefreshTtlNoop(node[1..], u);
      }
      assert node == [node[0]] + node[1..];
    }
  }

  /** One update record keeps the store invariant if and only if it does not harm the SOA. */
  lemma UpdateOneExact(origin: DnsName, soa: Record, m: Store, u: Record)
    requires StoreOk(origin, soa, m) && KnownClass(u) && EndsWith(u.name, origin)
    ensures StoreOk(origin, soa, UpdateOne(origin, m, u)) <==> !HarmsSoa(origin, soa, u)
  {
    hide StoreOk;
    if !IsSoa(u) || u.class_ == CLASS_ANY {
      UpdateOneKeeps(origin, soa, m, u);
    } else if u.class_ == CLASS_NONE {
      SoaDeleteExact(origin, soa, m, u);
    } else {
      SoaAddExact(origin, soa, m, u);
    }
  }

  /** A store whose apex no longer holds exactly the SOA is broken. */
  lemma StoreBroken(origin: DnsName, soa: Record, m: Store, o: DnsName, node: seq<Record>)
    requires o == origin && Filter(node, IsSoa) != [soa]
    ensures !StoreOk(origin, soa, SetNode(m, o, node))
  {
    hide NodeOk, Filter;
  }

  lemma NodeOf(origin: DnsName, soa: Record, m: Store, o: DnsName)
    requires StoreOk(origin, soa, m)
    ensures Node(m, o) != [] ==> NodeOk(origin, o, Node(m, o))
    ensures o == origin ==> Filter(Node(m, o), IsSoa) == [soa]
  {
    hide NodeOk, Filter;
  }

  lemma OnlySoa(node: seq<Record>, soa: Record)
    requires Filter(node, IsSoa) == [soa]
    ensures soa in node && IsSoa(soa) && forall r :: r in node && IsSoa(r) ==> r == soa
  {
    FilterIn(node, IsSoa);
    assert soa in [soa];
    assert forall r :: r in node && IsSoa(r) ==> r in [soa];
  }

  lemma SoaDeleteExact(origin: DnsName, soa: Record, m: Store, u: Record)
    requires StoreOk(origin, soa, m) && EndsWith(u.name, origin) && IsSoa(u) && u.class_ == CLASS_NONE
    ensures StoreOk(origin, soa, UpdateOne(origin, m, u)) <==> !HarmsSoa(origin, soa, u)
  {
    hide StoreOk, SetNode, Filter, EndsWith;
    var node := Node(m, u.name);
    NodeOf(origin, soa, m, u.name);
    var p := (r: Record) => !SameRr(r, u);
    if u.name == origin {
      OnlySoa(node, soa);
    }
    if HarmsSoa(origin, soa, u) {
      FilterIn(node, p);
      FilterIn(Filter(node, p), IsSoa);
      assert soa in [soa] && soa !in Filter(Filter(node, p), IsSoa);
      StoreBroken(origin, soa, m, u.name, Filter(node, p));
    } else {
      if u.name == origin {
        SoaSurvives(node, p, soa);
      }
      if node != [] && Filter(node, p) != [] {
        NodeOkFilter(origin, u.name, node, p);
      }
      FilterIn(node, p);
      SetNodeOk(origin, soa, m, u.name, Filter(node, p));
    }
  }

  lemma SoaAddExact(origin: DnsName, soa: Record, m: Store, u: Record)
    requires StoreOk(origin, soa, m) && EndsWith(u.name, origin) && IsSoa(u) && u.class_ == CLASS_IN
    ensures StoreOk(origin, soa, UpdateOne(origin, m, u)) <==> !HarmsSoa(origin, soa, u)
  {
    hide StoreOk, SetNode, Filter, EndsWith;
    var node := Node(m, u.name);
    NodeOf(origin, soa, m, u.name);
    if u.name == origin {
      OnlySoa(node, soa);
      if u.rdata == soa.rdata && u.ttl == soa.ttl {
        RefreshTtlNoop(node, u);
        SameNode(m, origin);
      } else if u.rdata == soa.rdata {
        SoaTtlBreaks(node, u, soa);
        StoreBroken(origin, soa, m, u.name, RefreshTtl(node, u));
      } else {
        FilterAppend(node, [u], IsSoa);
        FilterAll([u], IsSoa);
        StoreBroken(origin, soa, m, u.name, node + [u]);
      }
    } else {
      StrayBreaks(origin, soa, m, u, node);
    }
  }

  lemma SameNode(m: Store, o: DnsName)
    requires o in m && m[o] != []
    ensures SetNode(m, o, Node(m, o)) == m
  {
  }

  lemma StrayBreaks(origin: DnsName, soa: Record, m: Store, u: Record, node: seq<Record>)
    requires u.name != origin && IsSoa(u) && (node != [] ==> NodeOk(origin, u.name, node))
    ensures !StoreOk(origin, soa, SetNode(m, u.name, AddRr(node, u)))
  {
    assert forall r :: r in node ==> !SameRr(r, u);
    assert u in node + [u];
    assert !NodeOk(origin, u.name, node + [u]);
    assert SetNode(m, u.name, node + [u])[u.name] == node + [u];
  }

  /** Refreshing the TTL of the apex SOA leaves a copy that differs from the `soa` field. */
  lemma SoaTtlBreaks(node: seq<Record>, u: Record, soa: Record)
    requires Filter(node, IsSoa) == [soa] && IsSoa(u) && u.rdata == soa.rdata && u.ttl != soa.ttl
    ensures Filter(RefreshTtl(node, u), IsSoa) != [soa]
  {
    FilterIn(node, IsSoa);
    assert soa in [soa];
    RefreshTtlHits(node, u);
    FilterIn(RefreshTtl(node, u), IsSoa);
    var r :| r in RefreshTtl(node, u) && SameRr(r, u) && r.ttl == u.ttl;
    assert r in Filter(RefreshTtl(node, u), IsSoa) && r !in [soa];
  }

  lemma {:induction false} RefreshTtlHits(node: seq<Record>, u: Record)
    requires HasRr(node, u)
    ensures exists r :: r in RefreshTtl(node, u) && SameRr(r, u) && r.ttl == u.ttl
    decreases |node|
  {
    var n := RefreshTtl(node, u);
    if SameRr(node[0], u) {
      assert n[0] in n && SameRr(n[0], u);
    } else {
      RefreshTtlHits(node[1..], u);
      var r :| r in RefreshTtl(node[1..], u) && SameRr(r, u) && r.ttl == u.ttl;
      assert n[1..] == RefreshTtl(node[1..], u);
      assert r in n;
    }
  }

  // ------------------------------------------------------- a smallest zone

  const APEX: DnsName := [[97]]

  function TinySoa(serial: nat, minimum: nat): Record {
    Record(APEX, CLASS_IN, 0, SoaData(Soa(APEX, APEX, serial, 0, 0, 0, minimum)))
  }

  /** The zone `a.` with a SOA and some more records at its apex. */
  function Tiny(more: seq<Record>): Zone {
    Zone(APEX, TinySoa(7, 0), 1 + |more|, map[APEX := [TinySoa(7, 0)] + more])
  }

  lemma TinyOk(more: seq<Record>)
    requires forall r :: r in more ==> r.name == APEX && !IsSoa(r)
    ensures ZoneOk(Tiny(more))
  {
    var z := Tiny(more);
    FilterAppend([z.soa], more, IsSoa);
    FilterAll([z.soa], IsSoa);
    FilterNone(more, IsSoa);
    TotalRemove(z.records, APEX);
    assert z.records - {APEX} == map[];
    assert Total<DnsName, Record>(map[]) == 0;
  }

  /** The zone `a.` with a SOA at its apex and some records at one more name. */
  function Pair(owner: DnsName, node: seq<Record>): Zone {
    Zone(APEX, TinySoa(7, 0), 1 + |node|, map[APEX := [TinySoa(7, 0)], owner := node])
  }

  lemma PairOk(owner: DnsName, node: seq<Record>)
    requires owner != APEX && EndsWith(owner, APEX) && node != []
    requires forall r :: r in node ==> r.name == owner && !IsSoa(r)
    ensures ZoneOk(Pair(owner, node))
  {
    var z := Pair(owner, node);
    FilterAll([z.soa], IsSoa);
    TotalRemove(z.records, APEX);
    var rest := z.records - {APEX};
    TotalRemove(rest, owner);
    assert rest - {owner} == map[];
    assert Total<DnsName, Record>(map[]) == 0;
  }
}
