/**
 * Hashed authenticated denial (RFC 5155): the chain the signer builds, the closest-encloser records
 * it picks and what the validator accepts. The hash is a parameter.
 */
module Nsec3s {
  import opened Bytes
  import opened Names
  import opened Messages
  import opened Seqs
  import opened Zones
  import opened Orders
  import opened Bitmaps
  import opened Lookups
  import opened Base32
  import opened Nsecs

  datatype Params = Params(iterations: nat, salt: Bytes)

  type Hash = (DnsName, Params) -> Bytes

  // --------------------------------------------------------------- rdata form

  function Nsec3Rdata(p: Params, next: Bytes, types: seq<nat>): Bytes {
    [1, 0] + Be16(p.iterations) + [(|p.salt| % 256) as Byte] + p.salt + [(|next| % 256) as Byte] + next +
    BitmapField(types)
  }

  /** `parse_nsec3`, without the types, which no proof looks at. */
  function ParseNsec3(data: Bytes): Option<(Params, Bytes)> {
    if |data| < 5 then None
    else
      var at := 5 + data[4] as nat;
      if |data| <= at then None
      else
        var end := at + 1 + data[at] as nat;
        if |data| < end then None
        else Some((Params(Word(data, 2), data[5..at]), data[at + 1..end]))
  }

  predicate ParamsOk(p: Params) { p.iterations < 65536 && |p.salt| < 256 }

  // ----------------------------------------------------------- names as text

  const DOT: Byte := 46

  function Decimal(b: Byte): Bytes { [92, 48 + b / 100, 48 + b / 10 % 10, 48 + b % 10] }

  function EscapeByte(b: Byte): Bytes {
    if b == DOT then [92, DOT] else if 0x21 <= b <= 0x7E then [b] else Decimal(b)
  }

  function EscapeLabel(l: Label): Bytes { if l == [] then [] else EscapeByte(l[0]) + EscapeLabel(l[1..]) }

  function LabelsText(n: DnsName): Bytes {
    if n == [] then [] else EscapeLabel(n[0]) + [DOT] + LabelsText(n[1..])
  }

  /** The name in text form, with a final dot. */
  function ShowName(n: DnsName): (r: Bytes)
    ensures r != [] && r[|r| - 1] == DOT
  {
    if n == [] then [DOT] else EndsInDot(n); LabelsText(n)
  }

  lemma {:induction false} EndsInDot(n: DnsName)
    requires n != []
    ensures LabelsText(n) != [] && LabelsText(n)[|LabelsText(n)| - 1] == DOT
  {
    if |n| > 1 {
      EndsInDot(n[1..]);
    } else {
      assert LabelsText(n) == EscapeLabel(n[0]) + [DOT] + [];
    }
  }

  /** `split('.')`, holding the part read so far. */
  function SplitDots(s: Bytes, part: Bytes): seq<Bytes>
    decreases |s|
  {
    if s == [] then [part]
    else if s[0] == DOT then [part] + SplitDots(s[1..], [])
    else SplitDots(s[1..], part + [s[0]])
  }

  function LowerAll(ls: seq<Bytes>): (r: seq<Bytes>)
    ensures |r| == |ls| && forall i :: 0 <= i < |ls| ==> r[i] == Lower(ls[i])
  {
    seq(|ls|, i requires 0 <= i < |ls| => Lower(ls[i]))
  }

  /** `parse_str`: escapes are not undone. */
  function ParseText(s: Bytes): Option<DnsName> {
    var s := if s != [] && s[|s| - 1] == DOT then s[..|s| - 1] else s;
    if s == [] then Some([])
    else
      var n := LowerAll(SplitDots(s, []));
      if ValidName(n) then Some(n) else None
  }

  /** The owner of an NSEC3 record; `None` is the failed `unwrap`. */
  function OwnerName(hash: Bytes, apex: DnsName): Option<DnsName> {
    ParseText(Base32Hex(hash) + [DOT] + ShowName(apex))
  }

  // ------------------------------------------------------- the hashed label

  predicate Plain(s: Bytes) { forall b :: b in s ==> 48 <= b <= 57 || 97 <= b <= 118 }

  lemma {:induction false} DigitsPlain(data: Bytes, v: nat, n: nat)
    requires v < Pow2(n)
    ensures Plain(DigitsOf(data, v, n))
    decreases |data|, n
  {
    hide High, Low, Shift8;
    if n >= 5 {
      Pow2Add(n - 5, 5);
      DigitsPlain(data, Low(v, n - 5), n - 5);
    } else if data != [] {
      LoadOctet(v, n, data[0]);
      DigitsPlain(data[1..], Shift8(v, data[0]), n + 8);
      assert DigitsOf(data, v, n) == DigitsOf(data[1..], Shift8(v, data[0]), n + 8);
    } else if n > 0 {
      LastDigit(v, n);
    }
  }

  lemma {:induction false} SplitFirst(l: Bytes, part: Bytes, rest: Bytes)
    requires DOT !in l
    ensures SplitDots(l + [DOT] + rest, part) == [part + l] + SplitDots(rest, [])
  {
    var s := l + [DOT] + rest;
    if l == [] {
      assert s[1..] == rest && part + l == part;
    } else {
      assert s[0] == l[0] && s[1..] == l[1..] + [DOT] + rest;
      SplitFirst(l[1..], part + [l[0]], rest);
      assert part + [l[0]] + l[1..] == part + l;
    }
  }

  lemma PlainLower(s: Bytes)
    requires Plain(s)
    ensures Lower(s) == s && DOT !in s
  {
    forall i | 0 <= i < |s| ensures Lower(s)[i] == s[i] {
      assert s[i] in s;
    }
  }

  /** However the apex is escaped, the first label of an owner is the encoded hash. */
  lemma OwnerFirst(hash: Bytes, apex: DnsName)
    requires OwnerName(hash, apex).Some?
    ensures var o := OwnerName(hash, apex).value;
      o != [] && ValidName(o) && o[0] == Base32Hex(hash) && Base32HexDecode(o[0]) == Some(hash)
  {
    hide SplitDots, ShowName, DigitsOf, OctetsOf, ValidName;
    var l, t := Base32Hex(hash), ShowName(apex);
    Pow2Small();
    DigitsPlain(hash, 0, 0);
    PlainLower(l);
    var s := l + [DOT] + t;
    var cut := t[..|t| - 1];
    assert s[..|s| - 1] == l + [DOT] + cut;
    SplitFirst(l, [], cut);
    assert [] + l == l;
    Base32RoundTrip(hash);
  }

  /** A signed root zone never gets a chain. */
  lemma RootHasNoOwner(hash: Bytes)
    ensures OwnerName(hash, []).None?
  {
    hide DigitsOf, ValidName;
    var l := Base32Hex(hash);
    Pow2Small();
    DigitsPlain(hash, 0, 0);
    PlainLower(l);
    var s := l + [DOT] + [DOT];
    assert s[..|s| - 1] == l + [DOT] + [];
    SplitFirst(l, [], []);
    var n := LowerAll(SplitDots(l + [DOT] + [], []));
    assert n[1] == [];
    EmptyLabelInvalid(n, 1);
  }

  lemma EmptyLabelInvalid(n: DnsName, i: nat)
    requires i < |n| && n[i] == []
    ensures !ValidName(n)
  {
    assert !ValidLabel(n[i]);
  }

  // -------------------------------------------------------------- the chain

  type Hashed = (Bytes, seq<nat>)

  predicate HashedLe(a: Hashed, b: Hashed) { BytesLe(a.0, b.0) }

  /** `dedup_by` on the hash: the first of equal neighbours stays. */
  function DedupHashed(s: seq<Hashed>): seq<Hashed>
    decreases |s|
  {
    if |s| <= 1 then s
    else if s[0].0 == s[1].0 then DedupHashed([s[0]] + s[2..])
    else [s[0]] + DedupHashed(s[1..])
  }

  function Hashes(s: seq<Hashed>): seq<Bytes> { Map((h: Hashed) => h.0, s) }

  function HashAll(hash: Hash, owners: seq<(DnsName, seq<nat>)>, p: Params): seq<Hashed> {
    DedupHashed(Sort(HashedLe, Map((o: (DnsName, seq<nat>)) => (hash(o.0, p), o.1), owners)))
  }

  datatype Node3 = Node3(hash: Bytes, record: Record, sigs: seq<Record>)

  function NextHash(hs: seq<Hashed>, i: nat): Bytes
    requires i < |hs|
  {
    hs[if i + 1 == |hs| then 0 else i + 1].0
  }

  predicate Named(apex: DnsName, hs: seq<Hashed>) { forall i :: 0 <= i < |hs| ==> OwnerName(hs[i].0, apex).Some? }

  function MakeNode(
    owner: DnsName, hash: Bytes, next: Bytes, types: seq<nat>, p: Params, ttl: nat, sign: Record -> seq<Record>): Node3
  {
    var r := Record(owner, CLASS_IN, ttl, Unknown(TYPE_NSEC3, Nsec3Rdata(p, next, types)));
    Node3(hash, r, sign(r))
  }

  function NodeAt(apex: DnsName, hs: seq<Hashed>, p: Params, ttl: nat, sign: Record -> seq<Record>, i: nat): Node3
    requires i < |hs| && OwnerName(hs[i].0, apex).Some?
  {
    MakeNode(OwnerName(hs[i].0, apex).value, hs[i].0, NextHash(hs, i), hs[i].1, p, ttl, sign)
  }

  /** `build_chain` with the signatures attached; `None` where it panics. */
  function Chain3(apex: DnsName, hs: seq<Hashed>, p: Params, ttl: nat, sign: Record -> seq<Record>): (r: Option<seq<Node3>>)
    ensures r.Some? <==> Named(apex, hs)
    ensures r.Some? ==>
      |r.value| == |hs| && forall i :: 0 <= i < |hs| ==> r.value[i] == NodeAt(apex, hs, p, ttl, sign, i)
  {
    if Named(apex, hs) then Some(seq(|hs|, i requires 0 <= i < |hs| => NodeAt(apex, hs, p, ttl, sign, i))) else None
  }

  method BuildChain(
    hash: Hash, apex: DnsName, owners: seq<(DnsName, seq<nat>)>, p: Params, ttl: nat, sign: Record -> seq<Record>)
    returns (nodes: Option<seq<Node3>>)
    ensures nodes == Chain3(apex, HashAll(hash, owners, p), p, ttl, sign)
  {
    hide OwnerName, MakeNode, DedupHashed, Sort, NextHash;
    var hashed := Map((o: (DnsName, seq<nat>)) => (hash(o.0, p), o.1), owners);
    hashed := DedupHashed(Sort(HashedLe, hashed));
    var done: seq<Node3> := [];
    for i := 0 to |hashed|
      invariant |done| == i
      invariant forall k :: 0 <= k < i ==>
        OwnerName(hashed[k].0, apex).Some? && done[k] == NodeAt(apex, hashed, p, ttl, sign, k)
    {
      var next := hashed[(i + 1) % |hashed|].0;
      WrapsAround(hashed, i);
      var owner := OwnerName(hashed[i].0, apex);
      if owner.None? {
        return None;
      }
      done := done + [MakeNode(owner.value, hashed[i].0, next, hashed[i].1, p, ttl, sign)];
    }
    ghost var spec := Chain3(apex, hashed, p, ttl, sign);
    assert spec.Some? && done == spec.value;
    nodes := Some(done);
  }

  lemma WrapsAround(hs: seq<Hashed>, i: nat)
    requires i < |hs|
    ensures hs[(i + 1) % |hs|].0 == NextHash(hs, i)
  {
  }

  // ---------------------------------------------------------------- denying

  function Emit(n: Node3): seq<Record> { [n.record] + n.sigs }

  function EmitIf(n: Option<Node3>): seq<Record> { if n.Some? then Emit(n.value) else [] }

  function Matching(nodes: seq<Node3>, h: Bytes): (r: Option<Node3>)
    ensures r.Some? ==> r.value in nodes && r.value.hash == h
    ensures r.None? ==> forall n :: n in nodes ==> n.hash != h
  {
    if nodes == [] then None else if nodes[0].hash == h then Some(nodes[0]) else Matching(nodes[1..], h)
  }

  predicate BytesLt(a: Bytes, b: Bytes) { a != b && BytesLe(a, b) }

  /** Above the owner hash and up to the next one, or past either end when the record wraps. */
  predicate HashCovered(owner: Bytes, h: Bytes, next: Bytes) {
    if BytesLt(owner, next) then BytesLt(owner, h) && BytesLe(h, next)
    else BytesLt(owner, h) || BytesLe(h, next)
  }

  /** The next hash is read back from the record. */
  predicate NodeCovers(n: Node3, h: Bytes) {
    n.record.rdata.Unknown? &&
    match ParseNsec3(n.record.rdata.data)
    case None => false
    case Some((_, next)) => HashCovered(n.hash, h, next)
  }

  function Covering(nodes: seq<Node3>, h: Bytes): (r: Option<Node3>)
    ensures r.Some? ==> r.value in nodes && NodeCovers(r.value, h)
    ensures r.None? ==> forall n :: n in nodes ==> !NodeCovers(n, h)
  {
    if nodes == [] then None else if NodeCovers(nodes[0], h) then Some(nodes[0]) else Covering(nodes[1..], h)
  }

  /** The longest existing ancestor-or-self of `qname`, looking from `skip` labels up; the apex at last. */
  function ClosestEncloser(qname: DnsName, names: seq<DnsName>, apex: DnsName, skip: nat): DnsName
    decreases |qname| - skip
  {
    if |qname| - skip <= |apex| then apex
    else if qname[skip..] in names then qname[skip..]
    else ClosestEncloser(qname, names, apex, skip + 1)
  }

  function NextCloser(qname: DnsName, ce: DnsName): DnsName {
    if |qname| <= |ce| + 1 then qname else qname[|qname| - |ce| - 1..]
  }

  function PrependStar(n: DnsName): Option<DnsName> {
    if ValidName([STAR] + n) then Some([STAR] + n) else None
  }

  function DedupRecords(rs: seq<Record>, out: seq<Record>): (r: seq<Record>)
    ensures forall x :: x in r <==> x in rs || x in out
    decreases |rs|
  {
    if rs == [] then out
    else
      assert rs == [rs[0]] + rs[1..];
      DedupRecords(rs[1..], if rs[0] in out then out else out + [rs[0]])
  }

  function Nsec3Denial(
    hash: Hash, p: Params, nodes: seq<Node3>, names: seq<DnsName>, apex: DnsName, qname: DnsName, nxdomain: bool)
    : seq<Record>
  {
    if !nxdomain then EmitIf(Matching(nodes, hash(qname, p)))
    else
      var ce := ClosestEncloser(qname, names, apex, 0);
      var star := PrependStar(ce);
      DedupRecords(
        EmitIf(Matching(nodes, hash(ce, p))) +
        EmitIf(Covering(nodes, hash(NextCloser(qname, ce), p))) +
        (if star.Some? then EmitIf(Covering(nodes, hash(star.value, p))) else []), [])
  }

  // -------------------------------------------------------------- validating

  function ParamsOf(rs: seq<Record>): Option<Params> {
    if rs == [] then None
    else if rs[0].rdata.Unknown? && ParseNsec3(rs[0].rdata.data).Some? then Some(ParseNsec3(rs[0].rdata.data).value.0)
    else ParamsOf(rs[1..])
  }

  /** Owner hash, from the first label, and next hash. */
  function EntryOf(r: Record): Option<(Bytes, Bytes)> {
    if r.name == [] || Base32HexDecode(r.name[0]).None? then None
    else if !r.rdata.Unknown? || ParseNsec3(r.rdata.data).None? then None
    else Some((Base32HexDecode(r.name[0]).value, ParseNsec3(r.rdata.data).value.1))
  }

  predicate MatchesHash(rs: seq<Record>, h: Bytes) {
    exists r :: r in rs && EntryOf(r).Some? && EntryOf(r).value.0 == h
  }

  predicate CoversHash(rs: seq<Record>, h: Bytes) {
    exists r :: r in rs && EntryOf(r).Some? && HashCovered(EntryOf(r).value.0, h, EntryOf(r).value.1)
  }

  /** The closest-encloser test at one cut of the name. */
  predicate EnclosedAt(hash: Hash, p: Params, qname: DnsName, rs: seq<Record>, skip: nat)
    requires 0 < skip < |qname|
  {
    && ValidName(qname[skip..]) && MatchesHash(rs, hash(qname[skip..], p))
    && ValidName(qname[skip - 1..]) && CoversHash(rs, hash(qname[skip - 1..], p))
  }

  predicate Nsec3Proves(hash: Hash, qname: DnsName, rs: seq<Record>) {
    match ParamsOf(rs)
    case None => false
    case Some(p) =>
      || MatchesHash(rs, hash(qname, p))
      || exists skip | 0 < skip < |qname| :: EnclosedAt(hash, p, qname, rs, skip)
  }

  // ------------------------------------------------------------ the hash ring

  lemma RingCovers(hs: seq<Bytes>, h: Bytes, k: nat) returns (i: nat)
    requires StrictlySorted(BytesLe, hs) && hs != [] && k <= |hs|
    requires (forall j :: 0 <= j < k ==> BytesLt(hs[j], h)) && (k < |hs| ==> !BytesLt(hs[k], h))
    ensures i < |hs| && HashCovered(hs[i], h, hs[if i + 1 == |hs| then 0 else i + 1])
  {
    hide BytesLe;
    BytesLeTotal();
    i := if k > 0 then k - 1 else |hs| - 1;
    if i + 1 == |hs| {
      assert hs[0] == hs[i] || BytesLe(hs[0], hs[i]);
    }
  }

  function BelowCount(hs: seq<Bytes>, h: Bytes): (k: nat)
    ensures k <= |hs|
    ensures (forall j :: 0 <= j < k ==> BytesLt(hs[j], h)) && (k < |hs| ==> !BytesLt(hs[k], h))
  {
    if hs == [] || !BytesLt(hs[0], h) then 0 else 1 + BelowCount(hs[1..], h)
  }

  lemma {:induction false} HashesDedup(s: seq<Hashed>)
    ensures Hashes(DedupHashed(s)) == Dedup(Hashes(s))
    decreases |s|
  {
    if |s| > 1 {
      var hs := Hashes(s);
      if s[0].0 == s[1].0 {
        var t := [s[0]] + s[2..];
        HashesDedup(t);
        assert Hashes(t) == hs[1..];
      } else {
        HashesDedup(s[1..]);
        assert Hashes(s[1..]) == hs[1..];
        assert Hashes([s[0]] + DedupHashed(s[1..])) == [s[0].0] + Hashes(DedupHashed(s[1..]));
      }
    } else {
      assert Dedup(Hashes(s)) == Hashes(s);
    }
  }

  lemma HashedLePreorder()
    ensures TotalPreorder(HashedLe)
  {
    hide BytesLe;
    BytesLeTotal();
  }

  /** The chain's hashes are strictly increasing and are exactly the hashes of the owners. */
  lemma HashAllOk(hash: Hash, owners: seq<(DnsName, seq<nat>)>, p: Params)
    ensures var hs := Hashes(HashAll(hash, owners, p));
      && StrictlySorted(BytesLe, hs)
      && (forall h :: h in hs <==> exists o :: o in owners && hash(o.0, p) == h)
  {
    hide BytesLe, DedupHashed, Dedup, Sort, StrictlySorted, TotalPreorder, TotalOrder;
    HashedLePreorder();
    BytesLeTotal();
    var all := Map((o: (DnsName, seq<nat>)) => (hash(o.0, p), o.1), owners);
    var sorted := Sort(HashedLe, all);
    SortOrders(HashedLe, all);
    HashesDedup(sorted);
    assert Sorted(BytesLe, Hashes(sorted));
    DedupOk(BytesLe, Hashes(sorted));
    forall h ensures h in Hashes(sorted) <==> exists o :: o in owners && hash(o.0, p) == h {
      if h in Hashes(sorted) {
        var i :| 0 <= i < |sorted| && Hashes(sorted)[i] == h;
        assert sorted[i] in multiset(sorted);
        assert sorted[i] in all;
        var j :| 0 <= j < |all| && all[j] == sorted[i];
        assert owners[j] in owners && hash(owners[j].0, p) == h;
      }
      if o :| o in owners && hash(o.0, p) == h {
        var j :| 0 <= j < |owners| && owners[j] == o;
        assert all[j] in multiset(all);
        assert all[j] in sorted;
        var i :| 0 <= i < |sorted| && sorted[i] == all[j];
        assert Hashes(sorted)[i] == h;
      }
    }
  }

  // ------------------------------------------------- what the chain offers

  /** The types a name's NSEC3 record lists. */
  function TypesAt3(z: Zone, owner: DnsName): seq<nat> {
    var apex := owner == z.origin;
    Dedup(Sort(NatLe, Map(Type, Node(z.records, owner)) + (if apex then [TYPE_NSEC3PARAM] else []) + [TYPE_RRSIG] +
      (if apex then [TYPE_DNSKEY] else [])))
  }

  function OwnerTypes(z: Zone, owners: seq<DnsName>): seq<(DnsName, seq<nat>)> {
    Map((o: DnsName) => (o, TypesAt3(z, o)), owners)
  }

  /** The hashed chain of a zone, from any listing of its names. */
  function ZoneHashes(hash: Hash, z: Zone, names: seq<DnsName>, p: Params): seq<Hashed> {
    HashAll(hash, OwnerTypes(z, Owners(names)), p)
  }

  function ZoneChain(hash: Hash, z: Zone, names: seq<DnsName>, p: Params, sign: Record -> seq<Record>): Option<seq<Node3>> {
    Chain3(z.origin, ZoneHashes(hash, z, names, p), p, z.soa.ttl, sign)
  }

  lemma ZoneHashesOk(hash: Hash, z: Zone, names: seq<DnsName>, p: Params)
    requires ZoneOk(z) && NamesOf(names, z)
    ensures var hs := Hashes(ZoneHashes(hash, z, names, p));
      && StrictlySorted(BytesLe, hs) && hs != []
      && (forall h :: h in hs <==> exists o :: o in z.records && hash(o, p) == h)
  {
    hide BytesLe, HashAll, Owners, StrictlySorted, OwnerTypes, NameLe, Hashes;
    OwnersOk(z, names);
    var owners := Owners(names);
    HashAllOk(hash, OwnerTypes(z, owners), p);
    var hs := Hashes(ZoneHashes(hash, z, names, p));
    forall h ensures h in hs <==> exists o :: o in z.records && hash(o, p) == h {
      OwnerTypesHash(hash, z, owners, p, h);
    }
    assert z.origin in z.records;
    assert hash(z.origin, p) in hs;
  }

  lemma OwnerTypesHash(hash: Hash, z: Zone, owners: seq<DnsName>, p: Params, h: Bytes)
    ensures (exists e :: e in OwnerTypes(z, owners) && hash(e.0, p) == h) <==>
      exists o :: o in owners && hash(o, p) == h
  {
    hide TypesAt3;
    var ot := OwnerTypes(z, owners);
    if e :| e in ot && hash(e.0, p) == h {
      var j :| 0 <= j < |ot| && ot[j] == e;
      assert owners[j] in owners && hash(owners[j], p) == h;
    }
    if o :| o in owners && hash(o, p) == h {
      var j :| 0 <= j < |owners| && owners[j] == o;
      assert ot[j] in ot && hash(ot[j].0, p) == h;
    }
  }

  lemma {:induction false} DigitsCount(data: Bytes, v: nat, n: nat)
    requires v < Pow2(n)
    ensures 8 * |data| + n <= 5 * |DigitsOf(data, v, n)| < 8 * |data| + n + 5
    decreases |data|, n
  {
    hide High, Low, Shift8, Digit;
    if n >= 5 {
      Pow2Add(n - 5, 5);
      DigitsCount(data, Low(v, n - 5), n - 5);
    } else if data != [] {
      LoadOctet(v, n, data[0]);
      DigitsCount(data[1..], Shift8(v, data[0]), n + 8);
      assert DigitsOf(data, v, n) == DigitsOf(data[1..], Shift8(v, data[0]), n + 8);
    }
  }

  lemma NamedShort(hash: Bytes, apex: DnsName)
    requires OwnerName(hash, apex).Some?
    ensures |hash| < 256 && apex != []
  {
    hide OwnerName, DigitsOf;
    RootHasNoOwner(hash);
    OwnerFirst(hash, apex);
    var o := OwnerName(hash, apex).value;
    assert ValidLabel(o[0]);
    Pow2Small();
    DigitsCount(hash, 0, 0);
  }

  /** Every record of the chain reads back as its own hash, the next one and the parameters. */
  lemma NodeReads(apex: DnsName, hs: seq<Hashed>, p: Params, ttl: nat, sign: Record -> seq<Record>, i: nat)
    requires ParamsOk(p) && Named(apex, hs) && i < |hs|
    ensures var n := NodeAt(apex, hs, p, ttl, sign, i);
      && n.hash == hs[i].0 && n.sigs == sign(n.record) && Type(n.record) == TYPE_NSEC3
      && n.record.rdata.Unknown?
      && ParseNsec3(n.record.rdata.data) == Some((p, NextHash(hs, i)))
      && EntryOf(n.record) == Some((hs[i].0, NextHash(hs, i)))
  {
    hide OwnerName, BitmapField, Base32Hex, Base32HexDecode, ValidName;
    OwnerFirst(hs[i].0, apex);
    var j := if i + 1 == |hs| then 0 else i + 1;
    NamedShort(hs[j].0, apex);
    var next := NextHash(hs, i);
    var data := Nsec3Rdata(p, next, hs[i].1);
    var at := 5 + |p.salt|;
    assert data[2] == Be16(p.iterations)[0] && data[3] == Be16(p.iterations)[1];
    assert Word(data, 2) == p.iterations;
    assert data[4] as nat == |p.salt| && data[at] as nat == |next|;
    assert data[5..at] == p.salt;
    assert data[at + 1..at + 1 + |next|] == next;
  }

  /** Any node of a built chain is some position of the ring. */
  lemma NodeIndex(apex: DnsName, hs: seq<Hashed>, p: Params, ttl: nat, sign: Record -> seq<Record>, n: Node3)
    returns (i: nat)
    requires ParamsOk(p) && Named(apex, hs) && n in Chain3(apex, hs, p, ttl, sign).value
    ensures i < |hs| && n == NodeAt(apex, hs, p, ttl, sign, i)
    ensures n.hash == hs[i].0 && n.sigs == sign(n.record) && Type(n.record) == TYPE_NSEC3
    ensures n.record.rdata.Unknown? && ParseNsec3(n.record.rdata.data) == Some((p, NextHash(hs, i)))
    ensures EntryOf(n.record) == Some((hs[i].0, NextHash(hs, i)))
  {
    hide NodeAt, EntryOf, ParseNsec3, NextHash, Named;
    var nodes := Chain3(apex, hs, p, ttl, sign).value;
    i :| 0 <= i < |nodes| && nodes[i] == n;
    NodeReads(apex, hs, p, ttl, sign, i);
  }

  lemma MatchFound(apex: DnsName, hs: seq<Hashed>, p: Params, ttl: nat, sign: Record -> seq<Record>, h: Bytes)
    requires ParamsOk(p) && Named(apex, hs)
    ensures Matching(Chain3(apex, hs, p, ttl, sign).value, h).Some? <==> h in Hashes(hs)
  {
    hide OwnerName, MakeNode, NextHash;
    var nodes := Chain3(apex, hs, p, ttl, sign).value;
    if h in Hashes(hs) {
      var i :| 0 <= i < |hs| && Hashes(hs)[i] == h;
      assert nodes[i] in nodes;
      MakeHash(apex, hs, p, ttl, sign, i);
    }
    if Matching(nodes, h).Some? {
      var i :| 0 <= i < |nodes| && nodes[i] == Matching(nodes, h).value;
      MakeHash(apex, hs, p, ttl, sign, i);
      assert Hashes(hs)[i] == h;
    }
  }

  lemma MakeHash(apex: DnsName, hs: seq<Hashed>, p: Params, ttl: nat, sign: Record -> seq<Record>, i: nat)
    requires Named(apex, hs) && i < |hs|
    ensures NodeAt(apex, hs, p, ttl, sign, i).hash == hs[i].0
  {
  }

  /** Whatever the hash, some node covers it. */
  lemma CoverFound(apex: DnsName, hs: seq<Hashed>, p: Params, ttl: nat, sign: Record -> seq<Record>, h: Bytes)
    requires ParamsOk(p) && Named(apex, hs) && hs != [] && StrictlySorted(BytesLe, Hashes(hs))
    ensures Covering(Chain3(apex, hs, p, ttl, sign).value, h).Some?
  {
    hide OwnerName, NodeAt, ParseNsec3, BytesLe, HashCovered, EntryOf, StrictlySorted;
    var nodes := Chain3(apex, hs, p, ttl, sign).value;
    var i := RingCovers(Hashes(hs), h, BelowCount(Hashes(hs), h));
    NodeReads(apex, hs, p, ttl, sign, i);
    assert nodes[i] in nodes;
    assert NodeCovers(nodes[i], h);
  }

  // --------------------------------------------------------- the enclosing name

  lemma {:induction false} EncloserIs(qname: DnsName, names: seq<DnsName>, apex: DnsName, skip: nat) returns (k: nat)
    requires EndsWith(qname, apex) && apex in names && skip <= |qname| - |apex|
    ensures skip <= k <= |qname| - |apex| && ClosestEncloser(qname, names, apex, skip) == qname[k..]
    ensures qname[k..] in names && forall j :: skip <= j < k ==> qname[j..] !in names
    decreases |qname| - skip
  {
    if |qname| - skip <= |apex| || qname[skip..] in names {
      k := skip;
    } else {
      k := EncloserIs(qname, names, apex, skip + 1);
    }
  }

  // ------------------------------------------------------------- the results

  /** Records drawn from the chain, and only those, remain after the RRSIGs are set aside. */
  ghost predicate Drawn(rs: seq<Record>, nodes: seq<Node3>) {
    forall r :: r in rs ==> exists n :: n in nodes && n.record == r
  }

  lemma EmittedDrawn(n: Node3, nodes: seq<Node3>, x: Record)
    requires n in nodes && (forall s :: s in n.sigs ==> Type(s) == TYPE_RRSIG)
    requires x in Emit(n) && Type(x) == TYPE_NSEC3
    ensures exists m :: m in nodes && m.record == x
  {
  }

  function OnlyNsec3(rs: seq<Record>): seq<Record> { Filter(rs, (r: Record) => Type(r) == TYPE_NSEC3) }

  lemma {:induction false} ParamsFound(rs: seq<Record>, p: Params)
    requires rs != []
    requires forall r :: r in rs ==>
      r.rdata.Unknown? && ParseNsec3(r.rdata.data).Some? && ParseNsec3(r.rdata.data).value.0 == p
    ensures ParamsOf(rs) == Some(p)
  {
    assert rs[0] in rs;
  }

  /** A set of chain records proves what a match or a closest-encloser pair among them proves. */
  lemma DrawnRead(
    apex: DnsName, hs: seq<Hashed>, p: Params, ttl: nat, sign: Record -> seq<Record>, rs: seq<Record>)
    requires ParamsOk(p) && Named(apex, hs) && rs != []
    requires Drawn(rs, Chain3(apex, hs, p, ttl, sign).value)
    ensures ParamsOf(rs) == Some(p)
  {
    hide OwnerName, NodeAt, ParseNsec3, EntryOf, ParamsOf;
    forall r | r in rs
      ensures r.rdata.Unknown? && ParseNsec3(r.rdata.data).Some? && ParseNsec3(r.rdata.data).value.0 == p
    {
      var n :| n in Chain3(apex, hs, p, ttl, sign).value && n.record == r;
      var _ := NodeIndex(apex, hs, p, ttl, sign, n);
    }
    ParamsFound(rs, p);
  }

  lemma NodataExact(
    hash: Hash, apex: DnsName, hs: seq<Hashed>, p: Params, ttl: nat, sign: Record -> seq<Record>,
    names: seq<DnsName>, qname: DnsName)
    requires ParamsOk(p) && Named(apex, hs)
    requires forall r, s :: s in sign(r) ==> Type(s) == TYPE_RRSIG
    ensures var nodes := Chain3(apex, hs, p, ttl, sign).value;
      Nsec3Proves(hash, qname, OnlyNsec3(Nsec3Denial(hash, p, nodes, names, apex, qname, false))) <==>
      hash(qname, p) in Hashes(hs)
  {
    hide OwnerName, NodeAt, ParseNsec3, EntryOf, ParamsOf, EnclosedAt;
    var nodes := Chain3(apex, hs, p, ttl, sign).value;
    var h := hash(qname, p);
    MatchFound(apex, hs, p, ttl, sign, h);
    var m := Matching(nodes, h);
    var rs := OnlyNsec3(EmitIf(m));
    FilterIn(EmitIf(m), (r: Record) => Type(r) == TYPE_NSEC3);
    if m.Some? {
      var i := NodeIndex(apex, hs, p, ttl, sign, m.value);
      assert m.value.record in Emit(m.value) && m.value.record in rs;
      DrawnRead(apex, hs, p, ttl, sign, rs);
      assert MatchesHash(rs, h);
    } else {
      assert rs == [];
      NoParams();
    }
  }

  lemma NoParams()
    ensures ParamsOf([]) == None
  {
  }

  lemma EncloserProves(
    hash: Hash, apex: DnsName, hs: seq<Hashed>, p: Params, ttl: nat, sign: Record -> seq<Record>,
    qname: DnsName, k: nat, rs: seq<Record>, m: Node3, c: Node3)
    requires ParamsOk(p) && Named(apex, hs) && ValidName(qname) && 0 < k < |qname|
    requires Drawn(rs, Chain3(apex, hs, p, ttl, sign).value) && m.record in rs && c.record in rs
    requires m in Chain3(apex, hs, p, ttl, sign).value && m.hash == hash(qname[k..], p)
    requires c in Chain3(apex, hs, p, ttl, sign).value && NodeCovers(c, hash(qname[k - 1..], p))
    ensures Nsec3Proves(hash, qname, rs)
  {
    hide OwnerName, NodeAt, ParseNsec3, EntryOf, ParamsOf, HashCovered, ValidName;
    DrawnRead(apex, hs, p, ttl, sign, rs);
    SuffixValid(qname, k);
    SuffixValid(qname, k - 1);
    var i := NodeIndex(apex, hs, p, ttl, sign, m);
    assert MatchesHash(rs, hash(qname[k..], p));
    var j := NodeIndex(apex, hs, p, ttl, sign, c);
    assert CoversHash(rs, hash(qname[k - 1..], p));
    assert EnclosedAt(hash, p, qname, rs, k);
  }

  lemma NxdomainProves(
    hash: Hash, apex: DnsName, hs: seq<Hashed>, p: Params, ttl: nat, sign: Record -> seq<Record>,
    names: seq<DnsName>, qname: DnsName)
    requires ParamsOk(p) && Named(apex, hs) && hs != [] && StrictlySorted(BytesLe, Hashes(hs))
    requires forall r, s :: s in sign(r) ==> Type(s) == TYPE_RRSIG
    requires apex in names && forall o :: o in names ==> hash(o, p) in Hashes(hs)
    requires ValidName(qname) && EndsWith(qname, apex) && qname !in names
    ensures var nodes := Chain3(apex, hs, p, ttl, sign).value;
      Nsec3Proves(hash, qname, OnlyNsec3(Nsec3Denial(hash, p, nodes, names, apex, qname, true)))
  {
    hide OwnerName, NodeAt, ParseNsec3, EntryOf, ParamsOf, EnclosedAt, NodeCovers, Nsec3Proves, ValidName, StrictlySorted;
    var nodes := Chain3(apex, hs, p, ttl, sign).value;
    var k := EncloserIs(qname, names, apex, 0);
    assert qname[0..] == qname;
    var ce := qname[k..];
    assert NextCloser(qname, ce) == qname[k - 1..];
    MatchFound(apex, hs, p, ttl, sign, hash(ce, p));
    CoverFound(apex, hs, p, ttl, sign, hash(qname[k - 1..], p));
    var m, c := Matching(nodes, hash(ce, p)).value, Covering(nodes, hash(qname[k - 1..], p)).value;
    var out := Nsec3Denial(hash, p, nodes, names, apex, qname, true);
    var rs := OnlyNsec3(out);
    FilterIn(out, (r: Record) => Type(r) == TYPE_NSEC3);
    var i := NodeIndex(apex, hs, p, ttl, sign, m);
    var j := NodeIndex(apex, hs, p, ttl, sign, c);
    assert m.record in Emit(m) && c.record in Emit(c);
    assert m.record in rs && c.record in rs;
    NamedShort(hs[0].0, apex);
    DenialDrawn(hash, apex, hs, p, ttl, sign, names, qname);
    EncloserProves(hash, apex, hs, p, ttl, sign, qname, k, rs, m, c);
  }

  lemma DenialDrawn(
    hash: Hash, apex: DnsName, hs: seq<Hashed>, p: Params, ttl: nat, sign: Record -> seq<Record>,
    names: seq<DnsName>, qname: DnsName)
    requires ParamsOk(p) && Named(apex, hs)
    requires forall r, s :: s in sign(r) ==> Type(s) == TYPE_RRSIG
    ensures var nodes := Chain3(apex, hs, p, ttl, sign).value;
      Drawn(OnlyNsec3(Nsec3Denial(hash, p, nodes, names, apex, qname, true)), nodes)
  {
    hide OwnerName, NodeAt, ParseNsec3, EntryOf, NodeCovers, ClosestEncloser, NextCloser, PrependStar;
    var nodes := Chain3(apex, hs, p, ttl, sign).value;
    var out := Nsec3Denial(hash, p, nodes, names, apex, qname, true);
    FilterIn(out, (r: Record) => Type(r) == TYPE_NSEC3);
    forall x | x in OnlyNsec3(out) ensures exists n :: n in nodes && n.record == x {
      assert exists n :: n in nodes && x in Emit(n);
      var n :| n in nodes && x in Emit(n);
      var i := NodeIndex(apex, hs, p, ttl, sign, n);
      EmittedDrawn(n, nodes, x);
    }
  }

  /**
   * Completeness, for any hash. Wherever a chain was built, every NXDOMAIN is accepted, through
   * wrapped and single-node rings alike; a no-data answer is accepted exactly when the name hashes
   * like some owner, so always at an existing owner.
   */
  lemma Nsec3Complete(
    hash: Hash, z: Zone, names: seq<DnsName>, p: Params, sign: Record -> seq<Record>, qname: DnsName, qtype: nat)
    requires ZoneOk(z) && NamesOf(names, z) && ParamsOk(p) && ZoneChain(hash, z, names, p, sign).Some?
    requires forall r, s :: s in sign(r) ==> Type(s) == TYPE_RRSIG
    requires ValidName(qname) && EndsWith(qname, z.origin)
    requires Lookup(z, qname, qtype).Looked? && Lookup(z, qname, qtype).negative
    ensures var nodes := ZoneChain(hash, z, names, p, sign).value;
      var nxdomain := Lookup(z, qname, qtype).rcode == RCODE_NXDOMAIN;
      Nsec3Proves(hash, qname, OnlyNsec3(Nsec3Denial(hash, p, nodes, Owners(names), z.origin, qname, nxdomain))) <==>
      nxdomain || exists o :: o in z.records && hash(o, p) == hash(qname, p)
  {
    hide ZoneHashes, Owners, StrictlySorted, Nsec3Proves, Nsec3Denial, ValidName, EndsWith, Lookup, Named, Chain3, NameLe;
    var hs := ZoneHashes(hash, z, names, p);
    ZoneHashesOk(hash, z, names, p);
    OwnersOk(z, names);
    NegativeMeans(z, qname, qtype);
    if Lookup(z, qname, qtype).rcode == RCODE_NXDOMAIN {
      NxdomainProves(hash, z.origin, hs, p, z.soa.ttl, sign, Owners(names), qname);
    } else {
      NodataExact(hash, z.origin, hs, p, z.soa.ttl, sign, Owners(names), qname);
    }
  }

  // ------------------------------------------------- when the chain is built

  /** The labels a name's text reads back as: an escaped dot splits its label. */
  function ReadBack(n: DnsName): seq<Bytes> {
    if n == [] then [] else SplitDots(EscapeLabel(n[0]), []) + ReadBack(n[1..])
  }

  function Respelt(n: DnsName): DnsName { LowerAll(ReadBack(n)) }

  /** Every label reads back as parts of 1 to 63 octets, and they leave room for the 33 octets of a hash label. */
  predicate Spellable(n: DnsName) {
    (forall i :: 0 <= i < |Respelt(n)| ==> 1 <= |Respelt(n)[i]| <= MAX_LABEL_LEN) && WireLen(Respelt(n)) <= 222
  }

  lemma {:induction false} SplitAt(a: Bytes, part: Bytes, b: Bytes)
    ensures SplitDots(a + [DOT] + b, part) == SplitDots(a, part) + SplitDots(b, [])
    decreases |a|
  {
    var s := a + [DOT] + b;
    if a == [] {
      assert s[1..] == b;
    } else {
      assert s[0] == a[0] && s[1..] == a[1..] + [DOT] + b;
      if a[0] == DOT {
        SplitAt(a[1..], [], b);
        assert [part] + (SplitDots(a[1..], []) + SplitDots(b, [])) == [part] + SplitDots(a[1..], []) + SplitDots(b, []);
      } else {
        SplitAt(a[1..], part + [a[0]], b);
      }
    }
  }

  lemma {:induction false} TextReads(n: DnsName)
    requires n != []
    ensures LabelsText(n) != [] && SplitDots(LabelsText(n)[..|LabelsText(n)| - 1], []) == ReadBack(n)
    decreases |n|
  {
    hide SplitDots, EscapeLabel;
    var l, t := EscapeLabel(n[0]), LabelsText(n[1..]);
    if |n| == 1 {
      assert t == [] && LabelsText(n)[..|l|] == l;
      assert SplitDots(l, []) + [] == SplitDots(l, []);
    } else {
      TextReads(n[1..]);
      assert LabelsText(n)[..|LabelsText(n)| - 1] == l + [DOT] + t[..|t| - 1];
      SplitAt(l, [], t[..|t| - 1]);
    }
  }

  lemma HashLabel(hash: Bytes)
    requires |hash| == 20
    ensures |Base32Hex(hash)| == 32 && ValidLabel(Base32Hex(hash))
  {
    hide DigitsOf;
    Pow2Small();
    DigitsCount(hash, 0, 0);
    DigitsPlain(hash, 0, 0);
    var l := Base32Hex(hash);
    forall i | 0 <= i < |l| ensures !(65 <= l[i] <= 90) {
      assert l[i] in l;
    }
  }

  lemma OwnerSplits(hash: Bytes, apex: DnsName)
    requires apex != []
    ensures var t := ShowName(apex);
      LowerAll(SplitDots(Base32Hex(hash) + [DOT] + t[..|t| - 1], [])) == [Base32Hex(hash)] + Respelt(apex)
  {
    hide DigitsOf, SplitDots, LabelsText, ReadBack;
    var l, t := Base32Hex(hash), ShowName(apex);
    Pow2Small();
    DigitsPlain(hash, 0, 0);
    PlainLower(l);
    SplitFirst(l, [], t[..|t| - 1]);
    TextReads(apex);
    assert [] + l == l;
  }

  lemma Lengthened(l: Label, n: DnsName)
    requires ValidLabel(l) && |l| == 32 && forall i :: 0 <= i < |n| ==> Lower(n[i]) == n[i]
    ensures ValidName([l] + n) <==>
      (forall i :: 0 <= i < |n| ==> 1 <= |n[i]| <= MAX_LABEL_LEN) && WireLen(n) <= 222
  {
    var all := [l] + n;
    assert all[1..] == n;
    forall i | 0 <= i < |n| ensures ValidLabel(n[i]) <==> 1 <= |n[i]| <= MAX_LABEL_LEN {
      LowerPlain(n[i]);
    }
    assert forall i :: 0 <= i < |n| ==> all[i + 1] == n[i];
  }

  lemma LowerPlain(l: Label)
    requires Lower(l) == l
    ensures forall i :: 0 <= i < |l| ==> !(65 <= l[i] <= 90)
  {
    assert forall i :: 0 <= i < |l| ==> Lower(l)[i] == LowerByte(l[i]);
  }

  /** For any apex whatever: a 20-octet hash gets an owner name exactly under a spellable one that is not the root. */
  lemma OwnerExact(hash: Bytes, apex: DnsName)
    requires |hash| == 20
    ensures OwnerName(hash, apex) ==
      if apex != [] && Spellable(apex) then Some([Base32Hex(hash)] + Respelt(apex)) else None
  {
    hide Base32Hex, SplitDots, WireLen, ShowName, ValidName, Lower, ReadBack;
    RootHasNoOwner(hash);
    if apex != [] {
      var l, t := Base32Hex(hash), ShowName(apex);
      var s := l + [DOT] + t;
      HashLabel(hash);
      OwnerSplits(hash, apex);
      RespeltLower(apex);
      Lengthened(l, Respelt(apex));
      assert s[|s| - 1] == DOT && s[..|s| - 1] == l + [DOT] + t[..|t| - 1] != [];
    }
  }

  lemma RespeltLower(n: DnsName)
    ensures forall i :: 0 <= i < |Respelt(n)| ==> Lower(Respelt(n)[i]) == Respelt(n)[i]
  {
  }

  /** So the chain is built exactly for a spellable apex that is not the root. */
  lemma ChainBuilt(hash: Hash, z: Zone, names: seq<DnsName>, p: Params, sign: Record -> seq<Record>)
    requires ZoneOk(z) && NamesOf(names, z) && forall n :: |hash(n, p)| == 20
    ensures ZoneChain(hash, z, names, p, sign).Some? <==> z.origin != [] && Spellable(z.origin)
  {
    hide OwnerName, ZoneHashes, Chain3, StrictlySorted, Spellable, Hashes, ZoneOk, NodeAt;
    var hs := ZoneHashes(hash, z, names, p);
    ZoneHashesOk(hash, z, names, p);
    HashesLength(hs);
    forall i | 0 <= i < |hs| ensures OwnerName(hs[i].0, z.origin).Some? <==> z.origin != [] && Spellable(z.origin) {
      HashesAt(hs, i);
      OwnerExact(hs[i].0, z.origin);
    }
    assert |hs| > 0;
    assert Named(z.origin, hs) ==> OwnerName(hs[0].0, z.origin).Some?;
  }

  lemma HashesLength(hs: seq<Hashed>)
    ensures |Hashes(hs)| == |hs|
  {
  }

  lemma HashesAt(hs: seq<Hashed>, i: nat)
    requires i < |hs|
    ensures hs[i].0 in Hashes(hs)
  {
    assert Hashes(hs)[i] == hs[i].0;
  }

  /** Printable and not a dot: what the text form shows as it is. */
  predicate Shown(l: Label) { forall b :: b in l ==> 0x21 <= b <= 0x7E && b != DOT }

  lemma {:induction false} ShownAsIs(l: Label)
    requires Shown(l)
    ensures EscapeLabel(l) == l
  {
    if l != [] {
      assert l[0] in l && forall b :: b in l[1..] ==> b in l;
      ShownAsIs(l[1..]);
    }
  }

  lemma {:induction false} SplitNone(l: Bytes, part: Bytes)
    requires DOT !in l
    ensures SplitDots(l, part) == [part + l]
  {
    if l == [] {
      assert part + l == part;
    } else {
      SplitNone(l[1..], part + [l[0]]);
      assert part + [l[0]] + l[1..] == part + l;
    }
  }

  /** A plainly written name reads back as itself, so then only its length matters. */
  lemma {:induction false} ShownReads(n: DnsName)
    requires forall i :: 0 <= i < |n| ==> ValidLabel(n[i]) && Shown(n[i])
    ensures ReadBack(n) == n && Respelt(n) == n
    ensures Spellable(n) <==> WireLen(n) <= 222
    decreases |n|
  {
    hide SplitDots, EscapeLabel, WireLen;
    if n != [] {
      ShownAsIs(n[0]);
      SplitNone(n[0], []);
      assert [] + n[0] == n[0];
      ShownReads(n[1..]);
      assert [n[0]] + n[1..] == n;
    }
    forall i | 0 <= i < |n| ensures Lower(n[i]) == n[i] {
    }
    assert Respelt(n) == n;
  }

  /** `k` times the letter e with an acute accent, in UTF-8. */
  function Accented(k: nat): Label { if k == 0 then [] else [195, 169] + Accented(k - 1) }

  lemma {:induction false} EscapedLonger(k: nat)
    ensures |Accented(k)| == 2 * k && |EscapeLabel(Accented(k))| == 8 * k && DOT !in EscapeLabel(Accented(k))
  {
    if k > 0 {
      EscapedLonger(k - 1);
      var l := Accented(k);
      assert l[1..] == [169] + Accented(k - 1) && l[1..][1..] == Accented(k - 1);
      assert EscapeLabel(l) == Decimal(195) + (Decimal(169) + EscapeLabel(Accented(k - 1)));
    }
  }

  /** An apex of eight accented letters: its text is too long to read back, and no owner can be named. */
  lemma EscapedApexFails(hash: Bytes)
    requires |hash| == 20
    ensures var apex: DnsName := [Accented(8)];
      ValidName(apex) && WireLen(apex) == 18 && OwnerName(hash, apex) == None
  {
    hide OwnerName, SplitDots, EscapeLabel;
    var l := Accented(8);
    var apex: DnsName := [l];
    assert apex[1..] == [];
    EscapedLonger(8);
    SplitNone(EscapeLabel(l), []);
    assert ReadBack(apex) == [EscapeLabel(l)] by {
      assert [] + EscapeLabel(l) == EscapeLabel(l);
      assert [EscapeLabel(l)] + [] == [EscapeLabel(l)];
    }
    assert |Respelt(apex)[0]| == 64;
    assert !Spellable(apex);
    OwnerExact(hash, apex);
    AccentedLower(8);
    assert ValidLabel(l) && WireLen([]) == 1;
    assert WireLen(apex) == 18;
  }

  lemma {:induction false} AccentedLower(k: nat)
    ensures forall b :: b in Accented(k) ==> b == 195 || b == 169
  {
    if k > 0 {
      AccentedLower(k - 1);
    }
  }

  // ---------------------------------------------------- what the whole chain denies

  function RecordsOf(nodes: seq<Node3>): (r: seq<Record>)
    ensures |r| == |nodes| && forall i :: 0 <= i < |r| ==> r[i] == nodes[i].record
  {
    seq(|nodes|, i requires 0 <= i < |nodes| => nodes[i].record)
  }

  lemma WholeMatches(apex: DnsName, hs: seq<Hashed>, p: Params, ttl: nat, sign: Record -> seq<Record>, h: Bytes)
    requires ParamsOk(p) && Named(apex, hs)
    ensures MatchesHash(RecordsOf(Chain3(apex, hs, p, ttl, sign).value), h) <==> h in Hashes(hs)
  {
    hide OwnerName, NodeAt, EntryOf, ParseNsec3;
    var nodes := Chain3(apex, hs, p, ttl, sign).value;
    var rs := RecordsOf(nodes);
    if h in Hashes(hs) {
      var i :| 0 <= i < |hs| && Hashes(hs)[i] == h;
      NodeReads(apex, hs, p, ttl, sign, i);
      assert rs[i] in rs;
    }
    if r :| r in rs && EntryOf(r).Some? && EntryOf(r).value.0 == h {
      var i :| 0 <= i < |rs| && rs[i] == r;
      NodeReads(apex, hs, p, ttl, sign, i);
      assert Hashes(hs)[i] == h;
    }
  }

  lemma WholeCovers(apex: DnsName, hs: seq<Hashed>, p: Params, ttl: nat, sign: Record -> seq<Record>, h: Bytes)
    requires ParamsOk(p) && Named(apex, hs) && hs != [] && StrictlySorted(BytesLe, Hashes(hs))
    ensures CoversHash(RecordsOf(Chain3(apex, hs, p, ttl, sign).value), h)
  {
    hide OwnerName, NodeAt, EntryOf, ParseNsec3, BytesLe, StrictlySorted, HashCovered;
    var rs := RecordsOf(Chain3(apex, hs, p, ttl, sign).value);
    var i := RingCovers(Hashes(hs), h, BelowCount(Hashes(hs), h));
    NodeReads(apex, hs, p, ttl, sign, i);
    assert rs[i] in rs;
  }

  /**
   * From the whole chain the validator accepts a denial for exactly the names that hash like an
   * owner, or have a proper suffix that does: the gap test never refuses. The type is not looked at.
   */
  lemma Nsec3Exact(hash: Hash, z: Zone, names: seq<DnsName>, p: Params, sign: Record -> seq<Record>, qname: DnsName)
    requires ZoneOk(z) && NamesOf(names, z) && ParamsOk(p) && ZoneChain(hash, z, names, p, sign).Some?
    requires ValidName(qname)
    ensures Nsec3Proves(hash, qname, RecordsOf(ZoneChain(hash, z, names, p, sign).value)) <==>
      exists skip | 0 <= skip <= |qname| :: (skip == 0 || skip < |qname|) && OwnersHash(hash, z, p, qname[skip..])
  {
    hide ZoneHashes, Chain3, MatchesHash, CoversHash, ParamsOf, OwnersHash, ValidName, StrictlySorted, Named;
    var hs := ZoneHashes(hash, z, names, p);
    var ttl := z.soa.ttl;
    var rs := RecordsOf(ZoneChain(hash, z, names, p, sign).value);
    ZoneHashesOk(hash, z, names, p);
    WholeParams(z.origin, hs, p, ttl, sign);
    forall skip | 0 <= skip <= |qname|
      ensures MatchesHash(rs, hash(qname[skip..], p)) <==> OwnersHash(hash, z, p, qname[skip..])
      ensures CoversHash(rs, hash(qname[skip..], p)) && ValidName(qname[skip..])
    {
      WholeMatches(z.origin, hs, p, ttl, sign, hash(qname[skip..], p));
      WholeCovers(z.origin, hs, p, ttl, sign, hash(qname[skip..], p));
      OwnersHashIs(hash, z, p, qname[skip..], Hashes(hs));
      SuffixValid(qname, skip);
    }
    assert qname[0..] == qname;
    forall skip | 0 < skip < |qname|
      ensures EnclosedAt(hash, p, qname, rs, skip) <==> OwnersHash(hash, z, p, qname[skip..])
    {
      assert CoversHash(rs, hash(qname[skip - 1..], p)) && ValidName(qname[skip - 1..]);
    }
  }

  ghost predicate OwnersHash(hash: Hash, z: Zone, p: Params, name: DnsName) {
    exists o :: o in z.records && hash(o, p) == hash(name, p)
  }

  lemma OwnersHashIs(hash: Hash, z: Zone, p: Params, name: DnsName, hs: seq<Bytes>)
    requires forall h :: h in hs <==> exists o :: o in z.records && hash(o, p) == h
    ensures OwnersHash(hash, z, p, name) <==> hash(name, p) in hs
  {
  }

  lemma WholeParams(apex: DnsName, hs: seq<Hashed>, p: Params, ttl: nat, sign: Record -> seq<Record>)
    requires ParamsOk(p) && Named(apex, hs) && Hashes(hs) != []
    ensures ParamsOf(RecordsOf(Chain3(apex, hs, p, ttl, sign).value)) == Some(p)
  {
    hide OwnerName, NodeAt, ParamsOf;
    var nodes := Chain3(apex, hs, p, ttl, sign).value;
    var rs := RecordsOf(nodes);
    forall r | r in rs ensures exists n :: n in nodes && n.record == r {
      var i :| 0 <= i < |rs| && rs[i] == r;
      assert nodes[i] in nodes;
    }
    HashesLength(hs);
    DrawnRead(apex, hs, p, ttl, sign, rs);
  }

  /** So it denies every name at or below the apex, whatever the zone holds there. */
  lemma WholeChainDeniesAll(
    hash: Hash, z: Zone, names: seq<DnsName>, p: Params, sign: Record -> seq<Record>, qname: DnsName)
    requires ZoneOk(z) && NamesOf(names, z) && ParamsOk(p) && ZoneChain(hash, z, names, p, sign).Some?
    requires ValidName(qname) && EndsWith(qname, z.origin)
    ensures Nsec3Proves(hash, qname, RecordsOf(ZoneChain(hash, z, names, p, sign).value))
  {
    hide Nsec3Proves, ZoneChain, ValidName, OwnersHash;
    Nsec3Exact(hash, z, names, p, sign, qname);
    NotRoot(hash, z, names, p, sign);
    var skip := |qname| - |z.origin|;
    assert qname[skip..] == z.origin;
    assert OwnersHash(hash, z, p, z.origin) by { ApexHash(hash, z, p); }
  }

  lemma ApexHash(hash: Hash, z: Zone, p: Params)
    requires ZoneOk(z)
    ensures OwnersHash(hash, z, p, z.origin)
  {
    assert z.origin in z.records;
  }

  lemma NotRoot(hash: Hash, z: Zone, names: seq<DnsName>, p: Params, sign: Record -> seq<Record>)
    requires ZoneOk(z) && NamesOf(names, z) && ZoneChain(hash, z, names, p, sign).Some?
    ensures z.origin != []
  {
    hide ZoneHashes, OwnerName, NodeAt, Hashes, StrictlySorted;
    var hs := ZoneHashes(hash, z, names, p);
    ZoneHashesOk(hash, z, names, p);
    HashesLength(hs);
    assert OwnerName(hs[0].0, z.origin).Some?;
    NamedShort(hs[0].0, z.origin);
  }

  // ------------------------------------------------------ an answer not proven

  const EMPTY_NAME: DnsName := [[98], [97]]
  const LEAF: DnsName := [[99], [98], [97]]

  /** The zone `a.` with a record at `c.b.a.` and nothing at `b.a.`. */
  function Branch(): Zone { Pair(LEAF, [Record(LEAF, CLASS_IN, 0, A([1, 2, 3, 4]))]) }

  /** Some hash of 20 octets that tells the empty name from all others. */
  function Apart(n: DnsName, p: Params): Bytes { seq(20, _ => if n == EMPTY_NAME then 1 else 0) }

  lemma BranchOk()
    ensures ZoneOk(Branch()) && NamesOf([APEX, LEAF], Branch()) && Branch().origin == APEX
  {
    hide EndsWith;
    BranchNames();
    PairOk(LEAF, [Record(LEAF, CLASS_IN, 0, A([1, 2, 3, 4]))]);
  }

  lemma BranchNames()
    ensures EndsWith(LEAF, APEX) && EndsWith(APEX, APEX) && EndsWith(EMPTY_NAME, APEX) && ValidName(EMPTY_NAME)
  {
    assert EMPTY_NAME[1..] == APEX && APEX[1..] == [];
  }

  lemma BranchNegative()
    ensures Lookup(Branch(), EMPTY_NAME, TYPE_A) == Looked(RCODE_NOERROR, [], true, None)
  {
    var z := Branch();
    assert FindWildcard(z, EMPTY_NAME, 2) == None;
    var w := [STAR] + EMPTY_NAME[1..];
    assert w != APEX && w != LEAF;
    assert FindWildcard(z, EMPTY_NAME, 1) == None;
    assert LEAF in z.records && LEAF != EMPTY_NAME && EndsWith(LEAF, EMPTY_NAME);
    assert HasNamesBelow(z, EMPTY_NAME);
  }

  lemma BranchBuilt(sign: Record -> seq<Record>)
    ensures ZoneChain(Apart, Branch(), [APEX, LEAF], Params(0, []), sign).Some?
  {
    hide ZoneChain, Spellable, ZoneOk, NamesOf, ReadBack, Respelt, Branch, WireLen;
    BranchOk();
    ApexValid();
    ShownReads(APEX);
    ChainBuilt(Apart, Branch(), [APEX, LEAF], Params(0, []), sign);
  }

  /** An empty non-terminal is answered with no data, and with a hash that tells it apart that is not proven. */
  lemma EmptyNameUnproven(sign: Record -> seq<Record>)
    requires forall r, s :: s in sign(r) ==> Type(s) == TYPE_RRSIG
    ensures var z, p := Branch(), Params(0, []);
      && Lookup(z, EMPTY_NAME, TYPE_A) == Looked(RCODE_NOERROR, [], true, None)
      && ZoneChain(Apart, z, [APEX, LEAF], p, sign).Some?
      && var nodes := ZoneChain(Apart, z, [APEX, LEAF], p, sign).value;
         !Nsec3Proves(Apart, EMPTY_NAME,
           OnlyNsec3(Nsec3Denial(Apart, p, nodes, Owners([APEX, LEAF]), APEX, EMPTY_NAME, false)))
  {
    hide ZoneChain, Nsec3Proves, Nsec3Denial, Owners, Lookup, Apart, ZoneOk, NamesOf, Branch, ValidName, EndsWith;
    BranchOk();
    BranchNegative();
    BranchBuilt(sign);
    BranchNames();
    Nsec3Complete(Apart, Branch(), [APEX, LEAF], Params(0, []), sign, EMPTY_NAME, TYPE_A);
    ApartTells();
  }

  lemma ApartTells()
    ensures forall o, p :: o in Branch().records ==> Apart(o, p) != Apart(EMPTY_NAME, p)
  {
    forall o, p | o in Branch().records ensures Apart(o, p) != Apart(EMPTY_NAME, p) {
      assert Apart(o, p)[0] == 0 && Apart(EMPTY_NAME, p)[0] == 1;
    }
  }
}
