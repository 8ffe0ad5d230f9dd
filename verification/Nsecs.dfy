/**
 * Authenticated denial with NSEC (RFC 4034): the chain the signer builds, the record it picks for a
 * negative answer, and what the validator accepts from it.
 */
module Nsecs {
  import opened Bytes
  import opened Names
  import opened Messages
  import opened Seqs
  import opened Zones
  import opened Orders
  import opened Bitmaps
  import opened Lookups

  // ---------------------------------------------------------- canonical order

  function Reversed<T>(s: seq<T>): (r: seq<T>)
    ensures |r| == |s| && forall i :: 0 <= i < |s| ==> r[i] == s[|s| - 1 - i]
  {
    seq(|s|, i requires 0 <= i < |s| => s[|s| - 1 - i])
  }

  /** `canonical_key` and `canon_key`: labels from the root down. */
  function CanonKey(n: DnsName): seq<Bytes> { Reversed(n) }

  predicate NameLe(a: DnsName, b: DnsName) { KeyLe(CanonKey(a), CanonKey(b)) }

  predicate NameLt(a: DnsName, b: DnsName) { a != b && NameLe(a, b) }

  lemma CanonKeyInjective(a: DnsName, b: DnsName)
    requires CanonKey(a) == CanonKey(b)
    ensures a == b
  {
    forall i | 0 <= i < |a| ensures a[i] == b[i] {
      assert CanonKey(a)[|a| - 1 - i] == CanonKey(b)[|a| - 1 - i];
    }
  }

  lemma NameLeTotal()
    ensures TotalOrder(NameLe)
  {
    hide KeyLe, CanonKey;
    KeyLeTotal();
    forall a, b | NameLe(a, b) && NameLe(b, a) ensures a == b {
      CanonKeyInjective(a, b);
    }
  }

  lemma {:induction false} LexPrefix(a: seq<Bytes>, b: seq<Bytes>)
    requires a <= b
    ensures Lex(BytesLe, a, b)
  {
    if a != [] {
      LexPrefix(a[1..], b[1..]);
    }
  }

  /** An ancestor sorts before everything below it. */
  lemma AncestorFirst(n: DnsName, apex: DnsName)
    requires EndsWith(n, apex)
    ensures NameLe(apex, n)
  {
    var tail := n[|n| - |apex|..];
    assert forall i :: 0 <= i < |apex| ==> CanonKey(apex)[i] == tail[|apex| - 1 - i];
    assert CanonKey(apex) == CanonKey(n)[..|apex|];
    LexPrefix(CanonKey(apex), CanonKey(n));
  }

  // ---------------------------------------------------------- sorted owners

  /** `Vec::dedup`: drop an element equal to the one kept before it. */
  function Dedup<T(==)>(s: seq<T>): seq<T> {
    if |s| <= 1 then s
    else if s[0] == s[1] then Dedup(s[1..])
    else [s[0]] + Dedup(s[1..])
  }

  ghost predicate StrictlySorted<T(!new)>(le: (T, T) -> bool, s: seq<T>) {
    forall i, j :: 0 <= i < j < |s| ==> le(s[i], s[j]) && s[i] != s[j]
  }

  lemma {:induction false} DedupOk<T(!new)>(le: (T, T) -> bool, s: seq<T>)
    requires TotalOrder(le) && Sorted(le, s)
    ensures StrictlySorted(le, Dedup(s)) && forall x :: x in Dedup(s) <==> x in s
    ensures s != [] ==> Dedup(s) != [] && Dedup(s)[0] == s[0]
  {
    if |s| > 1 {
      DedupOk(le, s[1..]);
      var rest := Dedup(s[1..]);
      assert s == [s[0]] + s[1..];
      if s[0] != s[1] {
        forall j | 0 <= j < |rest| ensures le(s[0], rest[j]) && s[0] != rest[j] {
          assert le(s[0], s[1]);
          assert rest[j] in rest;
          assert j == 0 || le(rest[0], rest[j]);
        }
      }
    }
  }

  lemma SortDedupOk<T(!new)>(le: (T, T) -> bool, s: seq<T>)
    requires TotalOrder(le)
    ensures StrictlySorted(le, Dedup(Sort(le, s))) && forall x :: x in Dedup(Sort(le, s)) <==> x in s
  {
    SortOk(le, s);
    var t := Sort(le, s);
    DedupOk(le, t);
    forall x ensures x in t <==> x in s {
      assert x in t <==> x in multiset(t);
      assert x in s <==> x in multiset(s);
    }
  }

  // ---------------------------------------------------------------- signing

  predicate NatLe(a: nat, b: nat) { a <= b }

  /** The types a name's NSEC record lists: those it holds and those the signer adds. */
  function TypesAt(z: Zone, owner: DnsName): seq<nat> {
    var held := Map(Type, Node(z.records, owner)) + [TYPE_RRSIG];
    var apex := if owner == z.origin then [TYPE_DNSKEY] else [];
    Dedup(Sort(NatLe, held + apex + [TYPE_NSEC]))
  }

  function NsecRdata(next: DnsName, types: seq<nat>): Bytes { PlainWire(next) + BitmapField(types) }

  function NsecRecord(z: Zone, owner: DnsName, next: DnsName): Record {
    Record(owner, CLASS_IN, z.soa.ttl, Unknown(TYPE_NSEC, NsecRdata(next, TypesAt(z, owner))))
  }

  datatype ChainEntry = ChainEntry(owner: DnsName, nsec: Record, sigs: seq<Record>)

  /** Owners in canonical order, from any listing of the record groups. */
  function Owners(names: seq<DnsName>): seq<DnsName> { Dedup(Sort(NameLe, names)) }

  function NextOwner(owners: seq<DnsName>, i: nat): DnsName
    requires i < |owners|
  {
    owners[if i + 1 == |owners| then 0 else i + 1]
  }

  function EntryAt(z: Zone, owners: seq<DnsName>, sign: Record -> seq<Record>, i: nat): ChainEntry
    requires i < |owners|
  {
    var nsec := NsecRecord(z, owners[i], NextOwner(owners, i));
    ChainEntry(owners[i], nsec, sign(nsec))
  }

  function NsecChain(z: Zone, owners: seq<DnsName>, sign: Record -> seq<Record>): (r: seq<ChainEntry>)
    ensures |r| == |owners| && forall i :: 0 <= i < |r| ==> r[i] == EntryAt(z, owners, sign, i)
  {
    seq(|owners|, i requires 0 <= i < |owners| => EntryAt(z, owners, sign, i))
  }

  lemma WrapsToFirst(owners: seq<DnsName>, i: nat)
    requires i < |owners|
    ensures owners[(i + 1) % |owners|] == NextOwner(owners, i)
  {
  }

  method BuildNsecChain(z: Zone, names: seq<DnsName>, sign: Record -> seq<Record>) returns (chain: seq<ChainEntry>)
    ensures chain == NsecChain(z, Owners(names), sign)
  {
    hide TypesAt, NsecRdata, Dedup, Sort, NameLe;
    var owners := Dedup(Sort(NameLe, names));
    chain := [];
    for i := 0 to |owners|
      invariant |chain| == i && forall k :: 0 <= k < i ==> chain[k] == EntryAt(z, owners, sign, k)
    {
      var next := owners[(i + 1) % |owners|];
      WrapsToFirst(owners, i);
      var nsec := Record(owners[i], CLASS_IN, z.soa.ttl, Unknown(TYPE_NSEC, NsecRdata(next, TypesAt(z, owners[i]))));
      chain := chain + [ChainEntry(owners[i], nsec, sign(nsec))];
    }
  }

  // ---------------------------------------------------------------- denying

  function Pick(e: ChainEntry): seq<Record> { [e.nsec] + e.sigs }

  function ExactEntry(chain: seq<ChainEntry>, qname: DnsName): (r: Option<ChainEntry>)
    ensures r.Some? ==> r.value in chain && r.value.owner == qname
    ensures r.None? ==> forall e :: e in chain ==> e.owner != qname
  {
    if chain == [] then None
    else if chain[0].owner == qname then Some(chain[0])
    else ExactEntry(chain[1..], qname)
  }

  /** How many leading entries have owners at or before `qname`. */
  function Before(chain: seq<ChainEntry>, qname: DnsName): (k: nat)
    ensures k <= |chain|
    ensures forall i :: 0 <= i < k ==> NameLe(chain[i].owner, qname)
    ensures k < |chain| ==> !NameLe(chain[k].owner, qname)
  {
    if chain == [] || !NameLe(chain[0].owner, qname) then 0 else 1 + Before(chain[1..], qname)
  }

  /** The last entry at or before `qname`, or the last of all. */
  function Nearest(chain: seq<ChainEntry>, qname: DnsName): ChainEntry
    requires chain != []
  {
    var k := Before(chain, qname);
    if k > 0 then chain[k - 1] else chain[|chain| - 1]
  }

  function NsecDenial(chain: seq<ChainEntry>, qname: DnsName, nxdomain: bool): seq<Record> {
    var exact := ExactEntry(chain, qname);
    if !nxdomain && exact.Some? then Pick(exact.value)
    else if chain == [] then []
    else Pick(Nearest(chain, qname))
  }

  method DenyWithNsec(chain: seq<ChainEntry>, qname: DnsName, nxdomain: bool) returns (r: seq<Record>)
    ensures r == NsecDenial(chain, qname, nxdomain)
  {
    hide NameLe;
    if !nxdomain {
      var exact := ExactEntry(chain, qname);
      if exact.Some? {
        return Pick(exact.value);
      }
    }
    var best: Option<ChainEntry> := None;
    var i := 0;
    while i < |chain| && NameLe(chain[i].owner, qname)
      invariant 0 <= i <= Before(chain, qname)
      invariant best == if i == 0 then None else Some(chain[i - 1])
    {
      best := Some(chain[i]);
      i := i + 1;
    }
    assert i == Before(chain, qname);
    if best.Some? {
      r := Pick(best.value);
    } else if chain != [] {
      r := Pick(chain[|chain| - 1]);
    } else {
      r := [];
    }
  }

  // -------------------------------------------------------------- validating

  /** Strictly between owner and next, or past either when the record wraps. */
  predicate Covered(owner: DnsName, qname: DnsName, next: DnsName) {
    if NameLt(owner, next) then NameLt(owner, qname) && NameLt(qname, next)
    else NameLt(owner, qname) || NameLt(qname, next)
  }

  /** `parse_nsec` and one turn of `nsec_proves`. */
  predicate NsecAccepts(qname: DnsName, qtype: nat, r: Record) {
    r.rdata.Unknown? &&
    match Decode(r.rdata.data, 0)
    case Fail(_) => false
    case Got(next, pos) =>
      if r.name == qname then pos <= |r.rdata.data| && !Marked(r.rdata.data[pos..], qtype)
      else Covered(r.name, qname, next)
  }

  predicate NsecProves(qname: DnsName, qtype: nat, nsecs: seq<Record>) {
    exists r :: r in nsecs && NsecAccepts(qname, qtype, r)
  }

  // ----------------------------------------------------- the chain, in order

  /** The zone keeps its store invariant, its names are valid and its types fit one bitmap window. */
  ghost predicate Signable(z: Zone) {
    && ZoneOk(z)
    && (forall o :: o in z.records ==> ValidName(o))
    && (forall o, r :: o in z.records && r in z.records[o] ==> Type(r) <= MAX_BITMAP_TYPE)
  }

  ghost predicate NamesOf(names: seq<DnsName>, z: Zone) { forall o :: o in names <==> o in z.records }

  lemma OwnersOk(z: Zone, names: seq<DnsName>)
    requires ZoneOk(z) && NamesOf(names, z)
    ensures var owners := Owners(names);
      && StrictlySorted(NameLe, owners) && (forall o :: o in owners <==> o in z.records)
      && owners != [] && owners[0] == z.origin
  {
    hide TotalOrder, NameLe, Dedup, Sort, StrictlySorted;
    NameLeTotal();
    SortDedupOk(NameLe, names);
    var owners := Owners(names);
    assert z.origin in z.records && z.origin in owners;
    assert owners[0] in owners;
    assert NodeOk(z.origin, owners[0], z.records[owners[0]]);
    AncestorFirst(owners[0], z.origin);
    LeastFirst(NameLe, owners, z.origin);
  }

  lemma LeastFirst<T(!new)>(le: (T, T) -> bool, s: seq<T>, x: T)
    requires TotalOrder(le) && StrictlySorted(le, s) && x in s && le(x, s[0])
    ensures s[0] == x
  {
    StrictFirst(le, s, x);
    Antisymmetric(le, s[0], x);
  }

  lemma StrictFirst<T(!new)>(le: (T, T) -> bool, s: seq<T>, x: T)
    requires TotalOrder(le) && StrictlySorted(le, s) && x in s
    ensures le(s[0], x)
  {
    var i :| 0 <= i < |s| && s[i] == x;
  }

  lemma TypesAtOk(z: Zone, owner: DnsName, t: nat)
    ensures t in TypesAt(z, owner) <==>
      || (exists r :: r in Node(z.records, owner) && Type(r) == t)
      || t == TYPE_RRSIG || t == TYPE_NSEC || (owner == z.origin && t == TYPE_DNSKEY)
  {
    hide Sort, Dedup;
    var node := Node(z.records, owner);
    var all := Map(Type, node) + [TYPE_RRSIG] + (if owner == z.origin then [TYPE_DNSKEY] else []) + [TYPE_NSEC];
    SortDedupOk(NatLe, all);
    if r :| r in node && Type(r) == t {
      var i :| 0 <= i < |node| && node[i] == r;
      assert Map(Type, node)[i] == t;
    }
  }

  lemma TypesFit(z: Zone, owner: DnsName)
    requires Signable(z) && owner in z.records
    ensures MaxType(TypesAt(z, owner)) <= MAX_BITMAP_TYPE
  {
    hide TypesAt, ZoneOk;
    TypesAtOk(z, owner, MaxType(TypesAt(z, owner)));
  }

  lemma NsecReads(z: Zone, owner: DnsName, next: DnsName)
    requires ValidName(next)
    ensures var data := NsecRdata(next, TypesAt(z, owner));
      var pos := |PlainWire(next)|;
      pos <= |data| && Decode(data, 0) == Got(next, pos) && data[pos..] == BitmapField(TypesAt(z, owner))
  {
    hide TypesAt, BitmapField, Decode;
    var data := NsecRdata(next, TypesAt(z, owner));
    assert Occurs(data, 0, PlainWire(next));
    PlainRoundTrip(data, 0, next);
  }

  /** What the validator makes of one record of the chain. */
  lemma EntryAccepts(z: Zone, owner: DnsName, next: DnsName, qname: DnsName, qtype: nat)
    requires Signable(z) && owner in z.records && next in z.records
    ensures NsecAccepts(qname, qtype, NsecRecord(z, owner, next)) <==>
      if owner == qname then qtype !in TypesAt(z, owner) else Covered(owner, qname, next)
  {
    hide TypesAt, BitmapField, Decode, Marked, Covered, NsecRdata, ZoneOk;
    NsecReads(z, owner, next);
    TypesFit(z, owner);
    BitmapInverse(TypesAt(z, owner), qtype);
  }

  /** The gap after an entry, the wrapped one included, holds no owner. */
  lemma GapHoldsNoOwner(owners: seq<DnsName>, i: nat, qname: DnsName)
    requires StrictlySorted(NameLe, owners) && i < |owners| && qname in owners
    ensures !Covered(owners[i], qname, NextOwner(owners, i))
  {
    hide NameLe;
    NameLeTotal();
    var j :| 0 <= j < |owners| && owners[j] == qname;
    var next := NextOwner(owners, i);
    if i + 1 < |owners| {
      assert NameLt(owners[i], next);
      assert j <= i ==> owners[j] == owners[i] || NameLe(owners[j], owners[i]);
      assert j > i ==> owners[j] == next || NameLe(next, owners[j]);
    } else {
      assert owners[j] == owners[i] || NameLe(owners[j], owners[i]);
      assert owners[j] == next || NameLe(next, owners[j]);
      assert next == owners[i] || NameLe(next, owners[i]);
    }
  }

  lemma NearestCovers(owners: seq<DnsName>, k: nat, qname: DnsName)
    requires StrictlySorted(NameLe, owners) && qname !in owners && owners != [] && k <= |owners|
    requires forall i :: 0 <= i < k ==> NameLe(owners[i], qname)
    requires k < |owners| ==> !NameLe(owners[k], qname)
    ensures var i := if k > 0 then k - 1 else |owners| - 1; Covered(owners[i], qname, NextOwner(owners, i))
  {
    hide NameLe;
    NameLeTotal();
    var i := if k > 0 then k - 1 else |owners| - 1;
    assert owners[i] in owners;
    var next := NextOwner(owners, i);
    assert next in owners;
    if i + 1 == |owners| {
      assert next == owners[i] || NameLe(next, owners[i]);
    }
  }

  // ------------------------------------------------------------- the results

  lemma ChainOwners(z: Zone, names: seq<DnsName>, sign: Record -> seq<Record>, i: nat)
    requires ZoneOk(z) && NamesOf(names, z) && i < |Owners(names)|
    ensures var owners := Owners(names);
      var next := NextOwner(owners, i);
      && owners[i] in z.records && next in z.records
      && NsecChain(z, owners, sign)[i].nsec == NsecRecord(z, owners[i], next)
  {
    hide Owners, NsecRecord, StrictlySorted, ZoneOk;
    OwnersOk(z, names);
  }

  function NsecsOf(chain: seq<ChainEntry>): (r: seq<Record>)
    ensures |r| == |chain| && forall i :: 0 <= i < |r| ==> r[i] == chain[i].nsec
  {
    seq(|chain|, i requires 0 <= i < |chain| => chain[i].nsec)
  }

  /** The record picked when the name is no owner covers it. */
  lemma NearestAccepted(z: Zone, names: seq<DnsName>, sign: Record -> seq<Record>, qname: DnsName, qtype: nat)
    requires Signable(z) && NamesOf(names, z) && qname !in z.records
    ensures var chain := NsecChain(z, Owners(names), sign);
      chain != [] && Nearest(chain, qname) in chain && NsecAccepts(qname, qtype, Nearest(chain, qname).nsec)
  {
    hide Owners, NsecRecord, NsecAccepts, Covered, StrictlySorted, NameLe, ZoneOk, NextOwner;
    var owners := Owners(names);
    var chain := NsecChain(z, owners, sign);
    OwnersOk(z, names);
    var k := Before(chain, qname);
    forall i | 0 <= i < |owners| ensures chain[i].owner == owners[i] {
    }
    NearestCovers(owners, k, qname);
    var i := if k > 0 then k - 1 else |owners| - 1;
    ChainOwners(z, names, sign, i);
    EntryAccepts(z, owners[i], NextOwner(owners, i), qname, qtype);
  }

  lemma ExactAccepted(z: Zone, names: seq<DnsName>, sign: Record -> seq<Record>, qname: DnsName, qtype: nat)
    requires Signable(z) && NamesOf(names, z) && qname in z.records
    ensures var chain := NsecChain(z, Owners(names), sign);
      var exact := ExactEntry(chain, qname);
      exact.Some? && (NsecAccepts(qname, qtype, exact.value.nsec) <==> qtype !in TypesAt(z, qname))
  {
    hide Owners, NsecRecord, NsecAccepts, Covered, StrictlySorted, TypesAt, ZoneOk;
    var owners := Owners(names);
    var chain := NsecChain(z, owners, sign);
    OwnersOk(z, names);
    var j :| 0 <= j < |owners| && owners[j] == qname;
    assert chain[j].owner == qname && chain[j] in chain;
    var exact := ExactEntry(chain, qname).value;
    var i :| 0 <= i < |chain| && chain[i] == exact;
    ChainOwners(z, names, sign, i);
    EntryAccepts(z, owners[i], NextOwner(owners, i), qname, qtype);
  }

  /** The only record types a signer adds to a name's bitmap. */
  predicate SignerAdds(z: Zone, owner: DnsName, t: nat) {
    t == TYPE_RRSIG || t == TYPE_NSEC || (owner == z.origin && t == TYPE_DNSKEY)
  }

  /**
   * Completeness. For every negative lookup - no such name, no such type, an empty non-terminal, a
   * wildcard without the type, or any of them behind a CNAME chase - the records picked are accepted,
   * except exactly when the name exists and the type is one the signer itself adds there.
   */
  lemma NsecComplete(z: Zone, names: seq<DnsName>, sign: Record -> seq<Record>, qname: DnsName, qtype: nat)
    requires Signable(z) && NamesOf(names, z)
    requires forall r, s :: s in sign(r) ==> Type(s) == TYPE_RRSIG
    requires Lookup(z, qname, qtype).Looked? && Lookup(z, qname, qtype).negative
    ensures var chain := NsecChain(z, Owners(names), sign);
      var denial := NsecDenial(chain, qname, Lookup(z, qname, qtype).rcode == RCODE_NXDOMAIN);
      NsecProves(qname, qtype, Filter(denial, (r: Record) => Type(r) == TYPE_NSEC)) <==>
      !(qname in z.records && SignerAdds(z, qname, qtype))
  {
    hide Owners, NsecAccepts, Signable, TypesAt, Lookup, NsecChain, NsecRdata;
    NegativeMeans(z, qname, qtype);
    var owners := Owners(names);
    var chain := NsecChain(z, owners, sign);
    if qname in z.records {
      ExactAccepted(z, names, sign, qname, qtype);
      TypesAtOk(z, qname, qtype);
      EntrySigned(z, owners, sign, ExactEntry(chain, qname).value);
      PickNsec(ExactEntry(chain, qname).value, qname, qtype);
    } else {
      NearestAccepted(z, names, sign, qname, qtype);
      NoExact(z, names, sign, qname);
      EntrySigned(z, owners, sign, Nearest(chain, qname));
      PickNsec(Nearest(chain, qname), qname, qtype);
    }
  }

  lemma OwnersNamed(z: Zone, names: seq<DnsName>)
    requires Signable(z) && NamesOf(names, z)
    ensures forall o :: o in Owners(names) <==> o in z.records
  {
    OwnersOk(z, names);
  }

  lemma NoExact(z: Zone, names: seq<DnsName>, sign: Record -> seq<Record>, qname: DnsName)
    requires Signable(z) && NamesOf(names, z) && qname !in z.records
    ensures ExactEntry(NsecChain(z, Owners(names), sign), qname).None?
  {
    hide Owners, StrictlySorted, NsecRecord, NextOwner, Signable, ExactEntry;
    OwnersNamed(z, names);
    var chain := NsecChain(z, Owners(names), sign);
    forall e | e in chain ensures e.owner != qname {
      var i :| 0 <= i < |chain| && chain[i] == e;
      assert e.owner == Owners(names)[i];
    }
  }

  lemma EntrySigned(z: Zone, owners: seq<DnsName>, sign: Record -> seq<Record>, e: ChainEntry)
    requires e in NsecChain(z, owners, sign)
    ensures e.sigs == sign(e.nsec) && Type(e.nsec) == TYPE_NSEC
  {
    hide NsecRdata, TypesAt;
    var i :| 0 <= i < |owners| && NsecChain(z, owners, sign)[i] == e;
  }

  lemma PickNsec(e: ChainEntry, qname: DnsName, qtype: nat)
    requires Type(e.nsec) == TYPE_NSEC && forall s :: s in e.sigs ==> Type(s) == TYPE_RRSIG
    ensures NsecProves(qname, qtype, Filter(Pick(e), (r: Record) => Type(r) == TYPE_NSEC)) <==>
      NsecAccepts(qname, qtype, e.nsec)
  {
    hide NsecAccepts;
    var nsecs := Filter(Pick(e), (r: Record) => Type(r) == TYPE_NSEC);
    FilterIn(Pick(e), (r: Record) => Type(r) == TYPE_NSEC);
    assert e.nsec in Pick(e) && e.nsec in nsecs;
    assert forall r :: r in nsecs ==> r == e.nsec;
  }

  /**
   * The whole chain. The validator accepts a denial from it for exactly the names that are no owner
   * and, at an owner, the types not listed there.
   */
  lemma NsecExact(z: Zone, names: seq<DnsName>, sign: Record -> seq<Record>, qname: DnsName, qtype: nat)
    requires Signable(z) && NamesOf(names, z)
    ensures NsecProves(qname, qtype, NsecsOf(NsecChain(z, Owners(names), sign))) <==>
      !(qname in z.records && qtype in TypesAt(z, qname))
  {
    hide Owners, NsecAccepts, Signable, TypesAt, StrictlySorted, NsecRecord, ZoneOk;
    var owners := Owners(names);
    var chain := NsecChain(z, owners, sign);
    var nsecs := NsecsOf(chain);
    if qname in z.records {
      ExactAccepted(z, names, sign, qname, qtype);
      InNsecs(chain, ExactEntry(chain, qname).value);
      if qtype in TypesAt(z, qname) {
        forall r | r in nsecs ensures !NsecAccepts(qname, qtype, r) {
          var i :| 0 <= i < |nsecs| && nsecs[i] == r;
          NotAccepted(z, names, sign, i, qname, qtype);
        }
      }
    } else {
      NearestAccepted(z, names, sign, qname, qtype);
      InNsecs(chain, Nearest(chain, qname));
    }
  }

  lemma InNsecs(chain: seq<ChainEntry>, e: ChainEntry)
    requires e in chain
    ensures e.nsec in NsecsOf(chain)
  {
    var i :| 0 <= i < |chain| && chain[i] == e;
    assert NsecsOf(chain)[i] == e.nsec;
  }

  lemma NotAccepted(z: Zone, names: seq<DnsName>, sign: Record -> seq<Record>, i: nat, qname: DnsName, qtype: nat)
    requires Signable(z) && NamesOf(names, z) && i < |Owners(names)|
    requires qname in z.records && qtype in TypesAt(z, qname)
    ensures !NsecAccepts(qname, qtype, NsecChain(z, Owners(names), sign)[i].nsec)
  {
    hide Owners, NsecAccepts, TypesAt, StrictlySorted, NsecRecord, ZoneOk, Covered;
    var owners := Owners(names);
    OwnersOk(z, names);
    ChainOwners(z, names, sign, i);
    EntryAccepts(z, owners[i], NextOwner(owners, i), qname, qtype);
    GapHoldsNoOwner(owners, i, qname);
  }

  /** Soundness. No selection of the zone's own NSEC records denies a record the zone holds. */
  lemma NsecSound(
    z: Zone, names: seq<DnsName>, sign: Record -> seq<Record>, some: seq<Record>, qname: DnsName, held: Record)
    requires Signable(z) && NamesOf(names, z)
    requires forall r :: r in some ==> r in NsecsOf(NsecChain(z, Owners(names), sign))
    requires qname in z.records && held in z.records[qname]
    ensures !NsecProves(qname, Type(held), some)
  {
    hide Owners, NsecAccepts, Signable, TypesAt, NsecChain;
    NsecExact(z, names, sign, qname, Type(held));
    TypesAtOk(z, qname, Type(held));
  }

  /**
   * Past type 2039 soundness fails. A name below the apex whose only record has type 2040 gets an
   * NSEC record with which the validator accepts that this very type is absent.
   */
  lemma NsecForgets(z: Zone, owner: DnsName, next: DnsName, held: Record)
    requires owner in z.records && owner != z.origin && z.records[owner] == [held]
    requires Type(held) == MAX_BITMAP_TYPE + 1 && ValidName(next)
    ensures NsecAccepts(owner, Type(held), NsecRecord(z, owner, next))
  {
    hide Decode, Marked, BitmapField;
    assert Map(Type, [held]) == [2040];
    assert [2040] + [46] + [] + [47] == [2040, 46, 47];
    SortThree();
    NsecReads(z, owner, next);
    BitmapTooLong(2040);
  }

  lemma SortThree()
    ensures Dedup(Sort(NatLe, [2040, 46, 47])) == [46, 47, 2040]
  {
    assert [2040, 46, 47][1..] == [46, 47] && [46, 47][1..] == [47] && [47][1..] == [];
    assert Sort(NatLe, [47]) == [47];
    assert Sort(NatLe, [46, 47]) == [46, 47];
    assert Insert(NatLe, 2040, [47]) == [47, 2040];
    assert Sort(NatLe, [2040, 46, 47]) == [46, 47, 2040];
    assert [46, 47, 2040][1..] == [47, 2040] && [47, 2040][1..] == [2040];
  }

  /** A question for RRSIG at the apex of a one-record zone is answered with no data, and that is not proven. */
  lemma SignerTypeUnproven(sign: Record -> seq<Record>)
    requires forall r, s :: s in sign(r) ==> Type(s) == TYPE_RRSIG
    ensures var z := Tiny([]);
      var found := Lookup(z, APEX, TYPE_RRSIG);
      && found == Looked(RCODE_NOERROR, [], true, None)
      && !NsecProves(APEX, TYPE_RRSIG,
            Filter(NsecDenial(NsecChain(z, Owners([APEX]), sign), APEX, false), (r: Record) => Type(r) == TYPE_NSEC))
  {
    hide NsecProves, NsecDenial, NsecChain, Owners, Lookup, Signable, Tiny;
    var z := Tiny([]);
    TinySignable();
    TinyNegative();
    NsecComplete(z, [APEX], sign, APEX, TYPE_RRSIG);
  }

  lemma TinySignable()
    ensures var z := Tiny([]); Signable(z) && NamesOf([APEX], z) && APEX in z.records && z.origin == APEX
  {
    hide Total, EndsWith;
    TinyOk([]);
    ApexValid();
    var z := Tiny([]);
    assert [z.soa] + [] == [z.soa];
    assert z.records[APEX] == [z.soa];
  }

  lemma TinyNegative()
    ensures Lookup(Tiny([]), APEX, TYPE_RRSIG) == Looked(RCODE_NOERROR, [], true, None)
  {
    var z := Tiny([]);
    assert [z.soa] + [] == [z.soa];
    assert z.records[APEX] == [z.soa];
    FilterNone([z.soa], (r: Record) => TYPE_RRSIG == TYPE_ANY || Type(r) == TYPE_RRSIG);
    assert FirstCname([z.soa]) == None by { assert [z.soa][1..] == []; }
  }

  lemma ApexValid()
    ensures ValidName(APEX) && WireLen(APEX) == 3
  {
    assert APEX[1..] == [];
  }
}
