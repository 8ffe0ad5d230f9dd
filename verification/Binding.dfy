/**
 * What a signature binds: the signed bytes determine the record set, up to the order of its records
 * and their live TTLs, because canonical forms read back one by one.
 */
module Binding {
  import opened Bytes
  import opened Names
  import opened Messages
  import opened Codec
  import opened Orders
  import opened Rrsigs

  lemma CanonSoaReads(buf: Bytes, p: nat, s: Soa)
    requires WfRData(SoaData(s)) && Occurs(buf, p, CanonRData(SoaData(s)))
    ensures var n := |CanonRData(SoaData(s))|;
      0 < n < 65536 && ReadRData(TYPE_SOA, buf, p, n) == Got(SoaData(s), p + n)
  {
    hide Decode, PlainWire, ReadSoa, ValidName, SoaTail, ReadTxt, ReadSrv, ReadMx, ReadIp, MapName;
    var a, b := PlainWire(s.mname), PlainWire(s.rname);
    OccursSplit(buf, p, a + b, SoaTail(s));
    OccursSplit(buf, p, a, b);
    PlainRoundTrip(buf, p, s.mname);
    PlainRoundTrip(buf, p + |a|, s.rname);
    NameFits(s.mname);
    NameFits(s.rname);
    SoaReads(buf, p, p + |a|, p + |a| + |b|, s, true, true);
  }

  lemma NameFits(n: DnsName)
    requires ValidName(n)
    ensures 0 < |PlainWire(n)| <= 255
  {
    PlainWireLen(n);
  }

  lemma CanonMxReads(buf: Bytes, p: nat, rd: RData)
    requires rd.Mx? && WfRData(rd) && Occurs(buf, p, CanonRData(rd))
    ensures var n := |CanonRData(rd)|; 0 < n < 65536 && ReadRData(TYPE_MX, buf, p, n) == Got(rd, p + n)
  {
    hide Decode, PlainWire, ReadSoa, ValidName, ReadTxt, ReadSrv, ReadIp, MapName;
    OccursSplit(buf, p, Be16(rd.preference), PlainWire(rd.exchange));
    ReadU16Of(buf, p, rd.preference);
    PlainRoundTrip(buf, p + 2, rd.exchange);
    NameFits(rd.exchange);
  }

  lemma CanonNameReads(buf: Bytes, p: nat, rd: RData)
    requires (rd.Ns? || rd.Cname? || rd.Ptr?) && WfRData(rd) && Occurs(buf, p, CanonRData(rd))
    ensures var n := |CanonRData(rd)|; 0 < n < 65536 && ReadRData(RType(rd), buf, p, n) == Got(rd, p + n)
  {
    hide Decode, PlainWire, ReadSoa, ValidName, ReadTxt, ReadSrv, ReadIp, ReadMx;
    var name := if rd.Ns? then rd.host else if rd.Cname? then rd.alias else rd.ptr;
    PlainRoundTrip(buf, p, name);
    NameFits(name);
  }

  lemma CanonRDataReads(buf: Bytes, p: nat, rd: RData)
    requires WfRData(rd) && Occurs(buf, p, CanonRData(rd))
    ensures var n := |CanonRData(rd)|; n < 65536 && ReadRData(RType(rd), buf, p, n) == Got(rd, p + n)
  {
    hide ReadTyped, PlainWire, SoaTail;
    match rd {
      case SoaData(s) => CanonSoaReads(buf, p, s);
      case Mx(_, _) => CanonMxReads(buf, p, rd);
      case Ns(_) => CanonNameReads(buf, p, rd);
      case Cname(_) => CanonNameReads(buf, p, rd);
      case Ptr(_) => CanonNameReads(buf, p, rd);
      case _ =>
        assert buf[..p] + CanonRData(rd) <= buf;
        FlatNext(buf[..p], map[], rd, buf);
    }
  }

  /** A canonical record reads back as itself with the original TTL. */
  lemma CanonReads(buf: Bytes, p: nat, r: Record, ttl: nat)
    requires WfRecord(r) && ttl < U32 && Occurs(buf, p, CanonWire(r, ttl))
    ensures ReadEntry(buf, p) == Got(Rr(r.(ttl := ttl)), p + |CanonWire(r, ttl)|)
  {
    hide Decode, PlainWire, CanonRData, ReadRData, ReadEntry, Fixed, Be16, ValidName, WfRData;
    var rd := CanonRData(r.rdata);
    var fixed, len := Fixed(RType(r.rdata), r.class_, ttl), Be16(|rd|);
    var name := PlainWire(r.name);
    assert CanonWire(r, ttl) == name + (fixed + len) + rd;
    OccursSplit(buf, p, name + (fixed + len), rd);
    OccursSplit(buf, p, name, fixed + len);
    PlainRoundTrip(buf, p, r.name);
    CanonRDataReads(buf, p + |name| + 10, r.rdata);
    RecordReads(buf, p, p + |name|, r.(ttl := ttl), |rd|, true, true);
  }

  // ------------------------------------------------------------ lists of them

  /** The record behind a canonical form, with its TTL blanked. */
  function Recovered(wire: Bytes): Record {
    match ReadEntry(wire, 0)
    case Got(Rr(r), _) => r.(ttl := 0)
    case _ => Record([], 0, 0, Unknown(0, []))
  }

  ghost predicate AllCanonical(parts: seq<Bytes>, ttl: nat) {
    forall w :: w in parts ==> exists r :: WfRecord(r) && w == CanonWire(r, ttl)
  }

  lemma FirstPart(parts: seq<Bytes>, ttl: nat)
    requires parts != [] && AllCanonical(parts, ttl) && ttl < U32
    ensures ReadEntry(Concat(parts), 0).Got? && ReadEntry(Concat(parts), 0).pos == |parts[0]| > 0
  {
    hide ReadEntry, CanonWire, WfRecord;
    assert parts[0] in parts;
    var r :| WfRecord(r) && parts[0] == CanonWire(r, ttl);
    assert Concat(parts)[0..|parts[0]|] == parts[0];
    CanonReads(Concat(parts), 0, r, ttl);
    CanonNonEmpty(r, ttl);
  }

  lemma CanonNonEmpty(r: Record, ttl: nat)
    ensures |CanonWire(r, ttl)| > 0
  {
  }

  lemma {:induction false} ConcatInjective(a: seq<Bytes>, b: seq<Bytes>, ttl: nat)
    requires AllCanonical(a, ttl) && AllCanonical(b, ttl) && ttl < U32 && Concat(a) == Concat(b)
    ensures a == b
  {
    hide ReadEntry, AllCanonical;
    if a != [] && b != [] {
      FirstPart(a, ttl);
      FirstPart(b, ttl);
      var whole := Concat(a);
      assert a[0] == whole[..|a[0]|] && b[0] == whole[..|b[0]|];
      assert Concat(a[1..]) == whole[|a[0]|..] == Concat(b[1..]);
      AllCanonicalTail(a, ttl);
      AllCanonicalTail(b, ttl);
      ConcatInjective(a[1..], b[1..], ttl);
      assert a == [a[0]] + a[1..] && b == [b[0]] + b[1..];
    } else if a != [] {
      FirstPart(a, ttl);
    } else if b != [] {
      FirstPart(b, ttl);
    }
  }

  lemma AllCanonicalTail(a: seq<Bytes>, ttl: nat)
    requires a != [] && AllCanonical(a, ttl)
    ensures AllCanonical(a[1..], ttl)
  {
    hide CanonWire, WfRecord;
    forall w | w in a[1..] ensures exists r :: WfRecord(r) && w == CanonWire(r, ttl) {
      assert w in a;
    }
  }

  function Wires(rrset: seq<Record>, ttl: nat): seq<Bytes> { Map((r: Record) => CanonWire(r, ttl), rrset) }

  lemma RecoveredAll(rrset: seq<Record>, ttl: nat)
    requires WfRecords(rrset) && ttl < U32
    ensures Map(Recovered, Wires(rrset, ttl)) == Stripped(rrset)
  {
    hide ReadEntry, CanonWire, WfRecord;
    forall i | 0 <= i < |rrset| ensures Recovered(Wires(rrset, ttl)[i]) == Stripped(rrset)[i] {
      var w := CanonWire(rrset[i], ttl);
      assert w[0..|w|] == w;
      CanonReads(w, 0, rrset[i], ttl);
    }
  }

  lemma CanonicalAll(rrset: seq<Record>, ttl: nat)
    requires WfRecords(rrset)
    ensures multiset(Canonical(rrset, ttl)) == multiset(Wires(rrset, ttl))
    ensures AllCanonical(Canonical(rrset, ttl), ttl)
  {
    hide CanonWire, WfRecord, TotalOrder;
    BytesLeTotal();
    SortOk(BytesLe, Wires(rrset, ttl));
    forall w | w in Canonical(rrset, ttl) ensures exists r :: WfRecord(r) && w == CanonWire(r, ttl) {
      assert w in multiset(Canonical(rrset, ttl));
      assert w in Wires(rrset, ttl);
      var i :| 0 <= i < |rrset| && w == Wires(rrset, ttl)[i];
      assert WfRecord(rrset[i]) && w == CanonWire(rrset[i], ttl);
    }
  }

  /** Two rrsets have the same signed bytes exactly when they agree up to order and live TTLs. */
  lemma SignedBytesBind(f: Rrsig, owner: DnsName, a: seq<Record>, b: seq<Record>)
    requires WfRecords(a) && WfRecords(b) && f.originalTtl < U32
    requires f.labels as nat >= |owner|
    requires (forall r :: r in a ==> r.name == owner) && (forall r :: r in b ==> r.name == owner)
    ensures SignedData(f, a) == SignedData(f, b) <==> multiset(Stripped(a)) == multiset(Stripped(b))
  {
    hide SignedData, Canonical, Stripped, WfRecord, AllCanonical, Wires, Recovered, Concat;
    var ttl := f.originalTtl;
    SignedDataIs(f, owner, a);
    SignedDataIs(f, owner, b);
    if multiset(Stripped(a)) == multiset(Stripped(b)) {
      CanonicalAgrees(a, b, ttl);
    }
    if SignedData(f, a) == SignedData(f, b) {
      CanonicalAll(a, ttl);
      CanonicalAll(b, ttl);
      CancelPrefix(f.prefix, Concat(Canonical(a, ttl)), Concat(Canonical(b, ttl)));
      ConcatInjective(Canonical(a, ttl), Canonical(b, ttl), ttl);
      MapPerm(Recovered, Wires(a, ttl), Wires(b, ttl));
      RecoveredAll(a, ttl);
      RecoveredAll(b, ttl);
    }
  }

  lemma CancelPrefix(p: Bytes, a: Bytes, b: Bytes)
    requires p + a == p + b
    ensures a == b
  {
    assert a == (p + a)[|p|..] && b == (p + b)[|p|..];
  }

  /** Under this key a signature is accepted on no data but its own. */
  ghost predicate Exacting(check: Check, dnskey: Bytes, sign: Bytes -> Bytes) {
    |dnskey| >= 4 ==> forall data, d :: check(dnskey[3], dnskey[4..], data, sign(d)) ==> data == d
  }

  /** Then a made signature verifies over no rrset but its own, up to order and live TTLs. */
  lemma RrsigRejects(
    check: Check, k: Key, sign: Bytes -> Bytes, owner: DnsName, rtype: nat, rrset: seq<Record>,
    inception: nat, expiration: nat, shown: seq<Record>, dnskey: Bytes)
    requires KeyOk(k) && ValidName(owner) && rtype < 65536 && inception < U32 && expiration < U32
    requires Exacting(check, dnskey, sign) && WfRecords(rrset) && WfRecords(shown) && rrset != []
    requires (forall r :: r in rrset ==> r.name == owner) && (forall r :: r in shown ==> r.name == owner)
    requires VerifyRrsig(check, shown, SignRrset(k, sign, owner, rtype, rrset, inception, expiration), dnskey)
    ensures multiset(Stripped(shown)) == multiset(Stripped(rrset))
  {
    hide Canonical, SignedData, RrsigPrefix, ReadRrsig, KeyTag, Concat, Stripped, WfRData, ValidName, KeyOk;
    var ttl := rrset[0].ttl;
    var prefix := RrsigPrefix(k, owner, rtype, ttl, inception, expiration);
    var data := prefix + Concat(Canonical(rrset, ttl));
    RrsigReads(k, owner, rtype, ttl, inception, expiration, sign(data));
    var f := ParseRrsig(prefix + sign(data)).value;
    OwnerLabels(owner);
    SignedDataIs(f, owner, rrset);
    SignedBytesBind(f, owner, shown, rrset);
  }

  lemma OwnerLabels(owner: DnsName)
    requires ValidName(owner)
    ensures |owner| < 128
  {
    LabelsFit(owner);
  }
}
