/**
 * Signatures over record sets: what the signer signs, what the verifier rebuilds, and the key tag
 * (RFC 4034). The signature scheme is a parameter.
 */
module Rrsigs {
  import opened Bytes
  import opened Names
  import opened Messages
  import opened Orders

  /** `verify_signature(algorithm, public, data, signature)`. */
  type Check = (Byte, Bytes, Bytes, Bytes) -> bool

  datatype Key = Key(algorithm: Byte, flags: nat, public: Bytes, signer: DnsName, keyTag: nat)

  datatype Rrsig = Rrsig(
    typeCovered: nat, algorithm: Byte, labels: Byte, originalTtl: nat, expiration: nat, inception: nat,
    keyTag: nat, signer: DnsName, prefix: Bytes, signature: Bytes)

  function DnskeyRdata(k: Key): (r: Bytes)
    ensures |r| == 4 + |k.public|
  {
    Be16(k.flags) + [3, k.algorithm] + k.public
  }

  // ----------------------------------------------------------------- key tag

  function TagSum(rdata: Bytes): nat {
    if rdata == [] then 0
    else
      var i := |rdata| - 1;
      TagSum(rdata[..i]) + if i % 2 == 0 then rdata[i] as nat * 256 else rdata[i] as nat
  }

  function KeyTag(rdata: Bytes): (t: nat)
    ensures t < 65536
  {
    var ac := TagSum(rdata);
    (ac + ac / 65536 % 65536) % 65536
  }

  lemma {:induction false} TagSumBound(rdata: Bytes)
    ensures TagSum(rdata) <= (|rdata| + 1) / 2 * 65280 + |rdata| / 2 * 255
  {
    if rdata != [] {
      TagSumBound(rdata[..|rdata| - 1]);
    }
  }

  /** The 32-bit accumulator never overflows on rdata that fits a record. */
  method ComputeKeyTag(rdata: Bytes) returns (t: nat)
    requires |rdata| < 65536
    ensures t == KeyTag(rdata)
  {
    var ac: nat := 0;
    for i := 0 to |rdata|
      invariant ac == TagSum(rdata[..i])
    {
      assert rdata[..i + 1][..i] == rdata[..i];
      ac := ac + if i % 2 == 0 then rdata[i] as nat * 256 else rdata[i] as nat;
      TagSumBound(rdata[..i + 1]);
      assert ac < U32 - 65536;
    }
    assert rdata[..|rdata|] == rdata;
    ac := ac + ac / 65536 % 65536;
    t := ac % 65536;
  }

  // ---------------------------------------------------------- canonical form

  /** `RData::encode_canonical`: names in full. */
  function CanonRData(rd: RData): Bytes {
    match rd
    case Ns(n) => PlainWire(n)
    case Cname(n) => PlainWire(n)
    case Ptr(n) => PlainWire(n)
    case SoaData(s) => PlainWire(s.mname) + PlainWire(s.rname) + SoaTail(s)
    case Mx(preference, exchange) => Be16(preference) + PlainWire(exchange)
    case Srv(priority, weight, port, target) => SrvHead(priority, weight, port) + PlainWire(target)
    case _ => RDataWire(0, map[], rd).bytes
  }

  /** `Record::encode_canonical`: owner in full and the original TTL. */
  function CanonWire(r: Record, ttl: nat): Bytes {
    var rd := CanonRData(r.rdata);
    PlainWire(r.name) + Fixed(RType(r.rdata), r.class_, ttl) + Be16(|rd|) + rd
  }

  function Concat(parts: seq<Bytes>): Bytes {
    if parts == [] then [] else parts[0] + Concat(parts[1..])
  }

  function Canonical(rrset: seq<Record>, ttl: nat): seq<Bytes> {
    Sort(BytesLe, Map((r: Record) => CanonWire(r, ttl), rrset))
  }

  // ----------------------------------------------------------------- signing

  function RrsigPrefix(k: Key, owner: DnsName, rtype: nat, ttl: nat, inception: nat, expiration: nat): Bytes {
    Be16(rtype) + [k.algorithm, (|owner| % 256) as Byte] + Be32(ttl) + Be32(expiration) + Be32(inception) +
    Be16(k.keyTag) + PlainWire(k.signer)
  }

  /** `sign_rrset`: the rdata of the RRSIG record. */
  function SignRrset(
    k: Key, sign: Bytes -> Bytes, owner: DnsName, rtype: nat, rrset: seq<Record>, inception: nat, expiration: nat): Bytes
    requires rrset != []
  {
    var prefix := RrsigPrefix(k, owner, rtype, rrset[0].ttl, inception, expiration);
    prefix + sign(prefix + Concat(Canonical(rrset, rrset[0].ttl)))
  }

  // --------------------------------------------------------------- verifying

  function ReadRrsig(rdata: Bytes): Read<Rrsig> {
    var (typeCovered, p1) :- ReadU16(rdata, 0);
    var (algorithm, p2) :- ReadU8(rdata, p1);
    var (labels, p3) :- ReadU8(rdata, p2);
    var (originalTtl, p4) :- ReadU32(rdata, p3);
    var (expiration, p5) :- ReadU32(rdata, p4);
    var (inception, p6) :- ReadU32(rdata, p5);
    var (keyTag, p7) :- ReadU16(rdata, p6);
    var (signer, p8) :- Decode(rdata, p7);
    Got(Rrsig(typeCovered, algorithm as Byte, labels as Byte, originalTtl, expiration, inception, keyTag, signer,
      rdata[..p8], rdata[p8..]), p8)
  }

  function ParseRrsig(rdata: Bytes): Option<Rrsig> {
    match ReadRrsig(rdata)
    case Got(f, _) => Some(f)
    case Fail(_) => None
  }

  /** The owner the signature was made for: `*.suffix` when it counts fewer labels than the name has. */
  function WildcardOwner(owner: DnsName, labels: Byte): DnsName {
    if labels as nat >= |owner| then owner else [STAR] + owner[|owner| - labels as nat..]
  }

  function SignedData(f: Rrsig, rrset: seq<Record>): Bytes {
    f.prefix + Concat(Canonical(Map((r: Record) => r.(name := WildcardOwner(r.name, f.labels)), rrset), f.originalTtl))
  }

  /** `verify_rrsig`; `parse_dnskey` is the length test and the algorithm octet. */
  predicate VerifyRrsig(check: Check, rrset: seq<Record>, rrsig: Bytes, dnskey: Bytes) {
    match ParseRrsig(rrsig)
    case None => false
    case Some(f) =>
      && |dnskey| >= 4
      && f.algorithm == dnskey[3]
      && f.keyTag == KeyTag(dnskey)
      && check(dnskey[3], dnskey[4..], SignedData(f, rrset), f.signature)
  }

  method BuildSignedData(f: Rrsig, rrset: seq<Record>) returns (data: Bytes)
    ensures data == SignedData(f, rrset)
  {
    hide CanonWire, WildcardOwner;
    var collapsed := Map((r: Record) => r.(name := WildcardOwner(r.name, f.labels)), rrset);
    var canon := Sort(BytesLe, Map((r: Record) => CanonWire(r, f.originalTtl), collapsed));
    data := f.prefix;
    for i := 0 to |canon|
      invariant data + Concat(canon[i..]) == f.prefix + Concat(canon)
    {
      assert canon[i..][1..] == canon[i + 1..];
      assert data + (canon[i] + Concat(canon[i + 1..])) == (data + canon[i]) + Concat(canon[i + 1..]);
      data := data + canon[i];
    }
    assert data + [] == data;
  }

  // --------------------------------------------------------------- agreement

  /** The rrset with its live TTLs blanked: what survives transport and caching. */
  function Stripped(rrset: seq<Record>): seq<Record> { Map((r: Record) => r.(ttl := 0), rrset) }

  lemma CanonicalStripped(rrset: seq<Record>, ttl: nat)
    ensures Canonical(rrset, ttl) == Canonical(Stripped(rrset), ttl)
  {
    var f := (r: Record) => CanonWire(r, ttl);
    assert Map(f, rrset) == Map(f, Stripped(rrset));
  }

  lemma CanonicalAgrees(a: seq<Record>, b: seq<Record>, ttl: nat)
    requires multiset(Stripped(a)) == multiset(Stripped(b))
    ensures Canonical(a, ttl) == Canonical(b, ttl)
  {
    hide CanonWire, TotalOrder;
    CanonicalStripped(a, ttl);
    CanonicalStripped(b, ttl);
    BytesLeTotal();
    var f := (r: Record) => CanonWire(r, ttl);
    MapPerm(f, Stripped(a), Stripped(b));
    SortStable(BytesLe, Map(f, Stripped(a)), Map(f, Stripped(b)));
  }

  lemma {:induction false} LabelsFit(n: DnsName)
    requires forall i :: 0 <= i < |n| ==> ValidLabel(n[i])
    ensures 2 * |n| + 1 <= WireLen(n)
  {
    if n != [] {
      assert ValidLabel(n[0]);
      forall i | 0 <= i < |n[1..]| ensures ValidLabel(n[1..][i]) {
        assert n[1..][i] == n[i + 1];
      }
      LabelsFit(n[1..]);
    }
  }

  predicate KeyOk(k: Key) { ValidName(k.signer) && k.keyTag == KeyTag(DnskeyRdata(k)) }

  lemma RrsigReads(k: Key, owner: DnsName, rtype: nat, ttl: nat, inception: nat, expiration: nat, signature: Bytes)
    requires KeyOk(k) && ValidName(owner)
    requires rtype < 65536 && ttl < U32 && inception < U32 && expiration < U32
    ensures var prefix := RrsigPrefix(k, owner, rtype, ttl, inception, expiration);
      ReadRrsig(prefix + signature) ==
      Got(Rrsig(rtype, k.algorithm, (|owner| % 256) as Byte, ttl, expiration, inception, k.keyTag, k.signer,
        prefix, signature), |prefix|)
  {
    hide KeyTag, Decode, Be16, Be32, RrsigPrefix, PlainWire, ReadU16, ReadU32, ValidName;
    var prefix := RrsigPrefix(k, owner, rtype, ttl, inception, expiration);
    var rdata := prefix + signature;
    PrefixParts(k, owner, rtype, ttl, inception, expiration, signature);
    ReadU16Of(rdata, 0, rtype);
    ReadU32Of(rdata, 4, ttl);
    ReadU32Of(rdata, 8, expiration);
    ReadU32Of(rdata, 12, inception);
    ReadU16Of(rdata, 16, k.keyTag);
    PlainRoundTrip(rdata, 18, k.signer);
    assert rdata[..|prefix|] == prefix && rdata[|prefix|..] == signature;
  }

  lemma PrefixParts(k: Key, owner: DnsName, rtype: nat, ttl: nat, inception: nat, expiration: nat, signature: Bytes)
    ensures var prefix := RrsigPrefix(k, owner, rtype, ttl, inception, expiration);
      var rdata := prefix + signature;
      && |prefix| == 18 + |PlainWire(k.signer)|
      && Occurs(rdata, 0, Be16(rtype)) && rdata[2] == k.algorithm && rdata[3] == (|owner| % 256) as Byte
      && Occurs(rdata, 4, Be32(ttl)) && Occurs(rdata, 8, Be32(expiration)) && Occurs(rdata, 12, Be32(inception))
      && Occurs(rdata, 16, Be16(k.keyTag)) && Occurs(rdata, 18, PlainWire(k.signer))
  {
    hide Be16, Be32, PlainWire;
    var a, b := Be16(rtype), [k.algorithm, (|owner| % 256) as Byte];
    var c, d, e, f, g := Be32(ttl), Be32(expiration), Be32(inception), Be16(k.keyTag), PlainWire(k.signer);
    var rdata := a + b + c + d + e + f + g + signature;
    assert rdata[0..|rdata|] == rdata;
    OccursSplit(rdata, 0, a + b + c + d + e + f + g, signature);
    OccursSplit(rdata, 0, a + b + c + d + e + f, g);
    OccursSplit(rdata, 0, a + b + c + d + e, f);
    OccursSplit(rdata, 0, a + b + c + d, e);
    OccursSplit(rdata, 0, a + b + c, d);
    OccursSplit(rdata, 0, a + b, c);
    OccursSplit(rdata, 0, a, b);
    assert rdata[2..4] == b;
    assert rdata[2] == rdata[2..4][0] && rdata[3] == rdata[2..4][1];
  }

  lemma SignedDataIs(f: Rrsig, owner: DnsName, rrset: seq<Record>)
    requires f.labels as nat >= |owner| && forall r :: r in rrset ==> r.name == owner
    ensures SignedData(f, rrset) == f.prefix + Concat(Canonical(rrset, f.originalTtl))
  {
    hide CanonWire, Canonical;
    assert Map((r: Record) => r.(name := WildcardOwner(r.name, f.labels)), rrset) == rrset;
  }

  lemma StrippedNamed(a: seq<Record>, b: seq<Record>, owner: DnsName)
    requires multiset(Stripped(a)) == multiset(Stripped(b)) && forall r :: r in a ==> r.name == owner
    ensures forall r :: r in b ==> r.name == owner
  {
    forall r | r in b ensures r.name == owner {
      var i :| 0 <= i < |b| && b[i] == r;
      assert Stripped(b)[i] in multiset(Stripped(b));
      assert Stripped(b)[i] in Stripped(a);
    }
  }

  /**
   * The verifier rebuilds exactly the signed bytes from the rrset in any order and with any TTLs, so
   * it accepts under the published key.
   */
  lemma RrsigAgrees(
    check: Check, k: Key, sign: Bytes -> Bytes, owner: DnsName, rtype: nat, rrset: seq<Record>,
    inception: nat, expiration: nat, presented: seq<Record>)
    requires KeyOk(k) && ValidName(owner) && rtype < 65536 && inception < U32 && expiration < U32
    requires forall data :: check(k.algorithm, k.public, data, sign(data))
    requires rrset != [] && rrset[0].ttl < U32 && forall r :: r in rrset ==> r.name == owner
    requires multiset(Stripped(presented)) == multiset(Stripped(rrset))
    ensures var rdata := SignRrset(k, sign, owner, rtype, rrset, inception, expiration);
      && ParseRrsig(rdata).Some?
      && ParseRrsig(rdata).value.typeCovered == rtype && ParseRrsig(rdata).value.signer == k.signer
      && rdata == ParseRrsig(rdata).value.prefix + sign(SignedData(ParseRrsig(rdata).value, presented))
      && VerifyRrsig(check, presented, rdata, DnskeyRdata(k))
  {
    hide Canonical, SignedData, RrsigPrefix, ReadRrsig, KeyTag, Concat, Stripped;
    var ttl := rrset[0].ttl;
    var prefix := RrsigPrefix(k, owner, rtype, ttl, inception, expiration);
    var data := prefix + Concat(Canonical(rrset, ttl));
    var rdata := prefix + sign(data);
    RrsigReads(k, owner, rtype, ttl, inception, expiration, sign(data));
    var f := ParseRrsig(rdata).value;
    LabelsFit(owner);
    StrippedNamed(rrset, presented, owner);
    SignedDataIs(f, owner, presented);
    CanonicalAgrees(presented, rrset, ttl);
    assert DnskeyRdata(k)[4..] == k.public;
  }
}
