/** Signed denials: the authority sections of a signed zone's negative answers verify. */
module SignedDenials {
  import opened Bytes
  import opened Names
  import opened Messages
  import opened Seqs
  import opened Orders
  import opened Zones
  import opened Rrsigs
  import opened Base32
  import opened Nsecs
  import opened Nsec3s
  import opened Trust
  import opened Verdicts
  import opened Denials
  import opened SignedZones

  // ------------------------------------------------------------ negative answers

  /** Denial records of type `t`, each alone under its owner, with signatures over each by itself. */
  ghost predicate SignedDenial(ring: Keyring, denial: seq<Record>, t: nat) {
    && (forall r :: r in denial && Type(r) != TYPE_RRSIG ==>
          Type(r) == t && GoodRrset([r]) && SetOf(denial, r.name, t) == [r])
    && (forall s :: s in denial && Type(s) == TYPE_RRSIG ==>
          exists r :: r in denial && Type(r) == t && s in SignAll(ring, Zsks(ring), [r]))
  }

  lemma SoaShown(z: Zone, soaSigs: seq<Record>, denial: seq<Record>)
    requires ZoneOk(z) && AllSigs(soaSigs) && forall r :: r in denial ==> Type(r) != TYPE_SOA
    ensures SetOf(Authority(z, soaSigs, denial), z.origin, TYPE_SOA) == [z.soa]
    ensures SetOf(Node(z.records, z.origin), z.origin, TYPE_SOA) == [z.soa]
  {
    var inSet := (r: Record) => r.name == z.origin && Type(r) == TYPE_SOA;
    FilterAppend([z.soa], soaSigs + denial, inSet);
    FilterNone(soaSigs + denial, inSet);
    assert Authority(z, soaSigs, denial) == [z.soa] + (soaSigs + denial);
    assert Filter([z.soa], inSet) == [z.soa];
    assert NodeOk(z.origin, z.origin, z.records[z.origin]);
    FilterSame(z.records[z.origin], inSet, IsSoa);
  }

  lemma DenialShown(z: Zone, soaSigs: seq<Record>, denial: seq<Record>, owner: DnsName, t: nat)
    requires IsSoa(z.soa) && AllSigs(soaSigs) && t != TYPE_SOA && t != TYPE_RRSIG
    ensures SetOf(Authority(z, soaSigs, denial), owner, t) == SetOf(denial, owner, t)
  {
    var inSet := (r: Record) => r.name == owner && Type(r) == t;
    FilterAppend([z.soa] + soaSigs, denial, inSet);
    FilterNone([z.soa] + soaSigs, inSet);
    assert [] + SetOf(denial, owner, t) == SetOf(denial, owner, t);
  }

  /** The authority section of a signed negative answer verifies. */
  lemma AuthoritySection(e: Env, sz: SignedZone, denial: seq<Record>, t: nat)
    requires Fit(sz.zone) && Honest(e, sz.ring, sz.zone.origin) && SignedDenial(sz.ring, denial, t)
    requires t == TYPE_NSEC || t == TYPE_NSEC3
    ensures var rs := Authority(sz.zone, SoaSigs(sz), denial);
      && SignedSection(sz.ring, rs) && exists s :: s in rs && Type(s) == TYPE_RRSIG
  {
    hide Honest, SetOf, RrsigsFor, GoodRrset, SignAll, ZoneOk, ValidName, Stripped, MadeBy, Groups;
    var z, ring := sz.zone, sz.ring;
    var soaSigs := SoaSigs(sz);
    var rs := Authority(z, soaSigs, denial);
    RrsigsAreSigs(sz, (z.origin, TYPE_SOA));
    SoaInZone(z);
    SoaShown(z, soaSigs, denial);
    SoaStored(sz);
    forall s | s in rs && Type(s) == TYPE_RRSIG ensures exists k, rrset :: SignedOver(ring, rs, s, k, rrset) {
      if s in soaSigs {
        RrsigsMade(sz, (z.origin, TYPE_SOA), s);
        var k :| MadeBy(ring, s, k, [z.soa]);
        assert SignedOver(ring, rs, s, k, [z.soa]);
      } else {
        var r :| r in denial && Type(r) == t && s in SignAll(ring, Zsks(ring), [r]);
        DenialShown(z, soaSigs, denial, r.name, t);
        DenialSig(ring, rs, r, s);
      }
    }
    var s := FirstSig(e, sz, z.soa);
    assert s in rs;
  }

  function SoaSigs(sz: SignedZone): seq<Record> { RrsigsFor(sz, (sz.zone.origin, TYPE_SOA)) }

  lemma SoaStored(sz: SignedZone)
    requires Fit(sz.zone)
    ensures Stored(sz, (sz.zone.origin, TYPE_SOA)) == [sz.zone.soa]
  {
    var z := sz.zone;
    SoaShown(z, [], []);
    if sz.nsec3.Some? {
      SetMore(z.records[z.origin], ParamRecord(z, sz.nsec3.value), z.origin, TYPE_SOA);
    }
  }

  /** One more record of another type leaves a set as it was. */
  lemma SetMore(rs: seq<Record>, r: Record, owner: DnsName, t: nat)
    requires Type(r) != t
    ensures SetOf(rs + [r], owner, t) == SetOf(rs, owner, t)
  {
    var inSet := (x: Record) => x.name == owner && Type(x) == t;
    FilterAppend(rs, [r], inSet);
    FilterNone([r], inSet);
    assert Filter(rs, inSet) + [] == Filter(rs, inSet);
  }

  lemma DenialSig(ring: Keyring, rs: seq<Record>, r: Record, s: Record)
    requires GoodRrset([r]) && s in SignAll(ring, Zsks(ring), [r]) && SetOf(rs, r.name, Type(r)) == [r]
    ensures exists k, rrset :: SignedOver(ring, rs, s, k, rrset)
  {
    hide SetOf, Stripped, GoodRrset, SignRrset, Zsks;
    KeysUsed(ring);
    SignIn(ring, Zsks(ring), [r], s);
    var k :| k in Zsks(ring) && s == SigRecord(ring, k, [r]);
    assert SignedOver(ring, rs, s, k, [r]);
  }

  lemma {:induction false} OnlyOne<T>(s: seq<T>, p: T -> bool, x: T)
    requires p(x) && multiset(s)[x] == 1 && forall y :: y in s && p(y) ==> y == x
    ensures Filter(s, p) == [x]
    decreases |s|
  {
    assert x in s;
    assert s == [s[0]] + s[1..];
    if s[0] == x {
      assert x !in multiset(s[1..]);
      FilterNone(s[1..], p);
    } else {
      OnlyOne(s[1..], p, x);
    }
  }

  lemma Alone(denial: seq<Record>, r: Record)
    requires multiset(denial)[r] == 1
    requires forall x :: x in denial && x.name == r.name && Type(x) == Type(r) ==> x == r
    ensures SetOf(denial, r.name, Type(r)) == [r]
  {
    OnlyOne(denial, (x: Record) => x.name == r.name && Type(x) == Type(r), r);
  }

  /** One denial record with its signatures. */
  lemma OneDenied(ring: Keyring, r: Record, t: nat)
    requires Type(r) == t != TYPE_RRSIG && GoodRrset([r])
    ensures SignedDenial(ring, [r] + SignAll(ring, Zsks(ring), [r]), t)
  {
    hide SetOf, GoodRrset, SignAll;
    var sigs := SignAll(ring, Zsks(ring), [r]);
    forall s | s in sigs ensures Type(s) == TYPE_RRSIG {
      SignIn(ring, Zsks(ring), [r], s);
    }
    assert r !in multiset(sigs);
    assert multiset([r] + sigs)[r] == 1;
    Alone([r] + sigs, r);
  }

  lemma NsecGood(z: Zone, names: seq<DnsName>, ring: Keyring, entry: ChainEntry)
    requires Signable(z) && Fit(z) && NamesOf(names, z) && entry in NsecChain(z, Owners(names), SignOne(ring))
    ensures Type(entry.nsec) == TYPE_NSEC && GoodRrset([entry.nsec]) && entry.sigs == SignAll(ring, Zsks(ring), [entry.nsec])
  {
    hide Owners, NsecRdata, TypesAt, ValidName, StrictlySorted, SignAll;
    var chain := NsecChain(z, Owners(names), SignOne(ring));
    var i :| 0 <= i < |chain| && chain[i] == entry;
    OwnersOk(z, names);
    SoaInZone(z);
  }

  lemma ChainThere(z: Zone, names: seq<DnsName>, ring: Keyring)
    requires Signable(z) && NamesOf(names, z)
    ensures NsecChain(z, Owners(names), SignOne(ring)) != []
  {
    OwnersOk(z, names);
  }

  lemma SignsSigs(ring: Keyring)
    ensures forall r, s :: s in SignOne(ring)(r) ==> Type(s) == TYPE_RRSIG
  {
    hide SignRrset;
    forall r, s | s in SignOne(ring)(r) ensures Type(s) == TYPE_RRSIG {
      SignIn(ring, Zsks(ring), [r], s);
    }
  }

  // ---------------------------------------------------------------- NSEC3

  lemma {:induction false} DedupOnce(rs: seq<Record>, out: seq<Record>, x: Record)
    requires forall y :: multiset(out)[y] <= 1
    ensures multiset(DedupRecords(rs, out))[x] <= 1
    decreases |rs|
  {
    if rs != [] {
      DedupOnce(rs[1..], if rs[0] in out then out else out + [rs[0]], x);
    }
  }

  /** Every record of the denial comes with the node it was drawn from. */
  lemma DrawnFrom(
    hash: Hash, p: Params, nodes: seq<Node3>, names: seq<DnsName>, apex: DnsName, qname: DnsName, nx: bool, r: Record)
    returns (n: Node3)
    requires r in Nsec3Denial(hash, p, nodes, names, apex, qname, nx)
    ensures n in nodes && r in Emit(n) && n.record in Nsec3Denial(hash, p, nodes, names, apex, qname, nx)
  {
    hide ClosestEncloser, NextCloser, PrependStar, NodeCovers;
    var ce := ClosestEncloser(qname, names, apex, 0);
    var star := PrependStar(ce);
    var a, b, c := Matching(nodes, hash(if nx then ce else qname, p)), Covering(nodes, hash(NextCloser(qname, ce), p)),
      if star.Some? then Covering(nodes, hash(star.value, p)) else None;
    if r in EmitIf(a) {
      n := a.value;
    } else if r in EmitIf(b) {
      n := b.value;
    } else {
      n := c.value;
    }
    assert n.record in Emit(n);
  }

  lemma NodeGood(
    hash: Hash, z: Zone, names: seq<DnsName>, p: Params, ring: Keyring, n: Node3) returns (h: Bytes)
    requires Signable(z) && Fit(z) && ParamsOk(p) && ZoneChain(hash, z, names, p, SignOne(ring)).Some?
    requires n in ZoneChain(hash, z, names, p, SignOne(ring)).value
    ensures Type(n.record) == TYPE_NSEC3 && GoodRrset([n.record]) && n.sigs == SignAll(ring, Zsks(ring), [n.record])
    ensures EntryOf(n.record).Some? && EntryOf(n.record).value.0 == n.hash == h
    ensures TooManyIterations(n.record) <==> p.iterations > MAX_NSEC3_ITERATIONS
  {
    hide ZoneHashes, OwnerName, EntryOf, Nsec3Rdata, ValidName, SignAll;
    var hs := ZoneHashes(hash, z, names, p);
    var i := NodeIndex(z.origin, hs, p, z.soa.ttl, SignOne(ring), n);
    OwnerFirst(hs[i].0, z.origin);
    SoaInZone(z);
    h := hs[i].0;
  }

  /** Nodes of the chain with the same hash are the same node. */
  lemma NodesApart(hash: Hash, z: Zone, names: seq<DnsName>, p: Params, ring: Keyring, m: Node3, n: Node3)
    requires ZoneOk(z) && NamesOf(names, z) && ParamsOk(p) && ZoneChain(hash, z, names, p, SignOne(ring)).Some?
    requires var nodes := ZoneChain(hash, z, names, p, SignOne(ring)).value; m in nodes && n in nodes
    requires m.hash == n.hash
    ensures m == n
  {
    hide ZoneHashes, OwnerName, EntryOf, ParseNsec3, Named, NodeAt, ZoneOk, BytesLe;
    var hs := ZoneHashes(hash, z, names, p);
    var i := NodeIndex(z.origin, hs, p, z.soa.ttl, SignOne(ring), m);
    var j := NodeIndex(z.origin, hs, p, z.soa.ttl, SignOne(ring), n);
    ZoneHashesOk(hash, z, names, p);
    assert Hashes(hs)[i] == Hashes(hs)[j];
  }

  lemma DenialOnce(
    hash: Hash, p: Params, nodes: seq<Node3>, names: seq<DnsName>, apex: DnsName, qname: DnsName, nx: bool, r: Record)
    requires r in Nsec3Denial(hash, p, nodes, names, apex, qname, nx) && Type(r) != TYPE_RRSIG
    requires forall n :: n in nodes ==> AllSigs(n.sigs)
    ensures multiset(Nsec3Denial(hash, p, nodes, names, apex, qname, nx))[r] == 1
  {
    hide ClosestEncloser, NextCloser, PrependStar, NodeCovers;
    var denial := Nsec3Denial(hash, p, nodes, names, apex, qname, nx);
    if nx {
      var ce := ClosestEncloser(qname, names, apex, 0);
      var star := PrependStar(ce);
      var all := EmitIf(Matching(nodes, hash(ce, p))) + EmitIf(Covering(nodes, hash(NextCloser(qname, ce), p))) +
        (if star.Some? then EmitIf(Covering(nodes, hash(star.value, p))) else []);
      DedupOnce(all, [], r);
      assert r in multiset(denial);
    } else {
      var n := Matching(nodes, hash(qname, p)).value;
      assert r !in multiset(n.sigs);
      assert denial == [r] + n.sigs;
    }
  }

  lemma Nsec3Denied(
    hash: Hash, z: Zone, names: seq<DnsName>, p: Params, ring: Keyring, qname: DnsName, nx: bool)
    requires Signable(z) && Fit(z) && NamesOf(names, z) && ParamsOk(p)
    requires ZoneChain(hash, z, names, p, SignOne(ring)).Some?
    ensures var nodes := ZoneChain(hash, z, names, p, SignOne(ring)).value;
      var denial := Nsec3Denial(hash, p, nodes, Owners(names), z.origin, qname, nx);
      && SignedDenial(ring, denial, TYPE_NSEC3)
      && forall r :: r in denial && Type(r) == TYPE_NSEC3 ==>
           (TooManyIterations(r) <==> p.iterations > MAX_NSEC3_ITERATIONS)
  {
    hide Signable, Fit, ZoneChain, Owners, Nsec3Denial, GoodRrset, SignAll, EntryOf, TooManyIterations, SetOf;
    var nodes := ZoneChain(hash, z, names, p, SignOne(ring)).value;
    var denial := Nsec3Denial(hash, p, nodes, Owners(names), z.origin, qname, nx);
    forall n | n in nodes ensures AllSigs(n.sigs) && Type(n.record) == TYPE_NSEC3 {
      var _ := NodeGood(hash, z, names, p, ring, n);
      SignsSigs(ring);
      assert n.sigs == SignOne(ring)(n.record);
    }
    forall r | r in denial && Type(r) != TYPE_RRSIG
      ensures Type(r) == TYPE_NSEC3 && GoodRrset([r]) && SetOf(denial, r.name, TYPE_NSEC3) == [r]
      ensures TooManyIterations(r) <==> p.iterations > MAX_NSEC3_ITERATIONS
    {
      Nsec3Alone(hash, z, names, p, ring, qname, nx, r);
    }
    forall s | s in denial && Type(s) == TYPE_RRSIG
      ensures exists r :: r in denial && Type(r) == TYPE_NSEC3 && s in SignAll(ring, Zsks(ring), [r])
    {
      var n := DrawnFrom(hash, p, nodes, Owners(names), z.origin, qname, nx, s);
      var _ := NodeGood(hash, z, names, p, ring, n);
    }
  }

  lemma Nsec3Alone(
    hash: Hash, z: Zone, names: seq<DnsName>, p: Params, ring: Keyring, qname: DnsName, nx: bool, r: Record)
    requires Signable(z) && Fit(z) && NamesOf(names, z) && ParamsOk(p)
    requires ZoneChain(hash, z, names, p, SignOne(ring)).Some?
    requires var nodes := ZoneChain(hash, z, names, p, SignOne(ring)).value;
      && (forall n :: n in nodes ==> AllSigs(n.sigs) && Type(n.record) == TYPE_NSEC3)
      && r in Nsec3Denial(hash, p, nodes, Owners(names), z.origin, qname, nx) && Type(r) != TYPE_RRSIG
    ensures Type(r) == TYPE_NSEC3 && GoodRrset([r]) && (TooManyIterations(r) <==> p.iterations > MAX_NSEC3_ITERATIONS)
    ensures var nodes := ZoneChain(hash, z, names, p, SignOne(ring)).value;
      SetOf(Nsec3Denial(hash, p, nodes, Owners(names), z.origin, qname, nx), r.name, TYPE_NSEC3) == [r]
  {
    hide Fit, ZoneChain, Owners, Nsec3Denial, GoodRrset, SignAll, TooManyIterations, SetOf, ParseNsec3, ZoneOk,
      ValidName, Base32HexDecode;
    var nodes := ZoneChain(hash, z, names, p, SignOne(ring)).value;
    var denial := Nsec3Denial(hash, p, nodes, Owners(names), z.origin, qname, nx);
    var n := DrawnFrom(hash, p, nodes, Owners(names), z.origin, qname, nx, r);
    var _ := NodeGood(hash, z, names, p, ring, n);
    forall x | x in denial && x.name == r.name && Type(x) == Type(r) ensures x == r {
      var m := DrawnFrom(hash, p, nodes, Owners(names), z.origin, qname, nx, x);
      var _ := NodeGood(hash, z, names, p, ring, m);
      NodesApart(hash, z, names, p, ring, m, n);
    }
    DenialOnce(hash, p, nodes, Owners(names), z.origin, qname, nx, r);
    Alone(denial, r);
  }
}
