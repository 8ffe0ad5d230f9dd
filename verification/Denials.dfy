/**
 * Signer to validator: the authority section of a signed negative answer, as it is attached to the
 * response, against the validator's test of it.
 */
module Denials {
  import opened Names
  import opened Messages
  import opened Seqs
  import opened Zones
  import opened Lookups
  import opened Nsecs
  import opened Nsec3s
  import opened Trust
  import opened Verdicts

  /** SOA, its signatures and the denial records. */
  function Authority(z: Zone, soaSigs: seq<Record>, denial: seq<Record>): seq<Record> { [z.soa] + soaSigs + denial }

  predicate AllSigs(rs: seq<Record>) { forall s :: s in rs ==> Type(s) == TYPE_RRSIG }

  lemma OnlyDenialLeft(z: Zone, soaSigs: seq<Record>, denial: seq<Record>, t: nat)
    requires IsSoa(z.soa) && AllSigs(soaSigs) && t != TYPE_SOA && t != TYPE_RRSIG
    ensures OfType(Authority(z, soaSigs, denial), t) == OfType(denial, t)
  {
    FilterAppend([z.soa] + soaSigs, denial, (r: Record) => Type(r) == t);
    FilterNone([z.soa] + soaSigs, (r: Record) => Type(r) == t);
    assert [] + OfType(denial, t) == OfType(denial, t);
  }

  lemma NsecDenialTypes(z: Zone, owners: seq<DnsName>, sign: Record -> seq<Record>, qname: DnsName, nx: bool)
    requires forall r, s :: s in sign(r) ==> Type(s) == TYPE_RRSIG
    ensures var denial := NsecDenial(NsecChain(z, owners, sign), qname, nx);
      forall r :: r in denial ==> Type(r) == TYPE_NSEC || Type(r) == TYPE_RRSIG
  {
    hide NsecChain, Nearest, ExactEntry;
    var chain := NsecChain(z, owners, sign);
    forall e | e in chain ensures forall r :: r in Pick(e) ==> Type(r) == TYPE_NSEC || Type(r) == TYPE_RRSIG {
      EntrySigned(z, owners, sign, e);
    }
    if chain != [] {
      NearestIn(chain, qname);
    }
  }

  lemma NearestIn(chain: seq<ChainEntry>, qname: DnsName)
    requires chain != []
    ensures Nearest(chain, qname) in chain
  {
    hide NameLe;
  }

  lemma Nsec3DenialTypes(
    hash: Hash, z: Zone, names: seq<DnsName>, p: Params, sign: Record -> seq<Record>, qname: DnsName, nx: bool)
    requires ParamsOk(p) && ZoneChain(hash, z, names, p, sign).Some?
    requires forall r, s :: s in sign(r) ==> Type(s) == TYPE_RRSIG
    ensures var denial := Nsec3Denial(hash, p, ZoneChain(hash, z, names, p, sign).value, Owners(names), z.origin, qname, nx);
      forall r :: r in denial ==> Type(r) == TYPE_NSEC3 || Type(r) == TYPE_RRSIG
  {
    hide ZoneHashes, Chain3, ClosestEncloser, NextCloser, PrependStar, Owners, Named;
    var nodes := ZoneChain(hash, z, names, p, sign).value;
    forall n | n in nodes ensures forall r :: r in Emit(n) ==> Type(r) == TYPE_NSEC3 || Type(r) == TYPE_RRSIG {
      var _ := NodeIndex(z.origin, ZoneHashes(hash, z, names, p), p, z.soa.ttl, sign, n);
    }
  }

  lemma NoneOfType(rs: seq<Record>, t: nat)
    requires forall r :: r in rs ==> Type(r) != t
    ensures OfType(rs, t) == []
  {
    FilterNone(rs, (r: Record) => Type(r) == t);
  }

  /** NSEC: a signed negative answer is proven except for types the signer adds at an existing name. */
  lemma NsecAnswerProven(
    e: Env, z: Zone, names: seq<DnsName>, sign: Record -> seq<Record>, soaSigs: seq<Record>, msg: Message)
    requires Signable(z) && NamesOf(names, z) && AllSigs(soaSigs)
    requires forall r, s :: s in sign(r) ==> Type(s) == TYPE_RRSIG
    requires msg.questions != []
    requires var q := msg.questions[0];
      var found := Lookup(z, q.qname, q.qtype);
      && found.Looked? && found.negative
      && msg.authorities == Authority(z, soaSigs,
           NsecDenial(NsecChain(z, Owners(names), sign), q.qname, found.rcode == RCODE_NXDOMAIN))
    ensures var q := msg.questions[0];
      DenialProven(e, msg) <==> !(q.qname in z.records && SignerAdds(z, q.qname, q.qtype))
  {
    hide Signable, Lookup, NsecChain, NsecDenial, Owners, NsecProves, Nsec3Proves, OfType, SignerAdds, Authority;
    var q := msg.questions[0];
    var nx := Lookup(z, q.qname, q.qtype).rcode == RCODE_NXDOMAIN;
    var denial := NsecDenial(NsecChain(z, Owners(names), sign), q.qname, nx);
    SignableSoa(z);
    OnlyDenialLeft(z, soaSigs, denial, TYPE_NSEC3);
    OnlyDenialLeft(z, soaSigs, denial, TYPE_NSEC);
    NsecDenialTypes(z, Owners(names), sign, q.qname, nx);
    NoneOfType(denial, TYPE_NSEC3);
    SameFilters(msg.authorities, denial);
    NsecComplete(z, names, sign, q.qname, q.qtype);
    NothingProven(q.qname, q.qtype);
  }

  lemma SignableSoa(z: Zone)
    requires Signable(z)
    ensures IsSoa(z.soa)
  {
  }

  lemma SameFilters(authority: seq<Record>, denial: seq<Record>)
    ensures OnlyNsec3(authority) == OfType(authority, TYPE_NSEC3)
    ensures OfType(denial, TYPE_NSEC) == Filter(denial, (r: Record) => Type(r) == TYPE_NSEC)
    ensures OfType(denial, TYPE_NSEC3) == OnlyNsec3(denial)
  {
    FilterSame(authority, (r: Record) => Type(r) == TYPE_NSEC3, (r: Record) => Type(r) == TYPE_NSEC3);
  }

  lemma NothingProven(qname: DnsName, qtype: nat)
    ensures !NsecProves(qname, qtype, [])
  {
  }

  /** NSEC3: the same for a hashed chain; no-data answers need a name that hashes like an owner. */
  lemma Nsec3AnswerProven(
    e: Env, z: Zone, names: seq<DnsName>, p: Params, sign: Record -> seq<Record>, soaSigs: seq<Record>, msg: Message)
    requires ZoneOk(z) && NamesOf(names, z) && AllSigs(soaSigs)
    requires ParamsOk(p) && ZoneChain(e.hash, z, names, p, sign).Some?
    requires forall r, s :: s in sign(r) ==> Type(s) == TYPE_RRSIG
    requires msg.questions != []
    requires var q := msg.questions[0];
      var found := Lookup(z, q.qname, q.qtype);
      && ValidName(q.qname) && EndsWith(q.qname, z.origin) && found.Looked? && found.negative
      && msg.authorities == Authority(z, soaSigs,
           Nsec3Denial(e.hash, p, ZoneChain(e.hash, z, names, p, sign).value, Owners(names), z.origin, q.qname,
             found.rcode == RCODE_NXDOMAIN))
    ensures var q := msg.questions[0];
      DenialProven(e, msg) <==>
      Lookup(z, q.qname, q.qtype).rcode == RCODE_NXDOMAIN ||
      exists o :: o in z.records && e.hash(o, p) == e.hash(q.qname, p)
  {
    hide Lookup, ZoneChain, Nsec3Denial, Owners, NsecProves, Nsec3Proves, OfType, Authority, ValidName, EndsWith;
    var q := msg.questions[0];
    var nx := Lookup(z, q.qname, q.qtype).rcode == RCODE_NXDOMAIN;
    var denial := Nsec3Denial(e.hash, p, ZoneChain(e.hash, z, names, p, sign).value, Owners(names), z.origin, q.qname, nx);
    OnlyDenialLeft(z, soaSigs, denial, TYPE_NSEC3);
    OnlyDenialLeft(z, soaSigs, denial, TYPE_NSEC);
    Nsec3DenialTypes(e.hash, z, names, p, sign, q.qname, nx);
    NoneOfType(denial, TYPE_NSEC);
    SameFilters(msg.authorities, denial);
    Nsec3Complete(e.hash, z, names, p, sign, q.qname, q.qtype);
    NothingProven3(e.hash, q.qname);
  }

  lemma NothingProven3(hash: Hash, qname: DnsName)
    ensures !Nsec3Proves(hash, qname, [])
  {
  }
}
