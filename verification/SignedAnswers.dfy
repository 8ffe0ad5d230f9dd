/**
 * Signer to validator, end to end: a signed zone's responses as they are put together, and the
 * validator's verdict on every one of them when its chain of trust reaches the zone's keys.
 */
module SignedAnswers {
  import opened Names
  import opened Messages
  import opened Seqs
  import opened Orders
  import opened Zones
  import opened Lookups
  import opened Rrsigs
  import opened Nsecs
  import opened Nsec3s
  import opened Trust
  import opened Verdicts
  import opened Denials
  import opened SignedZones
  import opened SignedDenials

  // --------------------------------------------------------------- responses

  /** The apex key set, made from the keys themselves, whose signer is the origin. */
  function DnskeyRrset(sz: SignedZone): seq<Record> {
    Map((k: Signer) => Record(k.key.signer, CLASS_IN, sz.zone.soa.ttl, Unknown(TYPE_DNSKEY, DnskeyRdata(k.key))),
      sz.ring.keys)
  }

  predicate AsksKeys(sz: SignedZone, q: Question) { q.qtype == TYPE_DNSKEY && q.qname == sz.zone.origin }

  predicate AsksParams(sz: SignedZone, q: Question) {
    q.qtype == TYPE_NSEC3PARAM && q.qname == sz.zone.origin && sz.nsec3.Some?
  }

  /** The zone's denial records for a name, from any listing of its owners. */
  function DenialFor(hash: Hash, sz: SignedZone, names: seq<DnsName>, qname: DnsName, nx: bool): seq<Record> {
    match sz.nsec3
    case None => NsecDenial(NsecChain(sz.zone, Owners(names), SignOne(sz.ring)), qname, nx)
    case Some(p) =>
      var chain := ZoneChain(hash, sz.zone, names, p, SignOne(sz.ring));
      if chain.None? then [] else Nsec3Denial(hash, p, chain.value, Owners(names), sz.zone.origin, qname, nx)
  }

  /** `msg` is the signed zone's response to its first question. */
  ghost predicate Responds(hash: Hash, sz: SignedZone, names: seq<DnsName>, msg: Message) {
    msg.questions != [] &&
    var q, z := msg.questions[0], sz.zone;
    if AsksKeys(sz, q) then
      && DnskeyRrset(sz) != [] && msg.flags.rcode == RCODE_NOERROR && msg.authorities == []
      && msg.answers == DnskeyRrset(sz) + SignAll(sz.ring, Ksks(sz.ring), DnskeyRrset(sz))
    else if AsksParams(sz, q) then
      && msg.flags.rcode == RCODE_NOERROR && msg.authorities == []
      && msg.answers == [ParamRecord(z, sz.nsec3.value)] + RrsigsFor(sz, (z.origin, TYPE_NSEC3PARAM))
    else
      var found := Lookup(z, q.qname, q.qtype);
      && found.Looked? && msg.flags.rcode == found.rcode && msg.answers == WithSigs(sz, found.answers)
      && msg.authorities ==
           if found.negative then
             Authority(z, SoaSigs(sz), DenialFor(hash, sz, names, q.qname, found.rcode == RCODE_NXDOMAIN))
           else []
  }

  // ------------------------------------------------------- responses with answers

  /**
   * The verdict on answers beside their attached signatures, wherever they came from. Only the bogus
   * half needs a strict scheme.
   */
  lemma AnswersVerdict(e: Env, sz: SignedZone, answers: seq<Record>, msg: Message)
    requires Fit(sz.zone) && Honest(e, sz.ring, sz.zone.origin)
    requires answers != [] && Unsigned(answers) && FromZone(sz, answers)
    requires AnswerJudged(sz, answers) == Bogus ==> Strict(e, sz.ring, sz.zone.origin) && Encodable(sz)
    requires msg.answers == WithSigs(sz, answers) && msg.flags.rcode != RCODE_NXDOMAIN
    ensures Validate(e, msg) == AnswerJudged(sz, answers)
  {
    hide Fit, Honest, Strict, Encodable, FromZone, Whole, Groups, Attached, Ids, Comes, Validate, NearSigners, MadeSection,
      DenialProven;
    var rs := msg.answers;
    AnswerMade(sz, answers);
    SignersNear(e, sz.ring, sz.zone.origin, rs);
    KeysThere(e, sz.ring, sz.zone.origin);
    AttachedAreSigs(sz, answers);
    assert answers[0] in rs && Type(answers[0]) != TYPE_RRSIG;
    assert !LooksAtDenial(msg);
    VerdictExact(e, msg);
    assert forall r :: r in rs && Type(r) != TYPE_RRSIG <==> r in answers;
    forall r, o | r in answers
      ensures Comes(e, rs, (r.name, Type(r)), o) <==>
        r.name in Groups(sz) && o == (if Whole(sz, answers, r) then Verified else Failed)
    {
      AnswerSetJudged(e, sz, answers, r, o);
    }
  }

  lemma {:induction false} FoundRenamed(z: Zone, name: DnsName, skip: nat)
    requires |z.origin| <= |name|
    ensures var found := FindWildcard(z, name, skip); found.Some? ==> forall r :: r in found.value ==> r.name == name
    decreases |name| - skip
  {
    hide EndsWith;
    if skip <= |name| - |z.origin| {
      FoundRenamed(z, name, skip + 1);
    }
  }

  /** A found node is under the name looked up, and is the stored one if the name exists. */
  lemma NodeNamed(z: Zone, name: DnsName)
    requires ZoneOk(z) && FindNode(z, name).Some?
    ensures forall r :: r in FindNode(z, name).value ==> r.name == name
    ensures name in z.records ==> FindNode(z, name).value == z.records[name]
  {
    hide FindWildcard;
    if name in z.records {
      assert NodeOk(z.origin, name, z.records[name]);
    } else {
      FoundRenamed(z, name, 1);
    }
  }

  predicate Faithful(z: Zone, answers: seq<Record>) {
    forall r :: r in answers && r.name in z.records ==> r in z.records[r.name]
  }

  /** What a lookup shows under an existing name is stored there. */
  lemma {:induction false} LookupFaithful(z: Zone, name: DnsName, qtype: nat, answers: seq<Record>, steps: nat)
    requires ZoneOk(z) && Faithful(z, answers)
    ensures var found := LookupFrom(z, name, qtype, answers, steps); found.Looked? ==> Faithful(z, found.answers)
    decreases steps
  {
    hide FindNode, HasNamesBelow, Matched, ZoneOk, EndsWith;
    if steps > 0 && FindNode(z, name).Some? {
      var node := FindNode(z, name).value;
      NodeNamed(z, name);
      MatchedIn(node, qtype);
      var cname := FirstCname(node);
      if Matched(node, qtype) == [] && cname.Some? && cname.value.rdata.Cname? {
        LookupFaithful(z, cname.value.rdata.alias, qtype, answers + [cname.value], steps - 1);
      }
    }
  }

  lemma MatchedIn(node: seq<Record>, qtype: nat)
    ensures forall r :: r in Matched(node, qtype) ==> r in node
  {
    FilterIn(node, (x: Record) => qtype == TYPE_ANY || Type(x) == qtype);
  }

  lemma FaithfulShown(sz: SignedZone, answers: seq<Record>)
    requires Fit(sz.zone) && Faithful(sz.zone, answers)
    ensures FromZone(sz, answers)
  {
    GroupsFit(sz);
  }

  /** A looked-up answer is never NXDOMAIN. */
  lemma AnsweredExists(z: Zone, qname: DnsName, qtype: nat)
    requires Lookup(z, qname, qtype).Looked? && Lookup(z, qname, qtype).answers != []
    ensures Lookup(z, qname, qtype).rcode != RCODE_NXDOMAIN
  {
    hide FindNode, HasNamesBelow, Matched, EndsWith;
    var node := FindNode(z, qname);
    if node.Some? && Matched(node.value, qtype) == [] {
      var cname := FirstCname(node.value);
      if cname.Some? && cname.value.rdata.Cname? {
        ChaseNotNxdomain(z, cname.value.rdata.alias, qtype, [cname.value], MAX_CNAME_STEPS - 1);
        assert [] + [cname.value] == [cname.value];
      }
    }
  }

  /**
   * End to end, any looked-up answer, through any CNAME chase and whatever ends it: bogus if some
   * signed rrset is not shown as it was signed, else secure if any is signed, else insecure.
   */
  lemma LookupVerdict(e: Env, sz: SignedZone, names: seq<DnsName>, msg: Message)
    requires Fit(sz.zone) && Honest(e, sz.ring, sz.zone.origin) && Responds(e.hash, sz, names, msg)
    requires !AsksKeys(sz, msg.questions[0]) && !AsksParams(sz, msg.questions[0])
    requires var found := Lookup(sz.zone, msg.questions[0].qname, msg.questions[0].qtype);
      && found.answers != [] && Unsigned(found.answers)
      && (AnswerJudged(sz, found.answers) == Bogus ==> Strict(e, sz.ring, sz.zone.origin) && Encodable(sz))
    ensures Validate(e, msg) ==
      AnswerJudged(sz, Lookup(sz.zone, msg.questions[0].qname, msg.questions[0].qtype).answers)
  {
    hide Honest, Strict, Encodable, FromZone, AnswerJudged, WithSigs, Validate, LookupFrom, DenialFor, ZoneOk;
    var q := msg.questions[0];
    var answers := Lookup(sz.zone, q.qname, q.qtype).answers;
    LookupFaithful(sz.zone, q.qname, q.qtype, [], MAX_CNAME_STEPS);
    FaithfulShown(sz, answers);
    AnsweredExists(sz.zone, q.qname, q.qtype);
    AnswersVerdict(e, sz, answers, msg);
  }

  // ------------------------------------------------------------ made at the apex

  /** The key set, signed by the keys marked for it, is judged secure. */
  lemma KeysVerdict(e: Env, sz: SignedZone, names: seq<DnsName>, msg: Message)
    requires Fit(sz.zone) && Honest(e, sz.ring, sz.zone.origin) && Responds(e.hash, sz, names, msg)
    requires AsksKeys(sz, msg.questions[0])
    ensures Validate(e, msg) == Secure
  {
    hide Fit, Honest, Validate, SignedSection, SomeSet, GoodRrset, SignAll, Ksks, DnskeyRrset, DenialFor, Lookup, WithSigs,
      NearSigners;
    var rrset := DnskeyRrset(sz);
    KeySetGood(e, sz);
    KeySection(e, sz);
    SectionVerdict(e, sz.ring, sz.zone.origin, msg.answers);
    KeysThere(e, sz.ring, sz.zone.origin);
    VerdictExact(e, msg);
  }

  lemma KeySetGood(e: Env, sz: SignedZone)
    requires Fit(sz.zone) && Honest(e, sz.ring, sz.zone.origin)
    ensures var rrset := DnskeyRrset(sz);
      GoodRrset(rrset) && forall r :: r in rrset ==> r.name == sz.zone.origin && Type(r) == TYPE_DNSKEY
  {
    hide ValidName, PlainKeys, Deterministic, DnskeyRdata, StoreOk;
    var rrset, keys := DnskeyRrset(sz), sz.ring.keys;
    SoaInZone(sz.zone);
    forall i | 0 <= i < |keys| ensures ValidName(sz.zone.origin) && rrset[i].name == sz.zone.origin {
      assert KeyHonest(e, keys[i], sz.zone.origin, PlainKeys(e, sz.zone.origin).value);
    }
    assert rrset[0].name == sz.zone.origin;
  }

  lemma KeySection(e: Env, sz: SignedZone)
    requires Fit(sz.zone) && Honest(e, sz.ring, sz.zone.origin) && DnskeyRrset(sz) != []
    ensures var rs := DnskeyRrset(sz) + SignAll(sz.ring, Ksks(sz.ring), DnskeyRrset(sz));
      && SignedSection(sz.ring, rs) && exists s :: s in rs && Type(s) == TYPE_RRSIG
  {
    hide Fit, Honest, GoodRrset, Ksks, DnskeyRrset, SetOf, SignRrset, Stripped;
    var ring, rrset := sz.ring, DnskeyRrset(sz);
    var sigs := SignAll(ring, Ksks(ring), rrset);
    KeySetGood(e, sz);
    KeysThere(e, ring, sz.zone.origin);
    KeysUsed(ring);
    forall s | s in sigs ensures exists k :: MadeBy(ring, s, k, rrset) && Type(s) == TYPE_RRSIG {
      SignIn(ring, Ksks(ring), rrset, s);
      var k :| k in Ksks(ring) && s == SigRecord(ring, k, rrset);
      assert MadeBy(ring, s, k, rrset);
    }
    SetBeside(rrset, sigs, sz.zone.origin, TYPE_DNSKEY);
    SetAll(rrset, sz.zone.origin, TYPE_DNSKEY);
    forall s | s in rrset + sigs && Type(s) == TYPE_RRSIG
      ensures exists k, set_ :: SignedOver(ring, rrset + sigs, s, k, set_)
    {
      var k :| MadeBy(ring, s, k, rrset);
      assert SignedOver(ring, rrset + sigs, s, k, rrset);
    }
    assert sigs[0] in sigs && sigs[0] in rrset + sigs;
  }

  lemma SetAll(rs: seq<Record>, owner: DnsName, t: nat)
    requires forall r :: r in rs ==> r.name == owner && Type(r) == t
    ensures SetOf(rs, owner, t) == rs
  {
    FilterAll(rs, (x: Record) => x.name == owner && Type(x) == t);
  }

  /** The NSEC3 parameters are judged secure, unless the zone holds some of its own, which are signed along with them. */
  lemma ParamsVerdict(e: Env, sz: SignedZone, names: seq<DnsName>, msg: Message)
    requires Fit(sz.zone) && Honest(e, sz.ring, sz.zone.origin) && Responds(e.hash, sz, names, msg)
    requires AsksParams(sz, msg.questions[0])
    requires SetOf(sz.zone.records[sz.zone.origin], sz.zone.origin, TYPE_NSEC3PARAM) != [] ==>
      Strict(e, sz.ring, sz.zone.origin) && Encodable(sz)
    ensures Validate(e, msg) ==
      if SetOf(sz.zone.records[sz.zone.origin], sz.zone.origin, TYPE_NSEC3PARAM) == [] then Secure else Bogus
  {
    hide Fit, Honest, Strict, Encodable, Validate, SetOf, RrsigsFor, Stripped, Groups, DenialFor, Lookup, DnskeyRrset;
    var z := sz.zone;
    var r := ParamRecord(z, sz.nsec3.value);
    ParamsStored(sz);
    ParamsShown(sz);
    AnswersVerdict(e, sz, [r], msg);
  }

  lemma ParamsShown(sz: SignedZone)
    requires Fit(sz.zone) && sz.nsec3.Some?
    ensures var r := ParamRecord(sz.zone, sz.nsec3.value);
      && FromZone(sz, [r]) && r.name in Groups(sz) && Unsigned([r])
      && WithSigs(sz, [r]) == [r] + RrsigsFor(sz, (sz.zone.origin, TYPE_NSEC3PARAM))
  {
    hide RrsigsFor;
    var r := ParamRecord(sz.zone, sz.nsec3.value);
    var id := (sz.zone.origin, TYPE_NSEC3PARAM);
    var ids := Ids([r]);
    assert ids == [id] && ids[1..] == [];
    var none: seq<SetId> := [];
    assert Attached(sz, ids, none) == RrsigsFor(sz, id) + Attached(sz, ids[1..], none + [id]);
    assert Attached(sz, ids, none) == RrsigsFor(sz, id);
  }

  lemma ParamsStored(sz: SignedZone)
    requires Fit(sz.zone) && sz.nsec3.Some?
    ensures var r := ParamRecord(sz.zone, sz.nsec3.value);
      && sz.zone.origin in sz.zone.records && r.name == sz.zone.origin && Type(r) == TYPE_NSEC3PARAM
      && (Whole(sz, [r], r) <==> SetOf(sz.zone.records[sz.zone.origin], sz.zone.origin, TYPE_NSEC3PARAM) == [])
  {
    var z := sz.zone;
    var r := ParamRecord(z, sz.nsec3.value);
    var own := SetOf(z.records[z.origin], z.origin, TYPE_NSEC3PARAM);
    var inSet := (x: Record) => x.name == z.origin && Type(x) == TYPE_NSEC3PARAM;
    FilterAppend(z.records[z.origin], [r], inSet);
    assert Filter([r], inSet) == [r];
    assert Stored(sz, (z.origin, TYPE_NSEC3PARAM)) == own + [r];
    assert SetOf([r], z.origin, TYPE_NSEC3PARAM) == [r];
    assert |multiset(Stripped([r]))| == 1 && |multiset(Stripped(own + [r]))| == |own| + 1;
    assert own == [] ==> own + [r] == [r];
  }

  // ------------------------------------------------------------ negative answers

  /** A response without answers, once its authority section verifies. */
  lemma NegativeVerdict(e: Env, sz: SignedZone, denial: seq<Record>, t: nat, msg: Message)
    requires Fit(sz.zone) && Honest(e, sz.ring, sz.zone.origin)
    requires SignedDenial(sz.ring, denial, t) && (t == TYPE_NSEC || t == TYPE_NSEC3)
    requires msg.answers == [] && msg.authorities == Authority(sz.zone, SoaSigs(sz), denial)
    ensures Validate(e, msg) ==
      if exists r :: r in msg.authorities && TooManyIterations(r) then Insecure
      else if DenialProven(e, msg) then Secure
      else if exists r :: r in msg.authorities && IsNsec(r) then Bogus
      else Insecure
  {
    hide Fit, Honest, Validate, SignedSection, SomeSet, DenialProven, SignedDenial, TooManyIterations, SoaSigs, NearSigners;
    AuthoritySection(e, sz, denial, t);
    SectionVerdict(e, sz.ring, sz.zone.origin, msg.authorities);
    assert SomeSet(e, [], Failed) == SomeSet(e, [], Verified) == false && NearSigners([]) by { NothingThere(e); }
    KeysThere(e, sz.ring, sz.zone.origin);
    assert msg.authorities[0] == sz.zone.soa;
    VerdictExact(e, msg);
  }

  lemma NothingThere(e: Env)
    ensures !SomeSet(e, [], Failed) && !SomeSet(e, [], Verified) && NearSigners([])
  {
  }

  lemma {:induction false} AnswersGrow(z: Zone, name: DnsName, qtype: nat, answers: seq<Record>, steps: nat)
    ensures var found := LookupFrom(z, name, qtype, answers, steps); found.Looked? ==> answers <= found.answers
    decreases steps
  {
    hide FindNode, HasNamesBelow, Matched, EndsWith;
    if steps > 0 && FindNode(z, name).Some? {
      var cname := FirstCname(FindNode(z, name).value);
      if cname.Some? && cname.value.rdata.Cname? {
        AnswersGrow(z, cname.value.rdata.alias, qtype, answers + [cname.value], steps - 1);
      }
    }
  }

  /** A lookup that shows nothing is negative. */
  lemma EmptyIsNegative(z: Zone, qname: DnsName, qtype: nat)
    requires Lookup(z, qname, qtype).Looked? && Lookup(z, qname, qtype).answers == []
    ensures Lookup(z, qname, qtype).negative
  {
    hide FindNode, HasNamesBelow, Matched, EndsWith;
    if FindNode(z, qname).Some? {
      var cname := FirstCname(FindNode(z, qname).value);
      if cname.Some? && cname.value.rdata.Cname? {
        AnswersGrow(z, cname.value.rdata.alias, qtype, [] + [cname.value], MAX_CNAME_STEPS - 1);
      }
    }
  }

  /** What a response without answers holds. */
  lemma NegativeIs(hash: Hash, sz: SignedZone, names: seq<DnsName>, msg: Message)
    requires Responds(hash, sz, names, msg)
    requires !AsksKeys(sz, msg.questions[0]) && !AsksParams(sz, msg.questions[0])
    requires Lookup(sz.zone, msg.questions[0].qname, msg.questions[0].qtype).answers == []
    ensures var q := msg.questions[0];
      var found := Lookup(sz.zone, q.qname, q.qtype);
      && found.Looked? && found.negative && msg.answers == []
      && msg.authorities ==
           Authority(sz.zone, SoaSigs(sz), DenialFor(hash, sz, names, q.qname, found.rcode == RCODE_NXDOMAIN))
  {
    hide Lookup, DenialFor, RrsigsFor;
    EmptyIsNegative(sz.zone, msg.questions[0].qname, msg.questions[0].qtype);
  }

  /**
   * NSEC: a response without answers is judged secure, except exactly when the name exists and the
   * type is one the signer adds there; then it is judged bogus.
   */
  lemma NsecVerdict(e: Env, sz: SignedZone, names: seq<DnsName>, msg: Message)
    requires Signable(sz.zone) && Fit(sz.zone) && NamesOf(names, sz.zone) && Honest(e, sz.ring, sz.zone.origin)
    requires sz.nsec3.None? && msg.questions != [] && Responds(e.hash, sz, names, msg) && !AsksKeys(sz, msg.questions[0])
    requires Lookup(sz.zone, msg.questions[0].qname, msg.questions[0].qtype).answers == []
    ensures var q := msg.questions[0];
      Validate(e, msg) == if q.qname in sz.zone.records && SignerAdds(sz.zone, q.qname, q.qtype) then Bogus else Secure
  {
    hide Signable, Fit, Honest, Lookup, NsecChain, Owners, Validate, SignerAdds, DenialProven, SignedDenial, SignAll,
      RrsigsFor, GoodRrset, Nearest, ExactEntry, Responds, Zsks;
    var z, ring, q := sz.zone, sz.ring, msg.questions[0];
    NegativeIs(e.hash, sz, names, msg);
    var nx := Lookup(z, q.qname, q.qtype).rcode == RCODE_NXDOMAIN;
    var chain := NsecChain(z, Owners(names), SignOne(ring));
    var denial := NsecDenial(chain, q.qname, nx);
    ChainThere(z, names, ring);
    NearestIn(chain, q.qname);
    var exact := ExactEntry(chain, q.qname);
    var entry := if !nx && exact.Some? then exact.value else Nearest(chain, q.qname);
    NsecGood(z, names, ring, entry);
    OneDenied(ring, entry.nsec, TYPE_NSEC);
    assert denial == [entry.nsec] + SignAll(ring, Zsks(ring), [entry.nsec]);
    NegativeVerdict(e, sz, denial, TYPE_NSEC, msg);
    RrsigsAreSigs(sz, (z.origin, TYPE_SOA));
    SignsSigs(ring);
    NsecAnswerProven(e, z, names, SignOne(ring), SoaSigs(sz), msg);
    NsecDenialTypes(z, Owners(names), SignOne(ring), q.qname, nx);
    SignableSoa(z);
    assert forall r :: r in msg.authorities ==> !TooManyIterations(r);
    assert entry.nsec in denial && entry.nsec in msg.authorities && IsNsec(entry.nsec);
  }

  /** The name hashes like some owner of the zone. */
  predicate HashesLikeOwner(hash: Hash, z: Zone, p: Params, qname: DnsName) {
    exists o :: o in z.records && hash(o, p) == hash(qname, p)
  }

  /**
   * NSEC3: a response without answers is judged secure exactly when the chain uses at most 100
   * iterations and the name does not exist, or hashes like an owner; otherwise it is judged insecure.
   */
  lemma Nsec3Verdict(e: Env, sz: SignedZone, names: seq<DnsName>, msg: Message)
    requires Signable(sz.zone) && Fit(sz.zone) && NamesOf(names, sz.zone) && Honest(e, sz.ring, sz.zone.origin)
    requires sz.nsec3.Some? && ParamsOk(sz.nsec3.value) && msg.questions != []
    requires ZoneChain(e.hash, sz.zone, names, sz.nsec3.value, SignOne(sz.ring)).Some?
    requires Responds(e.hash, sz, names, msg) && !AsksKeys(sz, msg.questions[0]) && !AsksParams(sz, msg.questions[0])
    requires ValidName(msg.questions[0].qname) && EndsWith(msg.questions[0].qname, sz.zone.origin)
    requires Lookup(sz.zone, msg.questions[0].qname, msg.questions[0].qtype).answers == []
    ensures var q, p := msg.questions[0], sz.nsec3.value;
      Validate(e, msg) ==
      if p.iterations <= MAX_NSEC3_ITERATIONS &&
         (Lookup(sz.zone, q.qname, q.qtype).rcode == RCODE_NXDOMAIN || HashesLikeOwner(e.hash, sz.zone, p, q.qname))
      then Secure else Insecure
  {
    hide Signable, Fit, Honest, Lookup, ZoneChain, Owners, Validate, DenialProven, Nsec3Denial, SignedDenial, RrsigsFor,
      ValidName, EndsWith, Responds;
    var z, ring, q, p := sz.zone, sz.ring, msg.questions[0], sz.nsec3.value;
    NegativeIs(e.hash, sz, names, msg);
    var nx := Lookup(z, q.qname, q.qtype).rcode == RCODE_NXDOMAIN;
    var nodes := ZoneChain(e.hash, z, names, p, SignOne(ring)).value;
    var denial := Nsec3Denial(e.hash, p, nodes, Owners(names), z.origin, q.qname, nx);
    Nsec3Denied(e.hash, z, names, p, ring, q.qname, nx);
    NegativeVerdict(e, sz, denial, TYPE_NSEC3, msg);
    RrsigsAreSigs(sz, (z.origin, TYPE_SOA));
    SignsSigs(ring);
    SignableSoa(z);
    FitOk(z);
    Nsec3AnswerProven(e, z, names, p, SignOne(ring), SoaSigs(sz), msg);
    Nsec3DenialTypes(e.hash, z, names, p, SignOne(ring), q.qname, nx);
    assert forall r :: r in msg.authorities && IsNsec(r) ==> r in denial && Type(r) == TYPE_NSEC3;
    assert forall r :: r in msg.authorities && TooManyIterations(r) ==> IsNsec(r);
    if DenialProven(e, msg) {
      var r := ProvenBy(e, msg);
      assert TooManyIterations(r) <==> p.iterations > MAX_NSEC3_ITERATIONS;
    } else {
      UnprovenEmpty(e.hash, z, names, p, ring, q.qname);
    }
  }

  lemma FitOk(z: Zone)
    requires Fit(z)
    ensures ZoneOk(z)
  {
  }

  lemma UnprovenEmpty(hash: Hash, z: Zone, names: seq<DnsName>, p: Params, ring: Keyring, qname: DnsName)
    requires ZoneOk(z) && NamesOf(names, z) && ParamsOk(p) && ZoneChain(hash, z, names, p, SignOne(ring)).Some?
    requires !HashesLikeOwner(hash, z, p, qname)
    ensures var nodes := ZoneChain(hash, z, names, p, SignOne(ring)).value;
      Nsec3Denial(hash, p, nodes, Owners(names), z.origin, qname, false) == []
  {
    hide ZoneChain, ZoneOk, Owners;
    var m := Matching(ZoneChain(hash, z, names, p, SignOne(ring)).value, hash(qname, p));
    if m.Some? {
      NodeOwned(hash, z, names, p, ring, m.value);
    }
  }

  lemma NodeOwned(hash: Hash, z: Zone, names: seq<DnsName>, p: Params, ring: Keyring, n: Node3)
    requires ZoneOk(z) && NamesOf(names, z) && ParamsOk(p) && ZoneChain(hash, z, names, p, SignOne(ring)).Some?
    requires n in ZoneChain(hash, z, names, p, SignOne(ring)).value
    ensures exists o :: o in z.records && hash(o, p) == n.hash
  {
    hide ZoneHashes, OwnerName, EntryOf, ParseNsec3, Named, NodeAt, BytesLe, ZoneOk, StrictlySorted;
    var hs := ZoneHashes(hash, z, names, p);
    var i := NodeIndex(z.origin, hs, p, z.soa.ttl, SignOne(ring), n);
    ZoneHashesOk(hash, z, names, p);
    assert Hashes(hs)[i] in Hashes(hs);
  }

  lemma ProvenBy(e: Env, msg: Message) returns (r: Record)
    requires DenialProven(e, msg)
    ensures r in msg.authorities && IsNsec(r)
  {
    hide Nsec3Proves, NsecProves;
    var nsec3s, nsecs := OnlyNsec3(msg.authorities), OfType(msg.authorities, TYPE_NSEC);
    FilterIn(msg.authorities, (x: Record) => Type(x) == TYPE_NSEC3);
    FilterIn(msg.authorities, (x: Record) => Type(x) == TYPE_NSEC);
    r := if nsec3s != [] then nsec3s[0] else nsecs[0];
    assert r in nsec3s || r in nsecs;
  }

  // ------------------------------------------------------------ every response

  /** What the validator makes of the response to `q`; a lookup that aborts has none. */
  function Expected(hash: Hash, sz: SignedZone, q: Question): Security {
    var z := sz.zone;
    var found := Lookup(z, q.qname, q.qtype);
    if AsksKeys(sz, q) then Secure
    else if AsksParams(sz, q) then
      if SetOf(Node(z.records, z.origin), z.origin, TYPE_NSEC3PARAM) == [] then Secure else Bogus
    else if found.Stuck? then Bogus
    else if found.answers != [] then AnswerJudged(sz, found.answers)
    else if sz.nsec3.None? then
      if q.qname in z.records && SignerAdds(z, q.qname, q.qtype) then Bogus else Secure
    else
      var p := sz.nsec3.value;
      if p.iterations <= MAX_NSEC3_ITERATIONS && (found.rcode == RCODE_NXDOMAIN || HashesLikeOwner(hash, z, p, q.qname))
      then Secure else Insecure
  }

  /** The verdict on every response of a signed zone, whatever is asked, for a strict signature scheme. */
  lemma ResponseVerdict(e: Env, sz: SignedZone, names: seq<DnsName>, msg: Message)
    requires Signable(sz.zone) && Fit(sz.zone) && NamesOf(names, sz.zone) && Encodable(sz)
    requires Honest(e, sz.ring, sz.zone.origin) && Strict(e, sz.ring, sz.zone.origin)
    requires sz.nsec3.Some? ==>
      ParamsOk(sz.nsec3.value) && ZoneChain(e.hash, sz.zone, names, sz.nsec3.value, SignOne(sz.ring)).Some?
    requires Responds(e.hash, sz, names, msg)
    requires ValidName(msg.questions[0].qname) && EndsWith(msg.questions[0].qname, sz.zone.origin)
    requires var found := Lookup(sz.zone, msg.questions[0].qname, msg.questions[0].qtype);
      found.Looked? ==> Unsigned(found.answers)
    ensures Validate(e, msg) == Expected(e.hash, sz, msg.questions[0])
  {
    hide Signable, Fit, Encodable, Honest, Strict, ZoneChain, Validate, AnswerJudged, Lookup, SetOf, SignerAdds,
      HashesLikeOwner, ValidName, EndsWith, WithSigs, DenialFor, RrsigsFor, SignAll, DnskeyRrset;
    var q := msg.questions[0];
    if AsksKeys(sz, q) {
      KeysVerdict(e, sz, names, msg);
    } else if AsksParams(sz, q) {
      ParamsVerdict(e, sz, names, msg);
      ApexThere(sz.zone);
    } else if Lookup(sz.zone, q.qname, q.qtype).answers != [] {
      LookupVerdict(e, sz, names, msg);
    } else if sz.nsec3.None? {
      NsecVerdict(e, sz, names, msg);
    } else {
      Nsec3Verdict(e, sz, names, msg);
    }
  }

  lemma ApexThere(z: Zone)
    requires Fit(z)
    ensures z.origin in z.records
  {
  }
}
