/**
 * A signed zone: which keys sign what, the signatures put beside an answer, and what becomes of each
 * rrset when the validator's chain of trust reaches the zone's keys.
 */
module SignedZones {
  import opened Bytes
  import opened Names
  import opened Messages
  import opened Codec
  import opened Seqs
  import opened Orders
  import opened Zones
  import opened Rrsigs
  import opened Binding
  import opened Nsec3s
  import opened Trust
  import opened Verdicts
  import opened Denials

  /** A signing key and its private half. */
  datatype Signer = Signer(key: Key, sign: Bytes -> Bytes)

  /** The active keys and the validity period. */
  datatype Keyring = Keyring(keys: seq<Signer>, inception: nat, expiration: nat)

  /** A zone with its keys, and the NSEC3 parameters unless it uses NSEC. */
  datatype SignedZone = SignedZone(zone: Zone, ring: Keyring, nsec3: Option<Params>)

  // ---------------------------------------------------------------- signing

  predicate IsKsk(k: Signer) { k.key.flags % 2 == 1 }

  /** The keys that sign the key set: those marked for it, or all when none is. */
  function Ksks(ring: Keyring): seq<Signer> {
    var ks := Filter(ring.keys, IsKsk);
    if |ks| == 0 then ring.keys else ks
  }

  /** The keys that sign everything else: those not so marked, or all when all are. */
  function Zsks(ring: Keyring): seq<Signer> {
    var ks := Filter(ring.keys, (k: Signer) => !IsKsk(k));
    if |ks| == 0 then ring.keys else ks
  }

  function SigRecord(ring: Keyring, k: Signer, rrset: seq<Record>): Record
    requires rrset != []
  {
    Record(rrset[0].name, CLASS_IN, rrset[0].ttl, Unknown(TYPE_RRSIG,
      SignRrset(k.key, k.sign, rrset[0].name, Type(rrset[0]), rrset, ring.inception, ring.expiration)))
  }

  function SignAll(ring: Keyring, keys: seq<Signer>, rrset: seq<Record>): seq<Record>
    requires rrset != []
  {
    Map((k: Signer) => SigRecord(ring, k, rrset), keys)
  }

  function SignOne(ring: Keyring): Record -> seq<Record> { (r: Record) => SignAll(ring, Zsks(ring), [r]) }

  function ParamRecord(z: Zone, p: Params): Record {
    Record(z.origin, CLASS_IN, z.soa.ttl, Unknown(TYPE_NSEC3PARAM,
      [1, 0] + Be16(p.iterations) + [(|p.salt| % 256) as Byte] + p.salt))
  }

  /** What is signed: the zone's records and, with NSEC3, its parameters at the apex. */
  function Groups(sz: SignedZone): Store {
    var m := sz.zone.records;
    match sz.nsec3
    case None => m
    case Some(p) => m[sz.zone.origin := Node(m, sz.zone.origin) + [ParamRecord(sz.zone, p)]]
  }

  function Stored(sz: SignedZone, id: SetId): seq<Record> { SetOf(Node(Groups(sz), id.0), id.0, id.1) }

  /** `rrsigs_for`: the signatures over one rrset. */
  function RrsigsFor(sz: SignedZone, id: SetId): seq<Record> {
    var rrset := Stored(sz, id);
    if rrset == [] then [] else SignAll(sz.ring, Zsks(sz.ring), rrset)
  }

  function Ids(rs: seq<Record>): seq<SetId> { Map((r: Record) => (r.name, Type(r)), rs) }

  /** Signatures for each rrset once, in the order the answer first names them. */
  function Attached(sz: SignedZone, ids: seq<SetId>, done: seq<SetId>): seq<Record>
    decreases |ids|
  {
    if ids == [] then []
    else if ids[0] in done then Attached(sz, ids[1..], done)
    else RrsigsFor(sz, ids[0]) + Attached(sz, ids[1..], done + [ids[0]])
  }

  function WithSigs(sz: SignedZone, answers: seq<Record>): seq<Record> { answers + Attached(sz, Ids(answers), []) }

  method AttachSigs(sz: SignedZone, answers: seq<Record>) returns (r: seq<Record>)
    ensures r == WithSigs(sz, answers)
  {
    hide RrsigsFor;
    r := answers;
    var ids := Ids(answers);
    var done: seq<SetId> := [];
    for i := 0 to |ids|
      invariant r + Attached(sz, ids[i..], done) == answers + Attached(sz, ids, [])
    {
      assert ids[i..][0] == ids[i] && ids[i..][1..] == ids[i + 1..];
      if ids[i] !in done {
        var rest := Attached(sz, ids[i + 1..], done + [ids[i]]);
        assert r + (RrsigsFor(sz, ids[i]) + rest) == (r + RrsigsFor(sz, ids[i])) + rest;
        r := r + RrsigsFor(sz, ids[i]);
        done := done + [ids[i]];
      }
    }
    assert r + [] == r;
  }

  lemma KeysUsed(ring: Keyring)
    ensures (forall k :: k in Zsks(ring) ==> k in ring.keys) && (forall k :: k in Ksks(ring) ==> k in ring.keys)
    ensures ring.keys != [] ==> Zsks(ring) != [] && Ksks(ring) != []
  {
    FilterIn(ring.keys, IsKsk);
    FilterIn(ring.keys, (k: Signer) => !IsKsk(k));
  }

  lemma SignIn(ring: Keyring, keys: seq<Signer>, rrset: seq<Record>, s: Record)
    requires rrset != []
    ensures s in SignAll(ring, keys, rrset) <==> exists k :: k in keys && s == SigRecord(ring, k, rrset)
  {
    hide SignRrset;
    var sigs := SignAll(ring, keys, rrset);
    if s in sigs {
      var i :| 0 <= i < |sigs| && sigs[i] == s;
      assert keys[i] in keys;
    }
    if k :| k in keys && s == SigRecord(ring, k, rrset) {
      var i :| 0 <= i < |keys| && keys[i] == k;
      assert sigs[i] == s;
    }
  }

  lemma {:induction false} AttachedIn(sz: SignedZone, ids: seq<SetId>, done: seq<SetId>, s: Record)
    ensures s in Attached(sz, ids, done) <==> exists id :: id in ids && id !in done && s in RrsigsFor(sz, id)
    decreases |ids|
  {
    hide RrsigsFor;
    if ids != [] {
      assert ids == [ids[0]] + ids[1..];
      AttachedIn(sz, ids[1..], if ids[0] in done then done else done + [ids[0]], s);
    }
  }

  lemma IdsIn(rs: seq<Record>, id: SetId)
    ensures id in Ids(rs) <==> exists r :: r in rs && (r.name, Type(r)) == id
  {
    if id in Ids(rs) {
      var i :| 0 <= i < |rs| && Ids(rs)[i] == id;
      assert rs[i] in rs;
    }
    if r :| r in rs && (r.name, Type(r)) == id {
      var i :| 0 <= i < |rs| && rs[i] == r;
      assert Ids(rs)[i] == id;
    }
  }

  // ------------------------------------------------------------ honest chains

  /** The validator's walk ends in a key set that holds every signing key, and the scheme accepts its own signatures. */
  ghost predicate Honest(e: Env, ring: Keyring, origin: DnsName) {
    && Deterministic(e) && |origin| <= MAX_DEPTH && ring.keys != [] && ring.inception < U32 && ring.expiration < U32
    && PlainKeys(e, origin).Some?
    && forall k :: k in ring.keys ==> KeyHonest(e, k, origin, PlainKeys(e, origin).value)
  }

  ghost predicate KeyHonest(e: Env, k: Signer, origin: DnsName, keys: seq<Bytes>) {
    && KeyOk(k.key) && k.key.signer == origin && DnskeyRdata(k.key) in keys
    && forall data :: e.check(k.key.algorithm, k.key.public, data, k.sign(data))
  }

  /** No published key accepts a signature on other data than it was made for. */
  ghost predicate Strict(e: Env, ring: Keyring, origin: DnsName) {
    && PlainKeys(e, origin).Some?
    && forall key, k :: key in PlainKeys(e, origin).value && k in ring.keys ==> Exacting(e.check, key, k.sign)
  }

  lemma KeysThere(e: Env, ring: Keyring, origin: DnsName)
    requires Honest(e, ring, origin)
    ensures Deterministic(e) && PlainKeys(e, origin).Some? && |origin| <= MAX_DEPTH && ring.keys != []
  {
  }

  predicate GoodRrset(rrset: seq<Record>) {
    && rrset != [] && ValidName(rrset[0].name) && rrset[0].ttl < U32
    && Type(rrset[0]) < 65536 && Type(rrset[0]) != TYPE_RRSIG
    && forall r :: r in rrset ==> r.name == rrset[0].name && Type(r) == Type(rrset[0])
  }

  /** `s` was made by `k` over `rrset`. */
  ghost predicate MadeBy(ring: Keyring, s: Record, k: Signer, rrset: seq<Record>) {
    k in ring.keys && GoodRrset(rrset) && s == SigRecord(ring, k, rrset)
  }

  /** What the validator reads in a made signature. */
  lemma SigReads(e: Env, ring: Keyring, origin: DnsName, s: Record, k: Signer, rrset: seq<Record>)
    requires Honest(e, ring, origin) && MadeBy(ring, s, k, rrset)
    ensures rrset != [] && s.name == rrset[0].name && Type(s) == TYPE_RRSIG
    ensures s.rdata.Unknown? && ParseRrsig(s.rdata.data).Some?
    ensures ParseRrsig(s.rdata.data).value.signer == origin
    ensures ParseRrsig(s.rdata.data).value.typeCovered == Type(rrset[0])
  {
    hide Stripped, PlainKeys, Deterministic, VerifyRrsig, SignRrset, ParseRrsig, KeyOk, ValidName;
    assert KeyHonest(e, k, origin, PlainKeys(e, origin).value);
    RrsigAgrees(e.check, k.key, k.sign, rrset[0].name, Type(rrset[0]), rrset, ring.inception, ring.expiration, rrset);
  }

  lemma SigVerifies(
    e: Env, ring: Keyring, origin: DnsName, s: Record, k: Signer, rrset: seq<Record>, shown: seq<Record>)
    requires Honest(e, ring, origin) && MadeBy(ring, s, k, rrset)
    requires multiset(Stripped(shown)) == multiset(Stripped(rrset))
    ensures s.rdata.Unknown? && AnyVerifies(e, shown, s.rdata.data, PlainKeys(e, origin).value)
  {
    hide Stripped, PlainKeys, Deterministic, VerifyRrsig, SignRrset, ParseRrsig, KeyOk, ValidName;
    assert KeyHonest(e, k, origin, PlainKeys(e, origin).value);
    RrsigAgrees(e.check, k.key, k.sign, rrset[0].name, Type(rrset[0]), rrset, ring.inception, ring.expiration, shown);
  }

  lemma SigRejected(
    e: Env, ring: Keyring, origin: DnsName, s: Record, k: Signer, rrset: seq<Record>, shown: seq<Record>)
    requires Honest(e, ring, origin) && Strict(e, ring, origin) && MadeBy(ring, s, k, rrset)
    requires WfRecords(rrset) && WfRecords(shown) && forall r :: r in shown ==> r.name == s.name
    requires multiset(Stripped(shown)) != multiset(Stripped(rrset))
    ensures s.rdata.Unknown? && !AnyVerifies(e, shown, s.rdata.data, PlainKeys(e, origin).value)
  {
    hide Stripped, PlainKeys, Deterministic, VerifyRrsig, SignRrset, ParseRrsig, KeyOk, ValidName, WfRecords;
    assert KeyHonest(e, k, origin, PlainKeys(e, origin).value);
    if AnyVerifies(e, shown, s.rdata.data, PlainKeys(e, origin).value) {
      var key :| key in PlainKeys(e, origin).value && VerifyRrsig(e.check, shown, s.rdata.data, key);
      RrsigRejects(e.check, k.key, k.sign, rrset[0].name, Type(rrset[0]), rrset, ring.inception, ring.expiration, shown, key);
    }
  }

  /** Where a signature over a set comes from. */
  lemma SigFound(rs: seq<Record>, owner: DnsName, t: nat, sig: Bytes)
    ensures sig in SigsOver(rs, owner, t) <==>
      ParseRrsig(sig).Some? && ParseRrsig(sig).value.typeCovered == t &&
      exists s :: s in rs && Type(s) == TYPE_RRSIG && s.name == owner && s.rdata.Unknown? && s.rdata.data == sig
  {
    hide DataOf, ParseRrsig;
    var at := Filter(rs, (r: Record) => Type(r) == TYPE_RRSIG && r.name == owner);
    FilterIn(rs, (r: Record) => Type(r) == TYPE_RRSIG && r.name == owner);
    FilterIn(DataOf(at), (x: Bytes) => ParseRrsig(x).Some? && ParseRrsig(x).value.typeCovered == t);
    DataOfIn(at, sig);
  }

  // ------------------------------------------------------- what becomes of a set

  /** Every signature in the section was made with these keys. */
  ghost predicate MadeSection(ring: Keyring, rs: seq<Record>) {
    forall s :: s in rs && Type(s) == TYPE_RRSIG ==> exists k, rrset :: MadeBy(ring, s, k, rrset)
  }

  lemma SignersNear(e: Env, ring: Keyring, origin: DnsName, rs: seq<Record>)
    requires Honest(e, ring, origin) && MadeSection(ring, rs)
    ensures NearSigners(rs)
  {
    hide Honest, ParseRrsig, MadeBy, OfType, DataOf;
    forall sig | sig in DataOf(OfType(rs, TYPE_RRSIG)) && ParseRrsig(sig).Some?
      ensures |ParseRrsig(sig).value.signer| <= MAX_DEPTH
    {
      DataOfIn(OfType(rs, TYPE_RRSIG), sig);
      OfTypeIn(rs, TYPE_RRSIG);
      var s :| s in OfType(rs, TYPE_RRSIG) && s.rdata.Unknown? && s.rdata.data == sig;
      var k, rrset :| MadeBy(ring, s, k, rrset);
      SigReads(e, ring, origin, s, k, rrset);
      KeysThere(e, ring, origin);
    }
  }

  lemma OfTypeIn(rs: seq<Record>, t: nat)
    ensures forall r :: r in OfType(rs, t) <==> r in rs && Type(r) == t
  {
    FilterIn(rs, (r: Record) => Type(r) == t);
  }

  /** All signatures at `id` were made over `rrset`. */
  ghost predicate SetMade(ring: Keyring, rs: seq<Record>, id: SetId, rrset: seq<Record>) {
    && GoodRrset(rrset) && rrset[0].name == id.0 && Type(rrset[0]) == id.1
    && forall sig :: sig in SigsOver(rs, id.0, id.1) ==> SigMade(ring, sig, rrset)
  }

  ghost predicate SigMade(ring: Keyring, sig: Bytes, rrset: seq<Record>) {
    exists s, k :: MadeBy(ring, s, k, rrset) && s.rdata.Unknown? && s.rdata.data == sig
  }

  lemma {:induction false} AllRejected(
    e: Env, ring: Keyring, origin: DnsName, shown: seq<Record>, rrset: seq<Record>, sigs: seq<Bytes>)
    requires Honest(e, ring, origin) && Strict(e, ring, origin) && GoodRrset(rrset)
    requires WfRecords(rrset) && WfRecords(shown) && forall r :: r in shown ==> r.name == rrset[0].name
    requires multiset(Stripped(shown)) != multiset(Stripped(rrset))
    requires forall sig :: sig in sigs ==> SigMade(ring, sig, rrset)
    ensures SetOutcome(e, shown, sigs) == Failed
    decreases |sigs|
  {
    hide Honest, Strict, Stripped, GoodRrset, WfRecords, MadeBy, AnyVerifies, PlainKeys, ParseRrsig;
    if sigs != [] {
      assert sigs[0] in sigs;
      var s, k :| MadeBy(ring, s, k, rrset) && s.rdata.Unknown? && s.rdata.data == sigs[0];
      SigReads(e, ring, origin, s, k, rrset);
      SigRejected(e, ring, origin, s, k, rrset, shown);
      KeysThere(e, ring, origin);
      AllRejected(e, ring, origin, shown, rrset, sigs[1..]);
    }
  }

  /** A signed set verifies if it is the one that was signed, up to order and TTLs; otherwise a strict scheme fails it. */
  lemma SetJudged(e: Env, ring: Keyring, origin: DnsName, rs: seq<Record>, id: SetId, rrset: seq<Record>)
    requires Honest(e, ring, origin) && SetMade(ring, rs, id, rrset) && SigsOver(rs, id.0, id.1) != []
    ensures multiset(Stripped(SetOf(rs, id.0, id.1))) == multiset(Stripped(rrset)) ==>
      forall o :: Comes(e, rs, id, o) <==> o == Verified
    ensures Strict(e, ring, origin) && WfRecords(rrset) && WfRecords(SetOf(rs, id.0, id.1)) &&
      multiset(Stripped(SetOf(rs, id.0, id.1))) != multiset(Stripped(rrset)) ==>
      forall o :: Comes(e, rs, id, o) <==> o == Failed
  {
    hide Honest, Strict, Stripped, GoodRrset, WfRecords, MadeBy, AnyVerifies, PlainKeys, ParseRrsig, SigsOver, SetOf;
    var sigs, shown := SigsOver(rs, id.0, id.1), SetOf(rs, id.0, id.1);
    assert sigs[0] in sigs;
    var s, k :| MadeBy(ring, s, k, rrset) && s.rdata.Unknown? && s.rdata.data == sigs[0];
    SigReads(e, ring, origin, s, k, rrset);
    KeysThere(e, ring, origin);
    if multiset(Stripped(shown)) == multiset(Stripped(rrset)) {
      SigVerifies(e, ring, origin, s, k, rrset, shown);
    } else if Strict(e, ring, origin) && WfRecords(rrset) && WfRecords(shown) {
      SetNamed(rs, id);
      AllRejected(e, ring, origin, shown, rrset, sigs);
    }
  }

  lemma SetNamed(rs: seq<Record>, id: SetId)
    ensures forall r :: r in SetOf(rs, id.0, id.1) <==> r in rs && r.name == id.0 && Type(r) == id.1
  {
    FilterIn(rs, (r: Record) => r.name == id.0 && Type(r) == id.1);
  }

  // ------------------------------------------------------- sections that verify

  /** `s` was made over an rrset that the section holds whole. */
  ghost predicate SignedOver(ring: Keyring, rs: seq<Record>, s: Record, k: Signer, rrset: seq<Record>) {
    && MadeBy(ring, s, k, rrset)
    && multiset(Stripped(SetOf(rs, rrset[0].name, Type(rrset[0])))) == multiset(Stripped(rrset))
  }

  ghost predicate SignedSection(ring: Keyring, rs: seq<Record>) {
    forall s :: s in rs && Type(s) == TYPE_RRSIG ==> exists k, rrset :: SignedOver(ring, rs, s, k, rrset)
  }

  lemma SetVerifies(e: Env, ring: Keyring, origin: DnsName, rs: seq<Record>, id: SetId)
    requires Honest(e, ring, origin) && SignedSection(ring, rs) && SigsOver(rs, id.0, id.1) != []
    ensures SetOutcome(e, SetOf(rs, id.0, id.1), SigsOver(rs, id.0, id.1)) == Verified
  {
    hide SigsOver, SetOf, Honest, AnyVerifies, PlainKeys, ParseRrsig, MadeBy, Stripped;
    var sig := SigsOver(rs, id.0, id.1)[0];
    assert sig in SigsOver(rs, id.0, id.1);
    SigFound(rs, id.0, id.1, sig);
    var s :| s in rs && Type(s) == TYPE_RRSIG && s.name == id.0 && s.rdata.Unknown? && s.rdata.data == sig;
    var k, rrset :| SignedOver(ring, rs, s, k, rrset);
    SigReads(e, ring, origin, s, k, rrset);
    SigVerifies(e, ring, origin, s, k, rrset, SetOf(rs, id.0, id.1));
    KeysThere(e, ring, origin);
  }

  /** In a section whose signatures are all over whole rrsets none fails, and one verifies if there is any. */
  lemma SectionVerdict(e: Env, ring: Keyring, origin: DnsName, rs: seq<Record>)
    requires Honest(e, ring, origin) && SignedSection(ring, rs)
    ensures NearSigners(rs) && !SomeSet(e, rs, Failed)
    ensures SomeSet(e, rs, Verified) <==> exists s :: s in rs && Type(s) == TYPE_RRSIG
  {
    hide Honest, SetOutcome, SigsOver, SetOf, MadeBy, NearSigners, ParseRrsig, Stripped;
    assert MadeSection(ring, rs) by { SignedIsMade(ring, rs); }
    SignersNear(e, ring, origin, rs);
    forall r | r in rs && SigsOver(rs, r.name, Type(r)) != []
      ensures Comes(e, rs, (r.name, Type(r)), Verified) && !Comes(e, rs, (r.name, Type(r)), Failed)
      ensures exists s :: s in rs && Type(s) == TYPE_RRSIG
    {
      SetVerifies(e, ring, origin, rs, (r.name, Type(r)));
      SigFound(rs, r.name, Type(r), SigsOver(rs, r.name, Type(r))[0]);
    }
    if s :| s in rs && Type(s) == TYPE_RRSIG {
      var k, rrset :| SignedOver(ring, rs, s, k, rrset);
      SigReads(e, ring, origin, s, k, rrset);
      SigFound(rs, s.name, Type(rrset[0]), s.rdata.data);
      var r := Presented(ring, rs, s, k, rrset);
      assert SigsOver(rs, r.name, Type(r)) != [];
    }
  }

  lemma SignedIsMade(ring: Keyring, rs: seq<Record>)
    requires SignedSection(ring, rs)
    ensures MadeSection(ring, rs)
  {
    hide MadeBy, SetOf, Stripped;
    forall s | s in rs && Type(s) == TYPE_RRSIG ensures exists k, rrset :: MadeBy(ring, s, k, rrset) {
      var k, rrset :| SignedOver(ring, rs, s, k, rrset);
    }
  }

  lemma Presented(ring: Keyring, rs: seq<Record>, s: Record, k: Signer, rrset: seq<Record>) returns (r: Record)
    requires SignedOver(ring, rs, s, k, rrset)
    ensures r in rs && r.name == s.name && Type(r) == Type(rrset[0]) && Type(r) != TYPE_RRSIG
  {
    hide SignRrset, ValidName;
    var shown := SetOf(rs, rrset[0].name, Type(rrset[0]));
    assert Stripped(rrset)[0] in multiset(Stripped(rrset));
    assert |multiset(Stripped(shown))| > 0;
    assert shown != [];
    r := shown[0];
    FilterIn(rs, (x: Record) => x.name == rrset[0].name && Type(x) == Type(rrset[0]));
    assert r in shown;
  }

  // --------------------------------------------------- answers beside their signatures

  /** The zone is in order and every record fits its fields. */
  ghost predicate Fit(z: Zone) {
    && ZoneOk(z)
    && forall o, r :: o in z.records && r in z.records[o] ==> ValidName(o) && r.ttl < U32 && Type(r) < 65536
  }

  predicate Unsigned(rs: seq<Record>) { forall r :: r in rs ==> Type(r) != TYPE_RRSIG }

  /** Records shown under a name that is signed are among those signed there. */
  predicate FromZone(sz: SignedZone, answers: seq<Record>) {
    forall r :: r in answers && r.name in Groups(sz) ==> r in Groups(sz)[r.name]
  }

  /** The answer shows the set of `r` as it was signed, up to order and TTLs. */
  predicate Whole(sz: SignedZone, answers: seq<Record>, r: Record) {
    multiset(Stripped(SetOf(answers, r.name, Type(r)))) == multiset(Stripped(Stored(sz, (r.name, Type(r)))))
  }

  /** Bogus if some signed set is not shown as it was signed, else secure if any is signed, else insecure. */
  function AnswerJudged(sz: SignedZone, answers: seq<Record>): Security {
    if exists r :: r in answers && r.name in Groups(sz) && !Whole(sz, answers, r) then Bogus
    else if exists r :: r in answers && r.name in Groups(sz) then Secure
    else Insecure
  }

  lemma GroupsFit(sz: SignedZone)
    requires Fit(sz.zone)
    ensures sz.zone.origin in Groups(sz) && forall o :: o in Groups(sz) <==> o in sz.zone.records
    ensures forall o, r :: o in Groups(sz) && r in Groups(sz)[o] ==>
      ValidName(o) && r.name == o && r.ttl < U32 && Type(r) < 65536
  {
    hide ValidName;
    var z := sz.zone;
    SoaInZone(z);
    forall o, r | o in Groups(sz) && r in Groups(sz)[o]
      ensures ValidName(o) && r.name == o && r.ttl < U32 && Type(r) < 65536
    {
      assert NodeOk(z.origin, o, z.records[o]);
    }
  }

  lemma SoaInZone(z: Zone)
    requires ZoneOk(z)
    ensures z.soa.name == z.origin && z.origin in z.records && z.soa in z.records[z.origin] && Type(z.soa) == TYPE_SOA
  {
    OnlySoa(z.records[z.origin], z.soa);
  }

  /** A signed rrset is fit to be signed. */
  lemma StoredGood(sz: SignedZone, id: SetId)
    requires Fit(sz.zone) && id.1 != TYPE_RRSIG && Stored(sz, id) != []
    ensures GoodRrset(Stored(sz, id)) && Stored(sz, id)[0].name == id.0 && Type(Stored(sz, id)[0]) == id.1
  {
    hide ValidName, Fit, Groups;
    GroupsFit(sz);
    SetNamed(Node(Groups(sz), id.0), id);
    assert Stored(sz, id)[0] in Stored(sz, id);
  }

  lemma RrsigsMade(sz: SignedZone, id: SetId, s: Record)
    requires Fit(sz.zone) && id.1 != TYPE_RRSIG && s in RrsigsFor(sz, id)
    ensures Stored(sz, id) != [] && exists k :: MadeBy(sz.ring, s, k, Stored(sz, id))
  {
    hide Fit, Stored, GoodRrset, SignRrset, Zsks;
    StoredGood(sz, id);
    KeysUsed(sz.ring);
    SignIn(sz.ring, Zsks(sz.ring), Stored(sz, id), s);
    var k :| k in Zsks(sz.ring) && s == SigRecord(sz.ring, k, Stored(sz, id));
    assert MadeBy(sz.ring, s, k, Stored(sz, id));
  }

  lemma RrsigsAreSigs(sz: SignedZone, id: SetId)
    ensures AllSigs(RrsigsFor(sz, id))
  {
    hide Stored, SignRrset, Zsks;
    var rrset := Stored(sz, id);
    if rrset != [] {
      forall s | s in RrsigsFor(sz, id) ensures Type(s) == TYPE_RRSIG {
        SignIn(sz.ring, Zsks(sz.ring), rrset, s);
      }
    }
  }

  /** Every attached signature was made over the stored rrset of one of the answer's sets. */
  lemma AttachedMade(sz: SignedZone, answers: seq<Record>, s: Record) returns (r: Record)
    requires Fit(sz.zone) && Unsigned(answers) && s in Attached(sz, Ids(answers), [])
    ensures r in answers && s in RrsigsFor(sz, (r.name, Type(r)))
    ensures Stored(sz, (r.name, Type(r))) != [] && exists k :: MadeBy(sz.ring, s, k, Stored(sz, (r.name, Type(r))))
  {
    hide Fit, RrsigsFor, Attached, Ids, MadeBy, Stored;
    AttachedIn(sz, Ids(answers), [], s);
    var id :| id in Ids(answers) && s in RrsigsFor(sz, id);
    IdsIn(answers, id);
    r :| r in answers && (r.name, Type(r)) == id;
    RrsigsMade(sz, id, s);
  }

  lemma AttachedAreSigs(sz: SignedZone, answers: seq<Record>)
    ensures AllSigs(Attached(sz, Ids(answers), []))
  {
    hide RrsigsFor, Attached, Ids;
    forall s | s in Attached(sz, Ids(answers), []) ensures Type(s) == TYPE_RRSIG {
      AttachedIn(sz, Ids(answers), [], s);
      var id :| id in Ids(answers) && s in RrsigsFor(sz, id);
      RrsigsAreSigs(sz, id);
    }
  }

  /** Signatures beside a set do not change it. */
  lemma SetBeside(answers: seq<Record>, sigs: seq<Record>, owner: DnsName, t: nat)
    requires AllSigs(sigs) && t != TYPE_RRSIG
    ensures SetOf(answers + sigs, owner, t) == SetOf(answers, owner, t)
  {
    var inSet := (x: Record) => x.name == owner && Type(x) == t;
    FilterAppend(answers, sigs, inSet);
    FilterNone(sigs, inSet);
    assert Filter(answers, inSet) + [] == Filter(answers, inSet);
  }

  lemma AnswerMade(sz: SignedZone, answers: seq<Record>)
    requires Fit(sz.zone) && Unsigned(answers)
    ensures MadeSection(sz.ring, WithSigs(sz, answers))
  {
    hide Fit, Attached, Ids, MadeBy, Stored, RrsigsFor;
    var rs := WithSigs(sz, answers);
    forall s | s in rs && Type(s) == TYPE_RRSIG ensures exists k, rrset :: MadeBy(sz.ring, s, k, rrset) {
      var _ := AttachedMade(sz, answers, s);
    }
  }

  /** The signatures at one of the answer's sets: made over its stored rrset, and there exactly when its name is signed. */
  lemma AnswerSet(e: Env, sz: SignedZone, answers: seq<Record>, r: Record)
    requires Fit(sz.zone) && Honest(e, sz.ring, sz.zone.origin) && Unsigned(answers) && FromZone(sz, answers) && r in answers
    ensures var id := (r.name, Type(r));
      var rs := WithSigs(sz, answers);
      && (SigsOver(rs, id.0, id.1) != [] <==> r.name in Groups(sz))
      && (r.name in Groups(sz) ==> SetMade(sz.ring, rs, id, Stored(sz, id)))
  {
    hide Fit, Honest, Attached, Ids, MadeBy, Stored, RrsigsFor, SigsOver, ParseRrsig, Groups, GoodRrset;
    var id := (r.name, Type(r));
    var rs := WithSigs(sz, answers);
    var rrset := Stored(sz, id);
    assert SigsOver(rs, id.0, id.1) == [] || SigsOver(rs, id.0, id.1)[0] in SigsOver(rs, id.0, id.1);
    StoredThere(sz, r);
    if rrset != [] {
      StoredGood(sz, id);
    }
    forall sig | sig in SigsOver(rs, id.0, id.1) ensures rrset != [] && SigMade(sz.ring, sig, rrset) {
      SigFound(rs, id.0, id.1, sig);
      var s :| s in rs && Type(s) == TYPE_RRSIG && s.name == id.0 && s.rdata.Unknown? && s.rdata.data == sig;
      var x := AttachedMade(sz, answers, s);
      var made := Stored(sz, (x.name, Type(x)));
      var k :| MadeBy(sz.ring, s, k, made);
      SigReads(e, sz.ring, sz.zone.origin, s, k, made);
      StoredGood(sz, (x.name, Type(x)));
    }
    if rrset != [] {
      var s := FirstSig(e, sz, r);
      IdsIn(answers, id);
      AttachedIn(sz, Ids(answers), [], s);
      SigFound(rs, id.0, id.1, s.rdata.data);
    }
  }

  lemma StoredThere(sz: SignedZone, r: Record)
    requires r.name in Groups(sz) ==> r in Groups(sz)[r.name]
    ensures Stored(sz, (r.name, Type(r))) != [] <==> r.name in Groups(sz)
  {
    hide Groups;
    SetNamed(Node(Groups(sz), r.name), (r.name, Type(r)));
    if r.name in Groups(sz) {
      assert r in Stored(sz, (r.name, Type(r)));
    }
  }

  lemma FirstSig(e: Env, sz: SignedZone, r: Record) returns (s: Record)
    requires Fit(sz.zone) && Honest(e, sz.ring, sz.zone.origin)
    requires Type(r) != TYPE_RRSIG && Stored(sz, (r.name, Type(r))) != []
    ensures s in RrsigsFor(sz, (r.name, Type(r))) && Type(s) == TYPE_RRSIG && s.name == r.name && s.rdata.Unknown?
    ensures ParseRrsig(s.rdata.data).Some? && ParseRrsig(s.rdata.data).value.typeCovered == Type(r)
  {
    hide Fit, Honest, Stored, GoodRrset, ParseRrsig, Zsks, SignRrset, MadeBy;
    var id := (r.name, Type(r));
    KeysThere(e, sz.ring, sz.zone.origin);
    KeysUsed(sz.ring);
    s := RrsigsFor(sz, id)[0];
    assert s in RrsigsFor(sz, id);
    RrsigsMade(sz, id, s);
    var k :| MadeBy(sz.ring, s, k, Stored(sz, id));
    SigReads(e, sz.ring, sz.zone.origin, s, k, Stored(sz, id));
    StoredGood(sz, id);
  }

  /** Every stored record can be encoded. */
  predicate Encodable(sz: SignedZone) { forall o, r :: o in Groups(sz) && r in Groups(sz)[o] ==> WfRecord(r) }

  lemma SetEncodable(sz: SignedZone, answers: seq<Record>, r: Record)
    requires Encodable(sz) && FromZone(sz, answers) && r.name in Groups(sz)
    ensures WfRecords(SetOf(answers, r.name, Type(r))) && WfRecords(Stored(sz, (r.name, Type(r))))
  {
    hide WfRecord, Groups;
    var id := (r.name, Type(r));
    SetNamed(answers, id);
    SetNamed(Node(Groups(sz), r.name), id);
    var shown, rrset := SetOf(answers, r.name, Type(r)), Stored(sz, id);
    forall i | 0 <= i < |shown| ensures WfRecord(shown[i]) {
      assert shown[i] in shown;
    }
    forall i | 0 <= i < |rrset| ensures WfRecord(rrset[i]) {
      assert rrset[i] in rrset;
    }
  }

  /**
   * What becomes of each set of an answer beside its attached signatures: nothing if its name is not
   * signed, else it verifies if it is shown whole, and otherwise a strict scheme fails it.
   */
  lemma AnswerSetJudged(e: Env, sz: SignedZone, answers: seq<Record>, r: Record, o: Outcome)
    requires Fit(sz.zone) && Honest(e, sz.ring, sz.zone.origin) && Unsigned(answers) && FromZone(sz, answers) && r in answers
    requires r.name in Groups(sz) && !Whole(sz, answers, r) ==> Strict(e, sz.ring, sz.zone.origin) && Encodable(sz)
    ensures Comes(e, WithSigs(sz, answers), (r.name, Type(r)), o) <==>
      r.name in Groups(sz) && o == (if Whole(sz, answers, r) then Verified else Failed)
  {
    hide Fit, Honest, Strict, Attached, Stored, SigsOver, SetOf, Groups, Encodable, Stripped, SetMade, WfRecords, FromZone;
    var id := (r.name, Type(r));
    AnswerSet(e, sz, answers, r);
    if r.name in Groups(sz) {
      AttachedAreSigs(sz, answers);
      SetBeside(answers, Attached(sz, Ids(answers), []), id.0, id.1);
      if !Whole(sz, answers, r) {
        SetEncodable(sz, answers, r);
      }
      SetJudged(e, sz.ring, sz.zone.origin, WithSigs(sz, answers), id, Stored(sz, id));
    }
  }
}
