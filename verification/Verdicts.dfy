/** The verdict on a response: each rrset against the validated keys of its own signer, and denials. */
module Verdicts {
  import opened Bytes
  import opened Names
  import opened Messages
  import opened Seqs
  import opened Zones
  import opened Orders
  import opened Rrsigs
  import opened Nsecs
  import opened Nsec3s
  import opened Trust

  const MAX_NSEC3_ITERATIONS: nat := 100

  datatype Security = Secure | Insecure | Bogus

  datatype Section = Section(anySecure: bool, bogus: bool)

  /** What became of one signed rrset. */
  datatype Outcome = Verified | InsecureSigner | Failed

  // ------------------------------------------------------------ one section

  type SetId = (DnsName, nat)

  /** Owner as text, then type. */
  predicate SetLe(a: SetId, b: SetId) {
    var s, t := ShowName(a.0), ShowName(b.0);
    BytesLe(s, t) && (s == t ==> a.1 <= b.1)
  }

  function Sets(records: seq<Record>): seq<SetId> {
    Dedup(Sort(SetLe, Map((r: Record) => (r.name, Type(r)), Filter(records, (r: Record) => Type(r) != TYPE_RRSIG))))
  }

  predicate AnyVerifies(e: Env, rrset: seq<Record>, sig: Bytes, keys: seq<Bytes>) {
    exists k :: k in keys && VerifyRrsig(e.check, rrset, sig, k)
  }

  /** The signatures of one rrset in turn, until one settles it. */
  function TrySigs(e: Env, st: State, rrset: seq<Record>, sigs: seq<Bytes>): (State, Outcome)
    decreases |sigs|
  {
    if sigs == [] then (st, Failed)
    else if ParseRrsig(sigs[0]).None? then TrySigs(e, st, rrset, sigs[1..])
    else
      var (st', keys) := Walk(e, st, ParseRrsig(sigs[0]).value.signer, 0);
      if keys.None? then (st', InsecureSigner)
      else if AnyVerifies(e, rrset, sigs[0], keys.value) then (st', Verified)
      else TrySigs(e, st', rrset, sigs[1..])
  }

  function VerifySection(e: Env, st: State, records: seq<Record>, sets: seq<SetId>, anySecure: bool): (State, Section)
    decreases |sets|
  {
    if sets == [] then (st, Section(anySecure, false))
    else
      var (owner, t) := sets[0];
      var sigs := SigsOver(records, owner, t);
      if sigs == [] then VerifySection(e, st, records, sets[1..], anySecure)
      else
        var (st', outcome) := TrySigs(e, st, SetOf(records, owner, t), sigs);
        if outcome.Failed? then (st', Section(anySecure, true))
        else VerifySection(e, st', records, sets[1..], anySecure || outcome.Verified?)
  }

  // ------------------------------------------------------------ the response

  predicate TooManyIterations(r: Record) {
    Type(r) == TYPE_NSEC3 && r.rdata.Unknown? && |r.rdata.data| >= 4 &&
    Word(r.rdata.data, 2) > MAX_NSEC3_ITERATIONS
  }

  /** `denial_proven`: NSEC3 records decide when there are any, NSEC records otherwise. */
  predicate DenialProven(e: Env, msg: Message) {
    msg.questions != [] &&
    var q := msg.questions[0];
    var nsec3s, nsecs := OnlyNsec3(msg.authorities), OfType(msg.authorities, TYPE_NSEC);
    if nsec3s != [] then Nsec3Proves(e.hash, q.qname, nsec3s)
    else nsecs != [] && NsecProves(q.qname, q.qtype, nsecs)
  }

  predicate IsDenial(msg: Message) {
    (forall r :: r in msg.answers ==> Type(r) == TYPE_RRSIG) || msg.flags.rcode == RCODE_NXDOMAIN
  }

  function Judge(e: Env, st: State, msg: Message): (State, Security) {
    var (st1, answer) := VerifySection(e, st, msg.answers, Sets(msg.answers), false);
    var sofar := if answer.anySecure then Secure else Insecure;
    if answer.bogus then (st1, Bogus)
    else if exists r :: r in msg.authorities && TooManyIterations(r) then (st1, sofar)
    else if !IsDenial(msg) || msg.authorities == [] then (st1, sofar)
    else
      var (st2, auth) := VerifySection(e, st1, msg.authorities, Sets(msg.authorities), false);
      if auth.bogus then (st2, Bogus)
      else if auth.anySecure && DenialProven(e, msg) then (st2, Secure)
      else if auth.anySecure && exists r :: r in msg.authorities && IsNsec(r) then (st2, Bogus)
      else (st2, sofar)
  }

  function Validate(e: Env, msg: Message): Security { Judge(e, FRESH, msg).1 }

  // ------------------------------------------------------------ as it is run

  method RunTrySigs(ctx: Ctx, rrset: seq<Record>, sigs: seq<Bytes>) returns (o: Outcome)
    modifies ctx
    ensures (State(ctx.keys, ctx.log), o) == TrySigs(ctx.env, State(old(ctx.keys), old(ctx.log)), rrset, sigs)
  {
    hide AnyVerifies, ParseRrsig, Walk;
    o := Failed;
    var i := 0;
    while i < |sigs|
      invariant 0 <= i <= |sigs| && o == Failed
      invariant TrySigs(ctx.env, State(ctx.keys, ctx.log), rrset, sigs[i..]) ==
        TrySigs(ctx.env, State(old(ctx.keys), old(ctx.log)), rrset, sigs)
    {
      var f := ParseRrsig(sigs[i]);
      assert sigs[i..][0] == sigs[i] && sigs[i..][1..] == sigs[i + 1..];
      if f.Some? {
        var keys := ctx.GetDnskeys(f.value.signer, 0);
        if keys.None? {
          o := InsecureSigner;
          return;
        }
        if AnyVerifies(ctx.env, rrset, sigs[i], keys.value) {
          o := Verified;
          return;
        }
      }
      i := i + 1;
    }
  }

  method RunSection(ctx: Ctx, records: seq<Record>) returns (r: Section)
    modifies ctx
    ensures (State(ctx.keys, ctx.log), r) ==
      VerifySection(ctx.env, State(old(ctx.keys), old(ctx.log)), records, Sets(records), false)
  {
    hide TrySigs, Sets, SigsOver, SetOf;
    var sets := Sets(records);
    var anySecure := false;
    for i := 0 to |sets|
      invariant VerifySection(ctx.env, State(ctx.keys, ctx.log), records, sets[i..], anySecure) ==
        VerifySection(ctx.env, State(old(ctx.keys), old(ctx.log)), records, sets, false)
    {
      var (owner, t) := sets[i];
      assert sets[i..][0] == sets[i] && sets[i..][1..] == sets[i + 1..];
      var sigs := SigsOver(records, owner, t);
      if sigs != [] {
        var o := RunTrySigs(ctx, SetOf(records, owner, t), sigs);
        if o.Failed? {
          return Section(anySecure, true);
        }
        anySecure := anySecure || o.Verified?;
      }
    }
    r := Section(anySecure, false);
  }

  method RunValidate(e: Env, msg: Message) returns (verdict: Security)
    ensures verdict == Validate(e, msg)
  {
    hide VerifySection, DenialProven;
    var ctx := new Ctx(e);
    var answer := RunSection(ctx, msg.answers);
    if answer.bogus {
      return Bogus;
    }
    if exists r :: r in msg.authorities && TooManyIterations(r) {
      return if answer.anySecure then Secure else Insecure;
    }
    var denialSecure := false;
    if IsDenial(msg) && msg.authorities != [] {
      var auth := RunSection(ctx, msg.authorities);
      if auth.bogus {
        return Bogus;
      }
      if auth.anySecure && DenialProven(e, msg) {
        denialSecure := true;
      } else if auth.anySecure && exists r :: r in msg.authorities && IsNsec(r) {
        return Bogus;
      }
    }
    verdict := if answer.anySecure || denialSecure then Secure else Insecure;
  }

  // -------------------------------------------------------------- soundness

  /** The signers named by the signatures among the records. */
  ghost function Signers(rs: seq<Record>): set<DnsName> {
    set sig | sig in DataOf(OfType(rs, TYPE_RRSIG)) && ParseRrsig(sig).Some? :: ParseRrsig(sig).value.signer
  }

  /** `sig` is good over the named rrset under a key set with an unbroken chain from an anchor. */
  ghost predicate GoodSet(e: Env, log: Log, records: seq<Record>, id: SetId, sig: Bytes) {
    && sig in SigsOver(records, id.0, id.1) && ParseRrsig(sig).Some?
    && exists keys :: keys != [] && IsTrusted(e, log, ParseRrsig(sig).value.signer, keys) &&
         AnyVerifies(e, SetOf(records, id.0, id.1), sig, keys)
  }

  ghost predicate SomeGoodSet(e: Env, log: Log, records: seq<Record>) {
    exists id, sig :: id in Sets(records) && GoodSet(e, log, records, id, sig)
  }

  /** A signed rrset was settled: verified under trusted keys, or one of its signers is unsigned for a reason. */
  ghost predicate Settled(e: Env, log: Log, asked: set<DnsName>, records: seq<Record>, id: SetId) {
    SigsOver(records, id.0, id.1) != [] ==>
      exists sig :: sig in SigsOver(records, id.0, id.1) && ParseRrsig(sig).Some? &&
        (GoodSet(e, log, records, id, sig) || IsExcused(e, log, asked, ParseRrsig(sig).value.signer))
  }

  lemma {:induction false} DataOfIn(rs: seq<Record>, d: Bytes)
    ensures d in DataOf(rs) <==> exists r :: r in rs && r.rdata.Unknown? && r.rdata.data == d
    decreases |rs|
  {
    if rs != [] {
      DataOfIn(rs[1..], d);
      assert rs == [rs[0]] + rs[1..];
      assert rs[0] in rs;
    }
  }

  /** The signatures over one rrset are among the signatures. */
  lemma SigsAmong(rs: seq<Record>, owner: DnsName, t: nat, sig: Bytes)
    requires sig in SigsOver(rs, owner, t)
    ensures ParseRrsig(sig).Some? && ParseRrsig(sig).value.signer in Signers(rs)
  {
    hide DataOf, ParseRrsig;
    var at := Filter(rs, (r: Record) => Type(r) == TYPE_RRSIG && r.name == owner);
    FilterIn(DataOf(at), (x: Bytes) => ParseRrsig(x).Some? && ParseRrsig(x).value.typeCovered == t);
    FilterIn(rs, (r: Record) => Type(r) == TYPE_RRSIG && r.name == owner);
    FilterIn(rs, (r: Record) => Type(r) == TYPE_RRSIG);
    DataOfIn(at, sig);
    DataOfIn(OfType(rs, TYPE_RRSIG), sig);
  }

  lemma GoodSetLater(e: Env, log: Log, later: Log, records: seq<Record>, id: SetId, sig: Bytes)
    requires log <= later && GoodSet(e, log, records, id, sig)
    ensures GoodSet(e, later, records, id, sig)
  {
    hide Trusted, AnyVerifies, ParseRrsig, SigsOver, SetOf, Excused;
    var signer := ParseRrsig(sig).value.signer;
    var keys :| keys != [] && IsTrusted(e, log, signer, keys) && AnyVerifies(e, SetOf(records, id.0, id.1), sig, keys);
    GroundedLater(e, log, later, {}, signer, Some(keys));
  }

  lemma SettledLater(e: Env, log: Log, later: Log, asked: set<DnsName>, records: seq<Record>, id: SetId)
    requires log <= later && Settled(e, log, asked, records, id)
    ensures Settled(e, later, asked, records, id)
  {
    hide GoodSet, ParseRrsig, SigsOver, Excused, Trusted;
    if SigsOver(records, id.0, id.1) != [] {
      var sig :| sig in SigsOver(records, id.0, id.1) && ParseRrsig(sig).Some? &&
        (GoodSet(e, log, records, id, sig) || IsExcused(e, log, asked, ParseRrsig(sig).value.signer));
      if GoodSet(e, log, records, id, sig) {
        GoodSetLater(e, log, later, records, id, sig);
      } else {
        GroundedLater(e, log, later, asked, ParseRrsig(sig).value.signer, None);
      }
    }
  }

  lemma {:induction false} TrySigsSound(
    e: Env, st: State, records: seq<Record>, id: SetId, sigs: seq<Bytes>, asked: set<DnsName>)
    requires MemoSound(e, asked, st, {}) && Signers(records) <= asked
    requires forall s :: s in sigs ==> s in SigsOver(records, id.0, id.1)
    ensures var (st', o) := TrySigs(e, st, SetOf(records, id.0, id.1), sigs);
      && st.log <= st'.log && MemoSound(e, asked, st', {})
      && (o == Verified ==> exists sig :: GoodSet(e, st'.log, records, id, sig))
      && (o != Failed ==> Settled(e, st'.log, asked, records, id))
    decreases |sigs|
  {
    hide MemoSound, SigsOver, SetOf, ParseRrsig, IsTrusted, IsExcused, AnyVerifies, Signers, Walk;
    if sigs != [] {
      var sig := sigs[0];
      assert sig in sigs;
      SigsAmong(records, id.0, id.1, sig);
      var signer := ParseRrsig(sig).value.signer;
      WalkSound(e, st, signer, 0, asked, signer, {});
      var (st', keys) := Walk(e, st, signer, 0);
      if keys.Some? {
        if AnyVerifies(e, SetOf(records, id.0, id.1), sig, keys.value) {
          NonEmpty(e, SetOf(records, id.0, id.1), sig, keys.value);
          assert GoodSet(e, st'.log, records, id, sig);
        } else {
          TrySigsSound(e, st', records, id, sigs[1..], asked);
        }
      }
    }
  }

  lemma NonEmpty(e: Env, rrset: seq<Record>, sig: Bytes, keys: seq<Bytes>)
    requires AnyVerifies(e, rrset, sig, keys)
    ensures keys != []
  {
    hide VerifyRrsig;
  }

  lemma {:induction false} SectionSound(
    e: Env, st: State, records: seq<Record>, sets: seq<SetId>, anySecure: bool, asked: set<DnsName>)
    requires MemoSound(e, asked, st, {}) && Signers(records) <= asked && (forall id :: id in sets ==> id in Sets(records))
    requires anySecure ==> SomeGoodSet(e, st.log, records)
    ensures var (st', r) := VerifySection(e, st, records, sets, anySecure);
      && st.log <= st'.log && MemoSound(e, asked, st', {})
      && (r.anySecure ==> SomeGoodSet(e, st'.log, records))
      && (!r.bogus ==> forall id :: id in sets ==> Settled(e, st'.log, asked, records, id))
    decreases |sets|
  {
    hide MemoSound, SigsOver, SetOf, Sets, GoodSet, TrySigs, Settled, Signers, SomeGoodSet;
    if sets != [] {
      var id := sets[0];
      assert id in sets && sets == [id] + sets[1..];
      var sigs := SigsOver(records, id.0, id.1);
      if sigs == [] {
        UnsignedSettled(e, VerifySection(e, st, records, sets, anySecure).0.log, asked, records, id);
        SectionSound(e, st, records, sets[1..], anySecure, asked);
      } else {
        TrySigsSound(e, st, records, id, sigs, asked);
        var (st', o) := TrySigs(e, st, SetOf(records, id.0, id.1), sigs);
        SomeGood(e, st.log, st'.log, records, id, anySecure, o.Verified?);
        if !o.Failed? {
          SectionSound(e, st', records, sets[1..], anySecure || o.Verified?, asked);
          SettledLater(e, st'.log, VerifySection(e, st, records, sets, anySecure).0.log, asked, records, id);
        }
      }
    }
  }

  lemma UnsignedSettled(e: Env, log: Log, asked: set<DnsName>, records: seq<Record>, id: SetId)
    requires SigsOver(records, id.0, id.1) == []
    ensures Settled(e, log, asked, records, id)
  {
  }

  lemma SomeGood(e: Env, log: Log, later: Log, records: seq<Record>, id: SetId, before: bool, here: bool)
    requires log <= later && id in Sets(records)
    requires before ==> SomeGoodSet(e, log, records)
    requires here ==> exists sig :: GoodSet(e, later, records, id, sig)
    ensures before || here ==> SomeGoodSet(e, later, records)
  {
    hide GoodSet, Sets;
    if before {
      var i, sig :| i in Sets(records) && GoodSet(e, log, records, i, sig);
      GoodSetLater(e, log, later, records, i, sig);
    }
  }

  /**
   * Against any fetcher, a response is judged secure only if some rrset of its answer verifies under
   * keys trusted from this run's replies, or some rrset of its authority section does and the denial
   * there is proven; and every signed rrset of the answer verified so, or has a signer that this run
   * found unsigned for a reason.
   */
  lemma ValidateSound(e: Env, msg: Message)
    requires Validate(e, msg) == Secure
    ensures var log := Judge(e, FRESH, msg).0.log;
      && (SomeGoodSet(e, log, msg.answers) ||
          (SomeGoodSet(e, log, msg.authorities) && IsDenial(msg) && DenialProven(e, msg)))
      && forall id :: id in Sets(msg.answers) ==>
           Settled(e, log, Signers(msg.answers) + Signers(msg.authorities), msg.answers, id)
  {
    hide VerifySection, SomeGoodSet, DenialProven, Settled, Sets, Grounded, Signers, GoodSet;
    var st := FRESH;
    var asked := Signers(msg.answers) + Signers(msg.authorities);
    SectionSound(e, st, msg.answers, Sets(msg.answers), false, asked);
    var (st1, answer) := VerifySection(e, st, msg.answers, Sets(msg.answers), false);
    SectionSound(e, st1, msg.authorities, Sets(msg.authorities), false, asked);
    var log := Judge(e, st, msg).0.log;
    forall id | id in Sets(msg.answers) ensures Settled(e, log, asked, msg.answers, id) {
      SettledLater(e, st1.log, log, asked, msg.answers, id);
    }
    if answer.anySecure {
      StillGood(e, st1.log, log, msg.answers);
    }
  }

  lemma StillGood(e: Env, log: Log, later: Log, records: seq<Record>)
    requires log <= later && SomeGoodSet(e, log, records)
    ensures SomeGoodSet(e, later, records)
  {
    hide GoodSet, Sets;
    var id, sig :| id in Sets(records) && GoodSet(e, log, records, id, sig);
    GoodSetLater(e, log, later, records, id, sig);
  }

  // ------------------------------------------------------- the exact verdict

  /** What becomes of one signed rrset, by plain recursion and without a memo. */
  function SetOutcome(e: Env, rrset: seq<Record>, sigs: seq<Bytes>): Outcome
    decreases |sigs|
  {
    if sigs == [] then Failed
    else if ParseRrsig(sigs[0]).None? then SetOutcome(e, rrset, sigs[1..])
    else
      var keys := PlainKeys(e, ParseRrsig(sigs[0]).value.signer);
      if keys.None? then InsecureSigner
      else if AnyVerifies(e, rrset, sigs[0], keys.value) then Verified
      else SetOutcome(e, rrset, sigs[1..])
  }

  /** The rrset has signatures, and this becomes of it. */
  predicate Comes(e: Env, records: seq<Record>, id: SetId, o: Outcome) {
    var sigs := SigsOver(records, id.0, id.1);
    sigs != [] && SetOutcome(e, SetOf(records, id.0, id.1), sigs) == o
  }

  predicate SomeSet(e: Env, records: seq<Record>, o: Outcome) {
    exists r :: r in records && Type(r) != TYPE_RRSIG && Comes(e, records, (r.name, Type(r)), o)
  }

  predicate NearSigners(rs: seq<Record>) {
    forall sig :: sig in DataOf(OfType(rs, TYPE_RRSIG)) && ParseRrsig(sig).Some? ==>
      |ParseRrsig(sig).value.signer| <= MAX_DEPTH
  }

  lemma {:induction false} TrySigsPlain(e: Env, st: State, rrset: seq<Record>, sigs: seq<Bytes>)
    requires Deterministic(e) && Agrees(e, st.keys, {})
    requires forall s :: s in sigs && ParseRrsig(s).Some? ==> |ParseRrsig(s).value.signer| <= MAX_DEPTH
    ensures var (st', o) := TrySigs(e, st, rrset, sigs); o == SetOutcome(e, rrset, sigs) && Agrees(e, st'.keys, {})
    decreases |sigs|
  {
    hide Deterministic, Agrees, ParseRrsig, Walk, PlainKeys, AnyVerifies;
    if sigs != [] {
      assert sigs[0] in sigs;
      if ParseRrsig(sigs[0]).None? {
        TrySigsPlain(e, st, rrset, sigs[1..]);
      } else {
        var signer := ParseRrsig(sigs[0]).value.signer;
        WalkRefines(e, st, signer, 0, {});
        TrySigsPlain(e, Walk(e, st, signer, 0).0, rrset, sigs[1..]);
      }
    }
  }

  lemma SigsNear(rs: seq<Record>, owner: DnsName, t: nat)
    requires NearSigners(rs)
    ensures forall s :: s in SigsOver(rs, owner, t) && ParseRrsig(s).Some? ==> |ParseRrsig(s).value.signer| <= MAX_DEPTH
  {
    hide SigsOver, ParseRrsig;
    forall s | s in SigsOver(rs, owner, t) ensures ParseRrsig(s).Some? && |ParseRrsig(s).value.signer| <= MAX_DEPTH {
      SigsAmong(rs, owner, t, s);
    }
  }

  lemma {:induction false} SectionPlain(
    e: Env, st: State, records: seq<Record>, sets: seq<SetId>, anySecure: bool)
    requires Deterministic(e) && Agrees(e, st.keys, {}) && NearSigners(records)
    ensures var (st', r) := VerifySection(e, st, records, sets, anySecure);
      && Agrees(e, st'.keys, {})
      && (r.bogus <==> exists id :: id in sets && Comes(e, records, id, Failed))
      && (!r.bogus ==> (r.anySecure <==> anySecure || exists id :: id in sets && Comes(e, records, id, Verified)))
    decreases |sets|
  {
    hide Deterministic, Agrees, NearSigners, SigsOver, SetOf, TrySigs, SetOutcome;
    if sets != [] {
      var id := sets[0];
      assert id in sets && sets == [id] + sets[1..];
      var sigs := SigsOver(records, id.0, id.1);
      if sigs == [] {
        SectionPlain(e, st, records, sets[1..], anySecure);
      } else {
        SigsNear(records, id.0, id.1);
        TrySigsPlain(e, st, SetOf(records, id.0, id.1), sigs);
        var (st', o) := TrySigs(e, st, SetOf(records, id.0, id.1), sigs);
        assert Comes(e, records, id, o);
        if !o.Failed? {
          SectionPlain(e, st', records, sets[1..], anySecure || o.Verified?);
        }
      }
    }
  }

  lemma {:induction false} DedupIn<T>(s: seq<T>, x: T)
    ensures x in Dedup(s) <==> x in s
    decreases |s|
  {
    if |s| > 1 {
      DedupIn(s[1..], x);
      assert s == [s[0]] + s[1..];
    }
  }

  lemma SetsAre(rs: seq<Record>, id: SetId)
    ensures id in Sets(rs) <==> exists r :: r in rs && Type(r) != TYPE_RRSIG && (r.name, Type(r)) == id
  {
    hide Sort, Dedup, SetLe;
    var data := Filter(rs, (r: Record) => Type(r) != TYPE_RRSIG);
    var ids := Map((r: Record) => (r.name, Type(r)), data);
    FilterIn(rs, (r: Record) => Type(r) != TYPE_RRSIG);
    DedupIn(Sort(SetLe, ids), id);
    SortPerm(SetLe, ids);
    assert id in Sort(SetLe, ids) <==> id in multiset(Sort(SetLe, ids));
    assert id in ids <==> id in multiset(ids);
    if r :| r in rs && Type(r) != TYPE_RRSIG && (r.name, Type(r)) == id {
      var i :| 0 <= i < |data| && data[i] == r;
      assert ids[i] == id;
    }
    if id in ids {
      var i :| 0 <= i < |ids| && ids[i] == id;
      assert data[i] in data;
    }
  }

  lemma SomeSetIs(e: Env, rs: seq<Record>, o: Outcome)
    ensures SomeSet(e, rs, o) <==> exists id :: id in Sets(rs) && Comes(e, rs, id, o)
  {
    hide Sets, Comes;
    if r :| r in rs && Type(r) != TYPE_RRSIG && Comes(e, rs, (r.name, Type(r)), o) {
      SetsAre(rs, (r.name, Type(r)));
    }
    if id :| id in Sets(rs) && Comes(e, rs, id, o) {
      SetsAre(rs, id);
    }
  }

  /** The authority section is looked at. */
  predicate LooksAtDenial(msg: Message) {
    IsDenial(msg) && msg.authorities != [] && !exists r :: r in msg.authorities && TooManyIterations(r)
  }

  /** The verdict from what becomes of each signed rrset, without a memo and whatever their order. */
  function PlainVerdict(e: Env, msg: Message): Security {
    var sofar := if SomeSet(e, msg.answers, Verified) then Secure else Insecure;
    if SomeSet(e, msg.answers, Failed) then Bogus
    else if !LooksAtDenial(msg) then sofar
    else if SomeSet(e, msg.authorities, Failed) then Bogus
    else if !SomeSet(e, msg.authorities, Verified) then sofar
    else if DenialProven(e, msg) then Secure
    else if exists r :: r in msg.authorities && IsNsec(r) then Bogus
    else sofar
  }

  /** With a deterministic fetcher and signers of at most 20 labels that is the verdict. */
  lemma VerdictExact(e: Env, msg: Message)
    requires Deterministic(e) && NearSigners(msg.answers) && (LooksAtDenial(msg) ==> NearSigners(msg.authorities))
    ensures Validate(e, msg) == PlainVerdict(e, msg)
  {
    hide VerifySection, DenialProven, Sets, SomeSet, NearSigners, Deterministic, TooManyIterations, IsDenial, Comes;
    var st := FRESH;
    SomeSetIs(e, msg.answers, Failed);
    SomeSetIs(e, msg.answers, Verified);
    SomeSetIs(e, msg.authorities, Failed);
    SomeSetIs(e, msg.authorities, Verified);
    SectionPlain(e, st, msg.answers, Sets(msg.answers), false);
    var st1 := VerifySection(e, st, msg.answers, Sets(msg.answers), false).0;
    if LooksAtDenial(msg) {
      SectionPlain(e, st1, msg.authorities, Sets(msg.authorities), false);
    }
  }

  /**
   * So it is secure exactly when no signed rrset fails and some signed rrset verifies, in the answer or
   * beside a proven denial. It turns on signed rrsets alone.
   */
  lemma SecureExact(e: Env, msg: Message)
    requires Deterministic(e) && NearSigners(msg.answers) && (LooksAtDenial(msg) ==> NearSigners(msg.authorities))
    ensures Validate(e, msg) == Secure <==>
      && !SomeSet(e, msg.answers, Failed)
      && (LooksAtDenial(msg) ==>
            && !SomeSet(e, msg.authorities, Failed)
            && (SomeSet(e, msg.authorities, Verified) && !DenialProven(e, msg) ==>
                  forall r :: r in msg.authorities ==> !IsNsec(r)))
      && (SomeSet(e, msg.answers, Verified) ||
          (LooksAtDenial(msg) && SomeSet(e, msg.authorities, Verified) && DenialProven(e, msg)))
  {
    hide Validate, DenialProven, SomeSet, LooksAtDenial;
    VerdictExact(e, msg);
  }
}
