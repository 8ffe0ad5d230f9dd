/**
 * The chain of trust: the memoised walk from a zone up to a trust anchor, against an arbitrary
 * fetcher, and the verdict on a response. Signatures, digests and hashes are parameters.
 */
module Trust {
  import opened Bytes
  import opened Names
  import opened Messages
  import opened Seqs
  import opened Zones
  import opened Rrsigs
  import opened Bitmaps
  import opened Nsec3s

  const MAX_DEPTH: nat := 20

  datatype Anchor = Anchor(zone: DnsName, ds: Bytes)

  /** What the validator is given: the anchors, the primitives and the fetcher, which may answer each call anew. */
  datatype Env = Env(
    anchors: seq<Anchor>,
    check: Check,
    digest: (Byte, Bytes) -> Bytes,
    hash: Hash,
    fetch: (nat, DnsName, nat) -> Option<Message>)

  /** `Some(keys)` secure, `Some([])` bogus, `None` insecure. */
  type Keys = Option<seq<Bytes>>

  type Memo = map<DnsName, Keys>

  /** The questions put to the fetcher so far; its answer to each may depend on its number. */
  type Log = seq<(DnsName, nat)>

  predicate Sent(log: Log, call: nat, name: DnsName, qtype: nat) { call < |log| && log[call] == (name, qtype) }

  datatype State = State(keys: Memo, log: Log)

  const FRESH: State := State(map[], [])

  datatype DsResult = SecureDs(set_: seq<Bytes>) | InsecureDs | BogusDs

  // --------------------------------------------------------- reading replies

  function OfType(rs: seq<Record>, t: nat): seq<Record> { Filter(rs, (r: Record) => Type(r) == t) }

  function DataOf(rs: seq<Record>): seq<Bytes> {
    if rs == [] then []
    else (if rs[0].rdata.Unknown? then [rs[0].rdata.data] else []) + DataOf(rs[1..])
  }

  function AnchorFor(anchors: seq<Anchor>, zone: DnsName): (r: Option<Bytes>)
    ensures r.Some? ==> Anchor(zone, r.value) in anchors
  {
    if anchors == [] then None
    else if anchors[0].zone == zone then Some(anchors[0].ds)
    else AnchorFor(anchors[1..], zone)
  }

  predicate VerifyDs(e: Env, owner: DnsName, key: Bytes, ds: Bytes) {
    && |ds| >= 4 && |key| >= 4
    && Word(ds, 0) == KeyTag(key) && ds[2] == key[3]
    && (ds[3] == 1 || ds[3] == 2)
    && e.digest(ds[3], PlainWire(owner) + key) == ds[4..]
  }

  /** Some signature among `answers` verifies over `rrset` with one of `keys`. */
  predicate SignedBy(e: Env, answers: seq<Record>, rrset: seq<Record>, keys: seq<Bytes>) {
    exists sig, k :: sig in DataOf(OfType(answers, TYPE_RRSIG)) && k in keys && VerifyRrsig(e.check, rrset, sig, k)
  }

  predicate IsVouched(e: Env, zone: DnsName, key: Bytes, dsSet: seq<Bytes>) {
    exists ds :: ds in dsSet && VerifyDs(e, zone, key, ds)
  }

  function Vouched(e: Env, zone: DnsName, keys: seq<Bytes>, dsSet: seq<Bytes>): seq<Bytes> {
    Filter(keys, (k: Bytes) => IsVouched(e, zone, k, dsSet))
  }

  function Dnskeys(msg: Message): seq<Bytes> { DataOf(OfType(msg.answers, TYPE_DNSKEY)) }

  /** The key set a reply yields once the DS set is known: all its keys, or none. */
  function KeysUnder(e: Env, zone: DnsName, msg: Message, dsSet: seq<Bytes>): seq<Bytes> {
    var trusted := Vouched(e, zone, Dnskeys(msg), dsSet);
    if trusted != [] && SignedBy(e, msg.answers, OfType(msg.answers, TYPE_DNSKEY), trusted) then Dnskeys(msg) else []
  }

  predicate IsNsec(r: Record) { Type(r) == TYPE_NSEC || Type(r) == TYPE_NSEC3 }

  function SetOf(rs: seq<Record>, owner: DnsName, t: nat): seq<Record> {
    Filter(rs, (r: Record) => r.name == owner && Type(r) == t)
  }

  /** The signatures at `owner` that cover type `t`. */
  function SigsOver(rs: seq<Record>, owner: DnsName, t: nat): seq<Bytes> {
    Filter(DataOf(Filter(rs, (r: Record) => Type(r) == TYPE_RRSIG && r.name == owner)),
           (sig: Bytes) => ParseRrsig(sig).Some? && ParseRrsig(sig).value.typeCovered == t)
  }

  /** `authority_signed_by`: there is an NSEC or NSEC3 set and the keys sign every one. */
  predicate AuthoritySignedBy(e: Env, authority: seq<Record>, keys: seq<Bytes>) {
    && (exists r :: r in authority && IsNsec(r))
    && (forall r :: r in authority && IsNsec(r) ==>
          exists sig, k :: sig in SigsOver(authority, r.name, Type(r)) && k in keys &&
            VerifyRrsig(e.check, SetOf(authority, r.name, Type(r)), sig, k))
  }

  predicate Delegates(bitmap: Bytes) { Marked(bitmap, TYPE_NS) && !Marked(bitmap, TYPE_DS) }

  predicate NsecNoDs(zone: DnsName, r: Record) {
    Type(r) == TYPE_NSEC && r.name == zone && r.rdata.Unknown? &&
    match Decode(r.rdata.data, 0)
    case Fail(_) => false
    case Got(_, pos) => pos <= |r.rdata.data| && Delegates(r.rdata.data[pos..])
  }

  /** The bitmap behind the next hash; only asked where `ParseNsec3` succeeds. */
  function BitmapOf(data: Bytes): Bytes
    requires ParseNsec3(data).Some?
  {
    var at := 5 + data[4] as nat;
    data[at + 1 + data[at] as nat..]
  }

  predicate Nsec3NoDs(want: Bytes, r: Record) {
    Type(r) == TYPE_NSEC3 && EntryOf(r).Some? &&
    var (owner, next) := EntryOf(r).value;
    || (owner == want && Delegates(BitmapOf(r.rdata.data)))
    || (r.rdata.data[1] % 2 == 1 && HashCovered(owner, want, next))
  }

  /** `authenticated_no_ds`: a delegation without DS, or an opt-out range over it. */
  predicate AuthenticatedNoDs(e: Env, zone: DnsName, authority: seq<Record>) {
    || (exists r :: r in authority && NsecNoDs(zone, r))
    || (var params := ParamsOf(OnlyNsec3(authority));
        params.Some? && exists r :: r in authority && Nsec3NoDs(e.hash(zone, params.value), r))
  }

  predicate NoDs(e: Env, zone: DnsName, authority: seq<Record>, keys: seq<Bytes>) {
    AuthoritySignedBy(e, authority, keys) && AuthenticatedNoDs(e, zone, authority)
  }

  /** The DS verdict of a reply from a parent with validated keys. */
  function DsUnder(e: Env, zone: DnsName, msg: Option<Message>, parentKeys: seq<Bytes>): DsResult {
    if msg.None? then BogusDs
    else
      var answers := msg.value.answers;
      var records := OfType(answers, TYPE_DS);
      if records == [] then
        if NoDs(e, zone, msg.value.authorities, parentKeys) then InsecureDs else BogusDs
      else if SignedBy(e, answers, records, parentKeys) then SecureDs(DataOf(records))
      else BogusDs
  }

  function KeysFor(e: Env, zone: DnsName, msg: Message, ds: DsResult): Keys {
    match ds
    case InsecureDs => None
    case BogusDs => Some([])
    case SecureDs(set_) => Some(KeysUnder(e, zone, msg, set_))
  }

  // ---------------------------------------------------------------- the walk

  function Settle(st: State, zone: DnsName, keys: Keys): State { st.(keys := st.keys[zone := keys]) }

  /** `dnskeys`: memo, placeholder, fetch, anchor or parent, result stored. */
  function Walk(e: Env, st: State, zone: DnsName, depth: nat): (State, Keys)
    decreases |zone|, 1
  {
    if depth > MAX_DEPTH then (st, None)
    else if zone in st.keys then (st, st.keys[zone])
    else
      var st1 := State(st.keys[zone := None], st.log + [(zone, TYPE_DNSKEY)]);
      var msg := e.fetch(|st.log|, zone, TYPE_DNSKEY);
      if msg.None? || Dnskeys(msg.value) == [] then (Settle(st1, zone, None), None)
      else
        var anchor := AnchorFor(e.anchors, zone);
        if anchor.Some? then
          var keys := Some(KeysUnder(e, zone, msg.value, [anchor.value]));
          (Settle(st1, zone, keys), keys)
        else
          var (st2, ds) := WalkDs(e, st1, zone, depth);
          var keys := KeysFor(e, zone, msg.value, ds);
          (Settle(st2, zone, keys), keys)
  }

  /** `delegated_ds`: the parent's keys first, then the DS set they sign. */
  function WalkDs(e: Env, st: State, zone: DnsName, depth: nat): (State, DsResult)
    decreases |zone|, 0
  {
    if zone == [] then (st, BogusDs)
    else
      var (st1, parent) := Walk(e, st, zone[1..], depth + 1);
      if parent.None? then (st1, InsecureDs)
      else if parent.value == [] then (st1, BogusDs)
      else (st1.(log := st1.log + [(zone, TYPE_DS)]), DsUnder(e, zone, e.fetch(|st1.log|, zone, TYPE_DS), parent.value))
  }

  class Ctx {
    const env: Env
    var keys: Memo
    var log: Log

    constructor (env: Env)
      ensures this.env == env && State(keys, log) == FRESH
    {
      this.env := env;
      keys := map[];
      log := [];
    }

    method Fetch(name: DnsName, qtype: nat) returns (msg: Option<Message>)
      modifies this`log
      ensures log == old(log) + [(name, qtype)] && msg == env.fetch(|old(log)|, name, qtype)
    {
      msg := env.fetch(|log|, name, qtype);
      log := log + [(name, qtype)];
    }

    method GetDnskeys(zone: DnsName, depth: nat) returns (r: Keys)
      modifies this
      ensures (State(keys, log), r) == Walk(env, State(old(keys), old(log)), zone, depth)
      decreases |zone|, 1
    {
      hide KeysUnder, DsUnder, Dnskeys;
      if depth > MAX_DEPTH {
        return None;
      }
      if zone in keys {
        return keys[zone];
      }
      keys := keys[zone := None];
      var msg := Fetch(zone, TYPE_DNSKEY);
      if msg.None? || Dnskeys(msg.value) == [] {
        keys := keys[zone := None];
        return None;
      }
      var anchor := AnchorFor(env.anchors, zone);
      if anchor.Some? {
        r := Some(KeysUnder(env, zone, msg.value, [anchor.value]));
      } else {
        var ds := GetDs(zone, depth);
        r := KeysFor(env, zone, msg.value, ds);
      }
      keys := keys[zone := r];
    }

    method GetDs(zone: DnsName, depth: nat) returns (r: DsResult)
      modifies this
      ensures (State(keys, log), r) == WalkDs(env, State(old(keys), old(log)), zone, depth)
      decreases |zone|, 0
    {
      hide DsUnder;
      var parent := Parent(zone);
      if parent.None? {
        return BogusDs;
      }
      var parentKeys := GetDnskeys(parent.value, depth + 1);
      if parentKeys.None? {
        return InsecureDs;
      }
      if parentKeys.value == [] {
        return BogusDs;
      }
      var msg := Fetch(zone, TYPE_DS);
      r := DsUnder(env, zone, msg, parentKeys.value);
    }
  }

  // -------------------------------------------------------------- soundness

  /** Where each validated key set came from, down from the anchor. */
  datatype Evidence =
    | AtAnchor(keyCall: nat)
    | Below(keyCall: nat, dsCall: nat, parentKeys: seq<Bytes>, parent: Evidence)

  /** An unbroken chain from an anchor to `keys` at `zone`, each link in the reply to a logged question. */
  predicate Trusted(e: Env, log: Log, zone: DnsName, keys: seq<Bytes>, ev: Evidence)
    decreases ev
  {
    var keyMsg := e.fetch(ev.keyCall, zone, TYPE_DNSKEY);
    Sent(log, ev.keyCall, zone, TYPE_DNSKEY) && keyMsg.Some? && keys == Dnskeys(keyMsg.value) && keys != [] &&
    match ev
    case AtAnchor(_) =>
      exists a :: a in e.anchors && a.zone == zone && Proven(e, zone, keyMsg.value, [a.ds])
    case Below(_, dsCall, parentKeys, parent) =>
      && zone != [] && Trusted(e, log, zone[1..], parentKeys, parent)
      && Sent(log, dsCall, zone, TYPE_DS)
      && var dsMsg := e.fetch(dsCall, zone, TYPE_DS);
      && dsMsg.Some?
      && var ds := OfType(dsMsg.value.answers, TYPE_DS);
      && ds != [] && SignedBy(e, dsMsg.value.answers, ds, parentKeys)
      && Proven(e, zone, keyMsg.value, DataOf(ds))
  }

  /** The DNSKEY set is signed by one of its keys that the DS set vouches for. */
  predicate Proven(e: Env, zone: DnsName, msg: Message, dsSet: seq<Bytes>) {
    exists sig, k, ds ::
      && sig in DataOf(OfType(msg.answers, TYPE_RRSIG)) && k in Dnskeys(msg) && ds in dsSet
      && VerifyDs(e, zone, k, ds) && VerifyRrsig(e.check, OfType(msg.answers, TYPE_DNSKEY), sig, k)
  }

  /** Why a zone was held to be unsigned. */
  datatype Reason =
    | NoKeys(keyCall: nat)
    | NoDelegation(dsCall: nat, parentKeys: seq<Bytes>, parent: Evidence)
    | UnderUnsigned(above: Reason)
    | TooDeep(start: DnsName)

  /**
   * The reason holds in replies to logged questions: no keys came, or trusted parent keys sign that
   * there is no DS, or the parent is unsigned, or a walk that began at one of the zones in `asked`
   * had climbed past the limit.
   */
  predicate Excused(e: Env, log: Log, asked: set<DnsName>, zone: DnsName, why: Reason)
    decreases why
  {
    match why
    case NoKeys(call) =>
      && Sent(log, call, zone, TYPE_DNSKEY)
      && var msg := e.fetch(call, zone, TYPE_DNSKEY); msg.None? || Dnskeys(msg.value) == []
    case NoDelegation(call, parentKeys, parent) =>
      && zone != [] && AnchorFor(e.anchors, zone).None? && Trusted(e, log, zone[1..], parentKeys, parent)
      && Sent(log, call, zone, TYPE_DS)
      && var msg := e.fetch(call, zone, TYPE_DS);
      && msg.Some? && OfType(msg.value.answers, TYPE_DS) == [] && NoDs(e, zone, msg.value.authorities, parentKeys)
    case UnderUnsigned(above) =>
      zone != [] && AnchorFor(e.anchors, zone).None? && Excused(e, log, asked, zone[1..], above)
    case TooDeep(start) => start in asked && EndsWith(start, zone) && |start| > |zone| + MAX_DEPTH
  }

  ghost predicate IsTrusted(e: Env, log: Log, zone: DnsName, keys: seq<Bytes>) {
    exists ev :: Trusted(e, log, zone, keys, ev)
  }

  ghost predicate IsExcused(e: Env, log: Log, asked: set<DnsName>, zone: DnsName) {
    exists why :: Excused(e, log, asked, zone, why)
  }

  /** A key set is trusted, and a zone taken for unsigned has a reason. */
  ghost predicate Grounded(e: Env, log: Log, asked: set<DnsName>, zone: DnsName, keys: Keys) {
    && (keys.Some? && keys.value != [] ==> IsTrusted(e, log, zone, keys.value))
    && (keys.None? ==> IsExcused(e, log, asked, zone))
  }

  /** Every remembered result is grounded, except for the zones in progress. */
  ghost predicate MemoSound(e: Env, asked: set<DnsName>, st: State, pending: set<DnsName>) {
    forall z :: z in st.keys && z !in pending ==> Grounded(e, st.log, asked, z, st.keys[z])
  }

  lemma {:induction false} TrustedLater(e: Env, log: Log, later: Log, zone: DnsName, keys: seq<Bytes>, ev: Evidence)
    requires log <= later && Trusted(e, log, zone, keys, ev)
    ensures Trusted(e, later, zone, keys, ev)
    decreases ev
  {
    hide Dnskeys, Proven, SignedBy, DataOf, OfType;
    match ev {
      case AtAnchor(_) =>
      case Below(_, _, parentKeys, parent) => TrustedLater(e, log, later, zone[1..], parentKeys, parent);
    }
  }

  lemma {:induction false} ExcusedLater(e: Env, log: Log, later: Log, asked: set<DnsName>, zone: DnsName, why: Reason)
    requires log <= later && Excused(e, log, asked, zone, why)
    ensures Excused(e, later, asked, zone, why)
    decreases why
  {
    hide Dnskeys, Trusted, NoDs, OfType, AnchorFor;
    match why {
      case NoKeys(_) =>
      case NoDelegation(_, parentKeys, parent) => TrustedLater(e, log, later, zone[1..], parentKeys, parent);
      case UnderUnsigned(above) => ExcusedLater(e, log, later, asked, zone[1..], above);
      case TooDeep(_) =>
    }
  }

  lemma GroundedLater(e: Env, log: Log, later: Log, asked: set<DnsName>, zone: DnsName, keys: Keys)
    requires log <= later && Grounded(e, log, asked, zone, keys)
    ensures Grounded(e, later, asked, zone, keys)
  {
    hide Trusted, Excused;
    if keys.None? {
      var why :| Excused(e, log, asked, zone, why);
      ExcusedLater(e, log, later, asked, zone, why);
    } else if keys.value != [] {
      var ev :| Trusted(e, log, zone, keys.value, ev);
      TrustedLater(e, log, later, zone, keys.value, ev);
    }
  }

  lemma KeysUnderProven(e: Env, zone: DnsName, msg: Message, dsSet: seq<Bytes>)
    requires KeysUnder(e, zone, msg, dsSet) != []
    ensures KeysUnder(e, zone, msg, dsSet) == Dnskeys(msg) && Proven(e, zone, msg, dsSet)
  {
    hide VerifyDs, VerifyRrsig, Dnskeys, DataOf, OfType;
    var trusted := Vouched(e, zone, Dnskeys(msg), dsSet);
    var rrset := OfType(msg.answers, TYPE_DNSKEY);
    var sig, k :| sig in DataOf(OfType(msg.answers, TYPE_RRSIG)) && k in trusted && VerifyRrsig(e.check, rrset, sig, k);
    FilterIn(Dnskeys(msg), (x: Bytes) => IsVouched(e, zone, x, dsSet));
    var ds :| ds in dsSet && VerifyDs(e, zone, k, ds);
  }

  /** A zone in progress may hold anything. */
  lemma MemoHold(e: Env, asked: set<DnsName>, st: State, pending: set<DnsName>, zone: DnsName)
    requires MemoSound(e, asked, st, pending)
    ensures MemoSound(e, asked, State(st.keys[zone := None], st.log + [(zone, TYPE_DNSKEY)]), pending + {zone})
  {
    hide Grounded;
    var st1 := State(st.keys[zone := None], st.log + [(zone, TYPE_DNSKEY)]);
    forall z | z in st1.keys && z !in pending + {zone} ensures Grounded(e, st1.log, asked, z, st1.keys[z]) {
      GroundedLater(e, st.log, st1.log, asked, z, st.keys[z]);
    }
  }

  lemma MemoSettle(e: Env, asked: set<DnsName>, st: State, pending: set<DnsName>, zone: DnsName, keys: Keys)
    requires MemoSound(e, asked, st, pending + {zone}) && Grounded(e, st.log, asked, zone, keys)
    ensures MemoSound(e, asked, Settle(st, zone, keys), pending)
  {
    hide Grounded;
  }

  lemma MemoLater(e: Env, asked: set<DnsName>, st: State, pending: set<DnsName>, later: Log)
    requires MemoSound(e, asked, st, pending) && st.log <= later
    ensures MemoSound(e, asked, st.(log := later), pending)
  {
    hide Grounded;
    forall z | z in st.keys && z !in pending ensures Grounded(e, later, asked, z, st.keys[z]) {
      GroundedLater(e, st.log, later, asked, z, st.keys[z]);
    }
  }

  lemma MemoGet(e: Env, asked: set<DnsName>, st: State, pending: set<DnsName>, zone: DnsName)
    requires MemoSound(e, asked, st, pending) && zone in st.keys && zone !in pending
    ensures Grounded(e, st.log, asked, zone, st.keys[zone])
  {
  }

  /** The walk stands at `zone`, `depth` labels above where it began. */
  predicate Climbed(asked: set<DnsName>, start: DnsName, zone: DnsName, depth: nat) {
    start in asked && EndsWith(start, zone) && |start| == |zone| + depth
  }

  /**
   * Whatever the fetcher answers: every key set returned or remembered is trusted, and every zone
   * taken for unsigned, returned or remembered, has a reason.
   */
  lemma {:induction false} WalkSound(
    e: Env, st: State, zone: DnsName, depth: nat, asked: set<DnsName>, start: DnsName, pending: set<DnsName>)
    requires MemoSound(e, asked, st, pending) && (forall p :: p in pending ==> |p| > |zone|)
    requires Climbed(asked, start, zone, depth)
    ensures var (st', keys) := Walk(e, st, zone, depth);
      st.log <= st'.log && MemoSound(e, asked, st', pending) && Grounded(e, st'.log, asked, zone, keys)
    decreases |zone|, 1
  {
    hide MemoSound, Grounded, KeysUnder, Dnskeys, AnchorFor, WalkDs, DsUnder, Climbed;
    if depth > MAX_DEPTH {
      DeepExcused(e, st.log, asked, start, zone, depth);
    } else if zone in st.keys {
      MemoGet(e, asked, st, pending, zone);
    } else {
      var st1 := State(st.keys[zone := None], st.log + [(zone, TYPE_DNSKEY)]);
      var msg := e.fetch(|st.log|, zone, TYPE_DNSKEY);
      MemoHold(e, asked, st, pending, zone);
      if msg.None? || Dnskeys(msg.value) == [] {
        NoKeysExcused(e, asked, zone, st.log);
        MemoSettle(e, asked, st1, pending, zone, None);
      } else if AnchorFor(e.anchors, zone).Some? {
        var keys := Some(KeysUnder(e, zone, msg.value, [AnchorFor(e.anchors, zone).value]));
        AnchorSound(e, asked, zone, st.log);
        MemoSettle(e, asked, st1, pending, zone, keys);
      } else {
        BelowSound(e, st1, zone, depth, |st.log|, asked, start, pending + {zone});
        var (st2, ds) := WalkDs(e, st1, zone, depth);
        MemoSettle(e, asked, st2, pending, zone, KeysFor(e, zone, msg.value, ds));
      }
    }
  }

  lemma DeepExcused(e: Env, log: Log, asked: set<DnsName>, start: DnsName, zone: DnsName, depth: nat)
    requires Climbed(asked, start, zone, depth) && depth > MAX_DEPTH
    ensures Grounded(e, log, asked, zone, None)
  {
    assert Excused(e, log, asked, zone, TooDeep(start));
  }

  lemma NoKeysExcused(e: Env, asked: set<DnsName>, zone: DnsName, log: Log)
    requires var msg := e.fetch(|log|, zone, TYPE_DNSKEY); msg.None? || Dnskeys(msg.value) == []
    ensures Grounded(e, log + [(zone, TYPE_DNSKEY)], asked, zone, None)
  {
    hide Dnskeys;
    assert Excused(e, log + [(zone, TYPE_DNSKEY)], asked, zone, NoKeys(|log|));
  }

  lemma AnchorSound(e: Env, asked: set<DnsName>, zone: DnsName, log: Log)
    requires e.fetch(|log|, zone, TYPE_DNSKEY).Some? && AnchorFor(e.anchors, zone).Some?
    ensures var msg := e.fetch(|log|, zone, TYPE_DNSKEY).value;
      Grounded(e, log + [(zone, TYPE_DNSKEY)], asked, zone,
        Some(KeysUnder(e, zone, msg, [AnchorFor(e.anchors, zone).value])))
  {
    hide KeysUnder, Dnskeys, Proven, Excused;
    var msg := e.fetch(|log|, zone, TYPE_DNSKEY).value;
    var ds := AnchorFor(e.anchors, zone).value;
    var keys := KeysUnder(e, zone, msg, [ds]);
    if keys != [] {
      KeysUnderProven(e, zone, msg, [ds]);
      assert Anchor(zone, ds) in e.anchors;
      assert Trusted(e, log + [(zone, TYPE_DNSKEY)], zone, keys, AtAnchor(|log|));
    }
  }

  lemma BelowSound(
    e: Env, st: State, zone: DnsName, depth: nat, keyCall: nat, asked: set<DnsName>, start: DnsName,
    pending: set<DnsName>)
    requires MemoSound(e, asked, st, pending) && (forall p :: p in pending ==> |p| >= |zone|)
    requires Climbed(asked, start, zone, depth) && Sent(st.log, keyCall, zone, TYPE_DNSKEY)
    requires e.fetch(keyCall, zone, TYPE_DNSKEY).Some? && AnchorFor(e.anchors, zone).None?
    ensures var (st2, ds) := WalkDs(e, st, zone, depth);
      && st.log <= st2.log && MemoSound(e, asked, st2, pending)
      && Grounded(e, st2.log, asked, zone, KeysFor(e, zone, e.fetch(keyCall, zone, TYPE_DNSKEY).value, ds))
    decreases |zone|, 0
  {
    hide MemoSound, Grounded, KeysUnder, Dnskeys, Walk, DsUnder, Climbed, AnchorFor;
    if zone == [] {
      BogusGrounded(e, st.log, asked, zone);
    } else {
      ClimbOne(asked, start, zone, depth);
      WalkSound(e, st, zone[1..], depth + 1, asked, start, pending);
      var (st1, parent) := Walk(e, st, zone[1..], depth + 1);
      if parent.None? {
        UnderExcused(e, st1.log, asked, zone);
      } else if parent.value == [] {
        BogusGrounded(e, st1.log, asked, zone);
      } else {
        MemoLater(e, asked, st1, pending, st1.log + [(zone, TYPE_DS)]);
        DsSound(e, asked, zone, keyCall, st1.log, parent.value);
      }
    }
  }

  lemma ClimbOne(asked: set<DnsName>, start: DnsName, zone: DnsName, depth: nat)
    requires Climbed(asked, start, zone, depth) && zone != []
    ensures Climbed(asked, start, zone[1..], depth + 1)
  {
  }

  lemma BogusGrounded(e: Env, log: Log, asked: set<DnsName>, zone: DnsName)
    ensures Grounded(e, log, asked, zone, Some([]))
  {
  }

  lemma UnderExcused(e: Env, log: Log, asked: set<DnsName>, zone: DnsName)
    requires zone != [] && AnchorFor(e.anchors, zone).None? && Grounded(e, log, asked, zone[1..], None)
    ensures Grounded(e, log, asked, zone, None)
  {
    hide AnchorFor;
    var why :| Excused(e, log, asked, zone[1..], why);
    assert Excused(e, log, asked, zone, UnderUnsigned(why));
  }

  lemma DsSound(e: Env, asked: set<DnsName>, zone: DnsName, keyCall: nat, log: Log, parentKeys: seq<Bytes>)
    requires zone != [] && AnchorFor(e.anchors, zone).None? && Sent(log, keyCall, zone, TYPE_DNSKEY)
    requires parentKeys != [] && Grounded(e, log, asked, zone[1..], Some(parentKeys))
    requires e.fetch(keyCall, zone, TYPE_DNSKEY).Some?
    ensures var ds := DsUnder(e, zone, e.fetch(|log|, zone, TYPE_DS), parentKeys);
      Grounded(e, log + [(zone, TYPE_DS)], asked, zone,
        KeysFor(e, zone, e.fetch(keyCall, zone, TYPE_DNSKEY).value, ds))
  {
    hide KeysUnder, Dnskeys, Proven, SignedBy, DataOf, OfType, NoDs, AnchorFor;
    var later := log + [(zone, TYPE_DS)];
    var ev :| Trusted(e, log, zone[1..], parentKeys, ev);
    TrustedLater(e, log, later, zone[1..], parentKeys, ev);
    assert Sent(later, |log|, zone, TYPE_DS) && Sent(later, keyCall, zone, TYPE_DNSKEY);
    var ds := DsUnder(e, zone, e.fetch(|log|, zone, TYPE_DS), parentKeys);
    var msg := e.fetch(keyCall, zone, TYPE_DNSKEY).value;
    if ds.InsecureDs? {
      assert Excused(e, later, asked, zone, NoDelegation(|log|, parentKeys, ev));
    } else if ds.SecureDs? {
      var keys := KeysUnder(e, zone, msg, ds.set_);
      if keys != [] {
        KeysUnderProven(e, zone, msg, ds.set_);
        assert Trusted(e, later, zone, keys, Below(keyCall, |log|, parentKeys, ev));
      }
    }
  }

  // --------------------------------------------------------- memo refinement

  /** The fetcher answers the same question the same way, whenever it is asked. */
  ghost predicate Deterministic(e: Env) {
    forall c, n, t {:trigger e.fetch(c, n, t)} :: e.fetch(c, n, t) == e.fetch(0, n, t)
  }

  /** The plain recursion: no memo, no placeholder, no depth limit. */
  function PlainKeys(e: Env, zone: DnsName): Keys
    decreases |zone|, 1
  {
    var msg := e.fetch(0, zone, TYPE_DNSKEY);
    if msg.None? || Dnskeys(msg.value) == [] then None
    else
      var anchor := AnchorFor(e.anchors, zone);
      if anchor.Some? then Some(KeysUnder(e, zone, msg.value, [anchor.value]))
      else KeysFor(e, zone, msg.value, PlainDs(e, zone))
  }

  function PlainDs(e: Env, zone: DnsName): DsResult
    decreases |zone|, 0
  {
    if zone == [] then BogusDs
    else
      var parent := PlainKeys(e, zone[1..]);
      if parent.None? then InsecureDs
      else if parent.value == [] then BogusDs
      else DsUnder(e, zone, e.fetch(0, zone, TYPE_DS), parent.value)
  }

  /** The memo holds plain results, except for the zones in progress. */
  ghost predicate Agrees(e: Env, memo: Memo, pending: set<DnsName>) {
    forall z :: z in memo && z !in pending ==> memo[z] == PlainKeys(e, z)
  }

  lemma AgreesSet(e: Env, memo: Memo, pending: set<DnsName>, zone: DnsName)
    requires Agrees(e, memo, pending + {zone})
    ensures Agrees(e, memo[zone := PlainKeys(e, zone)], pending)
  {
  }

  lemma AgreesHold(e: Env, memo: Memo, pending: set<DnsName>, zone: DnsName)
    requires Agrees(e, memo, pending)
    ensures Agrees(e, memo[zone := None], pending + {zone})
  {
  }

  /**
   * With room above it in the depth limit, the walk returns what the plain recursion returns and
   * leaves only plain results behind. It never meets a placeholder, since all zones in progress lie
   * below the one it looks up.
   */
  lemma {:induction false} WalkRefines(e: Env, st: State, zone: DnsName, depth: nat, pending: set<DnsName>)
    requires Deterministic(e) && |zone| + depth <= MAX_DEPTH
    requires Agrees(e, st.keys, pending) && forall p :: p in pending ==> |p| > |zone|
    ensures var (st', keys) := Walk(e, st, zone, depth);
      keys == PlainKeys(e, zone) && Agrees(e, st'.keys, pending)
    decreases |zone|, 1
  {
    hide Agrees, KeysUnder, Dnskeys, AnchorFor, WalkDs, PlainDs, DsUnder;
    if zone in st.keys {
      AgreesGet(e, st.keys, pending, zone);
    } else {
      var st1 := State(st.keys[zone := None], st.log + [(zone, TYPE_DNSKEY)]);
      var msg := e.fetch(|st.log|, zone, TYPE_DNSKEY);
      assert msg == e.fetch(0, zone, TYPE_DNSKEY);
      AgreesHold(e, st.keys, pending, zone);
      AgreesSet(e, st1.keys, pending, zone);
      if msg.Some? && Dnskeys(msg.value) != [] && AnchorFor(e.anchors, zone).None? {
        DsRefines(e, st1, zone, depth, pending + {zone});
        AgreesSet(e, WalkDs(e, st1, zone, depth).0.keys, pending, zone);
      }
    }
  }

  lemma AgreesGet(e: Env, memo: Memo, pending: set<DnsName>, zone: DnsName)
    requires Agrees(e, memo, pending) && zone in memo && zone !in pending
    ensures memo[zone] == PlainKeys(e, zone)
  {
  }

  lemma DsRefines(e: Env, st: State, zone: DnsName, depth: nat, pending: set<DnsName>)
    requires Deterministic(e) && |zone| + depth <= MAX_DEPTH
    requires Agrees(e, st.keys, pending) && forall p :: p in pending ==> |p| >= |zone|
    ensures var (st', ds) := WalkDs(e, st, zone, depth);
      ds == PlainDs(e, zone) && Agrees(e, st'.keys, pending)
    decreases |zone|, 0
  {
    hide Agrees, Walk, PlainKeys, DsUnder;
    if zone != [] {
      WalkRefines(e, st, zone[1..], depth + 1, pending);
      var log := Walk(e, st, zone[1..], depth + 1).0.log;
      assert e.fetch(|log|, zone, TYPE_DS) == e.fetch(0, zone, TYPE_DS);
    }
  }

  /** Successive questions sharing one memo, each from the top. */
  function WalkAll(e: Env, st: State, zones: seq<DnsName>): seq<Keys>
    decreases |zones|
  {
    if zones == [] then []
    else
      var (st', keys) := Walk(e, st, zones[0], 0);
      [keys] + WalkAll(e, st', zones[1..])
  }

  /** In any order and with any repetition, zones of at most 20 labels get the plain answers. */
  lemma {:induction false} MemoRefines(e: Env, st: State, zones: seq<DnsName>)
    requires Deterministic(e) && Agrees(e, st.keys, {}) && forall z :: z in zones ==> |z| <= MAX_DEPTH
    ensures |WalkAll(e, st, zones)| == |zones|
    ensures forall i :: 0 <= i < |zones| ==> WalkAll(e, st, zones)[i] == PlainKeys(e, zones[i])
    decreases |zones|
  {
    hide Deterministic, Agrees, Walk, PlainKeys;
    if zones != [] {
      assert zones[0] in zones;
      WalkRefines(e, st, zones[0], 0, {});
      MemoRefines(e, Walk(e, st, zones[0], 0).0, zones[1..]);
    }
  }

  // ------------------------------------------------------ past the depth limit

  /** How many parents the plain recursion climbs from `zone`. */
  function Climb(e: Env, zone: DnsName): nat {
    var msg := e.fetch(0, zone, TYPE_DNSKEY);
    if msg.None? || Dnskeys(msg.value) == [] || AnchorFor(e.anchors, zone).Some? || zone == [] then 0
    else 1 + Climb(e, zone[1..])
  }

  ghost predicate Untouched(memo: Memo, zone: DnsName) { forall k :: 0 <= k <= |zone| ==> zone[k..] !in memo }

  lemma UntouchedUp(memo: Memo, zone: DnsName)
    requires Untouched(memo, zone) && zone != []
    ensures zone !in memo && Untouched(memo[zone := None], zone[1..])
  {
    assert zone[0..] == zone;
    forall k | 0 <= k <= |zone[1..]| ensures zone[1..][k..] !in memo[zone := None] {
      assert zone[1..][k..] == zone[k + 1..];
      assert |zone[k + 1..]| < |zone|;
    }
  }

  /**
   * Without help from the memo the limit shows exactly where the plain recursion would climb more
   * than the depth left: the walk then says insecure.
   */
  lemma {:induction false} WalkExact(e: Env, st: State, zone: DnsName, depth: nat)
    requires Deterministic(e) && Untouched(st.keys, zone) && depth <= MAX_DEPTH + 1
    ensures Walk(e, st, zone, depth).1 == if Climb(e, zone) + depth <= MAX_DEPTH then PlainKeys(e, zone) else None
    decreases |zone|
  {
    hide Untouched, KeysUnder, Dnskeys, AnchorFor, DsUnder, WalkDs, PlainDs;
    if zone == [] {
      RootDs(e, State(st.keys[zone := None], st.log + [(zone, TYPE_DNSKEY)]), depth);
    }
    UntouchedHere(st.keys, zone);
    if depth <= MAX_DEPTH {
      var st1 := State(st.keys[zone := None], st.log + [(zone, TYPE_DNSKEY)]);
      var msg := e.fetch(|st.log|, zone, TYPE_DNSKEY);
      assert msg == e.fetch(0, zone, TYPE_DNSKEY);
      if msg.Some? && Dnskeys(msg.value) != [] && AnchorFor(e.anchors, zone).None? && zone != [] {
        UntouchedUp(st.keys, zone);
        WalkExact(e, st1, zone[1..], depth + 1);
        DsExact(e, st1, zone, depth, Climb(e, zone) + depth <= MAX_DEPTH);
      }
    }
  }

  lemma RootDs(e: Env, st: State, depth: nat)
    ensures WalkDs(e, st, [], depth).1 == BogusDs == PlainDs(e, [])
  {
  }

  lemma DsExact(e: Env, st: State, zone: DnsName, depth: nat, within: bool)
    requires Deterministic(e) && zone != []
    requires Walk(e, st, zone[1..], depth + 1).1 == if within then PlainKeys(e, zone[1..]) else None
    ensures WalkDs(e, st, zone, depth).1 == if within then PlainDs(e, zone) else InsecureDs
  {
    hide Walk, PlainKeys, DsUnder;
  }

  lemma UntouchedHere(memo: Memo, zone: DnsName)
    requires Untouched(memo, zone)
    ensures zone !in memo
  {
    assert zone[0..] == zone;
  }

  // ------------------------------------------------- a world past the limit

  const KEY: Bytes := [1, 0, 3, 8]
  const DS: Bytes := [4, 8, 8, 2]
  const SIG: Bytes := [0, 48, 8, 0, 0, 0, 0, 0, 0, 0, 0, 0, 0, 0, 0, 0, 4, 8, 0]

  function Reply(name: DnsName, qtype: nat): Message {
    var data := if qtype == TYPE_DNSKEY then KEY else DS;
    Message(0, Flags(true, 0, false, false, false, false, false, false, 0), [],
      [Record(name, CLASS_IN, 0, Unknown(qtype, data)), Record(name, CLASS_IN, 0, Unknown(TYPE_RRSIG, SIG))],
      [], [], None, None, None)
  }

  /** Every zone is signed and delegated, and every signature is good. */
  function GoodWorld(): Env {
    Env([Anchor([], DS)], (_, _, _, _) => true, (_, _) => [], (_, _) => [], (_: nat, n: DnsName, t: nat) => Some(Reply(n, t)))
  }

  lemma GoodTag()
    ensures KeyTag(KEY) == 1032
  {
    assert KEY[..3] == [1, 0, 3] && [1, 0, 3][..2] == [1, 0] && [1, 0][..1] == [1] && [1][..0] == [];
    assert TagSum([1]) == 256;
    assert TagSum([1, 0]) == 256;
    assert TagSum([1, 0, 3]) == 1024;
    assert TagSum(KEY) == 1032;
  }

  lemma GoodRrsig()
    ensures ParseRrsig(SIG).Some? && ParseRrsig(SIG).value.algorithm == 8 && ParseRrsig(SIG).value.keyTag == 1032
  {
    hide Decode;
    assert Occurs(SIG, 18, PlainWire([]));
    PlainRoundTrip(SIG, 18, []);
    assert SIG[16] == 4 && SIG[17] == 8 && SIG[2] == 8;
  }

  lemma GoodSignature(rrset: seq<Record>)
    ensures VerifyRrsig(GoodWorld().check, rrset, SIG, KEY)
  {
    hide SignedData, ParseRrsig, KeyTag;
    GoodRrsig();
    GoodTag();
  }

  lemma GoodReply(n: DnsName, qtype: nat)
    requires qtype == TYPE_DNSKEY || qtype == TYPE_DS
    ensures var answers := Reply(n, qtype).answers;
      && DataOf(OfType(answers, qtype)) == [if qtype == TYPE_DNSKEY then KEY else DS]
      && OfType(answers, qtype) != []
      && DataOf(OfType(answers, TYPE_RRSIG)) == [SIG]
  {
    var answers := Reply(n, qtype).answers;
    var first, second := answers[0], answers[1];
    assert answers == [first] + [second];
    FilterAppend([first], [second], (r: Record) => Type(r) == qtype);
    FilterAll([first], (r: Record) => Type(r) == qtype);
    FilterNone([second], (r: Record) => Type(r) == qtype);
    FilterAppend([first], [second], (r: Record) => Type(r) == TYPE_RRSIG);
    FilterNone([first], (r: Record) => Type(r) == TYPE_RRSIG);
    FilterAll([second], (r: Record) => Type(r) == TYPE_RRSIG);
    OneData(first);
    OneData(second);
  }

  lemma OneData(r: Record)
    requires r.rdata.Unknown?
    ensures DataOf([r]) == [r.rdata.data]
  {
    assert [r][1..] == [];
  }

  lemma GoodKeysUnder(zone: DnsName)
    ensures KeysUnder(GoodWorld(), zone, Reply(zone, TYPE_DNSKEY), [DS]) == [KEY]
  {
    hide OfType, DataOf, VerifyRrsig, Reply;
    var e, msg := GoodWorld(), Reply(zone, TYPE_DNSKEY);
    GoodReply(zone, TYPE_DNSKEY);
    GoodSignature(OfType(msg.answers, TYPE_DNSKEY));
    GoodVouched(zone);
    assert SIG in DataOf(OfType(msg.answers, TYPE_RRSIG)) && KEY in [KEY];
  }

  lemma GoodVouched(zone: DnsName)
    ensures Vouched(GoodWorld(), zone, [KEY], [DS]) == [KEY]
  {
    hide KeyTag, PlainWire;
    var e := GoodWorld();
    GoodTag();
    assert VerifyDs(e, zone, KEY, DS);
    assert DS in [DS] && IsVouched(e, zone, KEY, [DS]);
    FilterAll([KEY], (k: Bytes) => IsVouched(e, zone, k, [DS]));
  }

  lemma {:induction false} GoodKeys(zone: DnsName)
    ensures PlainKeys(GoodWorld(), zone) == Some([KEY]) && Climb(GoodWorld(), zone) == |zone|
  {
    hide OfType, DataOf, VerifyRrsig, Reply, KeysUnder;
    var e := GoodWorld();
    GoodReply(zone, TYPE_DNSKEY);
    GoodKeysUnder(zone);
    if zone == [] {
      assert AnchorFor(e.anchors, zone) == Some(DS);
    } else {
      assert AnchorFor(e.anchors, zone) == None;
      GoodKeys(zone[1..]);
      GoodReply(zone, TYPE_DS);
      var answers := Reply(zone, TYPE_DS).answers;
      GoodSignature(OfType(answers, TYPE_DS));
      assert SIG in DataOf(OfType(answers, TYPE_RRSIG)) && KEY in [KEY];
      assert PlainDs(e, zone) == SecureDs([DS]);
    }
  }

  /**
   * Past 20 labels refinement fails, and not for that call alone. A lookup of 21 labels in the good
   * world answers insecure where plain recursion finds the key, and the entry it leaves behind makes
   * the next lookup, of only 20 labels, answer insecure too.
   */
  lemma DeepZonePoisons(zone: DnsName)
    requires |zone| == MAX_DEPTH + 1
    ensures var (st, keys) := Walk(GoodWorld(), FRESH, zone, 0);
      && keys == None && PlainKeys(GoodWorld(), zone) == Some([KEY])
      && Walk(GoodWorld(), st, zone[1..], 0).1 == None && PlainKeys(GoodWorld(), zone[1..]) == Some([KEY])
  {
    hide OfType, DataOf, VerifyRrsig, Reply, KeysUnder, PlainKeys, DsUnder, Walk;
    var e := GoodWorld();
    var st0 := FRESH;
    GoodKeys(zone);
    GoodKeys(zone[1..]);
    GoodReply(zone, TYPE_DNSKEY);
    assert AnchorFor(e.anchors, zone) == None;
    WalkExact(e, st0, zone, 0);
    var st1 := State(st0.keys[zone := None], st0.log + [(zone, TYPE_DNSKEY)]);
    UntouchedUp(st0.keys, zone);
    WalkExact(e, st1, zone[1..], 1);
    Remembers(e, st1, zone[1..], 1);
    ParentKept(e, st0, zone, 0);
    Recalls(e, Walk(e, st0, zone, 0).0, zone[1..], 0);
  }

  lemma Recalls(e: Env, st: State, zone: DnsName, depth: nat)
    requires zone in st.keys && depth <= MAX_DEPTH
    ensures Walk(e, st, zone, depth).1 == st.keys[zone]
  {
  }

  /** What the walk to the parent leaves behind is still there in the end. */
  lemma ParentKept(e: Env, st: State, zone: DnsName, depth: nat)
    requires depth <= MAX_DEPTH && zone !in st.keys && zone != [] && AnchorFor(e.anchors, zone).None?
    requires var msg := e.fetch(|st.log|, zone, TYPE_DNSKEY); msg.Some? && Dnskeys(msg.value) != []
    ensures var st1 := State(st.keys[zone := None], st.log + [(zone, TYPE_DNSKEY)]);
      var st2, st' := Walk(e, st1, zone[1..], depth + 1).0, Walk(e, st, zone, depth).0;
      zone[1..] in st2.keys ==> zone[1..] in st'.keys && st'.keys[zone[1..]] == st2.keys[zone[1..]]
  {
    hide KeysFor, DsUnder, Dnskeys, AnchorFor;
    assert |zone[1..]| < |zone|;
  }

  lemma Remembers(e: Env, st: State, zone: DnsName, depth: nat)
    requires depth <= MAX_DEPTH
    ensures var (st', keys) := Walk(e, st, zone, depth); zone in st'.keys && st'.keys[zone] == keys
  {
    hide KeysUnder, DsUnder, Dnskeys, AnchorFor, WalkDs;
  }
}
