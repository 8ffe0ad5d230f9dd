/**
 * The iterative resolver against arbitrary servers: which zones it visits, what it asks, what it
 * remembers, and that it stops. Each query is numbered, and the servers may answer every one anew.
 */
module Recursors {
  import opened Bytes
  import opened Names
  import opened Messages
  import opened Seqs
  import opened Zones

  const MAX_REFERRALS: nat := 30
  const MAX_DEPTH: nat := 24
  const DELEGATION_TTL: nat := 600
  const DELEGATIONS_MAX: nat := 100_000

  type Addr = Bytes

  /** Root servers, what a list of servers answers to the n-th query, and the clock at that query. */
  datatype Env = Env(
    roots: seq<Addr>,
    ask: (nat, seq<Addr>, DnsName, nat) -> Option<Message>,
    clock: nat -> nat)

  datatype Delegation = Delegation(servers: seq<Addr>, expires: nat)

  // --------------------------------------------------------- reading replies

  function NsOwner(rs: seq<Record>): Option<DnsName> {
    if rs == [] then None else if Type(rs[0]) == TYPE_NS then Some(rs[0].name) else NsOwner(rs[1..])
  }

  function NsNames(rs: seq<Record>): seq<DnsName> {
    if rs == [] then [] else (if rs[0].rdata.Ns? then [rs[0].rdata.host] else []) + NsNames(rs[1..])
  }

  function Addresses(rs: seq<Record>): seq<Addr> {
    if rs == [] then []
    else
      (match rs[0].rdata
       case A(ip) => [ip]
       case Aaaa(ip) => [ip]
       case _ => []) + Addresses(rs[1..])
  }

  function V4Addresses(rs: seq<Record>): seq<Addr> {
    if rs == [] then [] else (if rs[0].rdata.A? then [rs[0].rdata.ip4] else []) + V4Addresses(rs[1..])
  }

  /** Glue is believed only for names the answering zone itself contains. */
  function Glue(resp: Message, nsNames: seq<DnsName>, zone: DnsName): seq<Addr> {
    Addresses(Filter(resp.additionals, (r: Record) => r.name in nsNames && EndsWith(r.name, zone)))
  }

  /** The last `keep` labels. */
  function SuffixOf(name: DnsName, keep: nat): (r: DnsName)
    ensures EndsWith(name, r)
  {
    if keep >= |name| || !ValidName(name[|name| - keep..]) then name else name[|name| - keep..]
  }

  predicate HasAnswer(resp: Message, qname: DnsName, qtype: nat) {
    exists r :: r in resp.answers && r.name == qname && (Type(r) == qtype || Type(r) == TYPE_CNAME)
  }

  function CnameTarget(rs: seq<Record>, qname: DnsName): Option<DnsName> {
    if rs == [] then None
    else if rs[0].name == qname && Type(rs[0]) == TYPE_CNAME then
      if rs[0].rdata.Cname? then Some(rs[0].rdata.alias) else None
    else CnameTarget(rs[1..], qname)
  }

  function Finalize(resp: Message, qname: DnsName, qtype: nat): Message {
    resp.(questions := [Question(qname, qtype, CLASS_IN)], flags := resp.flags.(aa := false, ra := true))
  }

  // ---------------------------------------------------------------- descents

  /** `zone` lies inside `above` and strictly deeper. */
  predicate Inside(zone: DnsName, above: DnsName) { EndsWith(zone, above) && |zone| > |above| }

  /** A sequence of zones, each inside the one before. */
  predicate Descends(zones: seq<DnsName>) {
    forall i :: 0 < i < |zones| ==> Inside(zones[i], zones[i - 1])
  }

  datatype Query = Query(servers: seq<Addr>, name: DnsName, qtype: nat)

  /** The queries sent so far; the servers' answer to each may depend on its number. */
  type Log = seq<Query>

  predicate Sent(log: Log, call: nat, servers: seq<Addr>, name: DnsName, qtype: nat) {
    call < |log| && log[call] == Query(servers, name, qtype)
  }

  /** How a zone's servers were learned: as the root's, or in a referral from a zone above. */
  datatype Origin =
    | FromRoot
    | Referred(
        above: DnsName, aboveServers: seq<Addr>, call: nat, asked: DnsName, qtype: nat, origin: Origin, source: Source)

  /** Where the addresses of a referral came from: its own glue, or a lookup of one of the servers it names. */
  datatype Source = FromGlue | FromLookup(ns: DnsName, answers: seq<Record>, found: Found)

  /** How an answer was found: in one reply, or in a reply with a CNAME and then at the CNAME's target. */
  datatype Found =
    | Given(zone: DnsName, servers: seq<Addr>, call: nat, asked: DnsName, qtype: nat, origin: Origin)
    | Joined(
        zone: DnsName, servers: seq<Addr>, call: nat, origin: Origin, target: DnsName, more: seq<Record>, rest: Found)

  /** In answers to the logged queries the servers of `zone` were learned by referrals that step down from the root. */
  predicate Learned(e: Env, log: Log, zone: DnsName, servers: seq<Addr>, o: Origin)
    decreases o
  {
    match o
    case FromRoot => zone == [] && servers == e.roots
    case Referred(above, aboveServers, call, asked, qtype, origin, source) =>
      && Sent(log, call, aboveServers, asked, qtype) && Learned(e, log, above, aboveServers, origin)
      && Inside(zone, above)
      && var resp := e.ask(call, aboveServers, asked, qtype);
      && resp.Some? && NsOwner(resp.value.authorities) == Some(zone)
      && Supplies(e, log, resp.value, above, servers, source)
  }

  /** The glue the zone above may give, or, without any, the addresses found for a server named in the referral. */
  predicate Supplies(e: Env, log: Log, resp: Message, above: DnsName, servers: seq<Addr>, source: Source)
    decreases source
  {
    var names := NsNames(resp.authorities);
    var glue := Glue(resp, names, above);
    match source
    case FromGlue => servers == glue != []
    case FromLookup(ns, answers, found) =>
      && glue == [] && ns in names && servers == V4Addresses(answers) != []
      && Replied(e, log, ns, TYPE_A, answers, found)
  }

  /** The answers were given to logged queries by servers that were learned. */
  predicate Replied(e: Env, log: Log, qname: DnsName, qtype: nat, answers: seq<Record>, f: Found)
    decreases f
  {
    Learned(e, log, f.zone, f.servers, f.origin) &&
    match f
    case Given(_, servers, call, asked, askedType, _) =>
      && Sent(log, call, servers, asked, askedType)
      && EndsWith(qname, asked) && (askedType == qtype || askedType == TYPE_NS)
      && var resp := e.ask(call, servers, asked, askedType);
      && resp.Some? && answers == resp.value.answers
    case Joined(_, servers, call, _, target, more, rest) =>
      && Sent(log, call, servers, qname, qtype)
      && var resp := e.ask(call, servers, qname, qtype);
      && resp.Some? && CnameTarget(resp.value.answers, qname) == Some(target)
      && answers == resp.value.answers + more && Replied(e, log, target, qtype, more, rest)
  }

  ghost predicate IsLearned(e: Env, log: Log, zone: DnsName, servers: seq<Addr>) {
    exists o :: Learned(e, log, zone, servers, o)
  }

  ghost predicate IsReplied(e: Env, log: Log, qname: DnsName, qtype: nat, answers: seq<Record>) {
    exists f :: Replied(e, log, qname, qtype, answers, f)
  }

  lemma {:induction false} LearnedLater(e: Env, log: Log, later: Log, zone: DnsName, servers: seq<Addr>, o: Origin)
    requires log <= later && Learned(e, log, zone, servers, o)
    ensures Learned(e, later, zone, servers, o)
    decreases o
  {
    hide NsOwner, NsNames, Glue, V4Addresses, Inside, Replied;
    if o.Referred? {
      LearnedLater(e, log, later, o.above, o.aboveServers, o.origin);
      if o.source.FromLookup? {
        RepliedLater(e, log, later, o.source.ns, TYPE_A, o.source.answers, o.source.found);
      }
    }
  }

  lemma {:induction false} RepliedLater(
    e: Env, log: Log, later: Log, qname: DnsName, qtype: nat, answers: seq<Record>, f: Found)
    requires log <= later && Replied(e, log, qname, qtype, answers, f)
    ensures Replied(e, later, qname, qtype, answers, f)
    decreases f
  {
    hide CnameTarget, EndsWith, Learned;
    LearnedLater(e, log, later, f.zone, f.servers, f.origin);
    if f.Joined? {
      RepliedLater(e, log, later, f.target, qtype, f.more, f.rest);
    }
  }

  lemma IsLearnedLater(e: Env, log: Log, later: Log, zone: DnsName, servers: seq<Addr>)
    requires log <= later && IsLearned(e, log, zone, servers)
    ensures IsLearned(e, later, zone, servers)
  {
    hide Learned;
    var o :| Learned(e, log, zone, servers, o);
    LearnedLater(e, log, later, zone, servers, o);
  }

  /** The zones of a derivation, from the root down. */
  function Path(zone: DnsName, o: Origin): (p: seq<DnsName>)
    ensures p != [] && p[|p| - 1] == zone
    decreases o
  {
    match o
    case FromRoot => [zone]
    case Referred(above, _, _, _, _, origin, _) => Path(above, origin) + [zone]
  }

  /** Every learned zone is reached from the root by strictly descending steps, no more than it has labels. */
  lemma {:induction false} PathDescends(e: Env, log: Log, zone: DnsName, servers: seq<Addr>, o: Origin)
    requires Learned(e, log, zone, servers, o)
    ensures Path(zone, o)[0] == [] && Descends(Path(zone, o)) && |Path(zone, o)| <= |zone| + 1
    decreases o
  {
    hide NsOwner, Supplies, EndsWith;
    if o.Referred? {
      PathDescends(e, log, o.above, o.aboveServers, o.origin);
    }
  }

  // ------------------------------------------------------ one step of a walk

  type Delegations = map<DnsName, Delegation>

  datatype State = State(delegations: Delegations, log: Log)

  function Ask(st: State, servers: seq<Addr>, name: DnsName, qtype: nat): State {
    st.(log := st.log + [Query(servers, name, qtype)])
  }

  /** The loop's variables: the servers at hand, the zone they serve, labels revealed, and the mode. */
  datatype Cursor = Cursor(servers: seq<Addr>, zone: DnsName, zoneDepth: nat, minimize: bool)

  /** What a resolution leaves, answers, and did: zones whose servers it used, names it put to them. */
  datatype Resolved = Resolved(st: State, reply: Option<Message>, visited: seq<DnsName>, asked: seq<DnsName>)

  /** The deepest unexpired delegation at or above `qname`, from `skip` labels up. */
  function CachedStart(e: Env, st: State, qname: DnsName, skip: nat): Option<DnsName>
    decreases |qname| - skip
  {
    if skip >= |qname| then None
    else
      var cand := qname[skip..];
      if ValidName(cand) && cand in st.delegations && st.delegations[cand].expires > e.clock(|st.log|) then Some(cand)
      else CachedStart(e, st, qname, skip + 1)
  }

  function StartOf(e: Env, st: State, qname: DnsName, qtype: nat): Cursor {
    var z := CachedStart(e, st, qname, if qtype == TYPE_DS then 1 else 0);
    if z.Some? && z.value in st.delegations then Cursor(st.delegations[z.value].servers, z.value, |z.value|, true)
    else Cursor(e.roots, [], 0, true)
  }

  function Unexpired(m: Delegations, now: nat): Delegations { map z | z in m && m[z].expires > now :: m[z] }

  /** `cache_delegation`. */
  function Remember(e: Env, st: State, zone: DnsName, servers: seq<Addr>): State {
    if servers == [] || zone == [] then st
    else
      var now := e.clock(|st.log|);
      var m := if |st.delegations| > DELEGATIONS_MAX then Unexpired(st.delegations, now) else st.delegations;
      st.(delegations := m[zone := Delegation(servers, now + DELEGATION_TTL)])
  }

  /** How many labels the next query shows: one past the zone cut, or all. */
  function Keep(c: Cursor, qname: DnsName): nat {
    if c.minimize && c.zoneDepth + 1 < |qname| then c.zoneDepth + 1 else |qname|
  }

  datatype Action = Answer | Chase(target: DnsName) | Refer(below: DnsName) | ShowAll | ShowOneMore

  /** What a reply calls for. */
  function Decide(resp: Message, c: Cursor, qname: DnsName, qtype: nat): Action {
    var isFull := Keep(c, qname) == |qname|;
    var nsNames := NsNames(resp.authorities);
    var below := NsOwner(resp.authorities);
    if isFull && HasAnswer(resp, qname, qtype) then
      var target := if qtype == TYPE_CNAME then None else CnameTarget(resp.answers, qname);
      if target.Some? && forall x :: x in resp.answers ==> Type(x) != qtype then Chase(target.value) else Answer
    else if isFull && nsNames == [] then Answer
    else if nsNames != [] && below.Some? then
      if qtype == TYPE_DS && below.value == qname then Answer
      else if Inside(below.value, c.zone) then Refer(below.value)
      else if c.minimize && !isFull then ShowAll
      else Answer
    else if resp.flags.rcode == RCODE_NXDOMAIN then ShowAll
    else ShowOneMore
  }

  function Descend(c: Cursor, below: DnsName, servers: seq<Addr>): Cursor {
    Cursor(servers, below, if |below| > c.zoneDepth + 1 then |below| else c.zoneDepth + 1, c.minimize)
  }

  function Reveal(c: Cursor, qname: DnsName): Cursor {
    c.(zoneDepth := c.zoneDepth + 1, minimize := c.minimize && c.zoneDepth + 1 < |qname|)
  }

  function Chased(resp: Message, m: Message, qname: DnsName, qtype: nat): Message {
    m.(answers := resp.answers + m.answers, questions := [Question(qname, qtype, CLASS_IN)])
  }

  // ---------------------------------------------------------------- the walk

  /** Nested resolutions still allowed. */
  function Left(depth: nat): nat { if depth > MAX_DEPTH then 0 else MAX_DEPTH + 1 - depth }

  function Resolve(e: Env, st: State, qname: DnsName, qtype: nat, depth: nat): Resolved
    decreases Left(depth), 3
  {
    if depth > MAX_DEPTH then Resolved(st, None, [], [])
    else
      var c := StartOf(e, st, qname, qtype);
      Follow(e, st, qname, qtype, depth, c, MAX_REFERRALS, [c.zone], [])
  }

  /** The referral loop with `turns` left. */
  function Follow(
    e: Env, st: State, qname: DnsName, qtype: nat, depth: nat, c: Cursor, turns: nat, visited: seq<DnsName>,
    asked: seq<DnsName>): Resolved
    requires depth <= MAX_DEPTH
    decreases Left(depth), 2, turns
  {
    if turns == 0 then Resolved(st, None, visited, asked)
    else
      var asked1 := asked + [NameFor(c, qname)];
      var (st1, next) := TakeTurn(e, st, qname, qtype, depth, c);
      match next
      case Stop(reply) => Resolved(st1, reply, visited, asked1)
      case Stay(c1) => Follow(e, st1, qname, qtype, depth, c1, turns - 1, visited, asked1)
      case Enter(c1) => Follow(e, st1, qname, qtype, depth, c1, turns - 1, visited + [c1.zone], asked1)
  }

  datatype Next = Stop(reply: Option<Message>) | Stay(cursor: Cursor) | Enter(cursor: Cursor)

  function NameFor(c: Cursor, qname: DnsName): DnsName { SuffixOf(qname, Keep(c, qname)) }

  function TypeFor(c: Cursor, qname: DnsName, qtype: nat): nat { if Keep(c, qname) == |qname| then qtype else TYPE_NS }

  /** One turn of it: a query, and what its reply calls for. */
  function TakeTurn(e: Env, st: State, qname: DnsName, qtype: nat, depth: nat, c: Cursor): (State, Next)
    requires depth <= MAX_DEPTH
    decreases Left(depth), 1
  {
    var reply := e.ask(|st.log|, c.servers, NameFor(c, qname), TypeFor(c, qname, qtype));
    var st1 := Ask(st, c.servers, NameFor(c, qname), TypeFor(c, qname, qtype));
    if reply.None? then (st1, Stop(None))
    else
      match Decide(reply.value, c, qname, qtype)
      case Answer => (st1, Stop(Some(Finalize(reply.value, qname, qtype))))
      case Chase(target) =>
        var m := Resolve(e, st1, target, qtype, depth + 1);
        (m.st, Stop(if m.reply.None? then None else Some(Chased(reply.value, m.reply.value, qname, qtype))))
      case Refer(below) =>
        var (st2, addrs) := ReferralAddrs(e, st1, reply.value, c.zone, depth);
        if addrs.None? then (st2, Stop(None))
        else (Remember(e, st2, below, addrs.value), Enter(Descend(c, below, addrs.value)))
      case ShowAll => (st1, Stay(c.(minimize := false)))
      case ShowOneMore => (st1, Stay(Reveal(c, qname)))
  }

  /** Trusted glue, or the addresses of the first server name that resolves. */
  function ReferralAddrs(e: Env, st: State, resp: Message, zone: DnsName, depth: nat): (State, Option<seq<Addr>>)
    requires depth <= MAX_DEPTH
    decreases Left(depth), 0
  {
    var nsNames := NsNames(resp.authorities);
    var glue := Glue(resp, nsNames, zone);
    if glue != [] then (st, Some(glue))
    else if depth >= MAX_DEPTH then (st, None)
    else TryNames(e, st, nsNames, depth)
  }

  function TryNames(e: Env, st: State, names: seq<DnsName>, depth: nat): (State, Option<seq<Addr>>)
    requires depth < MAX_DEPTH
    decreases Left(depth), 0, |names|
  {
    if names == [] then (st, None)
    else
      var r := Resolve(e, st, names[0], TYPE_A, depth + 1);
      var found := if r.reply.Some? then V4Addresses(r.reply.value.answers) else [];
      if found != [] then (r.st, Some(found)) else TryNames(e, r.st, names[1..], depth)
  }

  class Recursor {
    const env: Env
    var delegations: Delegations
    var log: Log

    constructor (env: Env)
      ensures this.env == env && Now() == State(map[], [])
    {
      this.env := env;
      delegations := map[];
      log := [];
    }

    function Now(): State
      reads this
    {
      State(delegations, log)
    }

    method FindStart(qname: DnsName, minSkip: nat) returns (r: Option<DnsName>)
      ensures r == CachedStart(env, Now(), qname, minSkip)
    {
      var now := env.clock(|log|);
      var skip := minSkip;
      while skip < |qname|
        invariant CachedStart(env, Now(), qname, skip) == CachedStart(env, Now(), qname, minSkip)
      {
        var cand := qname[skip..];
        if ValidName(cand) && cand in delegations && delegations[cand].expires > now {
          return Some(cand);
        }
        skip := skip + 1;
      }
      r := None;
    }

    method CacheDelegation(zone: DnsName, servers: seq<Addr>)
      modifies this`delegations
      ensures Now() == Remember(env, old(Now()), zone, servers)
    {
      if servers == [] || zone == [] {
        return;
      }
      var now := env.clock(|log|);
      if |delegations| > DELEGATIONS_MAX {
        delegations := Unexpired(delegations, now);
      }
      delegations := delegations[zone := Delegation(servers, now + DELEGATION_TTL)];
    }

    method ResolveDepth(qname: DnsName, qtype: nat, depth: nat)
      returns (r: Option<Message>, ghost visited: seq<DnsName>, ghost asked: seq<DnsName>)
      modifies this
      ensures Resolved(Now(), r, visited, asked) == Resolve(env, old(Now()), qname, qtype, depth)
      decreases Left(depth), 3
    {
      hide TakeTurn, NameFor, CachedStart;
      visited, asked := [], [];
      if depth > MAX_DEPTH {
        return None, visited, asked;
      }
      var start := FindStart(qname, if qtype == TYPE_DS then 1 else 0);
      var c := Cursor(env.roots, [], 0, true);
      if start.Some? && start.value in delegations {
        c := Cursor(delegations[start.value].servers, start.value, |start.value|, true);
      }
      visited := [c.zone];
      for turn := 0 to MAX_REFERRALS
        invariant Follow(env, Now(), qname, qtype, depth, c, MAX_REFERRALS - turn, visited, asked) ==
          Resolve(env, old(Now()), qname, qtype, depth)
      {
        asked := asked + [NameFor(c, qname)];
        var next := RunTurn(qname, qtype, depth, c);
        match next {
          case Stop(reply) =>
            return reply, visited, asked;
          case Stay(c1) =>
            c := c1;
          case Enter(c1) =>
            c := c1;
            visited := visited + [c.zone];
        }
      }
      r := None;
    }

    method RunTurn(qname: DnsName, qtype: nat, depth: nat, c: Cursor) returns (next: Next)
      requires depth <= MAX_DEPTH
      modifies this
      ensures (Now(), next) == TakeTurn(env, old(Now()), qname, qtype, depth, c)
      decreases Left(depth), 1
    {
      hide Decide, Remember, ReferralAddrs, Resolve, Descend, Reveal, NameFor, TypeFor;
      var reply := env.ask(|log|, c.servers, NameFor(c, qname), TypeFor(c, qname, qtype));
      log := log + [Query(c.servers, NameFor(c, qname), TypeFor(c, qname, qtype))];
      if reply.None? {
        return Stop(None);
      }
      match Decide(reply.value, c, qname, qtype) {
        case Answer =>
          next := Stop(Some(Finalize(reply.value, qname, qtype)));
        case Chase(target) =>
          var m, _, _ := ResolveDepth(target, qtype, depth + 1);
          next := Stop(if m.None? then None else Some(Chased(reply.value, m.value, qname, qtype)));
        case Refer(below) =>
          var addrs := GetReferralAddrs(reply.value, c.zone, depth);
          if addrs.None? {
            return Stop(None);
          }
          CacheDelegation(below, addrs.value);
          next := Enter(Descend(c, below, addrs.value));
        case ShowAll =>
          next := Stay(c.(minimize := false));
        case ShowOneMore =>
          next := Stay(Reveal(c, qname));
      }
    }

    method GetReferralAddrs(resp: Message, zone: DnsName, depth: nat) returns (r: Option<seq<Addr>>)
      requires depth <= MAX_DEPTH
      modifies this
      ensures (Now(), r) == ReferralAddrs(env, old(Now()), resp, zone, depth)
      decreases Left(depth), 0
    {
      hide Glue, Resolve, V4Addresses;
      var nsNames := NsNames(resp.authorities);
      var glue := Glue(resp, nsNames, zone);
      if glue != [] {
        return Some(glue);
      }
      if depth >= MAX_DEPTH {
        return None;
      }
      for i := 0 to |nsNames|
        invariant TryNames(env, Now(), nsNames[i..], depth) == TryNames(env, old(Now()), nsNames, depth)
      {
        assert nsNames[i..][0] == nsNames[i] && nsNames[i..][1..] == nsNames[i + 1..];
        var m, _, _ := ResolveDepth(nsNames[i], TYPE_A, depth + 1);
        if m.Some? {
          var next := V4Addresses(m.value.answers);
          if next != [] {
            return Some(next);
          }
        }
      }
      r := None;
    }
  }

  // -------------------------------------------------------------- the results

  /** Every remembered delegation was learned by referrals that step down from the root. */
  ghost predicate Sound(e: Env, st: State) {
    forall z :: z in st.delegations ==> IsLearned(e, st.log, z, st.delegations[z].servers)
  }

  lemma RememberSound(e: Env, st: State, zone: DnsName, servers: seq<Addr>)
    requires Sound(e, st) && IsLearned(e, st.log, zone, servers)
    ensures Sound(e, Remember(e, st, zone, servers))
  {
    hide IsLearned;
  }

  lemma AskedOne(e: Env, st: State, servers: seq<Addr>, name: DnsName, qtype: nat)
    requires Sound(e, st)
    ensures Sound(e, Ask(st, servers, name, qtype))
  {
    hide IsLearned;
    var st1 := Ask(st, servers, name, qtype);
    forall z | z in st.delegations ensures IsLearned(e, st1.log, z, st.delegations[z].servers) {
      IsLearnedLater(e, st.log, st1.log, z, st.delegations[z].servers);
    }
  }

  lemma {:induction false} CachedStartIs(e: Env, st: State, qname: DnsName, skip: nat)
    ensures var z := CachedStart(e, st, qname, skip);
      z.Some? ==> z.value in st.delegations && EndsWith(qname, z.value) && |z.value| + skip <= |qname|
    decreases |qname| - skip
  {
    if skip < |qname| {
      CachedStartIs(e, st, qname, skip + 1);
    }
  }

  /** Zones step down from one at or above the name, and only suffixes of it are asked for. */
  predicate TrailOk(qname: DnsName, qtype: nat, visited: seq<DnsName>, asked: seq<DnsName>) {
    && Descends(visited) && (visited != [] ==> EndsWith(qname, visited[0]))
    && (forall n :: n in asked ==> EndsWith(qname, n))
    && (qtype == TYPE_DS && qname != [] ==> qname !in visited)
  }

  lemma StartOk(e: Env, st: State, qname: DnsName, qtype: nat)
    requires Sound(e, st)
    ensures var c := StartOf(e, st, qname, qtype);
      IsLearned(e, st.log, c.zone, c.servers) && TrailOk(qname, qtype, [c.zone], [])
  {
    hide IsLearned;
    CachedStartIs(e, st, qname, if qtype == TYPE_DS then 1 else 0);
    RootLearned(e, st.log);
  }

  lemma RootLearned(e: Env, log: Log)
    ensures IsLearned(e, log, [], e.roots)
  {
    assert Learned(e, log, [], e.roots, FromRoot);
  }

  lemma Grown(qname: DnsName, qtype: nat, visited: seq<DnsName>, asked: seq<DnsName>, below: DnsName)
    requires TrailOk(qname, qtype, visited, asked) && visited != [] && Inside(below, visited[|visited| - 1])
    requires !(qtype == TYPE_DS && below == qname)
    ensures TrailOk(qname, qtype, visited + [below], asked)
  {
    hide EndsWith;
    assert (visited + [below])[0] == visited[0];
  }

  lemma AskedMore(qname: DnsName, qtype: nat, visited: seq<DnsName>, asked: seq<DnsName>, name: DnsName)
    requires TrailOk(qname, qtype, visited, asked) && EndsWith(qname, name)
    ensures TrailOk(qname, qtype, visited, asked + [name])
  {
    hide EndsWith, Descends;
  }

  lemma DecideRefers(resp: Message, c: Cursor, qname: DnsName, qtype: nat)
    requires Decide(resp, c, qname, qtype).Refer?
    ensures var below := Decide(resp, c, qname, qtype).below;
      NsOwner(resp.authorities) == Some(below) && Inside(below, c.zone) && !(qtype == TYPE_DS && below == qname)
  {
    hide HasAnswer, CnameTarget, NsOwner, NsNames, Inside;
  }

  lemma DecideChases(resp: Message, c: Cursor, qname: DnsName, qtype: nat)
    requires Decide(resp, c, qname, qtype).Chase?
    ensures CnameTarget(resp.answers, qname) == Some(Decide(resp, c, qname, qtype).target)
    ensures NameFor(c, qname) == qname && TypeFor(c, qname, qtype) == qtype
  {
    hide HasAnswer, CnameTarget, NsOwner, NsNames, Inside;
  }

  /** A reply, if there is one, carries answers that learned servers gave. */
  ghost predicate ReplyOk(e: Env, log: Log, qname: DnsName, qtype: nat, reply: Option<Message>) {
    reply.Some? ==> IsReplied(e, log, qname, qtype, reply.value.answers)
  }

  /**
   * Against any servers. The zones one resolution visits step strictly down from one at or above the
   * name, every name it asks for is a suffix of it, it asks at most thirty times and a DS question
   * never reaches the zone itself. Its answers, and the addresses of every delegation it leaves
   * behind, came in this run's replies from servers that were learned down from the root.
   */
  lemma {:induction false} ResolveSound(e: Env, st: State, qname: DnsName, qtype: nat, depth: nat)
    requires Sound(e, st)
    ensures var r := Resolve(e, st, qname, qtype, depth);
      && st.log <= r.st.log && Sound(e, r.st) && ReplyOk(e, r.st.log, qname, qtype, r.reply)
      && TrailOk(qname, qtype, r.visited, r.asked) && |r.asked| <= MAX_REFERRALS
      && (depth > MAX_DEPTH ==> r.asked == [] && r.reply == None)
    decreases Left(depth), 3
  {
    hide Sound, Follow, StartOf, IsLearned, IsReplied;
    if depth <= MAX_DEPTH {
      var c := StartOf(e, st, qname, qtype);
      StartOk(e, st, qname, qtype);
      FollowSound(e, st, qname, qtype, depth, c, MAX_REFERRALS, [c.zone], []);
    }
  }

  lemma {:induction false} FollowSound(
    e: Env, st: State, qname: DnsName, qtype: nat, depth: nat, c: Cursor, turns: nat, visited: seq<DnsName>,
    asked: seq<DnsName>)
    requires depth <= MAX_DEPTH && Sound(e, st) && IsLearned(e, st.log, c.zone, c.servers)
    requires visited != [] && visited[|visited| - 1] == c.zone && TrailOk(qname, qtype, visited, asked)
    ensures var r := Follow(e, st, qname, qtype, depth, c, turns, visited, asked);
      && st.log <= r.st.log && Sound(e, r.st) && ReplyOk(e, r.st.log, qname, qtype, r.reply)
      && TrailOk(qname, qtype, r.visited, r.asked) && |r.asked| <= |asked| + turns
    decreases Left(depth), 2, turns
  {
    hide Sound, TakeTurn, NameFor, IsLearned, Inside, TrailOk, IsReplied;
    if turns > 0 {
      var name := NameFor(c, qname);
      NameIsSuffix(c, qname);
      AskedMore(qname, qtype, visited, asked, name);
      TurnSound(e, st, qname, qtype, depth, c);
      var (st1, next) := TakeTurn(e, st, qname, qtype, depth, c);
      match next {
        case Stop(_) =>
        case Stay(c1) => FollowSound(e, st1, qname, qtype, depth, c1, turns - 1, visited, asked + [name]);
        case Enter(c1) =>
          Grown(qname, qtype, visited, asked + [name], c1.zone);
          FollowSound(e, st1, qname, qtype, depth, c1, turns - 1, visited + [c1.zone], asked + [name]);
      }
    }
  }

  lemma NameIsSuffix(c: Cursor, qname: DnsName)
    ensures EndsWith(qname, NameFor(c, qname))
  {
  }

  /** What one turn leaves, wherever it leads. */
  ghost predicate NextOk(e: Env, log: Log, qname: DnsName, qtype: nat, c: Cursor, next: Next) {
    match next
    case Stop(reply) => ReplyOk(e, log, qname, qtype, reply)
    case Stay(c1) => c1.zone == c.zone && c1.servers == c.servers && IsLearned(e, log, c1.zone, c1.servers)
    case Enter(c1) =>
      IsLearned(e, log, c1.zone, c1.servers) && Inside(c1.zone, c.zone) && !(qtype == TYPE_DS && c1.zone == qname)
  }

  lemma TurnSound(e: Env, st: State, qname: DnsName, qtype: nat, depth: nat, c: Cursor)
    requires depth <= MAX_DEPTH && Sound(e, st) && IsLearned(e, st.log, c.zone, c.servers)
    ensures var (st1, next) := TakeTurn(e, st, qname, qtype, depth, c);
      st.log <= st1.log && Sound(e, st1) && NextOk(e, st1.log, qname, qtype, c, next)
    decreases Left(depth), 1
  {
    hide Sound, Decide, NameFor, TypeFor, Remember, ReferralAddrs, Finalize, Chased, IsLearned, Resolve, Inside, IsReplied;
    var name, stepType := NameFor(c, qname), TypeFor(c, qname, qtype);
    var reply := e.ask(|st.log|, c.servers, name, stepType);
    var st1 := Ask(st, c.servers, name, stepType);
    AskedOne(e, st, c.servers, name, stepType);
    IsLearnedLater(e, st.log, st1.log, c.zone, c.servers);
    if reply.Some? {
      match Decide(reply.value, c, qname, qtype) {
        case Answer =>
          AnswerReplied(e, st, qname, qtype, c);
        case Chase(target) =>
          ResolveSound(e, st1, target, qtype, depth + 1);
          var m := Resolve(e, st1, target, qtype, depth + 1);
          DecideChases(reply.value, c, qname, qtype);
          if m.reply.Some? {
            ChaseReplied(e, st, m.st.log, qname, qtype, c, target, m.reply.value);
          }
        case Refer(below) =>
          AddrsSound(e, st1, reply.value, c.zone, depth);
          var (st2, addrs) := ReferralAddrs(e, st1, reply.value, c.zone, depth);
          if addrs.Some? {
            DecideRefers(reply.value, c, qname, qtype);
            IsLearnedLater(e, st1.log, st2.log, c.zone, c.servers);
            ReferralLearned(e, st2.log, c.zone, c.servers, |st.log|, name, stepType, below, addrs.value);
            RememberSound(e, st2, below, addrs.value);
            RememberLog(e, st2, below, addrs.value);
          }
        case ShowAll =>
        case ShowOneMore =>
      }
    }
  }

  lemma RememberLog(e: Env, st: State, zone: DnsName, servers: seq<Addr>)
    ensures Remember(e, st, zone, servers).log == st.log
  {
  }

  lemma AnswerReplied(e: Env, st: State, qname: DnsName, qtype: nat, c: Cursor)
    requires var st1 := Ask(st, c.servers, NameFor(c, qname), TypeFor(c, qname, qtype));
      IsLearned(e, st1.log, c.zone, c.servers)
    requires e.ask(|st.log|, c.servers, NameFor(c, qname), TypeFor(c, qname, qtype)).Some?
    ensures var resp := e.ask(|st.log|, c.servers, NameFor(c, qname), TypeFor(c, qname, qtype)).value;
      ReplyOk(e, Ask(st, c.servers, NameFor(c, qname), TypeFor(c, qname, qtype)).log, qname, qtype,
        Some(Finalize(resp, qname, qtype)))
  {
    hide NameFor, Learned;
    NameIsSuffix(c, qname);
    var name, t := NameFor(c, qname), TypeFor(c, qname, qtype);
    var st1 := Ask(st, c.servers, name, t);
    var o :| Learned(e, st1.log, c.zone, c.servers, o);
    assert Replied(e, st1.log, qname, qtype, e.ask(|st.log|, c.servers, name, t).value.answers,
        Given(c.zone, c.servers, |st.log|, name, t, o));
  }

  lemma ChaseReplied(
    e: Env, st: State, log: Log, qname: DnsName, qtype: nat, c: Cursor, target: DnsName, m: Message)
    requires Ask(st, c.servers, qname, qtype).log <= log && IsLearned(e, st.log, c.zone, c.servers)
    requires e.ask(|st.log|, c.servers, qname, qtype).Some?
    requires CnameTarget(e.ask(|st.log|, c.servers, qname, qtype).value.answers, qname) == Some(target)
    requires IsReplied(e, log, target, qtype, m.answers)
    ensures var resp := e.ask(|st.log|, c.servers, qname, qtype).value;
      ReplyOk(e, log, qname, qtype, Some(Chased(resp, m, qname, qtype)))
  {
    hide CnameTarget, Learned;
    var resp := e.ask(|st.log|, c.servers, qname, qtype).value;
    assert Sent(log, |st.log|, c.servers, qname, qtype);
    IsLearnedLater(e, st.log, log, c.zone, c.servers);
    var o :| Learned(e, log, c.zone, c.servers, o);
    var f :| Replied(e, log, target, qtype, m.answers, f);
    assert Replied(e, log, qname, qtype, resp.answers + m.answers,
        Joined(c.zone, c.servers, |st.log|, o, target, m.answers, f));
  }

  lemma AddrsSound(e: Env, st: State, resp: Message, zone: DnsName, depth: nat)
    requires depth <= MAX_DEPTH && Sound(e, st)
    ensures var (st', addrs) := ReferralAddrs(e, st, resp, zone, depth);
      && st.log <= st'.log && Sound(e, st')
      && (addrs.Some? ==> exists source :: Supplies(e, st'.log, resp, zone, addrs.value, source))
    decreases Left(depth), 0
  {
    hide Sound, Glue, TryNames, NsNames, IsReplied, Replied, V4Addresses;
    var names := NsNames(resp.authorities);
    if Glue(resp, names, zone) != [] {
      assert Supplies(e, st.log, resp, zone, Glue(resp, names, zone), FromGlue);
    } else if depth < MAX_DEPTH {
      NamesSound(e, st, names, depth);
      var (st', addrs) := TryNames(e, st, names, depth);
      if addrs.Some? {
        LookupSupplies(e, st'.log, resp, zone, addrs.value);
      }
    }
  }

  ghost predicate IsLookedUp(e: Env, log: Log, names: seq<DnsName>, servers: seq<Addr>) {
    exists ns, answers ::
      ns in names && servers == V4Addresses(answers) && servers != [] && IsReplied(e, log, ns, TYPE_A, answers)
  }

  lemma LookupSupplies(e: Env, log: Log, resp: Message, zone: DnsName, servers: seq<Addr>)
    requires Glue(resp, NsNames(resp.authorities), zone) == [] && IsLookedUp(e, log, NsNames(resp.authorities), servers)
    ensures exists source :: Supplies(e, log, resp, zone, servers, source)
  {
    hide Glue, NsNames, V4Addresses, Replied;
    var names := NsNames(resp.authorities);
    var ns, answers :|
      ns in names && servers == V4Addresses(answers) && servers != [] && IsReplied(e, log, ns, TYPE_A, answers);
    var f :| Replied(e, log, ns, TYPE_A, answers, f);
    assert Supplies(e, log, resp, zone, servers, FromLookup(ns, answers, f));
  }

  lemma {:induction false} NamesSound(e: Env, st: State, names: seq<DnsName>, depth: nat)
    requires depth < MAX_DEPTH && Sound(e, st)
    ensures var (st', addrs) := TryNames(e, st, names, depth);
      && st.log <= st'.log && Sound(e, st')
      && (addrs.Some? ==> IsLookedUp(e, st'.log, names, addrs.value))
    decreases Left(depth), 0, |names|
  {
    hide Sound, Resolve, V4Addresses, IsReplied;
    if names != [] {
      ResolveSound(e, st, names[0], TYPE_A, depth + 1);
      var r := Resolve(e, st, names[0], TYPE_A, depth + 1);
      assert names[0] in names && forall x :: x in names[1..] ==> x in names;
      NamesSound(e, r.st, names[1..], depth);
    }
  }

  /** An accepted referral extends what was learned by one step down. */
  lemma ReferralLearned(
    e: Env, log: Log, zone: DnsName, servers: seq<Addr>, call: nat, asked: DnsName, qtype: nat, below: DnsName,
    addrs: seq<Addr>)
    requires Sent(log, call, servers, asked, qtype) && IsLearned(e, log, zone, servers) && Inside(below, zone)
    requires var resp := e.ask(call, servers, asked, qtype);
      && resp.Some? && NsOwner(resp.value.authorities) == Some(below)
      && exists source :: Supplies(e, log, resp.value, zone, addrs, source)
    ensures IsLearned(e, log, below, addrs)
  {
    hide Supplies, NsOwner;
    var o :| Learned(e, log, zone, servers, o);
    var source :| Supplies(e, log, e.ask(call, servers, asked, qtype).value, zone, addrs, source);
    assert Learned(e, log, below, addrs, Referred(zone, servers, call, asked, qtype, o, source));
  }

  // ------------------------------------------------------- nesting without end

  const ASKED: DnsName := [[98]]
  const SERVER: DnsName := [[99]]

  /** A referral for the name asked that names one server `k` times and gives no address. */
  function Referral(k: nat): Message {
    Message(0, Flags(true, 0, false, false, false, false, false, false, 0), [], [],
      seq(k, _ => Record(ASKED, CLASS_IN, 0, Ns(SERVER))), [], None, None, None)
  }

  /** The root refers the name to servers that nobody knows. */
  function NestingWorld(k: nat): Env {
    Env([], (_: nat, _: seq<Addr>, name: DnsName, _: nat) => if name == ASKED then Some(Referral(k)) else None,
      (_: nat) => 0)
  }

  /**
   * The limit of 24 bounds how deep resolutions nest, not how many one makes: a referral to any number
   * of servers without addresses has each of them resolved in turn.
   */
  lemma NestedCount(k: nat)
    requires k > 0
    ensures Resolve(NestingWorld(k), State(map[], []), ASKED, TYPE_A, 0).st.log ==
      [Query([], ASKED, TYPE_A)] + seq(k, _ => Query([], SERVER, TYPE_A))
  {
    hide TryNames;
    var e, st := NestingWorld(k), State(map[], []);
    var c := Cursor([], [], 0, true);
    StartAtRoot(e, st, ASKED);
    var st1 := Ask(st, [], ASKED, TYPE_A);
    var resp := Referral(k);
    ReferralReads(k);
    NameShown(ASKED, c);
    assert TakeTurn(e, st, ASKED, TYPE_A, 0, c) == (TryNames(e, st1, seq(k, _ => SERVER), 0).0, Stop(None)) by {
      NamesFail(k, st1, k);
    }
    NamesFail(k, st1, k);
    assert Follow(e, st, ASKED, TYPE_A, 0, c, MAX_REFERRALS, [c.zone], []).st == TakeTurn(e, st, ASKED, TYPE_A, 0, c).0;
  }

  lemma StartAtRoot(e: Env, st: State, qname: DnsName)
    requires st.delegations == map[]
    ensures StartOf(e, st, qname, TYPE_A) == Cursor(e.roots, [], 0, true)
  {
    CachedStartIs(e, st, qname, 0);
  }

  lemma NameShown(qname: DnsName, c: Cursor)
    requires |qname| == 1 && c.zoneDepth == 0
    ensures NameFor(c, qname) == qname && TypeFor(c, qname, TYPE_A) == TYPE_A
  {
  }

  lemma {:induction false} RefersTo(k: nat, rs: seq<Record>)
    requires rs == seq(k, _ => Record(ASKED, CLASS_IN, 0, Ns(SERVER)))
    ensures NsNames(rs) == seq(k, _ => SERVER) && (k > 0 ==> NsOwner(rs) == Some(ASKED))
  {
    if k > 0 {
      RefersTo(k - 1, rs[1..]);
    }
  }

  lemma ReferralReads(k: nat)
    requires k > 0
    ensures var c := Cursor([], [], 0, true);
      && Decide(Referral(k), c, ASKED, TYPE_A) == Refer(ASKED)
      && NsNames(Referral(k).authorities) == seq(k, _ => SERVER) && Glue(Referral(k), seq(k, _ => SERVER), []) == []
  {
    RefersTo(k, Referral(k).authorities);
    assert seq(k, _ => SERVER)[0] == SERVER;
  }

  /** Nobody answers for a server's name: one query each. */
  lemma ServerUnknown(k: nat, st: State)
    requires st.delegations == map[]
    ensures var r := Resolve(NestingWorld(k), st, SERVER, TYPE_A, 1);
      r.reply == None && r.st == Ask(st, [], SERVER, TYPE_A)
  {
    var e, c := NestingWorld(k), Cursor([], [], 0, true);
    StartAtRoot(e, st, SERVER);
    NameShown(SERVER, c);
    assert TakeTurn(e, st, SERVER, TYPE_A, 1, c) == (Ask(st, [], SERVER, TYPE_A), Stop(None));
  }

  lemma {:induction false} NamesFail(k: nat, st: State, left: nat)
    requires st.delegations == map[]
    ensures var (st', addrs) := TryNames(NestingWorld(k), st, seq(left, _ => SERVER), 0);
      addrs == None && st' == st.(log := st.log + seq(left, _ => Query([], SERVER, TYPE_A)))
    decreases left
  {
    hide Resolve;
    var names := seq(left, _ => SERVER);
    if left > 0 {
      ServerUnknown(k, st);
      var st1 := Ask(st, [], SERVER, TYPE_A);
      NamesFail(k, st1, left - 1);
      assert names[0] == SERVER && names[1..] == seq(left - 1, _ => SERVER);
      var q := Query([], SERVER, TYPE_A);
      assert st.log + [q] + seq(left - 1, _ => q) == st.log + seq(left, _ => q);
    }
  }
}
