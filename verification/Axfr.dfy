/**
 * Full zone transfer, end to end over bytes: the primary lists the zone in any map order, chunks it,
 * encodes and frames (and signs) the messages; the secondary reads the stream and rebuilds the zone.
 */
module Axfr {
  import opened Bytes
  import opened Names
  import opened Messages
  import opened Codec
  import opened Limits
  import opened Normal
  import opened Stable
  import opened Tsigs
  import opened Seqs
  import opened Zones
  import opened Load

  const AXFR_CHUNK: nat := 100

  // ---------------------------------------------------- listing and loading

  /** `order` enumerates the owners, in whatever order the map iterates. */
  ghost predicate Lists(order: seq<DnsName>, m: Store) {
    && (forall o :: o in order <==> o in m)
    && (forall i, j :: 0 <= i < j < |order| ==> order[i] != order[j])
  }

  function NonSoa(m: Store, order: seq<DnsName>): seq<Record> {
    if order == [] then [] else Without(Node(m, order[0]), TYPE_SOA) + NonSoa(m, order[1..])
  }

  /** `all_records`: the SOA first, then everything else. */
  function AllRecords(z: Zone, order: seq<DnsName>): seq<Record> { [z.soa] + NonSoa(z.records, order) }

  lemma {:induction false} NonSoaNamed(m: Store, order: seq<DnsName>, o: DnsName)
    requires forall k :: k in m ==> forall r :: r in m[k] ==> r.name == k
    requires forall i, j :: 0 <= i < j < |order| ==> order[i] != order[j]
    ensures Named(NonSoa(m, order), o) == if o in order then Without(Node(m, o), TYPE_SOA) else []
    decreases |order|
  {
    if order != [] {
      var k := order[0];
      var here := Without(Node(m, k), TYPE_SOA);
      NonSoaNamed(m, order[1..], o);
      FilterAppend(here, NonSoa(m, order[1..]), (r: Record) => r.name == o);
      FilterIn(Node(m, k), (r: Record) => Type(r) != TYPE_SOA);
      if k == o {
        FilterAll(here, (r: Record) => r.name == o);
        assert here + [] == here;
      } else {
        FilterNone(here, (r: Record) => r.name == o);
        assert [] + Named(NonSoa(m, order[1..]), o) == Named(NonSoa(m, order[1..]), o);
      }
    }
  }

  lemma {:induction false} NonSoaIn(m: Store, order: seq<DnsName>, r: Record)
    ensures r in NonSoa(m, order) ==> !IsSoa(r) && exists o :: o in order && r in Node(m, o)
    decreases |order|
  {
    if order != [] {
      NonSoaIn(m, order[1..], r);
      FilterIn(Node(m, order[0]), (x: Record) => Type(x) != TYPE_SOA);
    }
  }

  lemma AllRecordsNamed(z: Zone, order: seq<DnsName>, o: DnsName)
    requires ZoneOk(z) && Lists(order, z.records)
    ensures Named(AllRecords(z, order), o) ==
      (if o == z.origin then [z.soa] else []) + Without(Node(z.records, o), TYPE_SOA)
  {
    hide Total, EndsWith;
    forall k | k in z.records ensures forall r :: r in z.records[k] ==> r.name == k {
      assert NodeOk(z.origin, k, z.records[k]);
    }
    NonSoaNamed(z.records, order, o);
    FilterAppend([z.soa], NonSoa(z.records, order), (r: Record) => r.name == o);
    assert Named([z.soa], o) == if o == z.origin then [z.soa] else [];
  }

  lemma AllRecordsLoadable(z: Zone, order: seq<DnsName>)
    requires ZoneOk(z) && Lists(order, z.records)
    ensures Loadable(z.origin, AllRecords(z, order)) && Filter(AllRecords(z, order), IsSoa) == [z.soa]
  {
    hide Total, NodeOk;
    var rest := NonSoa(z.records, order);
    forall r | r in rest ensures !IsSoa(r) && EndsWith(r.name, z.origin) {
      NonSoaIn(z.records, order, r);
      var o :| o in order && r in Node(z.records, o);
      NodeNames(z.origin, o, z.records[o], r);
    }
    FilterNone(rest, IsSoa);
    FilterAppend([z.soa], rest, IsSoa);
    assert Filter([z.soa], IsSoa) == [z.soa];
    assert EndsWith(z.origin, z.origin);
  }

  lemma NodeNames(origin: DnsName, o: DnsName, node: seq<Record>, r: Record)
    requires NodeOk(origin, o, node) && r in node
    ensures EndsWith(r.name, origin)
  {
  }

  lemma OwnerMultiset(z: Zone, o: DnsName)
    requires ZoneOk(z)
    ensures multiset((if o == z.origin then [z.soa] else []) + Without(Node(z.records, o), TYPE_SOA)) ==
            multiset(Node(z.records, o))
  {
    hide Total, EndsWith;
    var node := Node(z.records, o);
    FilterSplit(node, IsSoa, (r: Record) => Type(r) != TYPE_SOA);
    if o != z.origin {
      assert o in z.records ==> NodeOk(z.origin, o, z.records[o]);
      FilterNone(node, IsSoa);
    }
  }

  /** Two zones hold the same: origin, SOA, record count and, owner by owner, the same records. */
  ghost predicate SameZone(a: Zone, b: Zone) {
    && a.origin == b.origin && a.soa == b.soa && a.count == b.count
    && a.records.Keys == b.records.Keys
    && (forall o :: multiset(Node(a.records, o)) == multiset(Node(b.records, o)))
  }

  /** Listing a zone in any order and loading the list rebuilds the zone. */
  lemma ListThenLoad(z: Zone, order: seq<DnsName>)
    requires ZoneOk(z) && Lists(order, z.records)
    ensures var r := FromRecords(z.origin, AllRecords(z, order));
      r.Loaded? && ZoneOk(r.zone) && SameZone(z, r.zone)
  {
    hide ZoneOk, AllRecords, Loadable, FromRecords, Without, Named, Lists, Filter;
    AllRecordsLoadable(z, order);
    FromRecordsExact(z.origin, AllRecords(z, order));
    var z' := FromRecords(z.origin, AllRecords(z, order)).zone;
    forall o ensures multiset(Node(z.records, o)) == multiset(Node(z'.records, o)) {
      AllRecordsNamed(z, order, o);
      OwnerMultiset(z, o);
    }
    SameParts(z, z');
  }

  lemma SameParts(a: Zone, b: Zone)
    requires ZoneOk(a) && ZoneOk(b) && a.origin == b.origin && [a.soa] == [b.soa]
    requires forall o :: multiset(Node(a.records, o)) == multiset(Node(b.records, o))
    ensures SameZone(a, b)
  {
    hide Total, Filter, EndsWith;
    assert [a.soa][0] == [b.soa][0];
    forall o ensures |Node(a.records, o)| == |Node(b.records, o)| {
      assert |multiset(Node(a.records, o))| == |multiset(Node(b.records, o))|;
    }
    forall o ensures o in a.records <==> o in b.records {
      assert |Node(a.records, o)| == |Node(b.records, o)|;
      assert o in a.records ==> NodeOk(a.origin, o, a.records[o]);
      assert o in b.records ==> NodeOk(b.origin, o, b.records[o]);
    }
    assert a.records.Keys == b.records.Keys;
    forall o | o in a.records ensures |a.records[o]| == |b.records[o]| {
      assert |Node(a.records, o)| == |Node(b.records, o)|;
    }
    TotalSame(a.records, b.records);
  }

  // ----------------------------------------------------------------- frames

  function OurEdns(): Edns { Edns(1232, 0, 0, false, []) }

  /** `response_to` with AA set and one chunk of the records. */
  function Reply(q: Message, chunk: seq<Record>): Message {
    Message(q.id, Flags(true, q.flags.opcode, true, false, q.flags.rd, false, false, false, 0), q.questions, chunk,
            [], [], if q.edns.Some? then Some(OurEdns()) else None, None, None)
  }

  function Min(a: nat, b: nat): nat { if a < b then a else b }

  /** The messages carrying `rs[i..]`, a chunk each (`chunks(AXFR_CHUNK)`). */
  function Replies(q: Message, rs: seq<Record>, i: nat): seq<Message>
    requires i <= |rs|
    decreases |rs| - i
  {
    if i == |rs| then []
    else
      var j := Min(i + AXFR_CHUNK, |rs|);
      [Reply(q, rs[i..j])] + Replies(q, rs, j)
  }

  function Frame(wire: Bytes): Bytes { Be16(|wire|) + wire }

  function Frames(ms: seq<Message>): seq<Bytes> {
    seq(|ms|, i requires 0 <= i < |ms| => Frame(Encode(ms[i])))
  }

  /** `axfr_messages`. */
  function AxfrMessages(z: Zone, order: seq<DnsName>, q: Message): seq<Bytes> {
    Frames(Replies(q, AllRecords(z, order) + [z.soa], 0))
  }

  /** `sign_transfer_frames`: each frame is parsed again, signed, and its MAC chained into the next. */
  function SignFrames(hmac: Hmac, frames: seq<Bytes>, key: TsigKey, prior: Bytes, now: nat): seq<Bytes>
    requires forall i :: 0 <= i < |frames| ==> |frames[i]| >= 2
    decreases |frames|
  {
    if frames == [] then []
    else match Parse(frames[0][2..])
      case Fail(_) => [frames[0]] + SignFrames(hmac, frames[1..], key, prior, now)
      case Got(m, _) =>
        var signed := Sign(hmac, m, key, Some(prior), now);
        var again := Parse(signed);
        var next := if again.Got? && again.value.tsig.Some? then again.value.tsig.value.mac else prior;
        [Frame(signed)] + SignFrames(hmac, frames[1..], key, next, now)
  }

  /** The same loop as the program runs it, with the prior MAC updated in place. */
  method RunSignFrames(hmac: Hmac, frames: seq<Bytes>, key: TsigKey, requestMac: Bytes, now: nat)
    returns (out: seq<Bytes>)
    requires forall i :: 0 <= i < |frames| ==> |frames[i]| >= 2
    ensures out == SignFrames(hmac, frames, key, requestMac, now)
  {
    hide Parse, Sign, Frame;
    var prior := requestMac;
    out := [];
    for i := 0 to |frames|
      invariant out + SignFrames(hmac, frames[i..], key, prior, now) == SignFrames(hmac, frames, key, requestMac, now)
    {
      assert frames[i..][0] == frames[i] && frames[i..][1..] == frames[i + 1..];
      var parsed := Parse(frames[i][2..]);
      var sent := frames[i];
      if parsed.Got? {
        var signed := Sign(hmac, parsed.value, key, Some(prior), now);
        var again := Parse(signed);
        if again.Got? && again.value.tsig.Some? {
          prior := again.value.tsig.value.mac;
        }
        sent := Frame(signed);
      }
      ghost var rest := SignFrames(hmac, frames[i + 1..], key, prior, now);
      assert out + ([sent] + rest) == (out + [sent]) + rest;
      out := out + [sent];
    }
  }

  /** The reply can be read back: as it is framed and, when it is signed, with the TSIG record behind it. */
  predicate Clear(m: Message, signed: bool) {
    Shallow(m) && (signed ==> ShallowFrom(HeaderWith(m, ArCount(m) + 1), m))
  }

  /** The message bytes the primary sends: signed when there is a key and the message can be read back. */
  function Wires(hmac: Hmac, ms: seq<Message>, key: Option<TsigKey>, prior: Bytes, now: nat): seq<Bytes>
    decreases |ms|
  {
    if ms == [] then []
    else [WireOf(hmac, ms[0], key, prior, now)] + Wires(hmac, ms[1..], key, NextMac(hmac, ms[0], key, prior, now), now)
  }

  function WireOf(hmac: Hmac, m: Message, key: Option<TsigKey>, prior: Bytes, now: nat): Bytes {
    if key.None? || !Shallow(m) then Encode(m) else Sign(hmac, m, key.value, Some(prior), now)
  }

  function NextMac(hmac: Hmac, m: Message, key: Option<TsigKey>, prior: Bytes, now: nat): Bytes {
    if key.Some? && Clear(m, true) then SignedTsig(hmac, m, key.value, Some(prior), now).mac else prior
  }

  function Flat(wires: seq<Bytes>): Bytes {
    if wires == [] then [] else Frame(wires[0]) + Flat(wires[1..])
  }

  // ----------------------------------------------------------------- puller

  /** The loop over the answers of one message; the second SOA ends it and is not kept. */
  function Collect(rs: seq<Record>, got: seq<Record>, seen: nat): (seq<Record>, nat)
    decreases |rs|
  {
    if rs == [] then (got, seen)
    else if IsSoa(rs[0]) then
      if seen + 1 == 2 then (got, 2) else Collect(rs[1..], got + [rs[0]], seen + 1)
    else Collect(rs[1..], got + [rs[0]], seen)
  }

  datatype Pull = Pulled(records: seq<Record>, rest: Bytes) | PullError

  /** What the puller was configured with and when each frame arrives. */
  datatype Puller = Puller(hmac: Hmac, id: nat, key: Option<TsigKey>, clock: nat -> nat)

  function Ring(key: Option<TsigKey>): map<DnsName, TsigKey> {
    if key.Some? then map[key.value.name := key.value] else map[]
  }

  lemma {:induction false} ExtraStart(buf: Bytes, pos: nat, n: nat, x: Extra)
    requires 12 <= pos <= |buf| && (x.tsigStart.Some? ==> 12 <= x.tsigStart.value <= |buf|)
    ensures var r := ReadExtra(buf, pos, n, x);
      r.Got? && r.value.tsigStart.Some? ==> 12 <= r.value.tsigStart.value <= |buf|
    decreases n
  {
    hide ReadEntry;
    if n > 0 {
      var e := ReadEntry(buf, pos);
      if e.Got? {
        ExtraStart(buf, e.pos, n - 1, AddEntry(x, e.value, pos));
      }
    }
  }

  /** A TSIG record starts after the header, so cutting there leaves the counts in place. */
  lemma TsigStartInRange(buf: Bytes)
    ensures var r := Parse(buf);
      r.Got? && r.value.tsigStart.Some? ==> 12 <= r.value.tsigStart.value <= |buf|
  {
    hide ReadHeader, ReadQuestions, ReadSection, ReadExtra;
    var h := ReadHeader(buf);
    if h.Got? {
      var q := ReadQuestions(buf, h.pos, h.value.qd, []);
      if q.Got? {
        var a := ReadSection(buf, q.pos, h.value.an, []);
        if a.Got? {
          var b := ReadSection(buf, a.pos, h.value.ns, []);
          if b.Got? {
            ExtraStart(buf, b.pos, h.value.ar, NO_EXTRA);
          }
        }
      }
    }
  }

  datatype Checked = Checked(message: Message, prior: Bytes) | Unusable

  /** One received message: parsed, matched to the query, and its TSIG verified when there is one. */
  function CheckReply(p: Puller, data: Bytes, prior: Bytes, n: nat): Checked {
    var r := Parse(data);
    TsigStartInRange(data);
    if r.Fail? then Unusable
    else
      var m := r.value;
      if m.id != p.id || !m.flags.qr || m.flags.rcode != 0 then Unusable
      else if p.key.Some? && m.tsig.Some? then
        match Verify(p.hmac, m, data, Ring(p.key), p.clock(n), Some(prior))
        case Rejected(_) => Unusable
        case Accepted(mac) => Checked(m, mac)
      else Checked(m, prior)
  }

  /** The collecting loop of `axfr_pull` on the bytes still to come. */
  function PullFrom(p: Puller, stream: Bytes, got: seq<Record>, seen: nat, prior: Bytes, n: nat): Pull
    decreases |stream|
  {
    if seen >= 2 then Pulled(got, stream)
    else if |stream| < 2 then PullError
    else
      var len := Word(stream, 0);
      if |stream| < 2 + len then PullError
      else match CheckReply(p, stream[2..2 + len], prior, n)
        case Unusable => PullError
        case Checked(m, mac) =>
          if m.answers == [] && got == [] && seen == 0 then PullError
          else
            var (got', seen') := Collect(m.answers, got, seen);
            PullFrom(p, stream[2 + len..], got', seen', mac, n + 1)
  }

  /** The same loop as the program runs it. */
  method PullRecords(p: Puller, stream: Bytes, requestMac: Bytes) returns (r: Pull)
    ensures r == PullFrom(p, stream, [], 0, requestMac, 0)
  {
    hide CheckReply, Collect;
    var rest, got, seen, prior, n := stream, [], 0, requestMac, 0;
    while seen < 2
      invariant PullFrom(p, rest, got, seen, prior, n) == PullFrom(p, stream, [], 0, requestMac, 0)
      decreases |rest| + 2 - seen
    {
      if |rest| < 2 {
        return PullError;
      }
      var len := Word(rest, 0);
      if |rest| < 2 + len {
        return PullError;
      }
      var c := CheckReply(p, rest[2..2 + len], prior, n);
      if c.Unusable? {
        return PullError;
      }
      if c.message.answers == [] && got == [] && seen == 0 {
        return PullError;
      }
      var step := Collect(c.message.answers, got, seen);
      CollectSeen(c.message.answers, got, seen);
      got, seen := step.0, step.1;
      rest, prior, n := rest[2 + len..], c.prior, n + 1;
    }
    r := Pulled(got, rest);
  }

  lemma {:induction false} CollectSeen(rs: seq<Record>, got: seq<Record>, seen: nat)
    ensures seen <= Collect(rs, got, seen).1
    decreases |rs|
  {
    if rs != [] {
      if IsSoa(rs[0]) {
        if seen + 1 != 2 {
          CollectSeen(rs[1..], got + [rs[0]], seen + 1);
        }
      } else {
        CollectSeen(rs[1..], got + [rs[0]], seen);
      }
    }
  }

  // ------------------------------------------------------- collecting a transfer

  /** A transfer body: SOAs at both ends and nowhere else. */
  predicate Bracketed(rs: seq<Record>) {
    && |rs| >= 2 && IsSoa(rs[0]) && IsSoa(rs[|rs| - 1])
    && forall k :: 0 < k < |rs| - 1 ==> !IsSoa(rs[k])
  }

  /** What the puller holds once the first `k` records of a transfer have gone by. */
  function GotAt(rs: seq<Record>, k: nat): seq<Record>
    requires 0 < |rs| && k <= |rs|
  {
    if k == |rs| then rs[..|rs| - 1] else rs[..k]
  }

  function SeenAt(rs: seq<Record>, k: nat): nat { if k == 0 then 0 else if k == |rs| then 2 else 1 }

  lemma {:induction false} CollectSlice(rs: seq<Record>, i: nat, j: nat)
    requires Bracketed(rs) && i <= j <= |rs| && i < |rs|
    ensures Collect(rs[i..j], GotAt(rs, i), SeenAt(rs, i)) == (GotAt(rs, j), SeenAt(rs, j))
    decreases j - i
  {
    if i < j {
      var r := rs[i];
      assert rs[i..j][0] == r && rs[i..j][1..] == rs[i + 1..j];
      if i + 1 < |rs| {
        assert rs[..i] + [r] == rs[..i + 1];
        CollectSlice(rs, i + 1, j);
      }
    }
  }

  // -------------------------------------------------------------- one message

  /** The query and the records fit the wire format. */
  predicate Sendable(q: Message, rs: seq<Record>) { WfMessage(q) && WfRecords(rs) }

  lemma ReplyWf(q: Message, rs: seq<Record>, i: nat, j: nat)
    requires Sendable(q, rs) && i <= j <= |rs| && j - i <= AXFR_CHUNK
    ensures var m := Reply(q, rs[i..j]); WfMessage(m) && ArCount(m) + 1 < 65536
  {
    hide WfRecord, WfQuestion;
  }

  /** The sender signs with the puller's key or not at all. */
  ghost predicate SignsWith(p: Puller, key: Option<TsigKey>, now: nat) {
    && (key.Some? ==> key == p.key && WfKey(key.value))
    && (key.Some? ==> forall k :: AbsDiff(p.clock(k), now % U48) <= MAX_CLOCK_SKEW)
  }

  lemma CheckOwn(p: Puller, m: Message, key: Option<TsigKey>, prior: Bytes, n: nat, now: nat)
    requires WfMessage(m) && Clear(m, key.Some?) && ArCount(m) + 1 < 65536
    requires m.id == p.id && m.flags.qr && m.flags.rcode == 0 && m.tsig.None? && SignsWith(p, key, now)
    ensures var wire := WireOf(p.hmac, m, key, prior, now);
      && Parse(wire).Got? && Parse(wire).pos == |wire|
      && var c := CheckReply(p, wire, prior, n);
         c.Checked? && c.message.answers == m.answers && c.prior == NextMac(p.hmac, m, key, prior, now)
  {
    hide Parse, Encode, WfMessage, ShallowFrom, Verify, Sign, SignedTsig, HeaderWith, WfKey;
    if key.None? {
      ParseEncode(m);
    } else {
      SignedVerifies(p.hmac, m, key.value, Some(prior), now, Ring(p.key), p.clock(n));
      SignedEnd(p.hmac, m, key.value, Some(prior), now);
    }
  }

  lemma SignedEnd(hmac: Hmac, m: Message, key: TsigKey, prior: Option<Bytes>, now: nat)
    requires WfMessage(m) && ArCount(m) + 1 < 65536 && WfKey(key)
    ensures var r := Parse(Sign(hmac, m, key, prior, now));
      if ShallowFrom(HeaderWith(m, ArCount(m) + 1), m) then
        && r.Got? && r.pos == |Sign(hmac, m, key, prior, now)|
        && r.value.tsig.Some? && r.value.tsig.value.mac == SignedTsig(hmac, m, key, prior, now).mac
      else r.Fail?
  {
    hide Parse, Encode, WfMessage, ShallowFrom, EncodeWithTsig, SignedTsig, HeaderWith, WfKey, WfTsig;
    SignedTsigWf(hmac, m, key, prior, now);
    ParseSigned(m, SignedTsig(hmac, m, key, prior, now));
  }

  /** A reply with a name behind too many pointers goes out unreadable. */
  lemma RefuseOwn(hmac: Hmac, m: Message, key: Option<TsigKey>, prior: Bytes, now: nat)
    requires WfMessage(m) && !Clear(m, key.Some?) && ArCount(m) + 1 < 65536 && (key.Some? ==> WfKey(key.value))
    ensures Parse(WireOf(hmac, m, key, prior, now)).Fail?
  {
    hide Parse, Encode, WfMessage, ShallowFrom, Sign, HeaderWith, WfKey;
    ParseEncode(m);
    if key.Some? {
      SignedEnd(hmac, m, key.value, Some(prior), now);
    }
  }

  /** A message cut short by a wrapped length field is not accepted. */
  lemma CutShort(p: Puller, wire: Bytes, k: nat, prior: Bytes, n: nat)
    requires Parse(wire).Got? && Parse(wire).pos == |wire| && k < |wire|
    ensures CheckReply(p, wire[..k], prior, n).Unusable?
  {
    hide Parse, Verify;
    ParseStable(wire[..k], wire);
    ParseWf(wire[..k]);
  }

  // --------------------------------------------------------------- the stream

  predicate Fits(wires: seq<Bytes>) { forall i :: 0 <= i < |wires| ==> |wires[i]| < 65536 }

  lemma FrameHead(wire: Bytes, rest: Bytes)
    ensures var stream := Frame(wire) + rest;
      var len := |wire| % 65536;
      && |stream| == 2 + |wire| + |rest|
      && Word(stream, 0) == len
      && stream[2..2 + len] == wire[..len]
      && stream[2 + |wire|..] == rest
  {
    var stream := Frame(wire) + rest;
    assert stream[0] == Be16(|wire|)[0] && stream[1] == Be16(|wire|)[1];
    ModDigits(|wire|, 256, 256);
    assert stream[2..] == wire + rest;
  }

  /** One turn of the loop. */
  lemma PullTurn(p: Puller, stream: Bytes, got: seq<Record>, seen: nat, prior: Bytes, n: nat, len: nat)
    requires seen < 2 && |stream| >= 2 + len && Word(stream, 0) == len
    ensures var c := CheckReply(p, stream[2..2 + len], prior, n);
      && (c.Unusable? ==> PullFrom(p, stream, got, seen, prior, n) == PullError)
      && (c.Checked? && c.message.answers != [] ==>
            var step := Collect(c.message.answers, got, seen);
            PullFrom(p, stream, got, seen, prior, n) ==
            PullFrom(p, stream[2 + len..], step.0, step.1, c.prior, n + 1))
  {
    hide Parse, CheckReply, Collect, Word;
  }

  /** One frame at the head of the stream. */
  lemma PullStep(p: Puller, wire: Bytes, rest: Bytes, got: seq<Record>, seen: nat, prior: Bytes, n: nat)
    requires seen < 2
    requires Parse(wire).Got? && Parse(wire).pos == |wire|
    requires CheckReply(p, wire, prior, n).Checked? && CheckReply(p, wire, prior, n).message.answers != []
    ensures var c := CheckReply(p, wire, prior, n);
      var step := Collect(c.message.answers, got, seen);
      PullFrom(p, Frame(wire) + rest, got, seen, prior, n) ==
      if |wire| < 65536 then PullFrom(p, rest, step.0, step.1, c.prior, n + 1) else PullError
  {
    hide Parse, CheckReply, Collect, Frame, Word, PullFrom;
    FrameHead(wire, rest);
    PullTurn(p, Frame(wire) + rest, got, seen, prior, n, |wire| % 65536);
    if |wire| >= 65536 {
      CutShort(p, wire, |wire| % 65536, prior, n);
    } else {
      assert wire[..|wire|] == wire;
    }
  }

  lemma PullRefused(p: Puller, wire: Bytes, rest: Bytes, got: seq<Record>, seen: nat, prior: Bytes, n: nat)
    requires seen < 2 && Parse(wire).Fail?
    ensures PullFrom(p, Frame(wire) + rest, got, seen, prior, n) == PullError
  {
    hide Parse, CheckReply, Collect, Frame, Word, PullFrom;
    FrameHead(wire, rest);
    var k := |wire| % 65536;
    PullTurn(p, Frame(wire) + rest, got, seen, prior, n, k);
    ParseStable(wire[..k], wire);
    Unparsed(p, wire[..k], prior, n);
  }

  lemma Unparsed(p: Puller, data: Bytes, prior: Bytes, n: nat)
    requires Parse(data).Fail?
    ensures CheckReply(p, data, prior, n).Unusable?
  {
    hide Parse, Verify;
  }

  predicate AllClear(ms: seq<Message>, signed: bool) { forall i :: 0 <= i < |ms| ==> Clear(ms[i], signed) }

  lemma WiresCons(hmac: Hmac, m: Message, ms: seq<Message>, key: Option<TsigKey>, prior: Bytes, now: nat)
    ensures var rest := Wires(hmac, ms, key, NextMac(hmac, m, key, prior, now), now);
      var wire := WireOf(hmac, m, key, prior, now);
      && Wires(hmac, [m] + ms, key, prior, now) == [wire] + rest
      && Flat([wire] + rest) == Frame(wire) + Flat(rest)
  {
    hide WireOf, NextMac, Frame;
    assert ([m] + ms)[1..] == ms;
    var rest := Wires(hmac, ms, key, NextMac(hmac, m, key, prior, now), now);
    assert ([WireOf(hmac, m, key, prior, now)] + rest)[1..] == rest;
  }

  /** The puller over the frames carrying `rs[i..]`. */
  lemma {:induction false} PullReplies(
    p: Puller, q: Message, rs: seq<Record>, i: nat, key: Option<TsigKey>, prior: Bytes, n: nat, now: nat)
    requires Sendable(q, rs) && Bracketed(rs) && i < |rs| && q.id == p.id
    requires SignsWith(p, key, now)
    ensures var wires := Wires(p.hmac, Replies(q, rs, i), key, prior, now);
      PullFrom(p, Flat(wires), GotAt(rs, i), SeenAt(rs, i), prior, n) ==
      if Fits(wires) && AllClear(Replies(q, rs, i), key.Some?) then Pulled(rs[..|rs| - 1], []) else PullError
    decreases |rs| - i
  {
    hide Parse, CheckReply, Collect, Sendable, Bracketed, WireOf, NextMac, SignsWith, PullFrom, Frame, Wires, Fits, Flat,
      Clear, AllClear;
    var j := Min(i + AXFR_CHUNK, |rs|);
    var m := Reply(q, rs[i..j]);
    var ms := Replies(q, rs, j);
    assert Replies(q, rs, i) == [m] + ms;
    WiresCons(p.hmac, m, ms, key, prior, now);
    var wire := WireOf(p.hmac, m, key, prior, now);
    var mac := NextMac(p.hmac, m, key, prior, now);
    var rest := Wires(p.hmac, ms, key, mac, now);
    ReplyWf(q, rs, i, j);
    ClearCons(m, ms, key.Some?);
    if !Clear(m, key.Some?) {
      KeyFit(p, key, now);
      RefuseOwn(p.hmac, m, key, prior, now);
      PullRefused(p, wire, Flat(rest), GotAt(rs, i), SeenAt(rs, i), prior, n);
    } else {
      CheckOwn(p, m, key, prior, n, now);
      PullStep(p, wire, Flat(rest), GotAt(rs, i), SeenAt(rs, i), prior, n);
      FitsCons(wire, rest);
      CollectSlice(rs, i, j);
      if j == |rs| {
        PullDone(p, q, rs, key, mac, n + 1, now);
      } else {
        PullReplies(p, q, rs, j, key, mac, n + 1, now);
      }
    }
  }

  lemma KeyFit(p: Puller, key: Option<TsigKey>, now: nat)
    requires SignsWith(p, key, now)
    ensures key.Some? ==> WfKey(key.value)
  {
  }

  lemma ClearCons(m: Message, ms: seq<Message>, signed: bool)
    ensures AllClear([m] + ms, signed) <==> Clear(m, signed) && AllClear(ms, signed)
  {
    hide Clear;
    assert ([m] + ms)[0] == m;
    assert forall i :: 0 <= i < |ms| ==> ms[i] == ([m] + ms)[i + 1];
  }

  lemma PullDone(p: Puller, q: Message, rs: seq<Record>, key: Option<TsigKey>, mac: Bytes, n: nat, now: nat)
    requires |rs| > 0
    ensures var rest := Wires(p.hmac, Replies(q, rs, |rs|), key, mac, now);
      && Fits(rest) && AllClear(Replies(q, rs, |rs|), key.Some?)
      && PullFrom(p, Flat(rest), GotAt(rs, |rs|), 2, mac, n) == Pulled(rs[..|rs| - 1], [])
  {
  }

  lemma FitsCons(wire: Bytes, rest: seq<Bytes>)
    ensures Fits([wire] + rest) <==> |wire| < 65536 && Fits(rest)
  {
    assert ([wire] + rest)[0] == wire;
    assert forall i :: 0 <= i < |rest| ==> rest[i] == ([wire] + rest)[i + 1];
  }

  // ------------------------------------------------------------------ theorem

  lemma AxfrBracketed(z: Zone, order: seq<DnsName>)
    requires ZoneOk(z)
    ensures Bracketed(AllRecords(z, order) + [z.soa])
  {
    hide Total, NodeOk, Filter;
    var rs := AllRecords(z, order) + [z.soa];
    forall k | 0 < k < |rs| - 1 ensures !IsSoa(rs[k]) {
      assert rs[k] == NonSoa(z.records, order)[k - 1];
      NonSoaIn(z.records, order, rs[k]);
    }
  }

  // ------------------------------------------------ the frames the server sends

  function Join(frames: seq<Bytes>): Bytes {
    if frames == [] then [] else frames[0] + Join(frames[1..])
  }

  function FrameEach(wires: seq<Bytes>): (r: seq<Bytes>)
    ensures |r| == |wires|
  {
    seq(|wires|, i requires 0 <= i < |wires| => Frame(wires[i]))
  }

  lemma {:induction false} JoinFrames(wires: seq<Bytes>)
    ensures Join(FrameEach(wires)) == Flat(wires)
    decreases |wires|
  {
    if wires != [] {
      assert FrameEach(wires)[1..] == FrameEach(wires[1..]);
      JoinFrames(wires[1..]);
    }
  }

  /** What a primary writes to the connection for an AXFR. */
  function AxfrStream(hmac: Hmac, z: Zone, order: seq<DnsName>, q: Message, key: Option<TsigKey>, mac: Bytes, now: nat): Bytes {
    var frames := AxfrMessages(z, order, q);
    Join(if key.None? then frames else SignFrames(hmac, frames, key.value, mac, now))
  }

  predicate AllSendable(ms: seq<Message>) {
    forall i :: 0 <= i < |ms| ==>
      WfMessage(ms[i]) && ArCount(ms[i]) + 1 < 65536 && ms[i].tsig.None? && ms[i].tsigStart.None?
  }

  lemma {:induction false} PlainFrames(hmac: Hmac, ms: seq<Message>, prior: Bytes, now: nat)
    ensures Frames(ms) == FrameEach(Wires(hmac, ms, None, prior, now))
    decreases |ms|
  {
    hide Encode, Frame;
    if ms != [] {
      PlainFrames(hmac, ms[1..], prior, now);
      var rest := Wires(hmac, ms[1..], None, prior, now);
      var all := Wires(hmac, ms, None, prior, now);
      assert all == [Encode(ms[0])] + rest;
      assert FrameEach(all) == [Frame(Encode(ms[0]))] + FrameEach(rest);
      assert Frames(ms) == [Frame(Encode(ms[0]))] + Frames(ms[1..]);
    }
  }

  /**
   * Re-parsing each frame to sign it loses nothing: the frames carry the original messages, signed
   * and chained where they can be read back and as they were otherwise.
   */
  lemma {:induction false} SignedFrames(hmac: Hmac, ms: seq<Message>, key: TsigKey, prior: Bytes, now: nat)
    requires AllSendable(ms) && WfKey(key)
    ensures SignFrames(hmac, Frames(ms), key, prior, now) == FrameEach(Wires(hmac, ms, Some(key), prior, now))
    decreases |ms|
  {
    hide Encode, Parse, Sign, SignedTsig, WfMessage, ShallowFrom, HeaderWith, WfKey, Wires;
    if ms == [] {
      WiresNil(hmac, Some(key), prior, now);
    } else {
      var m := ms[0];
      var frames := Frames(ms);
      assert frames[0] == Frame(Encode(m)) && frames[0][2..] == Encode(m);
      assert frames[1..] == Frames(ms[1..]);
      ParseEncode(m);
      SignedEnd(hmac, m, key, Some(prior), now);
      var mac := NextMac(hmac, m, Some(key), prior, now);
      SignedFrames(hmac, ms[1..], key, mac, now);
      WiresCons(hmac, m, ms[1..], Some(key), prior, now);
      assert [m] + ms[1..] == ms;
      var rest := Wires(hmac, ms[1..], Some(key), mac, now);
      var wire := WireOf(hmac, m, Some(key), prior, now);
      assert FrameEach([wire] + rest) == [Frame(wire)] + FrameEach(rest);
    }
  }

  lemma WiresNil(hmac: Hmac, key: Option<TsigKey>, prior: Bytes, now: nat)
    ensures Wires(hmac, [], key, prior, now) == []
  {
  }

  lemma {:induction false} RepliesSendable(q: Message, rs: seq<Record>, i: nat)
    requires Sendable(q, rs) && i <= |rs|
    ensures AllSendable(Replies(q, rs, i))
    decreases |rs| - i
  {
    hide Sendable, WfMessage, ArCount;
    if i < |rs| {
      var j := Min(i + AXFR_CHUNK, |rs|);
      ReplyWf(q, rs, i, j);
      RepliesSendable(q, rs, j);
    }
  }

  lemma StreamIsFlat(hmac: Hmac, z: Zone, order: seq<DnsName>, q: Message, key: Option<TsigKey>, mac: Bytes, now: nat)
    requires Sendable(q, AllRecords(z, order) + [z.soa]) && (key.Some? ==> WfKey(key.value))
    ensures AxfrStream(hmac, z, order, q, key, mac, now) ==
      Flat(Wires(hmac, Replies(q, AllRecords(z, order) + [z.soa], 0), key, mac, now))
  {
    hide Sendable, WfKey, Replies, Frames, SignFrames, FrameEach, Wires, Join, AllRecords, AllSendable, Flat;
    var ms := Replies(q, AllRecords(z, order) + [z.soa], 0);
    RepliesSendable(q, AllRecords(z, order) + [z.soa], 0);
    if key.None? {
      assert key == None;
      PlainFrames(hmac, ms, mac, now);
    } else {
      assert key == Some(key.value);
      SignedFrames(hmac, ms, key.value, mac, now);
    }
    JoinFrames(Wires(hmac, ms, key, mac, now));
  }

  /**
   * Zone transfer, end to end over bytes, signed or not: the puller stops exactly at the end of the
   * last frame and rebuilds the zone if and only if every message fits a 16-bit length and no name
   * in it is behind too many pointers; otherwise the transfer fails. For any map order, any zone
   * and any HMAC. A stream that is not signed at all fares the same whether or not the puller has a key.
   */
  lemma TransferExact(
    p: Puller, z: Zone, order: seq<DnsName>, q: Message, key: Option<TsigKey>, requestMac: Bytes, now: nat)
    requires ZoneOk(z) && Lists(order, z.records)
    requires Sendable(q, AllRecords(z, order) + [z.soa]) && q.id == p.id
    requires SignsWith(p, key, now)
    ensures var ms := Replies(q, AllRecords(z, order) + [z.soa], 0);
      var good := Fits(Wires(p.hmac, ms, key, requestMac, now)) && AllClear(ms, key.Some?);
      var r := PullFrom(p, AxfrStream(p.hmac, z, order, q, key, requestMac, now), [], 0, requestMac, 0);
      && r == (if good then Pulled(AllRecords(z, order), []) else PullError)
      && (good ==>
            var loaded := FromRecords(z.origin, r.records);
            loaded.Loaded? && ZoneOk(loaded.zone) && SameZone(z, loaded.zone))
  {
    hide ZoneOk, PullFrom, Wires, Replies, Flat, Fits, Sendable, Bracketed, FromRecords, SameZone, AllRecords,
      AxfrStream, AllClear;
    KeyFit(p, key, now);
    StreamIsFlat(p.hmac, z, order, q, key, requestMac, now);
    var rs := AllRecords(z, order) + [z.soa];
    AxfrBracketed(z, order);
    ListThenLoad(z, order);
    assert |rs| > 0;
    PullReplies(p, q, rs, 0, key, requestMac, 0, now);
    assert rs[..|rs| - 1] == AllRecords(z, order);
    assert rs[..0] == [];
  }

  // ---------------------------------------------------- names of few labels

  predicate FewIn(q: Message, rs: seq<Record>) {
    (forall i :: 0 <= i < |q.questions| ==> Few(q.questions[i].qname)) && FewRecords(rs)
  }

  lemma ReplyClear(q: Message, rs: seq<Record>, i: nat, j: nat, signed: bool)
    requires Sendable(q, rs) && FewIn(q, rs) && i <= j <= |rs| && j - i <= AXFR_CHUNK
    ensures Clear(Reply(q, rs[i..j]), signed)
  {
    hide WfRecord, WfQuestion, WfMessage, Few, FewRData, ShallowFrom, HeaderWith, Sendable;
    var m := Reply(q, rs[i..j]);
    assert Records(m) == rs[i..j];
    ReplyWf(q, rs, i, j);
    ShallowWhenFew(HeaderWith(m, ArCount(m)), m);
    ShallowWhenFew(HeaderWith(m, ArCount(m) + 1), m);
  }

  /** With names of at most 64 labels only the lengths matter. */
  lemma {:induction false} ClearWhenFew(q: Message, rs: seq<Record>, i: nat, signed: bool)
    requires Sendable(q, rs) && FewIn(q, rs) && i <= |rs|
    ensures AllClear(Replies(q, rs, i), signed)
    decreases |rs| - i
  {
    hide Sendable, FewIn, Clear, AllClear;
    if i < |rs| {
      var j := Min(i + AXFR_CHUNK, |rs|);
      ReplyClear(q, rs, i, j, signed);
      ClearWhenFew(q, rs, j, signed);
      ClearCons(Reply(q, rs[i..j]), Replies(q, rs, j), signed);
    } else {
      ClearNil(signed);
    }
  }

  lemma ClearNil(signed: bool)
    ensures AllClear([], signed)
  {
  }

  // ------------------------------------------------------ a transfer that fails

  function Bulk(size: nat): Record { Record(APEX, CLASS_IN, 0, Unknown(99, seq(size, _ => 0))) }

  /** What the rdata of unknown types alone takes up. */
  function BulkOf(rs: seq<Record>): nat {
    if rs == [] then 0 else (if rs[0].rdata.Unknown? then |rs[0].rdata.data| else 0) + BulkOf(rs[1..])
  }

  lemma {:induction false} BulkFits(st: Enc, rs: seq<Record>)
    ensures |PutRecords(st, rs).out| >= |st.out| + BulkOf(rs)
    decreases |rs|
  {
    hide NameWire, Fixed, Be16;
    if rs != [] {
      BulkFits(Put(st, RecordWire(|st.out|, st.table, rs[0])), rs[1..]);
    }
  }

  lemma LongWire(hmac: Hmac, m: Message, key: Option<TsigKey>, prior: Bytes, now: nat)
    requires ArCount(m) + 1 < 65536
    ensures |WireOf(hmac, m, key, prior, now)| >= BulkOf(Records(m))
  {
    hide PutRecords, PutQuestions, TsigWire, SignedTsig, Shallow, HeaderWith, EncodeWithTsig, BulkOf;
    BulkFits(PutQuestions(Enc(HeaderWith(m, ArCount(m)), map[]), m.questions), Records(m));
    if key.Some? {
      SignedWire(m, SignedTsig(hmac, m, key.value, Some(prior), now));
    }
  }

  /** A sound zone with two records of 40000 octets cannot be transferred to anyone. */
  lemma LongTransferFails(p: Puller, q: Message, key: Option<TsigKey>, requestMac: Bytes, now: nat)
    requires WfMessage(q) && q.id == p.id
    requires SignsWith(p, key, now)
    ensures var z := Tiny([Bulk(40000), Bulk(40000)]);
      ZoneOk(z) && PullFrom(p, AxfrStream(p.hmac, z, [APEX], q, key, requestMac, now), [], 0, requestMac, 0) == PullError
  {
    hide ZoneOk, PullFrom, AxfrStream, WfMessage, SignsWith, WireOf, NextMac, BulkOf, AllClear, Reply, Bulk, TinySoa;
    var big := Bulk(40000);
    var z := Tiny([big, big]);
    BulkIs(40000);
    TinyOk([big, big]);
    TinyRecords(big);
    var rs := AllRecords(z, [APEX]) + [z.soa];
    TransferExact(p, z, [APEX], q, key, requestMac, now);
    var m := Reply(q, rs);
    assert rs[0..4] == rs;
    assert Replies(q, rs, 0) == [m] + Replies(q, rs, 4);
    var wires := Wires(p.hmac, Replies(q, rs, 0), key, requestMac, now);
    assert wires[0] == WireOf(p.hmac, m, key, requestMac, now);
    ReplyRecords(q, rs);
    KeyFit(p, key, now);
    LongWire(p.hmac, m, key, requestMac, now);
  }

  lemma BulkIs(size: nat)
    requires size < 65536
    ensures Bulk(size).name == APEX && !IsSoa(Bulk(size)) && WfRecord(Bulk(size))
    ensures Bulk(size).rdata.Unknown? && |Bulk(size).rdata.data| == size
    ensures WfRecord(TinySoa(7, 0))
  {
    assert APEX[1..] == [];
    assert WireLen(APEX) == 3;
  }

  lemma TinyRecords(big: Record)
    requires big.name == APEX && !IsSoa(big) && WfRecord(big) && WfRecord(TinySoa(7, 0))
    requires big.rdata.Unknown? && |big.rdata.data| == 40000
    ensures var z := Tiny([big, big]);
      var rs := AllRecords(z, [APEX]) + [z.soa];
      && Lists([APEX], z.records) && rs == [z.soa, big, big, z.soa] && WfRecords(rs) && BulkOf(rs) == 80000
  {
    hide WfRecord, NonSoa, BulkOf;
    TinyListed(big);
    TinyBulk(big);
  }

  lemma TinyListed(big: Record)
    requires big.name == APEX && !IsSoa(big)
    ensures NonSoa(Tiny([big, big]).records, [APEX]) == [big, big]
  {
    var z := Tiny([big, big]);
    var node := [z.soa] + [big, big];
    FilterAppend([z.soa], [big, big], (r: Record) => Type(r) != TYPE_SOA);
    FilterNone([z.soa], (r: Record) => Type(r) != TYPE_SOA);
    FilterAll([big, big], (r: Record) => Type(r) != TYPE_SOA);
    assert Without(node, TYPE_SOA) == [big, big];
    assert [APEX][1..] == [];
    assert NonSoa(z.records, [APEX]) == [big, big] + [];
  }

  lemma TinyBulk(big: Record)
    requires big.rdata.Unknown? && |big.rdata.data| == 40000
    ensures BulkOf([TinySoa(7, 0), big, big, TinySoa(7, 0)]) == 80000
  {
    var soa := TinySoa(7, 0);
    var rs := [soa, big, big, soa];
    assert rs[1..] == [big, big, soa] && rs[2..] == [big, soa];
    assert BulkOf(rs[2..]) == 40000 + BulkOf([soa]) by { assert rs[2..][1..] == [soa]; }
    assert BulkOf([soa]) == 0 by { assert [soa][1..] == []; }
    assert BulkOf(rs[1..]) == 40000 + BulkOf(rs[2..]) by { assert rs[1..][1..] == rs[2..]; }
  }

  lemma ReplyRecords(q: Message, rs: seq<Record>)
    ensures Records(Reply(q, rs)) == rs && ArCount(Reply(q, rs)) + 1 < 65536
  {
  }
}
