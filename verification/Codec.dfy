/**
 * The codec theorem: what the parser makes of an encoded message, for every well-formed message.
 */
module Codec {
  import opened Bytes
  import opened Names
  import opened Messages

  // ------------------------------------------------------- well-formedness

  /** Every field fits its wire width and the parser would give the variant back. */
  predicate WfRData(rd: RData) {
    match rd
    case A(ip) => |ip| == 4
    case Aaaa(ip) => |ip| == 16
    case Ns(n) => ValidName(n)
    case Cname(n) => ValidName(n)
    case Ptr(n) => ValidName(n)
    case SoaData(s) =>
      ValidName(s.mname) && ValidName(s.rname) && s.serial < U32 && s.refresh < U32 && s.retry < U32 &&
      s.expire < U32 && s.minimum < U32
    case Mx(preference, exchange) => preference < 65536 && ValidName(exchange)
    case Txt(strings) =>
      strings != [] && |TxtWire(strings)| < 65536 && forall i :: 0 <= i < |strings| ==> |strings[i]| < 256
    case Srv(priority, weight, port, target) =>
      priority < 65536 && weight < 65536 && port < 65536 && ValidName(target)
    case Unknown(t, data) =>
      t < 65536 && t != TYPE_OPT && t != TYPE_TSIG && |data| < 65536 && (TypedCode(t) ==> data == [])
  }

  predicate WfRecord(r: Record) {
    ValidName(r.name) && r.class_ < 65536 && r.ttl < U32 && WfRData(r.rdata)
  }

  predicate WfRecords(rs: seq<Record>) { forall i :: 0 <= i < |rs| ==> WfRecord(rs[i]) }

  predicate WfQuestion(q: Question) { ValidName(q.qname) && q.qtype < 65536 && q.qclass < 65536 }

  predicate WfEdns(e: Edns) {
    e.udpPayload < 65536 && e.extRcode < 256 && e.version < 256 && |e.options| < 65536
  }

  predicate WfMessage(m: Message) {
    && m.id < 65536 && WfFlags(m.flags)
    && |m.questions| < 65536 && |m.answers| < 65536 && |m.authorities| < 65536 && ArCount(m) < 65536
    && (forall i :: 0 <= i < |m.questions| ==> WfQuestion(m.questions[i]))
    && WfRecords(m.answers) && WfRecords(m.authorities) && WfRecords(m.additionals)
    && (m.edns.Some? ==> WfEdns(m.edns.value))
  }

  // ------------------------------------------------- the jump-limit condition

  /** The name to be written next stays within the decoder's jump limit. */
  predicate Near(out: Bytes, t: Table, n: DnsName) { JumpsNeeded(out, t, n) <= MAX_POINTER_JUMPS }

  predicate RDataNear(out: Bytes, t: Table, rd: RData) {
    match rd
    case Ns(n) => Near(out, t, n)
    case Cname(n) => Near(out, t, n)
    case Ptr(n) => Near(out, t, n)
    case SoaData(s) =>
      var e := NameWire(|out|, t, s.mname);
      Near(out, t, s.mname) && Near(out + e.bytes, e.table, s.rname)
    case Mx(preference, exchange) => Near(out + Be16(preference), t, exchange)
    case _ => true
  }

  /** What precedes the rdata of a record, length field included. */
  function RecordHead(out: Bytes, t: Table, r: Record): Enc {
    var e := NameWire(|out|, t, r.name);
    var rd := RDataWire(|out| + |e.bytes| + 10, e.table, r.rdata);
    Enc(out + e.bytes + Fixed(RType(r.rdata), r.class_, r.ttl) + Be16(|rd.bytes|), e.table)
  }

  predicate RecordNear(out: Bytes, t: Table, r: Record) {
    var h := RecordHead(out, t, r);
    Near(out, t, r.name) && RDataNear(h.out, h.table, r.rdata)
  }

  predicate QuestionsNear(st: Enc, qs: seq<Question>)
    decreases |qs|
  {
    qs == [] ||
    (Near(st.out, st.table, qs[0].qname) &&
     QuestionsNear(Put(st, QuestionWire(|st.out|, st.table, qs[0])), qs[1..]))
  }

  predicate RecordsNear(st: Enc, rs: seq<Record>)
    decreases |rs|
  {
    rs == [] ||
    (RecordNear(st.out, st.table, rs[0]) &&
     RecordsNear(Put(st, RecordWire(|st.out|, st.table, rs[0])), rs[1..]))
  }

  predicate ShallowFrom(hdr: Bytes, m: Message) {
    QuestionsNear(Enc(hdr, map[]), m.questions) &&
    RecordsNear(PutQuestions(Enc(hdr, map[]), m.questions), Records(m))
  }

  /** No name of the message sits behind more pointers than the decoder follows. */
  predicate Shallow(m: Message) { ShallowFrom(HeaderWith(m, ArCount(m)), m) }

  // ---------------------------------------------------------------- names

  function Unless<T>(near: bool, v: T, pos: nat): Read<T> {
    if near then Got(v, pos) else Fail(CompressionLoop)
  }

  lemma NameNext(out: Bytes, t: Table, n: DnsName, buf: Bytes)
    requires TableOk(out, t) && ValidName(n)
    requires out + NameWire(|out|, t, n).bytes <= buf
    ensures var e := NameWire(|out|, t, n);
      && TableOk(out + e.bytes, e.table)
      && Decode(buf, |out|) == Unless(Near(out, t, n), n, |out| + |e.bytes|)
  {
    hide NameWire, JumpsNeeded, TableOkBut;
    NameWireOk(out, t, n);
    var all := out + NameWire(|out|, t, n).bytes;
    NameAtAppend(all, buf, |out|, n);
    ReadNameAt(buf, |out|, n, 0, 1);
  }

  lemma {:induction false} NameWireSize(base: nat, t: Table, n: DnsName)
    ensures 1 <= |NameWire(base, t, n).bytes| <= WireLen(n) + 1
    decreases |n|
  {
    if n != [] && n !in t {
      NameWireSize(base + 1 + |n[0]|, if base <= 0x3FFF then t[n := base] else t, n[1..]);
    }
  }

  lemma PrefixOccurs(out: Bytes, s: Bytes, buf: Bytes)
    requires out + s <= buf
    ensures Occurs(buf, |out|, s) && out <= buf
  {
    assert buf[..|out + s|] == out + s;
    assert buf[|out|..|out| + |s|] == (out + s)[|out|..];
  }

  lemma Peel(out: Bytes, a: Bytes, b: Bytes, buf: Bytes)
    requires out + (a + b) <= buf
    ensures out + a <= buf && (out + a) + b <= buf && |out + a| == |out| + |a|
  {
    assert out + (a + b) == (out + a) + b;
    PrefixOccurs(out + a, b, buf);
  }

  lemma TableOkRaw(out: Bytes, t: Table, s: Bytes)
    requires TableOk(out, t)
    ensures TableOk(out + s, t)
  {
    TableOkAppend(out, out + s, t, {});
  }

  // ---------------------------------------------------------------- rdata

  lemma SoaReads(buf: Bytes, p0: nat, p1: nat, p2: nat, s: Soa, near1: bool, near2: bool)
    requires WfRData(SoaData(s)) && Occurs(buf, p2, SoaTail(s))
    requires Decode(buf, p0) == Unless(near1, s.mname, p1)
    requires Decode(buf, p1) == Unless(near2, s.rname, p2)
    ensures ReadSoa(buf, p0) == Unless(near1 && near2, SoaData(s), p2 + 20)
  {
    var a, b, c, d, e := Be32(s.serial), Be32(s.refresh), Be32(s.retry), Be32(s.expire), Be32(s.minimum);
    OccursSplit(buf, p2, a + b + c + d, e);
    OccursSplit(buf, p2, a + b + c, d);
    OccursSplit(buf, p2, a + b, c);
    OccursSplit(buf, p2, a, b);
    ReadU32Of(buf, p2, s.serial);
    ReadU32Of(buf, p2 + 4, s.refresh);
    ReadU32Of(buf, p2 + 8, s.retry);
    ReadU32Of(buf, p2 + 12, s.expire);
    ReadU32Of(buf, p2 + 16, s.minimum);
  }

  lemma SoaNext(out: Bytes, t: Table, s: Soa, buf: Bytes)
    requires TableOk(out, t) && WfRData(SoaData(s))
    requires out + RDataWire(|out|, t, SoaData(s)).bytes <= buf
    ensures var e := RDataWire(|out|, t, SoaData(s));
      && TableOk(out + e.bytes, e.table)
      && ReadSoa(buf, |out|) == Unless(RDataNear(out, t, SoaData(s)), SoaData(s), |out| + |e.bytes|)
  {
    hide NameWire, ReadSoa, Decode, TableOkBut, Near;
    var e1 := NameWire(|out|, t, s.mname);
    var out1 := out + e1.bytes;
    var e2 := NameWire(|out1|, e1.table, s.rname);
    var out2 := out1 + e2.bytes;
    assert out + (e1.bytes + e2.bytes + SoaTail(s)) == out2 + SoaTail(s);
    PrefixOccurs(out2, SoaTail(s), buf);
    PrefixOccurs(out1, e2.bytes, buf);
    NameNext(out, t, s.mname, buf);
    NameNext(out1, e1.table, s.rname, buf);
    TableOkRaw(out2, e2.table, SoaTail(s));
    SoaReads(buf, |out|, |out1|, |out2|, s, Near(out, t, s.mname), Near(out1, e1.table, s.rname));
  }

  lemma MxNext(out: Bytes, t: Table, rd: RData, buf: Bytes)
    requires TableOk(out, t) && rd.Mx? && WfRData(rd)
    requires out + RDataWire(|out|, t, rd).bytes <= buf
    ensures var e := RDataWire(|out|, t, rd);
      && TableOk(out + e.bytes, e.table)
      && ReadMx(buf, |out|) == Unless(RDataNear(out, t, rd), rd, |out| + |e.bytes|)
  {
    hide NameWire, Decode, TableOkBut, Near;
    var out1 := out + Be16(rd.preference);
    var e := NameWire(|out1|, t, rd.exchange);
    Peel(out, Be16(rd.preference), e.bytes, buf);
    PrefixOccurs(out, Be16(rd.preference), buf);
    ReadU16Of(buf, |out|, rd.preference);
    TableOkRaw(out, t, Be16(rd.preference));
    NameNext(out1, t, rd.exchange, buf);
    assert out + (Be16(rd.preference) + e.bytes) == out1 + e.bytes;
  }

  lemma SrvRead(buf: Bytes, p: nat, rd: RData)
    requires rd.Srv? && WfRData(rd)
    requires Occurs(buf, p, SrvHead(rd.priority, rd.weight, rd.port) + PlainWire(rd.target))
    ensures ReadSrv(buf, p) == Got(rd, p + 6 + |PlainWire(rd.target)|)
  {
    var a, b, c := Be16(rd.priority), Be16(rd.weight), Be16(rd.port);
    OccursSplit(buf, p, a + b + c, PlainWire(rd.target));
    OccursSplit(buf, p, a + b, c);
    OccursSplit(buf, p, a, b);
    ReadU16Of(buf, p, rd.priority);
    ReadU16Of(buf, p + 2, rd.weight);
    ReadU16Of(buf, p + 4, rd.port);
    PlainRoundTrip(buf, p + 6, rd.target);
  }

  lemma StringAt(buf: Bytes, p: nat, s: Bytes, rest: Bytes)
    requires |s| < 256 && Occurs(buf, p, LabelWire(s) + rest)
    ensures p < |buf| && buf[p] as nat == |s| && buf[p + 1..p + 1 + |s|] == s && Occurs(buf, p + 1 + |s|, rest)
  {
    OccursSplit(buf, p, LabelWire(s), rest);
    OccursSplit(buf, p, [(|s| % 256) as Byte], s);
    assert buf[p] == buf[p..p + 1][0];
  }

  lemma {:induction false} TxtRead(buf: Bytes, p: nat, strings: seq<Bytes>, got: seq<Bytes>)
    requires Occurs(buf, p, TxtWire(strings))
    requires forall i :: 0 <= i < |strings| ==> |strings[i]| < 256
    ensures var end := p + |TxtWire(strings)|;
      end <= |buf| && ReadTxt(buf, p, end, got) == Got(Txt(got + strings), end)
    decreases |strings|
  {
    if strings == [] {
      assert got + [] == got;
    } else {
      var s := strings[0];
      StringAt(buf, p, s, TxtWire(strings[1..]));
      TxtRead(buf, p + 1 + |s|, strings[1..], got + [s]);
      assert got + [s] + strings[1..] == got + strings;
    }
  }

  lemma TxtWireNonEmpty(strings: seq<Bytes>)
    requires strings != []
    ensures |TxtWire(strings)| > 0
  {
  }

  lemma TxtNext(buf: Bytes, p: nat, strings: seq<Bytes>)
    requires strings != [] && Occurs(buf, p, TxtWire(strings))
    requires forall i :: 0 <= i < |strings| ==> |strings[i]| < 256
    ensures ReadRData(TYPE_TXT, buf, p, |TxtWire(strings)|) == Got(Txt(strings), p + |TxtWire(strings)|)
  {
    hide ReadTxt, ReadSrv, ReadSoa, ReadMx, ReadIp, MapName, TxtWire;
    TxtRead(buf, p, strings, []);
    TxtWireNonEmpty(strings);
    assert [] + strings == strings;
  }

  /** Types whose encoding neither reads nor changes the table. */
  lemma FlatNext(out: Bytes, t: Table, rd: RData, buf: Bytes)
    requires WfRData(rd) && (rd.A? || rd.Aaaa? || rd.Txt? || rd.Srv? || rd.Unknown?)
    requires out + RDataWire(|out|, t, rd).bytes <= buf
    ensures var n := |RDataWire(|out|, t, rd).bytes|;
      n < 65536 && ReadRData(RType(rd), buf, |out|, n) == Got(rd, |out| + n)
  {
    hide ReadTxt, ReadSrv, ReadSoa, ReadMx, MapName, PlainWire, TxtWire;
    PrefixOccurs(out, RDataWire(|out|, t, rd).bytes, buf);
    if rd.Txt? {
      TxtNext(buf, |out|, rd.strings);
    } else if rd.Srv? {
      SrvRead(buf, |out|, rd);
      PlainWireLen(rd.target);
    }
  }

  lemma NamedNext(out: Bytes, t: Table, rd: RData, buf: Bytes)
    requires TableOk(out, t) && WfRData(rd) && (rd.Ns? || rd.Cname? || rd.Ptr?)
    requires out + RDataWire(|out|, t, rd).bytes <= buf
    ensures var e := RDataWire(|out|, t, rd);
      && |e.bytes| < 65536
      && TableOk(out + e.bytes, e.table)
      && ReadRData(RType(rd), buf, |out|, |e.bytes|) == Unless(RDataNear(out, t, rd), rd, |out| + |e.bytes|)
  {
    hide NameWire, Decode, TableOkBut, Near;
    var n := if rd.Ns? then rd.host else if rd.Cname? then rd.alias else rd.ptr;
    NameNext(out, t, n, buf);
    NameWireSize(|out|, t, n);
  }

  lemma RDataNext(out: Bytes, t: Table, rd: RData, buf: Bytes)
    requires TableOk(out, t) && WfRData(rd)
    requires out + RDataWire(|out|, t, rd).bytes <= buf
    ensures var e := RDataWire(|out|, t, rd);
      && |e.bytes| < 65536
      && TableOk(out + e.bytes, e.table)
      && ReadRData(RType(rd), buf, |out|, |e.bytes|) == Unless(RDataNear(out, t, rd), rd, |out| + |e.bytes|)
  {
    hide NameWire, Decode, TableOkBut, Near, ReadMx, ReadSoa;
    var e := RDataWire(|out|, t, rd);
    match rd {
      case SoaData(s) =>
        SoaNext(out, t, s, buf);
        var e1 := NameWire(|out|, t, s.mname);
        NameWireSize(|out|, t, s.mname);
        NameWireSize(|out| + |e1.bytes|, e1.table, s.rname);
      case Mx(_, exchange) =>
        MxNext(out, t, rd, buf);
        NameWireSize(|out| + 2, t, exchange);
      case Ns(_) => NamedNext(out, t, rd, buf);
      case Cname(_) => NamedNext(out, t, rd, buf);
      case Ptr(_) => NamedNext(out, t, rd, buf);
      case _ =>
        FlatNext(out, t, rd, buf);
        TableOkRaw(out, t, e.bytes);
    }
  }

  // -------------------------------------------------- records and sections

  lemma FixedRead(buf: Bytes, p: nat, rtype: nat, class_: nat, ttl: nat, rdlen: nat)
    requires rtype < 65536 && class_ < 65536 && ttl < U32 && rdlen < 65536
    requires Occurs(buf, p, Fixed(rtype, class_, ttl) + Be16(rdlen))
    ensures ReadFixed(buf, p) == Got(FixedPart(rtype, class_, ttl, rdlen), p + 10)
  {
    OccursSplit(buf, p, Fixed(rtype, class_, ttl), Be16(rdlen));
    OccursSplit(buf, p, Be16(rtype) + Be16(class_), Be32(ttl));
    OccursSplit(buf, p, Be16(rtype), Be16(class_));
    ReadU16Of(buf, p, rtype);
    ReadU16Of(buf, p + 2, class_);
    ReadU32Of(buf, p + 4, ttl);
    ReadU16Of(buf, p + 8, rdlen);
  }

  lemma RecordReads(buf: Bytes, p0: nat, p1: nat, r: Record, rdlen: nat, near1: bool, near2: bool)
    requires WfRecord(r) && rdlen < 65536
    requires Decode(buf, p0) == Unless(near1, r.name, p1)
    requires Occurs(buf, p1, Fixed(RType(r.rdata), r.class_, r.ttl) + Be16(rdlen))
    requires ReadRData(RType(r.rdata), buf, p1 + 10, rdlen) == Unless(near2, r.rdata, p1 + 10 + rdlen)
    ensures ReadEntry(buf, p0) == Unless(near1 && near2, Rr(r), p1 + 10 + rdlen)
  {
    WfType(r.rdata);
    FixedRead(buf, p1, RType(r.rdata), r.class_, r.ttl, rdlen);
  }

  /** Where the parts of an encoded record lie. */
  lemma RecordParts(out: Bytes, t: Table, r: Record, buf: Bytes)
    requires out + RecordWire(|out|, t, r).bytes <= buf
    ensures var e := NameWire(|out|, t, r.name);
      var h := RecordHead(out, t, r);
      var rd := RDataWire(|h.out|, h.table, r.rdata);
      && out + e.bytes <= buf
      && h.out + rd.bytes <= buf
      && h.table == e.table && |h.out| == |out| + |e.bytes| + 10
      && out + RecordWire(|out|, t, r).bytes == h.out + rd.bytes
      && RecordWire(|out|, t, r).table == rd.table
      && Occurs(buf, |out| + |e.bytes|, Fixed(RType(r.rdata), r.class_, r.ttl) + Be16(|rd.bytes|))
  {
    var e := NameWire(|out|, t, r.name);
    var rd := RDataWire(|out| + |e.bytes| + 10, e.table, r.rdata);
    var mid := Fixed(RType(r.rdata), r.class_, r.ttl) + Be16(|rd.bytes|);
    var h := out + e.bytes + mid;
    assert h == RecordHead(out, t, r).out;
    assert out + RecordWire(|out|, t, r).bytes == h + rd.bytes;
    PrefixOccurs(h, rd.bytes, buf);
    PrefixOccurs(out + e.bytes, mid, buf);
  }

  lemma RecordHeadOk(out: Bytes, t: Table, r: Record)
    requires TableOk(out, t) && ValidName(r.name)
    ensures TableOk(RecordHead(out, t, r).out, RecordHead(out, t, r).table)
  {
    var e := NameWire(|out|, t, r.name);
    NameWireOk(out, t, r.name);
    TableOkAppend(out + e.bytes, RecordHead(out, t, r).out, e.table, {});
  }

  /** One record: the parser returns it, or stops at the first name behind too many pointers. */
  lemma RecordNext(out: Bytes, t: Table, r: Record, buf: Bytes)
    requires TableOk(out, t) && WfRecord(r)
    requires out + RecordWire(|out|, t, r).bytes <= buf
    ensures var e := RecordWire(|out|, t, r);
      && TableOk(out + e.bytes, e.table)
      && ReadEntry(buf, |out|) == Unless(RecordNear(out, t, r), Rr(r), |out| + |e.bytes|)
  {
    hide NameWire, RDataWire, ReadEntry, Decode, ReadRData, TableOkBut, Near, RDataNear;
    RecordParts(out, t, r, buf);
    RecordHeadOk(out, t, r);
    var h := RecordHead(out, t, r);
    NameNext(out, t, r.name, buf);
    RDataNext(h.out, h.table, r.rdata, buf);
    var rdlen := |RDataWire(|h.out|, h.table, r.rdata).bytes|;
    RecordReads(buf, |out|, |h.out| - 10, r, rdlen, Near(out, t, r.name), RDataNear(h.out, h.table, r.rdata));
  }

  lemma WfType(rd: RData)
    requires WfRData(rd)
    ensures RType(rd) < 65536 && RType(rd) != TYPE_OPT && RType(rd) != TYPE_TSIG
  {
  }

  lemma QuestionReads(buf: Bytes, p0: nat, p1: nat, q: Question, near: bool)
    requires WfQuestion(q) && Decode(buf, p0) == Unless(near, q.qname, p1)
    requires Occurs(buf, p1, Be16(q.qtype) + Be16(q.qclass))
    ensures ReadQuestion(buf, p0) == Unless(near, q, p1 + 4)
  {
    OccursSplit(buf, p1, Be16(q.qtype), Be16(q.qclass));
    ReadU16Of(buf, p1, q.qtype);
    ReadU16Of(buf, p1 + 2, q.qclass);
  }

  lemma QuestionNext(out: Bytes, t: Table, q: Question, buf: Bytes)
    requires TableOk(out, t) && WfQuestion(q)
    requires out + QuestionWire(|out|, t, q).bytes <= buf
    ensures var e := QuestionWire(|out|, t, q);
      && TableOk(out + e.bytes, e.table)
      && ReadQuestion(buf, |out|) == Unless(Near(out, t, q.qname), q, |out| + |e.bytes|)
  {
    var e := NameWire(|out|, t, q.qname);
    var out1 := out + e.bytes;
    var tail := Be16(q.qtype) + Be16(q.qclass);
    assert out + QuestionWire(|out|, t, q).bytes == out1 + tail;
    PrefixOccurs(out1, tail, buf);
    NameNext(out, t, q.qname, buf);
    TableOkRaw(out1, e.table, tail);
    QuestionReads(buf, |out|, |out1|, q, Near(out, t, q.qname));
  }

  lemma {:induction false} PutQuestionsGrows(st: Enc, qs: seq<Question>)
    ensures st.out <= PutQuestions(st, qs).out
    decreases |qs|
  {
    if qs != [] {
      PutQuestionsGrows(Put(st, QuestionWire(|st.out|, st.table, qs[0])), qs[1..]);
    }
  }

  lemma {:induction false} PutRecordsGrows(st: Enc, rs: seq<Record>)
    ensures st.out <= PutRecords(st, rs).out
    decreases |rs|
  {
    if rs != [] {
      PutRecordsGrows(Put(st, RecordWire(|st.out|, st.table, rs[0])), rs[1..]);
    }
  }

  lemma {:induction false} QuestionsNext(st: Enc, qs: seq<Question>, buf: Bytes, got: seq<Question>)
    requires TableOk(st.out, st.table) && forall i :: 0 <= i < |qs| ==> WfQuestion(qs[i])
    requires PutQuestions(st, qs).out <= buf
    ensures var st' := PutQuestions(st, qs);
      && TableOk(st'.out, st'.table)
      && ReadQuestions(buf, |st.out|, |qs|, got) == Unless(QuestionsNear(st, qs), got + qs, |st'.out|)
    decreases |qs|
  {
    hide ReadQuestion, QuestionWire, Near, TableOkBut;
    if qs == [] {
      assert got + [] == got;
    } else {
      var st1 := Put(st, QuestionWire(|st.out|, st.table, qs[0]));
      PutQuestionsGrows(st1, qs[1..]);
      QuestionNext(st.out, st.table, qs[0], buf);
      QuestionsNext(st1, qs[1..], buf, got + [qs[0]]);
      assert got + [qs[0]] + qs[1..] == got + qs;
    }
  }

  lemma {:induction false} SectionNext(st: Enc, rs: seq<Record>, buf: Bytes, got: seq<Record>)
    requires TableOk(st.out, st.table) && WfRecords(rs)
    requires PutRecords(st, rs).out <= buf
    ensures var st' := PutRecords(st, rs);
      && TableOk(st'.out, st'.table)
      && ReadSection(buf, |st.out|, |rs|, got) == Unless(RecordsNear(st, rs), got + rs, |st'.out|)
    decreases |rs|
  {
    hide ReadEntry, RecordWire, RecordNear, TableOkBut;
    if rs == [] {
      assert got + [] == got;
    } else {
      var st1 := Put(st, RecordWire(|st.out|, st.table, rs[0]));
      PutRecordsGrows(st1, rs[1..]);
      RecordNext(st.out, st.table, rs[0], buf);
      SectionNext(st1, rs[1..], buf, got + [rs[0]]);
      assert got + [rs[0]] + rs[1..] == got + rs;
    }
  }

  /** The records of the additional section, with `more` entries still to come after them. */
  lemma {:induction false} ExtraNext(st: Enc, rs: seq<Record>, buf: Bytes, got: seq<Record>, more: nat)
    requires TableOk(st.out, st.table) && WfRecords(rs)
    requires PutRecords(st, rs).out <= buf
    ensures var st' := PutRecords(st, rs);
      ReadExtra(buf, |st.out|, |rs| + more, Extra(got, None, None, None)) ==
      if RecordsNear(st, rs) then ReadExtra(buf, |st'.out|, more, Extra(got + rs, None, None, None))
      else Fail(CompressionLoop)
    decreases |rs|
  {
    hide ReadEntry, RecordWire, RecordNear, TableOkBut;
    if rs == [] {
      assert got + [] == got;
    } else {
      var st1 := Put(st, RecordWire(|st.out|, st.table, rs[0]));
      PutRecordsGrows(st1, rs[1..]);
      RecordNext(st.out, st.table, rs[0], buf);
      ExtraNext(st1, rs[1..], buf, got + [rs[0]], more);
      assert got + [rs[0]] + rs[1..] == got + rs;
    }
  }

  lemma {:induction false} PutRecordsJoin(st: Enc, a: seq<Record>, b: seq<Record>)
    ensures PutRecords(st, a + b) == PutRecords(PutRecords(st, a), b)
    ensures RecordsNear(st, a + b) <==> RecordsNear(st, a) && RecordsNear(PutRecords(st, a), b)
    decreases |a|
  {
    if a == [] {
      assert a + b == b;
    } else {
      var st1 := Put(st, RecordWire(|st.out|, st.table, a[0]));
      assert (a + b)[0] == a[0] && (a + b)[1..] == a[1..] + b;
      PutRecordsJoin(st1, a[1..], b);
    }
  }

  lemma OptReads(buf: Bytes, p: nat, f: FixedPart)
    requires Decode(buf, p) == Got([], p + 1) && ReadFixed(buf, p + 1) == Got(f, p + 11)
    requires f.rtype == TYPE_OPT && p + 11 + f.rdlen <= |buf|
    ensures ReadEntry(buf, p) ==
      Got(Opt(Edns(f.class_, f.ttl / 16777216, f.ttl / 65536 % 256, f.ttl / 32768 % 2 == 1,
                   buf[p + 11..p + 11 + f.rdlen])), p + 11 + f.rdlen)
  {
    hide Decode, ReadFixed, ReadTsig, ReadRData;
  }

  lemma EdnsRead(buf: Bytes, p: nat, e: Edns)
    requires WfEdns(e) && Occurs(buf, p, EdnsWire(e))
    ensures ReadEntry(buf, p) == Got(Opt(e), p + |EdnsWire(e)|)
  {
    hide ReadEntry, Decode, ReadFixed, EdnsTtl, Fixed;
    var mid := Fixed(TYPE_OPT, e.udpPayload, EdnsTtl(e)) + Be16(|e.options|);
    assert EdnsWire(e) == [0] + (mid + e.options);
    OccursSplit(buf, p, [0], mid + e.options);
    OccursSplit(buf, p + 1, mid, e.options);
    assert PlainWire([]) == [0];
    PlainRoundTrip(buf, p, []);
    EdnsTtlParts(e);
    FixedRead(buf, p + 1, TYPE_OPT, e.udpPayload, EdnsTtl(e), |e.options|);
    OptReads(buf, p, FixedPart(TYPE_OPT, e.udpPayload, EdnsTtl(e), |e.options|));
  }

  lemma EdnsTtlParts(e: Edns)
    requires WfEdns(e)
    ensures var t := EdnsTtl(e);
      t < U32 && t / 16777216 == e.extRcode && t / 65536 % 256 == e.version && (t / 32768 % 2 == 1) == e.doBit
  {
    var t := EdnsTtl(e);
    assert t / 65536 == e.extRcode * 256 + e.version;
    assert t / 32768 == (e.extRcode * 256 + e.version) * 2 + Bit(e.doBit, 1);
  }

  lemma HeaderReadAny(buf: Bytes, id: nat, w: nat, qd: nat, an: nat, ns: nat, ar: nat)
    requires id < 65536 && w < 65536 && qd < 65536 && an < 65536 && ns < 65536 && ar < 65536
    requires Occurs(buf, 0, Be16(id) + Be16(w) + Be16(qd) + Be16(an) + Be16(ns) + Be16(ar))
    ensures ReadHeader(buf) == Got(HeaderPart(id, FlagsOf(buf, 2), qd, an, ns, ar), 12)
    ensures Occurs(buf, 2, Be16(w))
  {
    OccursSplit(buf, 0, Be16(id) + Be16(w) + Be16(qd) + Be16(an) + Be16(ns), Be16(ar));
    OccursSplit(buf, 0, Be16(id) + Be16(w) + Be16(qd) + Be16(an), Be16(ns));
    OccursSplit(buf, 0, Be16(id) + Be16(w) + Be16(qd), Be16(an));
    OccursSplit(buf, 0, Be16(id) + Be16(w), Be16(qd));
    OccursSplit(buf, 0, Be16(id), Be16(w));
    ReadU16Of(buf, 0, id);
    ReadU16Of(buf, 2, w);
    ReadU16Of(buf, 4, qd);
    ReadU16Of(buf, 6, an);
    ReadU16Of(buf, 8, ns);
    ReadU16Of(buf, 10, ar);
  }

  lemma HeaderRead(m: Message, ar: nat, buf: Bytes)
    requires WfMessage(m) && ar < 65536 && Occurs(buf, 0, HeaderWith(m, ar))
    ensures ReadHeader(buf) == Got(HeaderPart(m.id, m.flags, |m.questions|, |m.answers|, |m.authorities|, ar), 12)
  {
    hide FlagsWord, FlagsOf, Be16, ReadHeader;
    FlagsFit(m.flags);
    HeaderReadAny(buf, m.id, FlagsWord(m.flags), |m.questions|, |m.answers|, |m.authorities|, ar);
    FlagsRoundTrip(m.flags, buf, 2);
  }

  // ------------------------------------------------------------ the theorem

  /** The OPT record, if any, with `more` entries still to come. */
  lemma EdnsNext(m: Message, buf: Bytes, pos: nat, more: nat)
    requires m.edns.Some? ==> WfEdns(m.edns.value)
    requires Occurs(buf, pos, EdnsTail(m))
    ensures ReadExtra(buf, pos, Bit(m.edns.Some?, 1) + more, Extra(m.additionals, None, None, None)) ==
            ReadExtra(buf, pos + |EdnsTail(m)|, more, Extra(m.additionals, m.edns, None, None))
  {
    hide ReadEntry, EdnsWire;
    if m.edns.Some? {
      EdnsRead(buf, pos, m.edns.value);
    }
  }

  /** States after the questions and after each record section, and what they are made of. */
  lemma SectionStates(hdr: Bytes, m: Message, buf: Bytes)
    requires EncodeFrom(hdr, m) <= buf
    ensures var s0 := Enc(hdr, map[]);
      var s1 := PutQuestions(s0, m.questions);
      var s2 := PutRecords(s1, m.answers);
      var s3 := PutRecords(s2, m.authorities);
      var s4 := PutRecords(s3, m.additionals);
      && hdr <= s1.out <= buf && s2.out <= buf && s3.out <= buf && s4.out <= buf
      && s4 == BodyFrom(hdr, m)
      && Occurs(buf, |s4.out|, EdnsTail(m))
      && (ShallowFrom(hdr, m) <==>
          QuestionsNear(s0, m.questions) && RecordsNear(s1, m.answers) && RecordsNear(s2, m.authorities) &&
          RecordsNear(s3, m.additionals))
  {
    hide PutRecords, PutQuestions, RecordsNear, QuestionsNear, EdnsTail;
    var s1 := PutQuestions(Enc(hdr, map[]), m.questions);
    var s2 := PutRecords(s1, m.answers);
    var s3 := PutRecords(s2, m.authorities);
    PutRecordsJoin(s1, m.answers + m.authorities, m.additionals);
    PutRecordsJoin(s1, m.answers, m.authorities);
    PutQuestionsGrows(Enc(hdr, map[]), m.questions);
    PutRecordsGrows(s1, m.answers);
    PutRecordsGrows(s2, m.authorities);
    PutRecordsGrows(s3, m.additionals);
    PrefixOccurs(BodyFrom(hdr, m).out, EdnsTail(m), buf);
  }

  lemma TableOkEmpty(out: Bytes)
    ensures TableOk(out, map[])
  {
  }

  function WithExtra(m: Message, x: Extra): Message {
    m.(additionals := x.records, edns := x.edns, tsig := x.tsig, tsigStart := x.tsigStart)
  }

  /**
   * Parsing an encoded message that is followed by `more` further additional entries: everything
   * is given back and those entries are read where the encoding ends, or the parser stops with
   * `CompressionLoop` because some name is behind too many pointers.
   */
  lemma ParseEncoded(m: Message, more: nat, buf: Bytes)
    requires WfMessage(m) && ArCount(m) + more < 65536
    requires EncodeFrom(HeaderWith(m, ArCount(m) + more), m) <= buf
    ensures var hdr := HeaderWith(m, ArCount(m) + more);
      Parse(buf) ==
      if !ShallowFrom(hdr, m) then Fail(CompressionLoop)
      else match ReadExtra(buf, |EncodeFrom(hdr, m)|, more, Extra(m.additionals, m.edns, None, None)) {
        case Fail(e) => Fail(e)
        case Got(x, p) => Got(WithExtra(m, x), p)
      }
  {
    hide HeaderWith, ReadQuestions, ReadSection, ReadExtra, PutRecords, PutQuestions, RecordsNear, QuestionsNear,
      TableOkBut, WfRecords, WfFlags, EdnsTail, ReadHeader, ShallowFrom, BodyFrom;
    var hdr := HeaderWith(m, ArCount(m) + more);
    SectionStates(hdr, m, buf);
    PrefixOccurs([], hdr, buf);
    HeaderRead(m, ArCount(m) + more, buf);
    var s0 := Enc(hdr, map[]);
    var s1 := PutQuestions(s0, m.questions);
    var s2 := PutRecords(s1, m.answers);
    var s3 := PutRecords(s2, m.authorities);
    TableOkEmpty(hdr);
    QuestionsNext(s0, m.questions, buf, []);
    SectionNext(s1, m.answers, buf, []);
    SectionNext(s2, m.authorities, buf, []);
    ExtraNext(s3, m.additionals, buf, [], Bit(m.edns.Some?, 1) + more);
    EdnsNext(m, buf, |BodyFrom(hdr, m).out|, more);
    assert [] + m.questions == m.questions && [] + m.answers == m.answers;
    assert [] + m.authorities == m.authorities && [] + m.additionals == m.additionals;
  }

  /**
   * The codec theorem. Parsing the encoding of a well-formed message gives the message back,
   * unless one of its names needs more pointer jumps than the decoder allows; then it is refused.
   */
  lemma ParseEncode(m: Message)
    requires WfMessage(m)
    ensures Parse(Encode(m)) ==
      if Shallow(m) then Got(m.(tsig := None, tsigStart := None), |Encode(m)|) else Fail(CompressionLoop)
  {
    hide Parse, EncodeFrom, HeaderWith, ShallowFrom;
    ParseEncoded(m, 0, Encode(m));
  }
}
