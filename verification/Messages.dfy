/**
 * DNS messages: the record model, the compressing encoder and the parser
 * (RFC 1035 with the EDNS0 pseudo-record of RFC 6891 and the TSIG record of RFC 8945).
 */
module Messages {
  import opened Bytes
  import opened Names

  const TYPE_A: nat := 1
  const TYPE_NS: nat := 2
  const TYPE_CNAME: nat := 5
  const TYPE_SOA: nat := 6
  const TYPE_PTR: nat := 12
  const TYPE_MX: nat := 15
  const TYPE_TXT: nat := 16
  const TYPE_AAAA: nat := 28
  const TYPE_SRV: nat := 33
  const TYPE_OPT: nat := 41
  const TYPE_DS: nat := 43
  const TYPE_RRSIG: nat := 46
  const TYPE_NSEC: nat := 47
  const TYPE_DNSKEY: nat := 48
  const TYPE_NSEC3: nat := 50
  const TYPE_NSEC3PARAM: nat := 51
  const TYPE_TSIG: nat := 250
  const TYPE_ANY: nat := 255
  const CLASS_IN: nat := 1
  const CLASS_NONE: nat := 254
  const CLASS_ANY: nat := 255
  const U32: nat := 4294967296

  datatype Flags = Flags(qr: bool, opcode: nat, aa: bool, tc: bool, rd: bool, ra: bool, ad: bool, cd: bool, rcode: nat)

  datatype Question = Question(qname: DnsName, qtype: nat, qclass: nat)

  datatype Soa = Soa(mname: DnsName, rname: DnsName, serial: nat, refresh: nat, retry: nat, expire: nat, minimum: nat)

  datatype RData =
    | A(ip4: Bytes)
    | Aaaa(ip6: Bytes)
    | Ns(host: DnsName)
    | Cname(alias: DnsName)
    | Ptr(ptr: DnsName)
    | SoaData(soa: Soa)
    | Mx(preference: nat, exchange: DnsName)
    | Txt(strings: seq<Bytes>)
    | Srv(priority: nat, weight: nat, port: nat, target: DnsName)
    | Unknown(utype: nat, data: Bytes)

  datatype Record = Record(name: DnsName, class_: nat, ttl: nat, rdata: RData)

  datatype Edns = Edns(udpPayload: nat, extRcode: nat, version: nat, doBit: bool, options: Bytes)

  datatype Tsig = Tsig(
    keyName: DnsName, algorithm: DnsName, timeSigned: nat, fudge: nat,
    mac: Bytes, originalId: nat, error: nat, other: Bytes)

  datatype Message = Message(
    id: nat, flags: Flags, questions: seq<Question>, answers: seq<Record>,
    authorities: seq<Record>, additionals: seq<Record>, edns: Option<Edns>,
    tsig: Option<Tsig>, tsigStart: Option<nat>)

  function RType(rd: RData): nat {
    match rd
    case A(_) => TYPE_A
    case Aaaa(_) => TYPE_AAAA
    case Ns(_) => TYPE_NS
    case Cname(_) => TYPE_CNAME
    case Ptr(_) => TYPE_PTR
    case SoaData(_) => TYPE_SOA
    case Mx(_, _) => TYPE_MX
    case Txt(_) => TYPE_TXT
    case Srv(_, _, _, _) => TYPE_SRV
    case Unknown(t, _) => t
  }

  /** Types the parser reads into a structured form when the rdata is not empty. */
  predicate TypedCode(t: nat) {
    t in {TYPE_A, TYPE_AAAA, TYPE_NS, TYPE_CNAME, TYPE_PTR, TYPE_SOA, TYPE_MX, TYPE_TXT, TYPE_SRV}
  }

  // ----------------------------------------------------------------- flags

  function Bit(b: bool, weight: nat): nat { if b then weight else 0 }

  function FlagsHigh(f: Flags): (w: nat)
    ensures w < 256
  {
    Bit(f.qr, 128) + f.opcode % 16 * 8 + Bit(f.aa, 4) + Bit(f.tc, 2) + Bit(f.rd, 1)
  }

  function FlagsLow(f: Flags): (w: nat)
    ensures w < 256
  {
    Bit(f.ra, 128) + Bit(f.ad, 32) + Bit(f.cd, 16) + f.rcode % 16
  }

  /** `Flags::to_u16`; the reserved Z bit is always clear. */
  function FlagsWord(f: Flags): nat { FlagsHigh(f) * 256 + FlagsLow(f) }

  /** `Flags::from_u16` of the two octets at `i`. */
  function FlagsOf(s: Bytes, i: nat): Flags
    requires i + 1 < |s|
  {
    var hi, lo := s[i] as nat, s[i + 1] as nat;
    Flags(hi / 128 % 2 == 1, hi / 8 % 16, hi / 4 % 2 == 1, hi / 2 % 2 == 1, hi % 2 == 1,
          lo / 128 % 2 == 1, lo / 32 % 2 == 1, lo / 16 % 2 == 1, lo % 16)
  }

  predicate WfFlags(f: Flags) { f.opcode < 16 && f.rcode < 16 }

  lemma FlagsRoundTrip(f: Flags, buf: Bytes, pos: nat)
    requires WfFlags(f) && Occurs(buf, pos, Be16(FlagsWord(f)))
    ensures FlagsOf(buf, pos) == f
  {
    hide FlagsHigh, FlagsLow, Be16;
    FlagsOctets(f, buf, pos);
    FlagsHighBits(f);
    FlagsLowBits(f);
  }

  lemma FlagsOctets(f: Flags, buf: Bytes, pos: nat)
    requires Occurs(buf, pos, Be16(FlagsWord(f)))
    ensures buf[pos] as nat == FlagsHigh(f) && buf[pos + 1] as nat == FlagsLow(f)
  {
    hide FlagsHigh, FlagsLow;
    var s := buf[pos..pos + 2];
    assert buf[pos] == s[0] && buf[pos + 1] == s[1];
  }

  lemma FlagsFit(f: Flags)
    ensures FlagsWord(f) < 65536
  {
  }

  lemma FlagsHighBits(f: Flags)
    requires WfFlags(f)
    ensures var hi := FlagsHigh(f);
      (hi / 128 % 2 == 1) == f.qr && hi / 8 % 16 == f.opcode && (hi / 4 % 2 == 1) == f.aa &&
      (hi / 2 % 2 == 1) == f.tc && (hi % 2 == 1) == f.rd
  {
    var hi := FlagsHigh(f);
    var top := Bit(f.qr, 16) + f.opcode;
    assert hi / 8 == top;
    assert hi / 4 == top * 2 + Bit(f.aa, 1);
    assert hi / 2 == top * 4 + Bit(f.aa, 2) + Bit(f.tc, 1);
    assert hi / 128 == Bit(f.qr, 1);
  }

  lemma FlagsLowBits(f: Flags)
    requires WfFlags(f)
    ensures var lo := FlagsLow(f);
      (lo / 128 % 2 == 1) == f.ra && (lo / 32 % 2 == 1) == f.ad && (lo / 16 % 2 == 1) == f.cd && lo % 16 == f.rcode
  {
    var lo := FlagsLow(f);
    assert lo / 16 == Bit(f.ra, 8) + Bit(f.ad, 2) + Bit(f.cd, 1);
    assert lo / 32 == Bit(f.ra, 4) + Bit(f.ad, 1);
    assert lo / 128 == Bit(f.ra, 1);
  }

  // -------------------------------------------------------------- encoding

  /** The encoder: bytes written so far and the suffix table shared by the whole message. */
  datatype Enc = Enc(out: Bytes, table: Table)

  function Put(st: Enc, e: Emitted): Enc { Enc(st.out + e.bytes, e.table) }

  function SoaTail(s: Soa): (r: Bytes)
    ensures |r| == 20
  {
    Be32(s.serial) + Be32(s.refresh) + Be32(s.retry) + Be32(s.expire) + Be32(s.minimum)
  }

  function TxtWire(strings: seq<Bytes>): Bytes {
    if strings == [] then [] else LabelWire(strings[0]) + TxtWire(strings[1..])
  }

  function SrvHead(priority: nat, weight: nat, port: nat): (r: Bytes)
    ensures |r| == 6
  {
    Be16(priority) + Be16(weight) + Be16(port)
  }

  /** `RData::encode`; it looks at how much was written and at the table, never at the bytes. */
  function RDataWire(base: nat, t: Table, rd: RData): Emitted {
    match rd
    case A(ip) => Emitted(ip, t)
    case Aaaa(ip) => Emitted(ip, t)
    case Ns(n) => NameWire(base, t, n)
    case Cname(n) => NameWire(base, t, n)
    case Ptr(n) => NameWire(base, t, n)
    case SoaData(s) =>
      var e1 := NameWire(base, t, s.mname);
      var e2 := NameWire(base + |e1.bytes|, e1.table, s.rname);
      Emitted(e1.bytes + e2.bytes + SoaTail(s), e2.table)
    case Mx(preference, exchange) =>
      var e := NameWire(base + 2, t, exchange);
      Emitted(Be16(preference) + e.bytes, e.table)
    case Txt(strings) => Emitted(TxtWire(strings), t)
    case Srv(priority, weight, port, target) => Emitted(SrvHead(priority, weight, port) + PlainWire(target), t)
    case Unknown(_, data) => Emitted(data, t)
  }

  function Fixed(rtype: nat, class_: nat, ttl: nat): (r: Bytes)
    ensures |r| == 8
  {
    Be16(rtype) + Be16(class_) + Be32(ttl)
  }

  /** Owner name, fixed fields, length and rdata, the length holding the size of the rdata. */
  function RecordWire(base: nat, t: Table, r: Record): Emitted {
    var e := NameWire(base, t, r.name);
    var rd := RDataWire(base + |e.bytes| + 10, e.table, r.rdata);
    Emitted(e.bytes + Fixed(RType(r.rdata), r.class_, r.ttl) + Be16(|rd.bytes|) + rd.bytes, rd.table)
  }

  function QuestionWire(base: nat, t: Table, q: Question): Emitted {
    var e := NameWire(base, t, q.qname);
    Emitted(e.bytes + Be16(q.qtype) + Be16(q.qclass), e.table)
  }

  function PutQuestions(st: Enc, qs: seq<Question>): Enc
    decreases |qs|
  {
    if qs == [] then st else PutQuestions(Put(st, QuestionWire(|st.out|, st.table, qs[0])), qs[1..])
  }

  function PutRecords(st: Enc, rs: seq<Record>): Enc
    decreases |rs|
  {
    if rs == [] then st else PutRecords(Put(st, RecordWire(|st.out|, st.table, rs[0])), rs[1..])
  }

  function EdnsTtl(e: Edns): nat {
    e.extRcode * 16777216 + e.version * 65536 + Bit(e.doBit, 32768)
  }

  function EdnsWire(e: Edns): Bytes {
    [0] + Fixed(TYPE_OPT, e.udpPayload, EdnsTtl(e)) + Be16(|e.options|) + e.options
  }

  function ArCount(m: Message): nat { |m.additionals| + Bit(m.edns.Some?, 1) }

  /** The twelve header octets, with `ar` in the ARCOUNT field. */
  function HeaderWith(m: Message, ar: nat): (r: Bytes)
    ensures |r| == 12
  {
    Be16(m.id) + Be16(FlagsWord(m.flags)) + Be16(|m.questions|) + Be16(|m.answers|) + Be16(|m.authorities|) + Be16(ar)
  }

  function Records(m: Message): seq<Record> { m.answers + m.authorities + m.additionals }

  /** Everything up to the OPT record, written behind the header `hdr`. */
  function BodyFrom(hdr: Bytes, m: Message): Enc {
    PutRecords(PutQuestions(Enc(hdr, map[]), m.questions), Records(m))
  }

  function EdnsTail(m: Message): Bytes { if m.edns.Some? then EdnsWire(m.edns.value) else [] }

  function EncodeFrom(hdr: Bytes, m: Message): Bytes { BodyFrom(hdr, m).out + EdnsTail(m) }

  /** `Message::encode`. */
  function Encode(m: Message): Bytes { EncodeFrom(HeaderWith(m, ArCount(m)), m) }

  // --------------------------------------------------------------- parsing

  datatype FixedPart = FixedPart(rtype: nat, class_: nat, ttl: nat, rdlen: nat)

  function ReadFixed(buf: Bytes, pos: nat): (r: Read<FixedPart>)
    ensures r.Got? ==> r.pos == pos + 10 <= |buf| && r.value.rdlen < 65536
    ensures r.Got? ==> r.value.rtype < 65536 && r.value.class_ < 65536 && r.value.ttl < U32
  {
    var (rtype, p1) :- ReadU16(buf, pos);
    var (class_, p2) :- ReadU16(buf, p1);
    var (ttl, p3) :- ReadU32(buf, p2);
    var (rdlen, p4) :- ReadU16(buf, p3);
    Got(FixedPart(rtype, class_, ttl, rdlen), p4)
  }

  function ReadQuestion(buf: Bytes, pos: nat): (r: Read<Question>)
    ensures r.Got? ==> pos < r.pos <= |buf|
  {
    var (qname, p1) :- Decode(buf, pos);
    var (qtype, p2) :- ReadU16(buf, p1);
    var (qclass, p3) :- ReadU16(buf, p2);
    Got(Question(qname, qtype, qclass), p3)
  }

  function ReadSoa(buf: Bytes, pos: nat): (r: Read<RData>)
    ensures r.Got? ==> r.pos <= |buf|
  {
    var (mname, p1) :- Decode(buf, pos);
    var (rname, p2) :- Decode(buf, p1);
    var (serial, p3) :- ReadU32(buf, p2);
    var (refresh, p4) :- ReadU32(buf, p3);
    var (retry, p5) :- ReadU32(buf, p4);
    var (expire, p6) :- ReadU32(buf, p5);
    var (minimum, p7) :- ReadU32(buf, p6);
    Got(SoaData(Soa(mname, rname, serial, refresh, retry, expire, minimum)), p7)
  }

  function ReadMx(buf: Bytes, pos: nat): (r: Read<RData>)
    ensures r.Got? ==> r.pos <= |buf|
  {
    var (preference, p1) :- ReadU16(buf, pos);
    var (exchange, p2) :- Decode(buf, p1);
    Got(Mx(preference, exchange), p2)
  }

  function ReadSrv(buf: Bytes, pos: nat): (r: Read<RData>)
    ensures r.Got? ==> r.pos <= |buf|
  {
    var (priority, p1) :- ReadU16(buf, pos);
    var (weight, p2) :- ReadU16(buf, p1);
    var (port, p3) :- ReadU16(buf, p2);
    var (target, p4) :- Decode(buf, p3);
    Got(Srv(priority, weight, port, target), p4)
  }

  /** The TXT loop from `pos`, holding the strings read so far. */
  function ReadTxt(buf: Bytes, pos: nat, end: nat, strings: seq<Bytes>): (r: Read<RData>)
    requires pos <= end <= |buf|
    ensures r.Got? ==> r.pos == end
    decreases end - pos
  {
    if pos == end then Got(Txt(strings), pos)
    else
      var len := buf[pos] as nat;
      if pos + 1 + len > end then Fail(BadRdata)
      else ReadTxt(buf, pos + 1 + len, end, strings + [buf[pos + 1..pos + 1 + len]])
  }

  function MapName(r: Read<DnsName>, rtype: nat): Read<RData> {
    match r
    case Fail(e) => Fail(e)
    case Got(n, p) => Got(if rtype == TYPE_NS then Ns(n) else if rtype == TYPE_CNAME then Cname(n) else Ptr(n), p)
  }

  function ReadIp(buf: Bytes, pos: nat, n: nat): Read<RData> {
    var (ip, p) :- ReadBytes(buf, pos, n);
    Got(if n == 4 then A(ip) else Aaaa(ip), p)
  }

  function ReadTyped(rtype: nat, buf: Bytes, pos: nat, rdlen: nat): Read<RData>
    requires pos + rdlen <= |buf|
  {
    if rtype == TYPE_A then ReadIp(buf, pos, 4)
    else if rtype == TYPE_AAAA then ReadIp(buf, pos, 16)
    else if rtype == TYPE_NS || rtype == TYPE_CNAME || rtype == TYPE_PTR then MapName(Decode(buf, pos), rtype)
    else if rtype == TYPE_SOA then ReadSoa(buf, pos)
    else if rtype == TYPE_MX then ReadMx(buf, pos)
    else if rtype == TYPE_TXT then ReadTxt(buf, pos, pos + rdlen, [])
    else if rtype == TYPE_SRV then ReadSrv(buf, pos)
    else Got(Unknown(rtype, buf[pos..pos + rdlen]), pos + rdlen)
  }

  /** `RData::parse`: empty rdata keeps only the type; otherwise the rdata must be used up exactly. */
  function ReadRData(rtype: nat, buf: Bytes, pos: nat, rdlen: nat): (r: Read<RData>)
    ensures r.Got? ==> r.pos == pos + rdlen <= |buf|
  {
    if pos + rdlen > |buf| then Fail(Truncated)
    else if rdlen == 0 then Got(Unknown(rtype, []), pos)
    else
      match ReadTyped(rtype, buf, pos, rdlen)
      case Fail(e) => Fail(e)
      case Got(rd, p) => if p == pos + rdlen then Got(rd, p) else Fail(BadRdata)
  }

  /** `Tsig::parse_rdata`. */
  function ReadTsig(keyName: DnsName, buf: Bytes, pos: nat): (r: Read<Tsig>)
    ensures r.Got? ==> r.pos <= |buf|
  {
    var (algorithm, p1) :- Decode(buf, pos);
    var (hi, p2) :- ReadU16(buf, p1);
    var (lo, p3) :- ReadU32(buf, p2);
    var (fudge, p4) :- ReadU16(buf, p3);
    var (macSize, p5) :- ReadU16(buf, p4);
    var (mac, p6) :- ReadBytes(buf, p5, macSize);
    var (originalId, p7) :- ReadU16(buf, p6);
    var (error, p8) :- ReadU16(buf, p7);
    var (otherLen, p9) :- ReadU16(buf, p8);
    var (other, p10) :- ReadBytes(buf, p9, otherLen);
    Got(Tsig(keyName, algorithm, hi * U32 + lo, fudge, mac, originalId, error, other), p10)
  }

  datatype Entry = Rr(rr: Record) | Opt(edns: Edns) | Signed(tsig: Tsig)

  /** `parse_entry`. */
  function ReadEntry(buf: Bytes, pos: nat): (r: Read<Entry>)
    ensures r.Got? ==> pos < r.pos <= |buf|
  {
    var (name, p1) :- Decode(buf, pos);
    var (f, p2) :- ReadFixed(buf, p1);
    if f.rtype == TYPE_TSIG then
      var (t, p3) :- ReadTsig(name, buf, p2);
      if p3 == p2 + f.rdlen then Got(Signed(t), p3) else Fail(BadRdata)
    else if f.rtype == TYPE_OPT then
      var (options, p3) :- ReadBytes(buf, p2, f.rdlen);
      Got(Opt(Edns(f.class_, f.ttl / 16777216, f.ttl / 65536 % 256, f.ttl / 32768 % 2 == 1, options)), p3)
    else
      var (rdata, p3) :- ReadRData(f.rtype, buf, p2, f.rdlen);
      Got(Rr(Record(name, f.class_, f.ttl, rdata)), p3)
  }

  function ReadQuestions(buf: Bytes, pos: nat, n: nat, got: seq<Question>): (r: Read<seq<Question>>)
    ensures r.Got? && pos <= |buf| ==> pos <= r.pos <= |buf|
    decreases n
  {
    if n == 0 then Got(got, pos)
    else
      var (q, p) :- ReadQuestion(buf, pos);
      ReadQuestions(buf, p, n - 1, got + [q])
  }

  /** Answer and authority sections: OPT and TSIG entries are read and dropped. */
  function ReadSection(buf: Bytes, pos: nat, n: nat, got: seq<Record>): (r: Read<seq<Record>>)
    ensures r.Got? && pos <= |buf| ==> pos <= r.pos <= |buf|
    decreases n
  {
    if n == 0 then Got(got, pos)
    else
      var (e, p) :- ReadEntry(buf, pos);
      ReadSection(buf, p, n - 1, if e.Rr? then got + [e.rr] else got)
  }

  datatype Extra = Extra(records: seq<Record>, edns: Option<Edns>, tsig: Option<Tsig>, tsigStart: Option<nat>)

  /** One entry of the additional section: the first OPT is kept, the last TSIG and where it began. */
  function AddEntry(x: Extra, e: Entry, start: nat): Extra {
    match e
    case Rr(r) => x.(records := x.records + [r])
    case Opt(o) => if x.edns.None? then x.(edns := Some(o)) else x
    case Signed(t) => x.(tsig := Some(t), tsigStart := Some(start))
  }

  function ReadExtra(buf: Bytes, pos: nat, n: nat, x: Extra): Read<Extra>
    decreases n
  {
    if n == 0 then Got(x, pos)
    else
      var (e, p) :- ReadEntry(buf, pos);
      ReadExtra(buf, p, n - 1, AddEntry(x, e, pos))
  }

  const NO_EXTRA: Extra := Extra([], None, None, None)

  datatype HeaderPart = HeaderPart(id: nat, flags: Flags, qd: nat, an: nat, ns: nat, ar: nat)

  function ReadHeader(buf: Bytes): (r: Read<HeaderPart>)
    ensures r.Got? ==> r.pos == 12 <= |buf|
  {
    var (id, p1) :- ReadU16(buf, 0);
    var (_, p2) :- ReadU16(buf, p1);
    var (qd, p3) :- ReadU16(buf, p2);
    var (an, p4) :- ReadU16(buf, p3);
    var (ns, p5) :- ReadU16(buf, p4);
    var (ar, p6) :- ReadU16(buf, p5);
    Got(HeaderPart(id, FlagsOf(buf, 2), qd, an, ns, ar), p6)
  }

  /** `Message::parse`; on success `pos` is where the last entry ended. */
  function Parse(buf: Bytes): Read<Message> {
    var (h, p0) :- ReadHeader(buf);
    var (questions, p1) :- ReadQuestions(buf, p0, h.qd, []);
    var (answers, p2) :- ReadSection(buf, p1, h.an, []);
    var (authorities, p3) :- ReadSection(buf, p2, h.ns, []);
    var (x, p4) :- ReadExtra(buf, p3, h.ar, NO_EXTRA);
    Got(Message(h.id, h.flags, questions, answers, authorities, x.records, x.edns, x.tsig, x.tsigStart), p4)
  }
}
