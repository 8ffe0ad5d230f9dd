/**
 * The encoder and parser as the program runs them: an output buffer that is appended to and patched,
 * a shared suffix table, and cursor loops, each proved equal to its value-level description.
 */
module Wire {
  import opened Bytes
  import opened Names
  import opened Messages

  function PutName(st: Enc, n: DnsName): Enc { Put(st, NameWire(|st.out|, st.table, n)) }

  lemma PutNameLabel(st: Enc, n: DnsName)
    requires n != [] && n !in st.table
    ensures PutName(st, n) ==
      PutName(Enc(st.out + LabelWire(n[0]), if |st.out| <= 0x3FFF then st.table[n := |st.out|] else st.table), n[1..])
  {
    var t' := if |st.out| <= 0x3FFF then st.table[n := |st.out|] else st.table;
    var rest := NameWire(|st.out| + 1 + |n[0]|, t', n[1..]);
    assert NameWire(|st.out|, st.table, n) == Emitted(LabelWire(n[0]) + rest.bytes, rest.table);
    assert st.out + (LabelWire(n[0]) + rest.bytes) == st.out + LabelWire(n[0]) + rest.bytes;
  }

  lemma Regroup(a: Bytes, b: Bytes, c: Bytes, d: Bytes)
    ensures ((a + b) + c) + d == a + (b + c + d)
    ensures (a + b) + c == a + (b + c)
  {
  }

  /** The placeholder written after `named + fixed` is replaced by the two length octets. */
  lemma Patched(named: Bytes, fixed: Bytes, rd: Bytes, len: Bytes)
    requires |len| == 2
    ensures var out := named + fixed + [0, 0] + rd;
      var at := |named| + |fixed|;
      out[..at] + len + out[at + 2..] == named + fixed + len + rd
  {
    var out := named + fixed + [0, 0] + rd;
    assert out[..|named| + |fixed|] == named + fixed;
    assert out[|named| + |fixed| + 2..] == rd;
  }

  lemma RecordWireParts(out: Bytes, t: Table, r: Record)
    ensures var e := NameWire(|out|, t, r.name);
      var rd := RDataWire(|out| + |e.bytes| + 10, e.table, r.rdata);
      Put(Enc(out, t), RecordWire(|out|, t, r)) ==
      Enc(out + e.bytes + Fixed(RType(r.rdata), r.class_, r.ttl) + Be16(|rd.bytes|) + rd.bytes, rd.table)
  {
    hide NameWire, RDataWire, Be16, Fixed;
    var e := NameWire(|out|, t, r.name);
    var rd := RDataWire(|out| + |e.bytes| + 10, e.table, r.rdata);
    var fixed, len := Fixed(RType(r.rdata), r.class_, r.ttl), Be16(|rd.bytes|);
    assert out + (e.bytes + fixed + len + rd.bytes) == out + e.bytes + fixed + len + rd.bytes;
  }

  class Encoder {
    var out: Bytes
    var offsets: Table

    ghost function State(): Enc
      reads this
    {
      Enc(out, offsets)
    }

    constructor ()
      ensures out == [] && offsets == map[]
    {
      out, offsets := [], map[];
    }

    method Append(s: Bytes)
      modifies this`out
      ensures out == old(out) + s
    {
      out := out + s;
    }

    /** `DnsName::to_wire` with the shared table. */
    method ToWire(n: DnsName)
      modifies this
      ensures State() == PutName(old(State()), n)
    {
      hide NameWire;
      var i := 0;
      while i < |n|
        invariant i <= |n|
        invariant PutName(State(), n[i..]) == PutName(old(State()), n)
      {
        ghost var st := State();
        if n[i..] in offsets {
          PutPointer(st, n[i..]);
          out := out + Be16(0xC000 + offsets[n[i..]] as nat);
          return;
        }
        PutNameLabel(st, n[i..]);
        if |out| <= 0x3FFF {
          offsets := offsets[n[i..] := |out|];
        }
        out := out + LabelWire(n[i]);
        assert n[i..][1..] == n[i + 1..] && n[i..][0] == n[i];
        i := i + 1;
      }
      assert n[i..] == [];
      PutRoot(State());
      out := out + [0];
    }

    /** `RData::encode`. */
    method PutRData(rd: RData)
      modifies this
      ensures State() == Put(old(State()), RDataWire(|old(out)|, old(offsets), rd))
    {
      hide NameWire, PlainWire, TxtWire;
      match rd {
        case A(ip) => Append(ip);
        case Aaaa(ip) => Append(ip);
        case Ns(n) => ToWire(n);
        case Cname(n) => ToWire(n);
        case Ptr(n) => ToWire(n);
        case SoaData(s) =>
          ToWire(s.mname);
          ghost var one := out;
          ToWire(s.rname);
          ghost var two := out;
          Append(SoaTail(s));
          Regroup(old(out), one[|old(out)|..], two[|one|..], SoaTail(s));
        case Mx(preference, exchange) =>
          Append(Be16(preference));
          ghost var one := out;
          ToWire(exchange);
          Regroup(old(out), Be16(preference), out[|one|..], []);
        case Txt(strings) =>
          PutStrings(strings);
        case Srv(priority, weight, port, target) =>
          Append(SrvHead(priority, weight, port));
          Append(PlainWire(target));
          Regroup(old(out), SrvHead(priority, weight, port), PlainWire(target), []);
        case Unknown(_, data) => Append(data);
      }
    }

    method PutStrings(strings: seq<Bytes>)
      modifies this`out
      ensures out == old(out) + TxtWire(strings)
    {
      var i := 0;
      while i < |strings|
        invariant i <= |strings|
        invariant out + TxtWire(strings[i..]) == old(out) + TxtWire(strings)
      {
        assert strings[i..][0] == strings[i] && strings[i..][1..] == strings[i + 1..];
        assert out + (LabelWire(strings[i]) + TxtWire(strings[i + 1..])) ==
               out + LabelWire(strings[i]) + TxtWire(strings[i + 1..]);
        out := out + LabelWire(strings[i]);
        i := i + 1;
      }
      assert strings[i..] == [];
    }

    /** `Record::encode`: the length field is written as zero and patched once the rdata is out. */
    method PutRecord(r: Record)
      modifies this
      ensures State() == Put(old(State()), RecordWire(|old(out)|, old(offsets), r))
    {
      hide NameWire, RDataWire, RecordWire, Be16, Be32, Fixed;
      ToWire(r.name);
      ghost var named := out;
      var fixed := Fixed(RType(r.rdata), r.class_, r.ttl);
      Append(fixed);
      var lenAt := |out|;
      Append([0, 0]);
      ghost var head := out;
      PutRData(r.rdata);
      var rdlen := |out| - lenAt - 2;
      Patched(named, fixed, out[|head|..], Be16(rdlen));
      out := out[..lenAt] + Be16(rdlen) + out[lenAt + 2..];
      RecordWireParts(old(out), old(offsets), r);
    }

    method PutQuestion(q: Question)
      modifies this
      ensures State() == Put(old(State()), QuestionWire(|old(out)|, old(offsets), q))
    {
      hide NameWire;
      ToWire(q.qname);
      Append(Be16(q.qtype));
      Append(Be16(q.qclass));
    }

    /** `Message::encode` after the header has been written. */
    method PutBody(m: Message)
      modifies this
      ensures State() == PutRecords(PutQuestions(old(State()), m.questions), Records(m))
    {
      hide QuestionWire, RecordWire;
      var i := 0;
      while i < |m.questions|
        invariant i <= |m.questions|
        invariant PutQuestions(State(), m.questions[i..]) == PutQuestions(old(State()), m.questions)
      {
        assert m.questions[i..][1..] == m.questions[i + 1..];
        PutQuestion(m.questions[i]);
        i := i + 1;
      }
      assert m.questions[i..] == [];
      var rs := Records(m);
      i := 0;
      while i < |rs|
        invariant i <= |rs|
        invariant PutRecords(State(), rs[i..]) == PutRecords(PutQuestions(old(State()), m.questions), rs)
      {
        assert rs[i..][1..] == rs[i + 1..];
        PutRecord(rs[i]);
        i := i + 1;
      }
      assert rs[i..] == [];
    }
  }

  lemma PutPointer(st: Enc, n: DnsName)
    requires n != [] && n in st.table
    ensures PutName(st, n) == Enc(st.out + Be16(0xC000 + st.table[n] as nat), st.table)
  {
  }

  lemma PutRoot(st: Enc)
    ensures PutName(st, []) == Enc(st.out + [0], st.table)
  {
  }

  /** `Message::encode`. */
  method EncodeMessage(m: Message) returns (wire: Bytes)
    ensures wire == Encode(m)
  {
    hide PutRecords, PutQuestions, HeaderWith;
    var enc := new Encoder();
    enc.Append(HeaderWith(m, ArCount(m)));
    assert [] + HeaderWith(m, ArCount(m)) == HeaderWith(m, ArCount(m));
    enc.PutBody(m);
    if m.edns.Some? {
      enc.Append(EdnsWire(m.edns.value));
    }
    wire := enc.out;
    assert BodyFrom(HeaderWith(m, ArCount(m)), m).out + [] == BodyFrom(HeaderWith(m, ArCount(m)), m).out;
  }

  /** `Message::parse`: four counted loops over one cursor. */
  method ParseMessage(buf: Bytes) returns (r: Read<Message>)
    ensures r == Parse(buf)
  {
    hide ReadHeader, ReadQuestion, ReadEntry;
    var h := ReadHeader(buf);
    if h.Fail? {
      return Fail(h.error);
    }
    var pos := h.pos;
    var questions: seq<Question> := [];
    var n := h.value.qd;
    ghost var all := ReadQuestions(buf, pos, n, []);
    while n > 0
      invariant ReadQuestions(buf, pos, n, questions) == all
    {
      var q := ReadQuestion(buf, pos);
      if q.Fail? {
        return Fail(q.error);
      }
      questions, pos, n := questions + [q.value], q.pos, n - 1;
    }
    var answers := ParseSection(buf, pos, h.value.an);
    if answers.Fail? {
      return Fail(answers.error);
    }
    var authorities := ParseSection(buf, answers.pos, h.value.ns);
    if authorities.Fail? {
      return Fail(authorities.error);
    }
    var x := NO_EXTRA;
    pos, n := authorities.pos, h.value.ar;
    ghost var extra := ReadExtra(buf, pos, n, x);
    while n > 0
      invariant ReadExtra(buf, pos, n, x) == extra
    {
      var start := pos;
      var e := ReadEntry(buf, pos);
      if e.Fail? {
        return Fail(e.error);
      }
      x, pos, n := AddEntry(x, e.value, start), e.pos, n - 1;
    }
    r := Got(Message(h.value.id, h.value.flags, questions, answers.value, authorities.value, x.records, x.edns, x.tsig,
                     x.tsigStart), pos);
  }

  method ParseSection(buf: Bytes, start: nat, count: nat) returns (r: Read<seq<Record>>)
    ensures r == ReadSection(buf, start, count, [])
  {
    hide ReadEntry;
    var pos, n := start, count;
    var got: seq<Record> := [];
    while n > 0
      invariant ReadSection(buf, pos, n, got) == ReadSection(buf, start, count, [])
    {
      var e := ReadEntry(buf, pos);
      if e.Fail? {
        return Fail(e.error);
      }
      got, pos, n := if e.value.Rr? then got + [e.value.rr] else got, e.pos, n - 1;
    }
    r := Got(got, pos);
  }

  /** The TXT loop of `RData::parse`. */
  method ParseTxt(buf: Bytes, start: nat, end: nat) returns (r: Read<RData>)
    requires start <= end <= |buf|
    ensures r == ReadTxt(buf, start, end, [])
  {
    var pos := start;
    var strings: seq<Bytes> := [];
    while pos < end
      invariant pos <= end
      invariant ReadTxt(buf, pos, end, strings) == ReadTxt(buf, start, end, [])
    {
      var len := buf[pos] as nat;
      if pos + 1 + len > end {
        return Fail(BadRdata);
      }
      strings := strings + [buf[pos + 1..pos + 1 + len]];
      pos := pos + 1 + len;
    }
    r := Got(Txt(strings), pos);
  }
}
