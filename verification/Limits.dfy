/**
 * Consequences of the codec theorem: names of at most 64 labels always round-trip, longer ones need
 * not, and whatever the parser accepts is well-formed and survives re-encoding.
 */
module Limits {
  import opened Bytes
  import opened Names
  import opened Messages
  import opened Codec

  // ------------------------------------------------------- at most 64 labels

  predicate Few(n: DnsName) { |n| <= MAX_POINTER_JUMPS }

  predicate FewRData(rd: RData) {
    match rd
    case Ns(n) => Few(n)
    case Cname(n) => Few(n)
    case Ptr(n) => Few(n)
    case SoaData(s) => Few(s.mname) && Few(s.rname)
    case Mx(_, n) => Few(n)
    case _ => true
  }

  predicate FewRecords(rs: seq<Record>) {
    forall i :: 0 <= i < |rs| ==> Few(rs[i].name) && FewRData(rs[i].rdata)
  }

  /** Every compressible name of the message has at most 64 labels. */
  predicate FewLabels(m: Message) {
    (forall i :: 0 <= i < |m.questions| ==> Few(m.questions[i].qname)) && FewRecords(Records(m))
  }

  lemma NearWhenFew(out: Bytes, t: Table, n: DnsName)
    requires TableOk(out, t) && ValidName(n) && Few(n)
    ensures Near(out, t, n)
    ensures TableOk(out + NameWire(|out|, t, n).bytes, NameWire(|out|, t, n).table)
  {
    hide NameWire, JumpsNeeded, TableOkBut;
    NameWireOk(out, t, n);
  }

  lemma RDataNearWhenFew(out: Bytes, t: Table, rd: RData)
    requires TableOk(out, t) && WfRData(rd) && FewRData(rd)
    ensures RDataNear(out, t, rd)
  {
    hide NameWire, Near, TableOkBut;
    match rd {
      case Ns(n) => NearWhenFew(out, t, n);
      case Cname(n) => NearWhenFew(out, t, n);
      case Ptr(n) => NearWhenFew(out, t, n);
      case SoaData(s) =>
        var e := NameWire(|out|, t, s.mname);
        NearWhenFew(out, t, s.mname);
        NearWhenFew(out + e.bytes, e.table, s.rname);
      case Mx(preference, n) =>
        TableOkRaw(out, t, Be16(preference));
        NearWhenFew(out + Be16(preference), t, n);
      case _ =>
    }
  }

  lemma RecordNearWhenFew(out: Bytes, t: Table, r: Record)
    requires TableOk(out, t) && WfRecord(r) && Few(r.name) && FewRData(r.rdata)
    ensures RecordNear(out, t, r)
    ensures TableOk(out + RecordWire(|out|, t, r).bytes, RecordWire(|out|, t, r).table)
  {
    hide NameWire, RDataWire, Near, TableOkBut, RDataNear, WfRData, FewRData, RecordHead, RecordWire;
    var h := RecordHead(out, t, r);
    NearWhenFew(out, t, r.name);
    RecordHeadOk(out, t, r);
    RDataNearWhenFew(h.out, h.table, r.rdata);
    RecordNext(out, t, r, out + RecordWire(|out|, t, r).bytes);
  }

  lemma {:induction false} RecordsNearWhenFew(st: Enc, rs: seq<Record>)
    requires TableOk(st.out, st.table) && WfRecords(rs) && FewRecords(rs)
    ensures RecordsNear(st, rs)
    decreases |rs|
  {
    hide RecordNear, RecordWire, TableOkBut, WfRecord, FewRData, Few;
    if rs != [] {
      RecordNearWhenFew(st.out, st.table, rs[0]);
      RecordsNearWhenFew(Put(st, RecordWire(|st.out|, st.table, rs[0])), rs[1..]);
    }
  }

  lemma {:induction false} QuestionsNearWhenFew(st: Enc, qs: seq<Question>)
    requires TableOk(st.out, st.table)
    requires forall i :: 0 <= i < |qs| ==> WfQuestion(qs[i]) && Few(qs[i].qname)
    ensures QuestionsNear(st, qs)
    ensures TableOk(PutQuestions(st, qs).out, PutQuestions(st, qs).table)
    decreases |qs|
  {
    hide NameWire, Near, TableOkBut, QuestionWire;
    if qs != [] {
      var e := QuestionWire(|st.out|, st.table, qs[0]);
      NearWhenFew(st.out, st.table, qs[0].qname);
      QuestionNext(st.out, st.table, qs[0], st.out + e.bytes);
      QuestionsNearWhenFew(Put(st, e), qs[1..]);
    }
  }

  /** A pointer always lands on a label, so 64 labels never need more than the 64 allowed jumps. */
  lemma ShallowWhenFew(hdr: Bytes, m: Message)
    requires WfMessage(m) && FewLabels(m)
    ensures ShallowFrom(hdr, m)
  {
    hide RecordsNear, QuestionsNear, TableOkBut, WfRecord, PutQuestions, WfQuestion, FewRData, Few;
    TableOkEmpty(hdr);
    QuestionsNearWhenFew(Enc(hdr, map[]), m.questions);
    RecordsNearWhenFew(PutQuestions(Enc(hdr, map[]), m.questions), Records(m));
  }

  /** Round trip for every well-formed message whose names have at most 64 labels. */
  lemma RoundTrip(m: Message)
    requires WfMessage(m) && FewLabels(m)
    ensures Parse(Encode(m)) == Got(m.(tsig := None, tsigStart := None), |Encode(m)|)
  {
    hide Parse, Encode, ShallowFrom, FewLabels;
    ShallowWhenFew(HeaderWith(m, ArCount(m)), m);
    ParseEncode(m);
  }

  // ------------------------------------------------- a message that is refused

  function Repeat(k: nat): (n: DnsName)
    ensures |n| == k && forall i :: 0 <= i < k ==> n[i] == [97]
  {
    seq(k, _ => [97])
  }

  function ChainQuestion(k: nat): Question { Question(Repeat(k), 1, 1) }

  /** Questions a, a.a, a.a.a, ... : each is one new label and a pointer to the one before. */
  function Chain(from: nat, count: nat): (qs: seq<Question>)
    ensures |qs| == count && forall i :: 0 <= i < count ==> qs[i] == ChainQuestion(from + i + 1)
  {
    seq(count, i requires 0 <= i < count => ChainQuestion(from + i + 1))
  }

  ghost predicate ChainState(st: Enc, k: nat) {
    && TableOk(st.out, st.table)
    && |st.out| <= 12 + 8 * k
    && (forall s :: s in st.table ==> |s| <= k)
    && (k > 0 ==> Repeat(k) in st.table && LabelHops(st.out, st.table[Repeat(k)], Repeat(k)) == k - 1)
  }

  lemma {:induction false} RepeatValid(k: nat)
    requires k <= 127
    ensures ValidName(Repeat(k)) && WireLen(Repeat(k)) == 1 + 2 * k
  {
    if k > 0 {
      RepeatValid(k - 1);
      assert Repeat(k)[1..] == Repeat(k - 1);
    }
  }

  lemma ChainNeeds(st: Enc, k: nat)
    requires k < 127 && ChainState(st, k)
    ensures JumpsNeeded(st.out, st.table, Repeat(k + 1)) == k
  {
    assert Repeat(k + 1)[1..] == Repeat(k);
    assert Repeat(k + 1) !in st.table;
  }

  /** What encoding the next name of the chain appends. */
  lemma ChainWire(base: nat, t: Table, k: nat)
    requires base <= 0x3FFF && Repeat(k + 1) !in t && (k > 0 ==> Repeat(k) in t)
    ensures var e := NameWire(base, t, Repeat(k + 1));
      |e.bytes| <= 4 && e.table == t[Repeat(k + 1) := base]
  {
    var n := Repeat(k + 1);
    assert n[1..] == Repeat(k);
    var t' := t[n := base];
    var rest := NameWire(base + 2, t', Repeat(k));
    assert rest.table == t' && |rest.bytes| <= 2;
    assert NameWire(base, t, n) == Emitted(LabelWire(n[0]) + rest.bytes, rest.table);
  }

  lemma ChainStep(st: Enc, k: nat)
    requires k < 127 && ChainState(st, k)
    ensures ChainState(Put(st, QuestionWire(|st.out|, st.table, ChainQuestion(k + 1))), k + 1)
  {
    hide NameWire, TableOkBut, JumpsNeeded, ValidName, NameAt, EndAt;
    var n := Repeat(k + 1);
    var e := NameWire(|st.out|, st.table, n);
    var all := st.out + e.bytes;
    var st' := Put(st, QuestionWire(|st.out|, st.table, ChainQuestion(k + 1)));
    ChainWire(|st.out|, st.table, k);
    ChainNeeds(st, k);
    RepeatValid(k + 1);
    NameWireOk(st.out, st.table, n);
    QuestionNext(st.out, st.table, ChainQuestion(k + 1), st'.out);
    ChainHops(all, st'.out, |st.out|, e.table, n, k);
  }

  lemma ChainHops(all: Bytes, out: Bytes, off: nat, t: Table, n: DnsName, k: nat)
    requires all <= out && off <= 0x3FFF && n == Repeat(k + 1)
    requires TableOk(all, t) && n in t && t[n] == off
    requires NameAt(all, off, n) && Hops(all, off, n) == k
    ensures LabelHops(out, off, n) == k
  {
    assert LabelAt(all, off, n);
    assert all[off] < 192;
    LabelAtAppend(all, out, off, n);
  }

  /** From any stage of the chain the 65-label name, asked for once more, is one jump too far. */
  lemma {:induction false} ChainTooDeep(st: Enc, k: nat)
    requires k <= 65 && ChainState(st, k)
    ensures !QuestionsNear(st, Chain(k, 65 - k) + [ChainQuestion(65)])
    decreases 65 - k
  {
    hide QuestionWire, TableOkBut, LabelHops;
    var qs := Chain(k, 65 - k) + [ChainQuestion(65)];
    if k == 65 {
      assert qs[0] == ChainQuestion(65);
      assert JumpsNeeded(st.out, st.table, Repeat(65)) == 65;
    } else {
      ChainStep(st, k);
      ChainTooDeep(Put(st, QuestionWire(|st.out|, st.table, ChainQuestion(k + 1))), k + 1);
      assert qs[0] == ChainQuestion(k + 1);
      assert qs[1..] == Chain(k + 1, 64 - k) + [ChainQuestion(65)];
    }
  }

  function ChainMessage(): Message {
    Message(1, Flags(false, 0, false, false, false, false, false, false, 0), Chain(0, 65) + [ChainQuestion(65)],
      [], [], [], None, None, None)
  }

  lemma ChainWf()
    ensures var m := ChainMessage();
      WfMessage(m) && |m.questions[65].qname| == 65 && forall q :: q in m.questions ==> |q.qname| <= 65
  {
    var qs := ChainMessage().questions;
    forall q | q in qs ensures WfQuestion(q) && |q.qname| <= 65 {
      var i :| 0 <= i < |qs| && qs[i] == q;
      RepeatValid(if i < 65 then i + 1 else 65);
    }
  }

  /** The 64-label bound is sharp: a well-formed message with names of at most 65 labels is not parsed back. */
  lemma DeepMessageRefused()
    ensures WfMessage(ChainMessage()) && !FewLabels(ChainMessage())
    ensures forall q :: q in ChainMessage().questions ==> |q.qname| <= 65
    ensures Parse(Encode(ChainMessage())) == Fail(CompressionLoop)
  {
    hide Parse, Encode, HeaderWith, QuestionsNear, ChainMessage, ChainQuestion, WfMessage;
    var m := ChainMessage();
    ChainWf();
    var hdr := HeaderWith(m, ArCount(m));
    ChainStart(hdr);
    ChainTooDeep(Enc(hdr, map[]), 0);
    ChainAsks();
    ParseEncode(m);
  }

  lemma ChainStart(hdr: Bytes)
    requires |hdr| == 12
    ensures ChainState(Enc(hdr, map[]), 0)
  {
  }

  lemma ChainAsks()
    ensures ChainMessage().questions == Chain(0, 65) + [ChainQuestion(65)]
  {
  }
}
