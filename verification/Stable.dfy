/** What parses from a buffer parses the same from any longer buffer, so no proper prefix of an encoding parses. */
module Stable {
  import opened Bytes
  import opened Names
  import opened Messages

  lemma {:induction false} NameStable(a: Bytes, b: Bytes, cur: nat, jumps: nat, wireLen: nat)
    requires a <= b && jumps <= MAX_POINTER_JUMPS && 1 <= wireLen <= MAX_NAME_WIRE_LEN
    ensures ReadName(a, cur, jumps, wireLen).Got? ==>
      ReadName(b, cur, jumps, wireLen) == ReadName(a, cur, jumps, wireLen)
    decreases MAX_POINTER_JUMPS - jumps, MAX_NAME_WIRE_LEN - wireLen
  {
    hide TokenAt, Lower;
    TokenStable(a, b, cur);
    match TokenAt(a, cur) {
      case Bad(_) =>
      case Root =>
      case Pointer(target) =>
        if target < cur && jumps < MAX_POINTER_JUMPS {
          NameStable(a, b, target, jumps + 1, wireLen);
        }
      case Text(l) =>
        if wireLen + |l| + 1 <= MAX_NAME_WIRE_LEN {
          NameStable(a, b, cur + 1 + |l|, jumps, wireLen + |l| + 1);
        }
    }
  }

  lemma TokenStable(a: Bytes, b: Bytes, cur: nat)
    requires a <= b
    ensures !TokenAt(a, cur).Bad? ==> TokenAt(b, cur) == TokenAt(a, cur)
  {
    if cur < |a| {
      var end := cur + 1 + a[cur] as nat;
      if end <= |a| {
        assert a[cur + 1..end] == b[cur + 1..end];
      }
    }
  }

  lemma DecodeStable(a: Bytes, b: Bytes, pos: nat)
    requires a <= b
    ensures Decode(a, pos).Got? ==> Decode(b, pos) == Decode(a, pos)
  {
    hide ReadName;
    NameStable(a, b, pos, 0, 1);
  }

  lemma SliceStable(a: Bytes, b: Bytes, p: nat, n: nat)
    requires a <= b
    ensures ReadBytes(a, p, n).Got? ==> ReadBytes(b, p, n) == ReadBytes(a, p, n)
  {
    if p + n <= |a| {
      assert a[p..p + n] == b[p..p + n];
    }
  }

  lemma WordStable(a: Bytes, b: Bytes, p: nat)
    requires a <= b
    ensures ReadU16(a, p).Got? ==> ReadU16(b, p) == ReadU16(a, p)
    ensures ReadU32(a, p).Got? ==> ReadU32(b, p) == ReadU32(a, p)
  {
  }

  /** The fixed-width reads. */
  lemma WordsStable(a: Bytes, b: Bytes)
    requires a <= b
    ensures forall p :: ReadU16(a, p).Got? ==> ReadU16(b, p) == ReadU16(a, p)
    ensures forall p :: ReadU32(a, p).Got? ==> ReadU32(b, p) == ReadU32(a, p)
    ensures forall p, n :: ReadBytes(a, p, n).Got? ==> ReadBytes(b, p, n) == ReadBytes(a, p, n)
  {
    hide ReadU16, ReadU32, ReadBytes;
    forall p: nat ensures ReadU16(a, p).Got? ==> ReadU16(b, p) == ReadU16(a, p) {
      WordStable(a, b, p);
    }
    forall p: nat ensures ReadU32(a, p).Got? ==> ReadU32(b, p) == ReadU32(a, p) {
      WordStable(a, b, p);
    }
    forall p: nat, n: nat ensures ReadBytes(a, p, n).Got? ==> ReadBytes(b, p, n) == ReadBytes(a, p, n) {
      SliceStable(a, b, p, n);
    }
  }

  lemma NamedStable(a: Bytes, b: Bytes)
    requires a <= b
    ensures forall p :: Decode(a, p).Got? ==> Decode(b, p) == Decode(a, p)
  {
    hide Decode;
    forall p: nat ensures Decode(a, p).Got? ==> Decode(b, p) == Decode(a, p) {
      DecodeStable(a, b, p);
    }
  }

  lemma FixedStable(a: Bytes, b: Bytes, p: nat)
    requires a <= b
    ensures ReadFixed(a, p).Got? ==> ReadFixed(b, p) == ReadFixed(a, p)
  {
    hide ReadU16, ReadU32, ReadBytes;
    WordsStable(a, b);
  }

  lemma HeaderStable(a: Bytes, b: Bytes)
    requires a <= b
    ensures ReadHeader(a).Got? ==> ReadHeader(b) == ReadHeader(a)
  {
    hide ReadU16, ReadU32, ReadBytes;
    WordsStable(a, b);
  }

  lemma QuestionStable(a: Bytes, b: Bytes, p: nat)
    requires a <= b
    ensures ReadQuestion(a, p).Got? ==> ReadQuestion(b, p) == ReadQuestion(a, p)
  {
    hide ReadU16, ReadU32, ReadBytes, Decode;
    WordsStable(a, b);
    NamedStable(a, b);
  }

  lemma SoaStable(a: Bytes, b: Bytes, p: nat)
    requires a <= b
    ensures ReadSoa(a, p).Got? ==> ReadSoa(b, p) == ReadSoa(a, p)
  {
    hide ReadU16, ReadU32, ReadBytes, Decode;
    WordsStable(a, b);
    NamedStable(a, b);
  }

  lemma MxSrvStable(a: Bytes, b: Bytes, p: nat)
    requires a <= b
    ensures ReadMx(a, p).Got? ==> ReadMx(b, p) == ReadMx(a, p)
    ensures ReadSrv(a, p).Got? ==> ReadSrv(b, p) == ReadSrv(a, p)
  {
    hide ReadU16, ReadU32, ReadBytes, Decode;
    WordsStable(a, b);
    NamedStable(a, b);
  }

  lemma TsigStable(a: Bytes, b: Bytes, name: DnsName, p: nat)
    requires a <= b
    ensures ReadTsig(name, a, p).Got? ==> ReadTsig(name, b, p) == ReadTsig(name, a, p)
  {
    hide ReadU16, ReadU32, ReadBytes, Decode;
    WordsStable(a, b);
    NamedStable(a, b);
  }

  lemma {:induction false} TxtStable(a: Bytes, b: Bytes, pos: nat, end: nat, got: seq<Bytes>)
    requires a <= b && pos <= end <= |a|
    ensures ReadTxt(b, pos, end, got) == ReadTxt(a, pos, end, got)
    decreases end - pos
  {
    if pos < end {
      var len := a[pos] as nat;
      if pos + 1 + len <= end {
        assert a[pos + 1..pos + 1 + len] == b[pos + 1..pos + 1 + len];
        TxtStable(a, b, pos + 1 + len, end, got + [a[pos + 1..pos + 1 + len]]);
      }
    }
  }

  lemma TypedStable(rtype: nat, a: Bytes, b: Bytes, p: nat, rdlen: nat)
    requires a <= b && p + rdlen <= |a|
    ensures ReadTyped(rtype, a, p, rdlen).Got? ==> ReadTyped(rtype, b, p, rdlen) == ReadTyped(rtype, a, p, rdlen)
  {
    hide ReadBytes, Decode, ReadSoa, ReadMx, ReadSrv, ReadTxt;
    WordsStable(a, b);
    DecodeStable(a, b, p);
    SoaStable(a, b, p);
    MxSrvStable(a, b, p);
    TxtStable(a, b, p, p + rdlen, []);
    assert a[p..p + rdlen] == b[p..p + rdlen];
  }

  lemma RDataStable(rtype: nat, a: Bytes, b: Bytes, p: nat, rdlen: nat)
    requires a <= b
    ensures ReadRData(rtype, a, p, rdlen).Got? ==> ReadRData(rtype, b, p, rdlen) == ReadRData(rtype, a, p, rdlen)
  {
    hide ReadTyped;
    if p + rdlen <= |a| {
      TypedStable(rtype, a, b, p, rdlen);
    }
  }

  lemma EntryStable(a: Bytes, b: Bytes, p: nat)
    requires a <= b
    ensures ReadEntry(a, p).Got? ==> ReadEntry(b, p) == ReadEntry(a, p)
  {
    hide ReadBytes, Decode, ReadFixed, ReadTsig, ReadRData;
    DecodeStable(a, b, p);
    var d := Decode(a, p);
    if d.Got? {
      FixedStable(a, b, d.pos);
      var f := ReadFixed(a, d.pos);
      if f.Got? {
        TsigStable(a, b, d.value, f.pos);
        WordsStable(a, b);
        RDataStable(f.value.rtype, a, b, f.pos, f.value.rdlen);
      }
    }
  }

  lemma {:induction false} QuestionsStable(a: Bytes, b: Bytes, p: nat, n: nat, got: seq<Question>)
    requires a <= b
    ensures ReadQuestions(a, p, n, got).Got? ==> ReadQuestions(b, p, n, got) == ReadQuestions(a, p, n, got)
    decreases n
  {
    hide ReadQuestion;
    if n > 0 {
      QuestionStable(a, b, p);
      var q := ReadQuestion(a, p);
      if q.Got? {
        QuestionsStable(a, b, q.pos, n - 1, got + [q.value]);
      }
    }
  }

  lemma {:induction false} SectionStable(a: Bytes, b: Bytes, p: nat, n: nat, got: seq<Record>)
    requires a <= b
    ensures ReadSection(a, p, n, got).Got? ==> ReadSection(b, p, n, got) == ReadSection(a, p, n, got)
    decreases n
  {
    hide ReadEntry;
    if n > 0 {
      EntryStable(a, b, p);
      var e := ReadEntry(a, p);
      if e.Got? {
        SectionStable(a, b, e.pos, n - 1, if e.value.Rr? then got + [e.value.rr] else got);
      }
    }
  }

  lemma {:induction false} ExtraStable(a: Bytes, b: Bytes, p: nat, n: nat, x: Extra)
    requires a <= b
    ensures ReadExtra(a, p, n, x).Got? ==> ReadExtra(b, p, n, x) == ReadExtra(a, p, n, x)
    decreases n
  {
    hide ReadEntry, AddEntry;
    if n > 0 {
      EntryStable(a, b, p);
      var e := ReadEntry(a, p);
      if e.Got? {
        ExtraStable(a, b, e.pos, n - 1, AddEntry(x, e.value, p));
      }
    }
  }

  lemma ParseStable(a: Bytes, b: Bytes)
    requires a <= b
    ensures Parse(a).Got? ==> Parse(b) == Parse(a)
  {
    hide ReadHeader, ReadQuestions, ReadSection, ReadExtra;
    HeaderStable(a, b);
    var h := ReadHeader(a);
    if h.Got? {
      QuestionsStable(a, b, h.pos, h.value.qd, []);
      var q := ReadQuestions(a, h.pos, h.value.qd, []);
      if q.Got? {
        SectionStable(a, b, q.pos, h.value.an, []);
        var s := ReadSection(a, q.pos, h.value.an, []);
        if s.Got? {
          SectionStable(a, b, s.pos, h.value.ns, []);
          var t := ReadSection(a, s.pos, h.value.ns, []);
          if t.Got? {
            ExtraStable(a, b, t.pos, h.value.ar, NO_EXTRA);
          }
        }
      }
    }
  }
}
