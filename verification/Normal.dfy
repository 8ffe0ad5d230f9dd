/**
 * Parser totality: `Parse` is a total function of the buffer, and what it accepts is well-formed,
 * so that re-encoding and parsing again is the identity on it.
 */
module Normal {
  import opened Bytes
  import opened Names
  import opened Messages
  import opened Codec
  import opened Limits

  lemma DecodeValid(buf: Bytes, pos: nat)
    ensures Decode(buf, pos).Got? ==> ValidName(Decode(buf, pos).value)
  {
    ReadNameValid(buf, pos, 0, 1);
  }

  lemma {:induction false} ReadTxtWf(buf: Bytes, pos: nat, end: nat, got: seq<Bytes>)
    requires pos <= end <= |buf|
    requires forall i :: 0 <= i < |got| ==> |got[i]| < 256
    ensures var r := ReadTxt(buf, pos, end, got);
      r.Got? ==>
        && r.value.Txt? && got <= r.value.strings
        && (forall i :: 0 <= i < |r.value.strings| ==> |r.value.strings[i]| < 256)
        && |TxtWire(r.value.strings[|got|..])| == end - pos
    decreases end - pos
  {
    if pos < end {
      var len := buf[pos] as nat;
      if pos + 1 + len <= end {
        var s := buf[pos + 1..pos + 1 + len];
        ReadTxtWf(buf, pos + 1 + len, end, got + [s]);
        var r := ReadTxt(buf, pos, end, got);
        if r.Got? {
          var rest := r.value.strings[|got|..];
          assert rest[0] == (got + [s])[|got|] == s;
          assert rest[1..] == r.value.strings[|got + [s]|..];
        }
      }
    }
  }

  lemma ReadTxtWhole(buf: Bytes, pos: nat, end: nat)
    requires pos < end <= |buf| && end - pos < 65536
    ensures var r := ReadTxt(buf, pos, end, []);
      r.Got? ==> WfRData(r.value)
  {
    ReadTxtWf(buf, pos, end, []);
    var r := ReadTxt(buf, pos, end, []);
    if r.Got? {
      assert r.value.strings[0..] == r.value.strings;
    }
  }

  lemma ReadSoaWf(buf: Bytes, pos: nat)
    ensures ReadSoa(buf, pos).Got? ==> WfRData(ReadSoa(buf, pos).value)
  {
    hide Decode, ValidName, ReadU32;
    DecodeValid(buf, pos);
    var d := Decode(buf, pos);
    if d.Got? {
      DecodeValid(buf, d.pos);
    }
  }

  lemma ReadMxSrvWf(buf: Bytes, pos: nat)
    ensures ReadMx(buf, pos).Got? ==> WfRData(ReadMx(buf, pos).value)
    ensures ReadSrv(buf, pos).Got? ==> WfRData(ReadSrv(buf, pos).value)
  {
    hide Decode, ValidName, ReadU16;
    DecodeValid(buf, pos + 2);
    DecodeValid(buf, pos + 6);
  }

  lemma ReadTypedWf(rtype: nat, buf: Bytes, pos: nat, rdlen: nat)
    requires 0 < rdlen < 65536 && pos + rdlen <= |buf|
    requires rtype < 65536 && rtype != TYPE_OPT && rtype != TYPE_TSIG
    ensures var r := ReadTyped(rtype, buf, pos, rdlen);
      r.Got? ==> WfRData(r.value)
  {
    hide Decode, ValidName, ReadSoa, ReadMx, ReadSrv, ReadTxt;
    if rtype == TYPE_SOA {
      ReadSoaWf(buf, pos);
    } else if rtype == TYPE_MX || rtype == TYPE_SRV {
      ReadMxSrvWf(buf, pos);
    } else if rtype == TYPE_TXT {
      ReadTxtWhole(buf, pos, pos + rdlen);
    } else {
      DecodeValid(buf, pos);
    }
  }

  predicate WfEntry(e: Entry) {
    match e
    case Rr(r) => WfRecord(r)
    case Opt(o) => WfEdns(o)
    case Signed(_) => true
  }

  lemma ReadEntryWf(buf: Bytes, pos: nat)
    ensures ReadEntry(buf, pos).Got? ==> WfEntry(ReadEntry(buf, pos).value)
  {
    hide Decode, ValidName, ReadTsig, ReadTyped, WfRData, ReadFixed;
    DecodeValid(buf, pos);
    var d := Decode(buf, pos);
    if d.Got? {
      var f := ReadFixed(buf, d.pos);
      if f.Got? && f.value.rtype != TYPE_TSIG && f.value.rtype != TYPE_OPT {
        if 0 < f.value.rdlen && f.pos + f.value.rdlen <= |buf| {
          ReadTypedWf(f.value.rtype, buf, f.pos, f.value.rdlen);
        }
        EmptyWf(f.value.rtype);
      }
    }
  }

  lemma EmptyWf(rtype: nat)
    requires rtype < 65536 && rtype != TYPE_OPT && rtype != TYPE_TSIG
    ensures WfRData(Unknown(rtype, []))
  {
  }

  lemma ReadQuestionWf(buf: Bytes, pos: nat)
    ensures ReadQuestion(buf, pos).Got? ==> WfQuestion(ReadQuestion(buf, pos).value)
  {
    hide Decode, ValidName;
    DecodeValid(buf, pos);
  }

  lemma {:induction false} ReadQuestionsWf(buf: Bytes, pos: nat, n: nat, got: seq<Question>)
    requires pos <= |buf| && forall i :: 0 <= i < |got| ==> WfQuestion(got[i])
    ensures var r := ReadQuestions(buf, pos, n, got);
      r.Got? ==> |r.value| == |got| + n && r.pos <= |buf| && forall i :: 0 <= i < |r.value| ==> WfQuestion(r.value[i])
    decreases n
  {
    hide ReadQuestion, WfQuestion;
    if n > 0 {
      ReadQuestionWf(buf, pos);
      var q := ReadQuestion(buf, pos);
      if q.Got? {
        ReadQuestionsWf(buf, q.pos, n - 1, got + [q.value]);
      }
    }
  }

  lemma {:induction false} ReadSectionWf(buf: Bytes, pos: nat, n: nat, got: seq<Record>)
    requires pos <= |buf| && WfRecords(got)
    ensures var r := ReadSection(buf, pos, n, got);
      r.Got? ==> |r.value| <= |got| + n && r.pos <= |buf| && WfRecords(r.value)
    decreases n
  {
    hide ReadEntry, WfRecord;
    if n > 0 {
      ReadEntryWf(buf, pos);
      var e := ReadEntry(buf, pos);
      if e.Got? {
        ReadSectionWf(buf, e.pos, n - 1, if e.value.Rr? then got + [e.value.rr] else got);
      }
    }
  }

  predicate WfExtra(x: Extra, budget: nat) {
    && |x.records| + Bit(x.edns.Some?, 1) <= budget
    && WfRecords(x.records)
    && (x.edns.Some? ==> WfEdns(x.edns.value))
  }

  lemma {:induction false} ReadExtraWf(buf: Bytes, pos: nat, n: nat, x: Extra, budget: nat)
    requires pos <= |buf| && WfExtra(x, budget)
    ensures var r := ReadExtra(buf, pos, n, x);
      r.Got? ==> r.pos <= |buf| && WfExtra(r.value, budget + n)
    decreases n
  {
    hide ReadEntry, WfRecord, WfEdns;
    if n > 0 {
      ReadEntryWf(buf, pos);
      var e := ReadEntry(buf, pos);
      if e.Got? {
        ReadExtraWf(buf, e.pos, n - 1, AddEntry(x, e.value, pos), budget + 1);
      }
    }
  }

  lemma HeaderWf(buf: Bytes)
    ensures var r := ReadHeader(buf);
      r.Got? ==>
        && r.value.id < 65536 && WfFlags(r.value.flags)
        && r.value.qd < 65536 && r.value.an < 65536 && r.value.ns < 65536 && r.value.ar < 65536
  {
  }

  /** Whatever the buffer, an accepted message is well-formed and was read within the buffer. */
  lemma ParseWf(buf: Bytes)
    ensures Parse(buf).Got? ==> WfMessage(Parse(buf).value) && Parse(buf).pos <= |buf|
  {
    hide ReadHeader, ReadQuestions, ReadSection, ReadExtra, WfRecord, WfQuestion, WfFlags, WfEdns;
    HeaderWf(buf);
    var h := ReadHeader(buf);
    if h.Got? {
      ReadQuestionsWf(buf, h.pos, h.value.qd, []);
      var q := ReadQuestions(buf, h.pos, h.value.qd, []);
      if q.Got? {
        ReadSectionWf(buf, q.pos, h.value.an, []);
        var a := ReadSection(buf, q.pos, h.value.an, []);
        if a.Got? {
          ReadSectionWf(buf, a.pos, h.value.ns, []);
          var b := ReadSection(buf, a.pos, h.value.ns, []);
          if b.Got? {
            ReadExtraWf(buf, b.pos, h.value.ar, NO_EXTRA, 0);
          }
        }
      }
    }
  }

  /**
   * Normalisation: for every buffer the parser accepts, encoding the result and parsing again gives
   * the same message apart from the TSIG fields, exactly when no name is too deep for the decoder.
   */
  lemma ParseNormalises(buf: Bytes)
    requires Parse(buf).Got?
    ensures var m := Parse(buf).value;
      Parse(Encode(m)) ==
      if Shallow(m) then Got(m.(tsig := None, tsigStart := None), |Encode(m)|) else Fail(CompressionLoop)
    ensures FewLabels(Parse(buf).value) ==> Shallow(Parse(buf).value)
  {
    hide Parse, Encode, Shallow, FewLabels;
    ParseWf(buf);
    var m := Parse(buf).value;
    ParseEncode(m);
    if FewLabels(m) {
      FewIsShallow(m);
    }
  }

  lemma FewIsShallow(m: Message)
    requires WfMessage(m) && FewLabels(m)
    ensures Shallow(m)
  {
    hide ShallowFrom, FewLabels, HeaderWith;
    ShallowWhenFew(HeaderWith(m, ArCount(m)), m);
  }
}
