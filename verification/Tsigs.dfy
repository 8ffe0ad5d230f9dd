/**
 * Transaction signatures (RFC 8945): signing appends a TSIG record and raises ARCOUNT; verifying cuts
 * the parsed bytes at the TSIG record, lowers ARCOUNT and recomputes the MAC. The HMAC itself is an
 * arbitrary function.
 */
module Tsigs {
  import opened Bytes
  import opened Names
  import opened Messages
  import opened Codec

  datatype Algorithm = HmacSha256 | HmacSha512

  type Mac = s: Bytes | |s| <= 64 witness []
  type Hmac = (Algorithm, Bytes, Bytes) -> Mac

  datatype TsigKey = TsigKey(name: DnsName, algorithm: Algorithm, secret: Bytes)

  datatype TsigError = BadKey | BadSig | BadTime | Missing

  datatype Verdict = Accepted(mac: Bytes) | Rejected(error: TsigError)

  const MAX_CLOCK_SKEW: nat := 300
  const U48: nat := 281474976710656

  /** "hmac-sha256" and "hmac-sha512". */
  function AlgorithmName(a: Algorithm): DnsName {
    var stem: Label := [104, 109, 97, 99, 45, 115, 104, 97];
    [stem + if a == HmacSha256 then [50, 53, 54] else [53, 49, 50]]
  }

  function AlgorithmOf(n: DnsName): Option<Algorithm> {
    if n == AlgorithmName(HmacSha256) then Some(HmacSha256)
    else if n == AlgorithmName(HmacSha512) then Some(HmacSha512)
    else None
  }

  /** `Tsig::variables`: what the MAC covers besides the message, never the MAC itself. */
  function Variables(t: Tsig): Bytes {
    PlainWire(t.keyName) + Be16(CLASS_ANY) + Be32(0) + PlainWire(t.algorithm) + Be48(t.timeSigned) + Be16(t.fudge) +
    Be16(t.error) + Be16(|t.other|) + t.other
  }

  function DigestInput(message: Bytes, t: Tsig, prior: Option<Bytes>): Bytes {
    (if prior.Some? then Be16(|prior.value|) + prior.value else []) + message + Variables(t)
  }

  function MakeTsig(key: TsigKey, now: nat, id: nat, error: nat): Tsig {
    Tsig(key.name, AlgorithmName(key.algorithm), now, MAX_CLOCK_SKEW, [], id, error, [])
  }

  function TsigRdata(t: Tsig): Bytes {
    PlainWire(t.algorithm) +
    (Be48(t.timeSigned) + Be16(t.fudge) + Be16(|t.mac|) + t.mac + Be16(t.originalId) + Be16(t.error) +
     Be16(|t.other|) + t.other)
  }

  /** `Tsig::encode_rr`. */
  function TsigWire(t: Tsig): Bytes {
    PlainWire(t.keyName) + (Fixed(TYPE_TSIG, CLASS_ANY, 0) + Be16(|TsigRdata(t)|)) + TsigRdata(t)
  }

  /** `out[10..12]` set to `v`. */
  function PatchArcount(wire: Bytes, v: nat): (r: Bytes)
    requires |wire| >= 12
    ensures |r| == |wire|
  {
    wire[..10] + Be16(v) + wire[12..]
  }

  function Arcount(wire: Bytes): nat
    requires |wire| >= 12
  {
    Word(wire, 10)
  }

  /** `encode_with_tsig`: append the record and raise ARCOUNT, in wrapping 16-bit arithmetic. */
  function EncodeWithTsig(m: Message, t: Tsig): Bytes {
    var wire := Encode(m);
    EncodeLong(m);
    PatchArcount(wire + TsigWire(t), Arcount(wire) + 1)
  }

  lemma EncodeLong(m: Message)
    ensures |Encode(m)| >= 12
  {
    hide PutRecords, PutQuestions, HeaderWith, EdnsTail;
    var hdr := HeaderWith(m, ArCount(m));
    PutQuestionsGrows(Enc(hdr, map[]), m.questions);
    PutRecordsGrows(PutQuestions(Enc(hdr, map[]), m.questions), Records(m));
  }

  function SignedTsig(hmac: Hmac, m: Message, key: TsigKey, prior: Option<Bytes>, now: nat): Tsig {
    var t := MakeTsig(key, now, m.id, 0);
    t.(mac := hmac(key.algorithm, key.secret, DigestInput(Encode(m), t, prior)))
  }

  /** `sign_request` with no prior MAC, `sign_response` with the request's or the previous frame's. */
  function Sign(hmac: Hmac, m: Message, key: TsigKey, prior: Option<Bytes>, now: nat): Bytes {
    EncodeWithTsig(m, SignedTsig(hmac, m, key, prior, now))
  }

  function AbsDiff(a: nat, b: nat): nat { if a < b then b - a else a - b }

  /** `verify`. */
  function Verify(hmac: Hmac, m: Message, raw: Bytes, ring: map<DnsName, TsigKey>, now: nat, prior: Option<Bytes>): Verdict
    requires m.tsigStart.Some? ==> 12 <= m.tsigStart.value <= |raw|
  {
    if m.tsig.None? || m.tsigStart.None? then Rejected(Missing)
    else
      var t := m.tsig.value;
      if t.keyName !in ring then Rejected(BadKey)
      else
        var key := ring[t.keyName];
        if AlgorithmOf(t.algorithm) != Some(key.algorithm) then Rejected(BadKey)
        else
          var cut := raw[..m.tsigStart.value];
          var body := PatchArcount(cut, Arcount(cut) + 65535);
          if t.mac != hmac(key.algorithm, key.secret, DigestInput(body, t, prior)) then Rejected(BadSig)
          else if AbsDiff(now, t.timeSigned) > t.fudge then Rejected(BadTime)
          else Accepted(t.mac)
  }

  // ------------------------------------------------------ reading a TSIG back

  predicate WfTsig(t: Tsig) {
    && ValidName(t.keyName) && ValidName(t.algorithm)
    && t.fudge < 65536 && t.originalId < 65536 && t.error < 65536
    && |t.mac| <= 64 && t.other == []
  }

  lemma Be32Low(v: nat)
    ensures Be32(v) == Be32(v % U32)
  {
    hide Be16;
    ModDigits(v, 65536, 65536);
    Be16Low(v);
    Be16Low(v % U32);
    Be16Low(v / 65536);
    Be16Low(v % U32 / 65536);
    assert v % U32 / 65536 < 65536;
  }

  lemma Be48Low(v: nat)
    ensures Be48(v % U48) == Be48(v)
  {
    hide Be16, Be32;
    ModDigits(v, U32, 65536);
    Be16Low(v / U32);
    Be16Low(v % U48 / U32);
    Be32Low(v);
    Be32Low(v % U48);
  }

  lemma ReadBe48(buf: Bytes, p: nat, v: nat)
    requires Occurs(buf, p, Be48(v))
    ensures ReadU16(buf, p).Got? && ReadU32(buf, p + 2).Got?
    ensures ReadU16(buf, p).value * U32 + ReadU32(buf, p + 2).value == v % U48
  {
    hide Be16, Be32, ReadU16, ReadU32;
    var w := v % U48;
    Be48Low(v);
    OccursSplit(buf, p, Be16(w / U32), Be32(w));
    ReadU16Of(buf, p, w / U32);
    Be32Low(w);
    ReadU32Of(buf, p + 2, w % U32);
  }

  /** The TSIG fields after the algorithm name. */
  lemma TsigTailRead(buf: Bytes, p: nat, t: Tsig)
    requires WfTsig(t)
    requires Occurs(buf, p, Be48(t.timeSigned) + Be16(t.fudge) + Be16(|t.mac|) + t.mac + Be16(t.originalId) +
                            Be16(t.error) + Be16(|t.other|) + t.other)
    ensures Occurs(buf, p, Be48(t.timeSigned))
    ensures ReadU16(buf, p + 6) == Got(t.fudge, p + 8)
    ensures ReadU16(buf, p + 8) == Got(|t.mac|, p + 10)
    ensures ReadBytes(buf, p + 10, |t.mac|) == Got(t.mac, p + 10 + |t.mac|)
    ensures var q := p + 10 + |t.mac|;
      && ReadU16(buf, q) == Got(t.originalId, q + 2)
      && ReadU16(buf, q + 2) == Got(t.error, q + 4)
      && ReadU16(buf, q + 4) == Got(0, q + 6)
      && ReadBytes(buf, q + 6, 0) == Got([], q + 6)
  {
    hide Be16, Be48, ReadU16, ValidName;
    var a, b, c, d, e, f, g := Be48(t.timeSigned), Be16(t.fudge), Be16(|t.mac|), t.mac, Be16(t.originalId),
      Be16(t.error), Be16(|t.other|);
    OccursSplit(buf, p, a + b + c + d + e + f + g, t.other);
    OccursSplit(buf, p, a + b + c + d + e + f, g);
    OccursSplit(buf, p, a + b + c + d + e, f);
    OccursSplit(buf, p, a + b + c + d, e);
    OccursSplit(buf, p, a + b + c, d);
    OccursSplit(buf, p, a + b, c);
    OccursSplit(buf, p, a, b);
    var q := p + 10 + |t.mac|;
    ReadU16Of(buf, p + 6, t.fudge);
    ReadU16Of(buf, p + 8, |t.mac|);
    ReadU16Of(buf, q, t.originalId);
    ReadU16Of(buf, q + 2, t.error);
    ReadU16Of(buf, q + 4, 0);
  }

  lemma TsigRdataRead(buf: Bytes, p: nat, t: Tsig)
    requires WfTsig(t) && Occurs(buf, p, TsigRdata(t))
    ensures ReadTsig(t.keyName, buf, p) == Got(t.(timeSigned := t.timeSigned % U48), p + |TsigRdata(t)|)
  {
    hide Be16, Be48, ReadU16, ReadU32, ReadBytes, Decode, PlainWire, ValidName;
    var tail := Be48(t.timeSigned) + Be16(t.fudge) + Be16(|t.mac|) + t.mac + Be16(t.originalId) + Be16(t.error) +
      Be16(|t.other|) + t.other;
    OccursSplit(buf, p, PlainWire(t.algorithm), tail);
    PlainRoundTrip(buf, p, t.algorithm);
    var q := p + |PlainWire(t.algorithm)|;
    TsigTailRead(buf, q, t);
    ReadBe48(buf, q, t.timeSigned);
  }

  lemma TsigSize(t: Tsig)
    requires WfTsig(t)
    ensures |TsigRdata(t)| < 65536
  {
    PlainWireLen(t.algorithm);
  }

  lemma TsigReads(buf: Bytes, p: nat, name: DnsName, p1: nat, f: FixedPart, t: Tsig)
    requires Decode(buf, p) == Got(name, p1) && ReadFixed(buf, p1) == Got(f, p1 + 10) && f.rtype == TYPE_TSIG
    requires ReadTsig(name, buf, p1 + 10) == Got(t, p1 + 10 + f.rdlen)
    ensures ReadEntry(buf, p) == Got(Signed(t), p1 + 10 + f.rdlen)
  {
    hide Decode, ReadFixed, ReadTsig, ReadRData;
  }

  lemma TsigRead(buf: Bytes, p: nat, t: Tsig)
    requires WfTsig(t) && Occurs(buf, p, TsigWire(t))
    ensures ReadEntry(buf, p) == Got(Signed(t.(timeSigned := t.timeSigned % U48)), p + |TsigWire(t)|)
  {
    hide Decode, ReadFixed, ReadTsig, ReadEntry, PlainWire, ValidName, TsigRdata, Fixed;
    var mid := Fixed(TYPE_TSIG, CLASS_ANY, 0) + Be16(|TsigRdata(t)|);
    OccursSplit(buf, p, PlainWire(t.keyName) + mid, TsigRdata(t));
    OccursSplit(buf, p, PlainWire(t.keyName), mid);
    var p1 := p + |PlainWire(t.keyName)|;
    PlainRoundTrip(buf, p, t.keyName);
    TsigSize(t);
    FixedRead(buf, p1, TYPE_TSIG, CLASS_ANY, 0, |TsigRdata(t)|);
    TsigRdataRead(buf, p1 + 10, t);
    TsigReads(buf, p, t.keyName, p1, FixedPart(TYPE_TSIG, CLASS_ANY, 0, |TsigRdata(t)|),
              t.(timeSigned := t.timeSigned % U48));
  }

  // ------------------------------------------------- bytes signed = bytes verified

  /** The encoding behind another header: same body, other first twelve octets. */
  lemma EncodeFromHeader(h1: Bytes, h2: Bytes, m: Message)
    requires |h1| == |h2|
    ensures |EncodeFrom(h1, m)| >= |h1| && EncodeFrom(h1, m)[..|h1|] == h1
    ensures EncodeFrom(h2, m) == h2 + EncodeFrom(h1, m)[|h1|..]
  {
    hide PutRecords, PutQuestions, EdnsTail;
    var a, b := Enc(h1, map[]), Enc(h2, map[]);
    PutQuestionsShift(a, b, m.questions);
    var a1, b1 := PutQuestions(a, m.questions), PutQuestions(b, m.questions);
    PutQuestionsGrows(a, m.questions);
    PutRecordsShift(a1, b1, |h1|, Records(m));
    PutRecordsGrows(a1, Records(m));
    assert BodyFrom(h1, m).out[..|h1|] == h1;
  }

  lemma {:induction false} PutQuestionsShift(a: Enc, b: Enc, qs: seq<Question>)
    requires |a.out| == |b.out| && a.table == b.table
    ensures var a', b' := PutQuestions(a, qs), PutQuestions(b, qs);
      && |a'.out| == |b'.out| && a'.table == b'.table
      && |a'.out| >= |a.out| && a'.out[|a.out|..] == b'.out[|a.out|..] && b'.out[..|a.out|] == b.out
    decreases |qs|
  {
    hide QuestionWire;
    if qs != [] {
      var e := QuestionWire(|a.out|, a.table, qs[0]);
      PutQuestionsShift(Put(a, e), Put(b, e), qs[1..]);
      PutQuestionsGrows(Put(a, e), qs[1..]);
      ShiftJoin(a.out, b.out, e.bytes, PutQuestions(a, qs).out, PutQuestions(b, qs).out);
    }
  }

  lemma {:induction false} PutRecordsShift(a: Enc, b: Enc, k: nat, rs: seq<Record>)
    requires k <= |a.out| == |b.out| && a.table == b.table && a.out[k..] == b.out[k..]
    ensures var a', b' := PutRecords(a, rs), PutRecords(b, rs);
      && |a'.out| == |b'.out| && a'.table == b'.table
      && |a'.out| >= |a.out| && a'.out[k..] == b'.out[k..] && b'.out[..k] == b.out[..k]
    decreases |rs|
  {
    hide RecordWire;
    if rs != [] {
      var e := RecordWire(|a.out|, a.table, rs[0]);
      assert (a.out + e.bytes)[k..] == a.out[k..] + e.bytes;
      assert (b.out + e.bytes)[k..] == b.out[k..] + e.bytes;
      PutRecordsShift(Put(a, e), Put(b, e), k, rs[1..]);
      assert (b.out + e.bytes)[..k] == b.out[..k];
    }
  }

  lemma ShiftJoin(a: Bytes, b: Bytes, e: Bytes, a': Bytes, b': Bytes)
    requires |a| == |b| && a + e <= a' && |a'| == |b'|
    requires a'[|a + e|..] == b'[|a + e|..] && b'[..|a + e|] == b + e
    ensures a'[|a|..] == b'[|a|..] && b'[..|a|] == b
  {
    var n := |a + e|;
    assert a' == a'[..n] + a'[n..] && b' == b'[..n] + b'[n..];
    assert a'[..n] == a + e;
    assert a'[|a|..] == e + a'[n..];
    assert b'[|a|..] == e + b'[n..];
    assert b'[..|a|] == (b + e)[..|a|];
  }

  lemma PatchHeader(m: Message, ar: nat, ar': nat)
    ensures var h, h' := HeaderWith(m, ar), HeaderWith(m, ar');
      PatchArcount(h, ar') == h' && (ar < 65536 ==> Arcount(h) == ar)
  {
    var h, h' := HeaderWith(m, ar), HeaderWith(m, ar');
    assert h[..10] == h'[..10];
    assert h'[10..] == Be16(ar');
    assert h[10..] == Be16(ar);
    assert h[10] == h[10..][0] && h[11] == h[10..][1];
    assert h' == h'[..10] + h'[10..];
  }

  lemma Be16Wrap(a: nat)
    ensures Be16(a + 65536) == Be16(a)
  {
    hide Be16;
    Be16Low(a + 65536);
    Be16Low(a);
    assert (a + 65536) % 65536 == a % 65536;
  }

  /** Patching ARCOUNT of an encoding is the same as encoding behind the patched header. */
  lemma PatchEncoding(m: Message, ar: nat, ar': nat, tail: Bytes)
    requires ar < 65536
    ensures var w, w' := EncodeFrom(HeaderWith(m, ar), m), EncodeFrom(HeaderWith(m, ar'), m);
      |w| >= 12 && |w'| == |w| && Arcount(w) == ar && PatchArcount(w + tail, ar') == w' + tail
  {
    hide EncodeFrom, HeaderWith;
    var h, h' := HeaderWith(m, ar), HeaderWith(m, ar');
    var w, w' := EncodeFrom(h, m), EncodeFrom(h', m);
    EncodeFromHeader(h, h', m);
    PatchHeader(m, ar, ar');
    assert w == h + w[12..];
    assert (w + tail)[..10] == h[..10];
    assert (w + tail)[12..] == w[12..] + tail;
    assert PatchArcount(w + tail, ar') == PatchArcount(h, ar') + (w[12..] + tail);
  }

  /** A signed message: encoded behind the raised ARCOUNT, then the TSIG record. */
  lemma SignedWire(m: Message, t: Tsig)
    requires ArCount(m) < 65536
    ensures EncodeWithTsig(m, t) == EncodeFrom(HeaderWith(m, ArCount(m) + 1), m) + TsigWire(t)
    ensures |EncodeFrom(HeaderWith(m, ArCount(m) + 1), m)| == |Encode(m)|
  {
    hide EncodeFrom, HeaderWith, TsigWire, Arcount, PatchArcount;
    PatchEncoding(m, ArCount(m), ArCount(m) + 1, TsigWire(t));
  }

  /** What the verifier digests is what the signer digested. */
  lemma VerifiedBody(m: Message, t: Tsig)
    requires ArCount(m) + 1 < 65536
    ensures var raw := EncodeWithTsig(m, t);
      var start := |Encode(m)|;
      && 12 <= start <= |raw|
      && PatchArcount(raw[..start], Arcount(raw[..start]) + 65535) == Encode(m)
  {
    hide EncodeFrom, HeaderWith, TsigWire, Arcount, PatchArcount, EncodeWithTsig;
    var ar := ArCount(m);
    SignedWire(m, t);
    var w1 := EncodeFrom(HeaderWith(m, ar + 1), m);
    assert EncodeWithTsig(m, t)[..|w1|] == w1;
    PatchEncoding(m, ar + 1, ar + 1 + 65535, []);
    assert w1 + [] == w1;
    assert EncodeFrom(HeaderWith(m, ar + 65536), m) + [] == EncodeFrom(HeaderWith(m, ar + 65536), m);
    HeaderWrap(m, ar);
  }

  lemma HeaderWrap(m: Message, ar: nat)
    ensures HeaderWith(m, ar + 65536) == HeaderWith(m, ar)
  {
    hide Be16;
    Be16Wrap(ar);
  }

  // ----------------------------------------------------------------- theorems

  predicate WfKey(key: TsigKey) { ValidName(key.name) }

  lemma AlgorithmNameValid(a: Algorithm)
    ensures ValidName(AlgorithmName(a)) && AlgorithmOf(AlgorithmName(a)) == Some(a)
  {
    var n := AlgorithmName(a);
    assert |n[0]| == 11;
    assert n[1..] == [];
    assert WireLen(n) == |n[0]| + 1 + WireLen(n[1..]);
    assert AlgorithmName(HmacSha256)[0][8] != AlgorithmName(HmacSha512)[0][8];
  }

  /** Whether a signed message parses is decided by the body alone; if it does, TSIG and cut point are exact. */
  lemma ParseSigned(m: Message, t: Tsig)
    requires WfMessage(m) && ArCount(m) + 1 < 65536 && WfTsig(t)
    ensures var raw := EncodeWithTsig(m, t);
      Parse(raw) ==
      if ShallowFrom(HeaderWith(m, ArCount(m) + 1), m)
      then Got(m.(tsig := Some(t.(timeSigned := t.timeSigned % U48)), tsigStart := Some(|Encode(m)|)), |raw|)
      else Fail(CompressionLoop)
  {
    hide EncodeFrom, HeaderWith, TsigWire, EncodeWithTsig, Parse, ShallowFrom, WfMessage, ReadEntry;
    var raw := EncodeWithTsig(m, t);
    SignedWire(m, t);
    var w := EncodeFrom(HeaderWith(m, ArCount(m) + 1), m);
    PrefixOccurs(w, TsigWire(t), raw);
    ParseEncoded(m, 1, raw);
    TsigRead(raw, |w|, t);
    ExtraOne(raw, |w|, Extra(m.additionals, m.edns, None, None));
  }

  lemma ExtraOne(buf: Bytes, pos: nat, x: Extra)
    requires ReadEntry(buf, pos).Got?
    ensures ReadExtra(buf, pos, 1, x) == Got(AddEntry(x, ReadEntry(buf, pos).value, pos), ReadEntry(buf, pos).pos)
  {
    hide ReadEntry;
    var e := ReadEntry(buf, pos);
    assert ReadExtra(buf, e.pos, 0, AddEntry(x, e.value, pos)) == Got(AddEntry(x, e.value, pos), e.pos);
  }

  lemma VariablesWrap(t: Tsig, time: nat)
    requires time == t.timeSigned % U48
    ensures Variables(t.(timeSigned := time)) == Variables(t)
  {
    Be48Low(t.timeSigned);
  }

  /**
   * A message signed with a key the verifier holds is accepted exactly when the clocks agree within
   * the fudge (and otherwise refused for its time, never for its MAC), and the verifier learns the
   * signer's MAC. Holds for requests, responses and transfer frames alike, for any HMAC.
   */
  lemma SignedVerifies(hmac: Hmac, m: Message, key: TsigKey, prior: Option<Bytes>, now: nat, ring: map<DnsName, TsigKey>, later: nat)
    requires WfMessage(m) && ArCount(m) + 1 < 65536 && WfKey(key)
    requires ShallowFrom(HeaderWith(m, ArCount(m) + 1), m)
    requires key.name in ring && ring[key.name] == key
    ensures var raw := Sign(hmac, m, key, prior, now);
      var t := SignedTsig(hmac, m, key, prior, now);
      && Parse(raw).Got?
      && Parse(raw).value == m.(tsig := Some(t.(timeSigned := now % U48)), tsigStart := Some(|Encode(m)|))
      && 12 <= |Encode(m)| <= |raw|
      && Verify(hmac, Parse(raw).value, raw, ring, later, prior) ==
         if AbsDiff(later, now % U48) <= MAX_CLOCK_SKEW then Accepted(t.mac) else Rejected(BadTime)
  {
    hide Parse, EncodeWithTsig, ShallowFrom, Variables, Encode, PatchArcount, Arcount, HeaderWith, WfMessage;
    var t := SignedTsig(hmac, m, key, prior, now);
    AlgorithmNameValid(key.algorithm);
    SignedTsigWf(hmac, m, key, prior, now);
    ParseSigned(m, t);
    VerifiedBody(m, t);
    VariablesWrap(t, now % U48);
    VariablesNoMac(t);
  }

  lemma VariablesNoMac(t: Tsig)
    ensures Variables(t) == Variables(t.(mac := []))
  {
  }

  lemma SignedTsigWf(hmac: Hmac, m: Message, key: TsigKey, prior: Option<Bytes>, now: nat)
    requires WfMessage(m) && WfKey(key)
    ensures WfTsig(SignedTsig(hmac, m, key, prior, now))
  {
    hide Encode, ValidName, AlgorithmName;
    AlgorithmNameValid(key.algorithm);
  }

  // ------------------------------------------------ what an accepted message is

  function BodyOf(raw: Bytes, start: nat): Bytes
    requires 12 <= start <= |raw|
  {
    PatchArcount(raw[..start], Arcount(raw[..start]) + 65535)
  }

  /** With the same key names and no other data, equal digests have equal bodies. */
  lemma DigestSplits(a: Bytes, t: Tsig, b: Bytes, u: Tsig, prior: Option<Bytes>)
    requires t.keyName == u.keyName && t.algorithm == u.algorithm && t.other == [] && u.other == []
    requires DigestInput(a, t, prior) == DigestInput(b, u, prior)
    ensures a == b && Variables(t) == Variables(u)
  {
    hide PlainWire, Be16, Be32, Be48;
    var head := if prior.Some? then Be16(|prior.value|) + prior.value else [];
    var d := DigestInput(a, t, prior);
    assert d == head + a + Variables(t) && d == head + b + Variables(u);
    VariablesLength(t, u);
    assert |a| == |b|;
    assert a == d[|head|..|head| + |a|] && b == d[|head|..|head| + |b|];
    assert Variables(t) == d[|head| + |a|..] && Variables(u) == d[|head| + |b|..];
  }

  lemma VariablesLength(t: Tsig, u: Tsig)
    requires t.keyName == u.keyName && t.algorithm == u.algorithm && |t.other| == |u.other|
    ensures |Variables(t)| == |Variables(u)|
  {
    hide PlainWire;
  }

  /** The received bytes before the TSIG record are the signed message behind its raised ARCOUNT. */
  lemma BodyBinds(m: Message, raw: Bytes, start: nat)
    requires 12 <= start <= |raw| && ArCount(m) + 1 < 65536 && BodyOf(raw, start) == Encode(m)
    ensures EncodeFrom(HeaderWith(m, ArCount(m) + 1), m) == raw[..start] <= raw && start == |Encode(m)|
  {
    hide EncodeFrom, HeaderWith;
    var cut, w, ar := raw[..start], Encode(m), ArCount(m);
    PatchEncoding(m, ar, ar + 1, []);
    assert w + [] == w && EncodeFrom(HeaderWith(m, ar + 1), m) + [] == EncodeFrom(HeaderWith(m, ar + 1), m);
    assert w[..10] == cut[..10] && w[12..] == cut[12..];
    CountRaised(m, cut);
    assert PatchArcount(w, ar + 1) == cut[..10] + cut[10..12] + cut[12..] == cut;
  }

  lemma CountRaised(m: Message, cut: Bytes)
    requires |cut| >= 12 && ArCount(m) + 1 < 65536 && PatchArcount(cut, Arcount(cut) + 65535) == Encode(m)
    ensures Be16(ArCount(m) + 1) == cut[10..12]
  {
    hide EncodeFrom, PutRecords, PutQuestions;
    var w, ar := Encode(m), ArCount(m);
    EncodeCounts(m);
    assert Be16(Arcount(cut) + 65535) == w[10..12] == Be16(ar);
    CountBack(Arcount(cut), ar);
    WordBack(cut);
  }

  /** In 16 bits, 65535 more is one less. */
  lemma CountBack(a: nat, ar: nat)
    requires a < 65536 && ar + 1 < 65536 && Be16(a + 65535) == Be16(ar)
    ensures a == ar + 1
  {
    var x := (a + 65535) % 65536;
    assert Be16(a + 65535)[0] == Be16(ar)[0] && Be16(a + 65535)[1] == Be16(ar)[1];
  }

  lemma WordBack(cut: Bytes)
    requires |cut| >= 12
    ensures Arcount(cut) < 65536 && Be16(Arcount(cut)) == cut[10..12]
  {
  }

  lemma EncodeCounts(m: Message)
    ensures |Encode(m)| >= 12 && Encode(m)[10..12] == Be16(ArCount(m))
  {
    hide PutRecords, PutQuestions, EdnsTail, Be16, FlagsWord;
    var hdr := HeaderWith(m, ArCount(m));
    PutQuestionsGrows(Enc(hdr, map[]), m.questions);
    PutRecordsGrows(PutQuestions(Enc(hdr, map[]), m.questions), Records(m));
    assert Encode(m)[..12] == hdr && hdr[10..12] == Be16(ArCount(m));
    assert Encode(m)[10..12] == Encode(m)[..12][10..12];
  }

  /**
   * What an accepted MAC vouches for. If a received message is accepted under a key with the MAC of a
   * message signed with it, and the HMAC does not collide on the two, then what was received is the
   * signed message, read back in full, with the signer's time and fudge. The received TSIG is taken to
   * carry no other data, as the program's own never does.
   */
  lemma AcceptedIsSigned(
    hmac: Hmac, m: Message, key: TsigKey, prior: Option<Bytes>, now: nat, raw: Bytes, later: nat)
    requires WfMessage(m) && ArCount(m) + 1 < 65536 && Parse(raw).Got?
    requires var got := Parse(raw).value;
      && got.tsig.Some? && got.tsigStart.Some? && 12 <= got.tsigStart.value <= |raw| && got.tsig.value.other == []
      && Verify(hmac, got, raw, map[key.name := key], later, prior) ==
         Accepted(SignedTsig(hmac, m, key, prior, now).mac)
      && var mine := DigestInput(Encode(m), MakeTsig(key, now, m.id, 0), prior);
         var theirs := DigestInput(BodyOf(raw, got.tsigStart.value), got.tsig.value, prior);
         hmac(key.algorithm, key.secret, mine) == hmac(key.algorithm, key.secret, theirs) ==> mine == theirs
    ensures var got := Parse(raw).value;
      && got == m.(tsig := got.tsig, tsigStart := Some(|Encode(m)|))
      && Variables(got.tsig.value) == Variables(SignedTsig(hmac, m, key, prior, now))
  {
    hide Parse, Encode, EncodeFrom, HeaderWith, Variables, DigestInput, PatchArcount, Arcount, WfMessage, ShallowFrom,
      ReadExtra, AlgorithmName;
    var got := Parse(raw).value;
    var t, u, start := MakeTsig(key, now, m.id, 0), got.tsig.value, got.tsigStart.value;
    VerdictReads(hmac, got, raw, key, later, prior);
    DigestSplits(Encode(m), t, BodyOf(raw, start), u, prior);
    VariablesNoMac(SignedTsig(hmac, m, key, prior, now));
    BodyBinds(m, raw, start);
    ParseEncoded(m, 1, raw);
    OneExtra(m, raw, start);
  }

  /** What acceptance under a single key says. */
  lemma VerdictReads(hmac: Hmac, m: Message, raw: Bytes, key: TsigKey, now: nat, prior: Option<Bytes>)
    requires m.tsig.Some? && m.tsigStart.Some? && 12 <= m.tsigStart.value <= |raw|
    requires Verify(hmac, m, raw, map[key.name := key], now, prior).Accepted?
    ensures var u := m.tsig.value;
      && u.keyName == key.name && u.algorithm == AlgorithmName(key.algorithm)
      && Verify(hmac, m, raw, map[key.name := key], now, prior).mac ==
         hmac(key.algorithm, key.secret, DigestInput(BodyOf(raw, m.tsigStart.value), u, prior))
  {
    hide DigestInput, PatchArcount, Arcount, AlgorithmName;
  }

  /** The one entry behind the body is the TSIG record. */
  lemma OneExtra(m: Message, raw: Bytes, start: nat)
    requires var x := ReadExtra(raw, start, 1, Extra(m.additionals, m.edns, None, None));
      x.Got? && x.value.tsig.Some?
    ensures var x := ReadExtra(raw, start, 1, Extra(m.additionals, m.edns, None, None)).value;
      WithExtra(m, x) == m.(tsig := x.tsig, tsigStart := Some(start))
  {
    hide ReadEntry;
    ExtraOne(raw, start, Extra(m.additionals, m.edns, None, None));
  }
}
