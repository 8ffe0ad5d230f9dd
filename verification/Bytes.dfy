/** Octets, big-endian integers and the wire result type shared by every other module. */
module Bytes {
  newtype Byte = b: int | 0 <= b < 256
  type Bytes = seq<Byte>

  datatype Option<+T> = None | Some(value: T)

  datatype WireError = Truncated | BadLabel | NameTooLong | CompressionLoop | BadRdata

  /** A cursor read: the value and the position just past it, or the error. */
  datatype Read<+T> = Got(value: T, pos: nat) | Fail(error: WireError) {
    predicate IsFailure() { Fail? }

    function PropagateFailure<U>(): Read<U>
      requires Fail?
    {
      Fail(error)
    }

    function Extract(): (T, nat)
      requires Got?
    {
      (value, pos)
    }
  }

  /** `(v as u16).to_be_bytes()`. */
  function Be16(v: nat): (s: Bytes)
    ensures |s| == 2
  {
    [((v / 256) % 256) as Byte, (v % 256) as Byte]
  }

  /** `(v as u32).to_be_bytes()`. */
  function Be32(v: nat): (s: Bytes)
    ensures |s| == 4
  {
    Be16(v / 65536) + Be16(v)
  }

  /** The low 48 bits of a `u64`, big-endian: `v.to_be_bytes()[2..]`. */
  function Be48(v: nat): (s: Bytes)
    ensures |s| == 6
  {
    Be16(v / 4294967296) + Be32(v)
  }

  /** `u16::from_be_bytes([s[i], s[i + 1]])`. */
  function Word(s: Bytes, i: nat): nat
    requires i + 1 < |s|
  {
    s[i] as nat * 256 + s[i + 1] as nat
  }

  function ReadBytes(buf: Bytes, pos: nat, n: nat): (r: Read<Bytes>)
    ensures r.Got? <==> pos + n <= |buf|
    ensures r.Got? ==> |r.value| == n && r.pos == pos + n
  {
    if pos + n <= |buf| then Got(buf[pos..pos + n], pos + n) else Fail(Truncated)
  }

  function ReadU8(buf: Bytes, pos: nat): (r: Read<nat>)
    ensures r.Got? <==> pos + 1 <= |buf|
    ensures r.Got? ==> r.value < 256 && r.pos == pos + 1
  {
    if pos < |buf| then Got(buf[pos] as nat, pos + 1) else Fail(Truncated)
  }

  function ReadU16(buf: Bytes, pos: nat): (r: Read<nat>)
    ensures r.Got? <==> pos + 2 <= |buf|
    ensures r.Got? ==> r.value < 65536 && r.pos == pos + 2
  {
    if pos + 2 <= |buf| then Got(Word(buf, pos), pos + 2) else Fail(Truncated)
  }

  function ReadU32(buf: Bytes, pos: nat): (r: Read<nat>)
    ensures r.Got? <==> pos + 4 <= |buf|
    ensures r.Got? ==> r.value < 4294967296 && r.pos == pos + 4
  {
    if pos + 4 <= |buf|
    then Got(Word(buf, pos) * 65536 + Word(buf, pos + 2), pos + 4)
    else Fail(Truncated)
  }

  /** `at` occurs in `buf` at offset `pos`. */
  predicate Occurs(buf: Bytes, pos: nat, at: Bytes) {
    pos + |at| <= |buf| && buf[pos..pos + |at|] == at
  }

  lemma OccursSplit(buf: Bytes, pos: nat, a: Bytes, b: Bytes)
    requires Occurs(buf, pos, a + b)
    ensures Occurs(buf, pos, a) && Occurs(buf, pos + |a|, b)
  {
    var s := buf[pos..pos + |a + b|];
    assert s[..|a|] == a;
    assert s[|a|..] == b;
  }

  lemma ReadU16Of(buf: Bytes, pos: nat, v: nat)
    requires v < 65536 && Occurs(buf, pos, Be16(v))
    ensures ReadU16(buf, pos) == Got(v, pos + 2)
  {
    var s := buf[pos..pos + 2];
    assert s[0] == buf[pos] && s[1] == buf[pos + 1];
    assert v / 256 < 256;
  }

  lemma {:induction false} MulMono(x: int, y: int, d: int)
    requires 0 < d
    ensures x >= y ==> x * d >= y * d
    ensures x > y ==> x * d >= y * d + d
    decreases x - y
  {
    if x > y {
      MulMono(x - 1, y, d);
      assert x * d == (x - 1) * d + d;
    }
  }

  /** Quotient and remainder are determined by `x == q * d + r` with `0 <= r < d`. */
  lemma DivIs(x: int, d: int, q: int, r: int)
    requires 0 < d && 0 <= r < d && x == q * d + r
    ensures x / d == q && x % d == r
  {
    var q' := x / d;
    assert x == q' * d + x % d;
    MulMono(q, q', d);
    MulMono(q', q, d);
  }

  /** Cutting off the part above `a * b` does not change the digits below it. */
  lemma ModDigits(v: nat, a: nat, b: nat)
    requires 0 < a && 0 < b && 0 < a * b
    ensures (v % (a * b)) / a == (v / a) % b && v % (a * b) % a == v % a
  {
    var q, r := v / (a * b), v % (a * b);
    var h, l := r / a, r % a;
    assert v == q * (a * b) + r && r == h * a + l;
    assert q * (a * b) == (q * b) * a;
    assert v == (q * b + h) * a + l;
    DivIs(v, a, q * b + h, l);
    MulMono(h, b, a);
    DivIs(q * b + h, b, q, h);
  }

  lemma Be16Low(v: nat)
    ensures Be16(v) == Be16(v % 65536)
  {
    ModDigits(v, 256, 256);
    assert v % 65536 / 256 < 256;
  }

  lemma ReadU32Of(buf: Bytes, pos: nat, v: nat)
    requires v < 4294967296 && Occurs(buf, pos, Be32(v))
    ensures ReadU32(buf, pos) == Got(v, pos + 4)
  {
    OccursSplit(buf, pos, Be16(v / 65536), Be16(v));
    ReadU16Of(buf, pos, v / 65536);
    Be16Low(v);
    ReadU16Of(buf, pos + 2, v % 65536);
  }
}
