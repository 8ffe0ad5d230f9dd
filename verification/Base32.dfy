/**
 * base32hex with the rolling 32-bit accumulator rdns uses, and its inverse. The specification
 * keeps only the pending bits; the accumulator agrees with it in its low bits.
 */
module Base32 {
  import opened Bytes
  import opened Names
  import opened Messages
  import opened Bitmaps

  // ---------------------------------------------------------------- digits

  function Digit(v: nat): Byte
    requires v < 32
  {
    if v < 10 then (48 + v) as Byte else (87 + v) as Byte
  }

  function DigitValue(c: Byte): (r: Option<nat>)
    ensures r.Some? ==> r.value < 32
  {
    if 48 <= c <= 57 then Some((c - 48) as nat)
    else if 97 <= LowerByte(c) <= 118 then Some((LowerByte(c) - 87) as nat)
    else None
  }

  // ---------------------------------------------- pending bits, specification

  function Low(v: nat, k: nat): (r: nat)
    ensures r < Pow2(k)
  {
    v % Pow2(k)
  }

  function Quotient(v: nat, d: nat, top: nat): (r: nat)
    requires d > 0 && v < d * top
    ensures r < top
  {
    Split(v, d, top);
    v / d
  }

  function High(v: nat, k: nat, top: nat): (r: nat)
    requires v < Pow2(k) * top
    ensures r < top
  {
    Quotient(v, Pow2(k), top)
  }

  function Shift8(v: nat, b: Byte): nat { v * 256 + b as nat }

  function Shift5(w: nat, d: nat): nat { w * 32 + d }

  /** Digits for `n` pending bits of value `v` followed by `data`; the last digit is padded with zeros. */
  function DigitsOf(data: Bytes, v: nat, n: nat): (r: Bytes)
    requires v < Pow2(n)
    decreases |data|, n
  {
    if n >= 5 then
      Pow2Add(n - 5, 5);
      [Digit(High(v, n - 5, 32))] + DigitsOf(data, Low(v, n - 5), n - 5)
    else if data != [] then
      LoadOctet(v, n, data[0]);
      DigitsOf(data[1..], Shift8(v, data[0]), n + 8)
    else if n > 0 then
      LastDigit(v, n);
      [Digit(v * Pow2(5 - n))]
    else []
  }

  /** Octets from `m` pending bits of value `w` and the digits `s`; what is left over is dropped. */
  function OctetsOf(s: Bytes, w: nat, m: nat): Option<Bytes>
    requires w < Pow2(m) && m < 8
  {
    if s == [] then Some([])
    else if DigitValue(s[0]).None? then None
    else
      LoadDigit(w, m, DigitValue(s[0]).value);
      var w' := Shift5(w, DigitValue(s[0]).value);
      if m + 5 < 8 then OctetsOf(s[1..], w', m + 5)
      else
        Pow2Add(m - 3, 8);
        match OctetsOf(s[1..], Low(w', m - 3), m - 3)
        case None => None
        case Some(rest) => Some([High(w', m - 3, 256) as Byte] + rest)
  }

  function Base32Hex(data: Bytes): Bytes { DigitsOf(data, 0, 0) }

  function Base32HexDecode(s: Bytes): Option<Bytes> { OctetsOf(s, 0, 0) }

  // ------------------------------------------------------------- arithmetic

  lemma {:induction false} Pow2Sum(a: nat, b: nat)
    ensures Pow2(a + b) == Pow2(a) * Pow2(b)
  {
    if b > 0 {
      Pow2Sum(a, b - 1);
      assert Pow2(a) * (2 * Pow2(b - 1)) == 2 * (Pow2(a) * Pow2(b - 1));
    }
  }

  lemma Pow2Add(a: nat, b: nat)
    ensures Pow2(a + b) == Pow2(a) * Pow2(b)
    ensures Pow2(5) == 32 && Pow2(8) == 256 && Pow2(0) == 1 && Pow2(32) == U32
  {
    hide Pow2;
    Pow2Sum(a, b);
    Pow2Small();
  }

  lemma Pow2Small()
    ensures Pow2(5) == 32 && Pow2(8) == 256 && Pow2(0) == 1 && Pow2(32) == U32
  {
    assert Pow2(8) == 8 * Pow2(5) == 256;
    Pow2Sum(8, 8);
    Pow2Sum(16, 16);
  }

  lemma Split(v: nat, d: nat, top: nat)
    requires d > 0 && v < d * top
    ensures 0 <= v / d < top
  {
    var q := v / d;
    assert v == q * d + v % d;
    MulMono(q, top, d);
  }

  lemma LoadOctet(v: nat, n: nat, b: Byte)
    requires v < Pow2(n)
    ensures Shift8(v, b) < Pow2(n + 8)
  {
    Pow2Add(n, 8);
  }

  lemma LoadDigit(w: nat, m: nat, d: nat)
    requires w < Pow2(m) && d < 32
    ensures Shift5(w, d) < Pow2(m + 5)
  {
    Pow2Add(m, 5);
  }

  lemma LastDigit(v: nat, n: nat)
    requires 0 < n < 5 && v < Pow2(n)
    ensures v * Pow2(5 - n) < 32
  {
    Pow2Add(n, 5 - n);
    var p := Pow2(5 - n);
    MulMono(v + 1, Pow2(n), p);
    assert (v + 1) * p == v * p + p;
  }

  // ------------------------------------------------------------- round trip

  /** The octets of a `k`-bit number, for `k` a multiple of eight. */
  function Octets(u: nat, k: nat): Bytes
    requires u < Pow2(k)
  {
    if k < 8 then []
    else
      Pow2Add(k - 8, 8);
      [High(u, k - 8, 256) as Byte] + Octets(Low(u, k - 8), k - 8)
  }

  lemma DigitBack(v: nat)
    requires v < 32
    ensures DigitValue(Digit(v)) == Some(v)
  {
  }

  /** `w` followed by `n` bits of value `v`. */
  function Join(w: nat, v: nat, n: nat): nat { w * Pow2(n) + v }

  lemma Joined(w: nat, m: nat, v: nat, n: nat)
    requires w < Pow2(m) && v < Pow2(n)
    ensures Join(w, v, n) < Pow2(m + n)
  {
    Pow2Add(m, n);
    MulMono(Pow2(m), w, Pow2(n));
  }

  lemma MoveDigit(w: nat, v: nat, n: nat)
    requires n >= 5 && v < Pow2(n)
    ensures v < Pow2(n - 5) * 32
    ensures Join(w, v, n) == Join(Shift5(w, High(v, n - 5, 32)), Low(v, n - 5), n - 5)
  {
    Pow2Add(n - 5, 5);
    var p := Pow2(n - 5);
    var c := v / p;
    assert v == c * p + v % p;
    assert w * Pow2(n) == w * 32 * p by { assert w * (p * 32) == w * 32 * p; }
    assert (w * 32 + c) * p == w * 32 * p + c * p;
  }

  lemma MoveOctet(w: nat, v: nat, n: nat, b: Byte)
    ensures Join(w, Shift8(v, b), n + 8) == Shift8(Join(w, v, n), b)
  {
    Pow2Add(n, 8);
    assert w * (Pow2(n) * 256) == w * Pow2(n) * 256;
  }

  lemma JoinedDiv(w: nat, m: nat, v: nat, n: nat)
    requires 8 <= m && w < Pow2(m) && v < Pow2(n)
    ensures var d := Pow2(m - 8 + n);
      Join(w, v, n) / d == w / Pow2(m - 8) && Join(w, v, n) % d == Join(w % Pow2(m - 8), v, n)
  {
    hide Pow2;
    Pow2Add(m - 8, n);
    var a, p := Pow2(m - 8), Pow2(n);
    var u := w * p + v;
    var q, r := w / a, w % a;
    assert w == q * a + r;
    Joined(r, m - 8, v, n);
    assert u == q * (a * p) + (r * p + v) by {
      assert (q * a + r) * p == q * (a * p) + r * p;
    }
    DivIs(u, a * p, q, r * p + v);
  }

  /** The first octet of joined bits comes from the left part alone. */
  lemma FirstOctet(w: nat, m: nat, v: nat, n: nat)
    requires 8 <= m && w < Pow2(m) && v < Pow2(n)
    ensures w < Pow2(m - 8) * 256 && Join(w, v, n) < Pow2(m + n)
    ensures Join(Low(w, m - 8), v, n) < Pow2(m - 8 + n)
    ensures Octets(Join(w, v, n), m + n) ==
      [High(w, m - 8, 256) as Byte] + Octets(Join(Low(w, m - 8), v, n), m - 8 + n)
  {
    hide Pow2, Join;
    Pow2Add(m - 8, 8);
    Joined(w, m, v, n);
    Pow2Add(m + n - 8, 8);
    Joined(Low(w, m - 8), m - 8, v, n);
    JoinedDiv(w, m, v, n);
    assert m + n - 8 == m - 8 + n;
  }

  lemma PushOctet(u: nat, k: nat, b: Byte)
    requires u < Pow2(k) && (k == 0 || k == 8)
    ensures Shift8(u, b) < Pow2(k + 8)
    ensures Octets(Shift8(u, b), k + 8) == Octets(u, k) + [b]
  {
    LoadOctet(u, k, b);
    Pow2Small();
    OneOctet(b as nat);
    if k == 8 {
      OneOctet(u);
      FirstOctet(u, 8, b as nat, 8);
    }
  }

  lemma OneOctet(u: nat)
    requires u < 256
    ensures u < Pow2(8) && Octets(u, 8) == [u as Byte]
  {
    Pow2Small();
    assert Octets(Low(u, 0), 0) == [];
    assert High(u, 0, 256) == u;
  }

  lemma NoOctets(u: nat)
    requires u < Pow2(0)
    ensures Octets(u, 0) == []
  {
  }

  lemma SendDigit(data: Bytes, v: nat, n: nat, w: nat, m: nat)
    requires n >= 5 && v < Pow2(n) && w < Pow2(m) && m < 8
    ensures v < Pow2(n - 5) * 32
    ensures var w' := Shift5(w, High(v, n - 5, 32));
      var rest := DigitsOf(data, Low(v, n - 5), n - 5);
      && w' < Pow2(m + 5)
      && (m + 5 < 8 ==> OctetsOf(DigitsOf(data, v, n), w, m) == OctetsOf(rest, w', m + 5))
      && (m + 5 >= 8 ==>
            && w' < Pow2(m - 3) * 256
            && OctetsOf(DigitsOf(data, v, n), w, m) ==
               match OctetsOf(rest, Low(w', m - 3), m - 3)
               case None => None
               case Some(more) => Some([High(w', m - 3, 256) as Byte] + more))
  {
    hide Pow2, DigitValue, Digit, High, Low, Shift5;
    Pow2Add(n - 5, 5);
    var c := High(v, n - 5, 32);
    DigitBack(c);
    LoadDigit(w, m, c);
    if m >= 3 {
      Pow2Add(m - 3, 8);
    }
    var rest := DigitsOf(data, Low(v, n - 5), n - 5);
    assert DigitsOf(data, v, n) == [Digit(c)] + rest;
    assert ([Digit(c)] + rest)[1..] == rest;
  }

  lemma LoadsNext(data: Bytes, v: nat, n: nat)
    requires data != [] && n < 5 && v < Pow2(n)
    ensures Shift8(v, data[0]) < Pow2(n + 8) && DigitsOf(data, v, n) == DigitsOf(data[1..], Shift8(v, data[0]), n + 8)
  {
    hide Pow2, Digit, High, Low, Shift8;
    LoadOctet(v, n, data[0]);
  }

  /** The last, padded digit completes exactly one octet. */
  lemma PadsToOctet(v: nat, n: nat, w: nat)
    requires 0 < n < 5 && v < Pow2(n) && w < Pow2(8 - n)
    ensures v * Pow2(5 - n) < 32 && Join(w, v, n) < 256
    ensures var w' := Shift5(w, v * Pow2(5 - n));
      w' < Pow2(5 - n) * 256 && High(w', 5 - n, 256) == Join(w, v, n)
  {
    hide Pow2;
    Pow2Values();
    if n == 1 {
    } else if n == 2 {
    } else if n == 3 {
    } else {
    }
  }

  lemma Pow2Values()
    ensures Pow2(1) == 2 && Pow2(2) == 4 && Pow2(3) == 8 && Pow2(4) == 16
    ensures Pow2(5) == 32 && Pow2(6) == 64 && Pow2(7) == 128 && Pow2(8) == 256
  {
  }

  lemma SendRest(v: nat, n: nat, w: nat, m: nat)
    requires n < 5 && v < Pow2(n) && w < Pow2(m) && m < 8 && (m + n) % 8 == 0
    ensures Join(w, v, n) < Pow2(m + n)
    ensures OctetsOf(DigitsOf([], v, n), w, m) == Some(Octets(Join(w, v, n), m + n))
  {
    hide Pow2, Octets, Digit, DigitValue, High, Low, Join, Shift5;
    Joined(w, m, v, n);
    if n == 0 {
      NoOctets(Join(w, v, n));
    } else {
      PadsToOctet(v, n, w);
      var c := v * Pow2(5 - n);
      DigitBack(c);
      LoadDigit(w, m, c);
      OneOctet(Join(w, v, n));
      var s := [Digit(c)];
      assert s[1..] == [] && m == 8 - n && m - 3 == 5 - n && m + n == 8;
      LastDigit(v, n);
      assert DigitsOf([], v, n) == s;
      LastStep(s, w, m, c);
    }
  }

  lemma LastStep(s: Bytes, w: nat, m: nat, c: nat)
    requires |s| == 1 && DigitValue(s[0]) == Some(c) && 3 <= m < 8 && w < Pow2(m)
    requires Shift5(w, c) < Pow2(m - 3) * 256
    ensures OctetsOf(s, w, m) == Some([High(Shift5(w, c), m - 3, 256) as Byte])
  {
    hide Pow2, DigitValue, High, Low, Shift5;
    LoadDigit(w, m, c);
    assert s[1..] == [];
    assert OctetsOf(s[1..], Low(Shift5(w, c), m - 3), m - 3) == Some([]);
    var top := [High(Shift5(w, c), m - 3, 256) as Byte];
    assert top + [] == top;
  }

  /** Decoding what is still to be encoded gives the joined pending bits and then the data. */
  lemma {:induction false} DecodesEncoded(data: Bytes, v: nat, n: nat, w: nat, m: nat)
    requires v < Pow2(n) && w < Pow2(m) && m < 8 && n <= 12 && (m + n) % 8 == 0
    ensures Join(w, v, n) < Pow2(m + n)
    ensures OctetsOf(DigitsOf(data, v, n), w, m) == Some(Octets(Join(w, v, n), m + n) + data)
    decreases |data|, n
  {
    hide Pow2, Octets, DigitValue, Digit, DigitsOf, OctetsOf, High, Low, Join, Shift5, Shift8;
    Joined(w, m, v, n);
    if n >= 5 {
      SendDigit(data, v, n, w, m);
      MoveDigit(w, v, n);
      var w', v' := Shift5(w, High(v, n - 5, 32)), Low(v, n - 5);
      if m + 5 < 8 {
        DecodesEncoded(data, v', n - 5, w', m + 5);
      } else {
        DecodesEncoded(data, v', n - 5, Low(w', m - 3), m - 3);
        FirstOctetThen(w', m + 5, v', n - 5, data);
      }
    } else if data != [] {
      var b := data[0];
      LoadsNext(data, v, n);
      MoveOctet(w, v, n, b);
      PushOctet(Join(w, v, n), m + n, b);
      DecodesEncoded(data[1..], Shift8(v, b), n + 8, w, m);
      assert m + (n + 8) == m + n + 8;
      assert Octets(Join(w, v, n), m + n) + [b] + data[1..] == Octets(Join(w, v, n), m + n) + data;
    } else {
      SendRest(v, n, w, m);
      assert Octets(Join(w, v, n), m + n) + [] == Octets(Join(w, v, n), m + n);
    }
  }

  lemma FirstOctetThen(w: nat, m: nat, v: nat, n: nat, data: Bytes)
    requires 8 <= m && w < Pow2(m) && v < Pow2(n)
    ensures w < Pow2(m - 8) * 256 && Join(w, v, n) < Pow2(m + n)
    ensures Join(Low(w, m - 8), v, n) < Pow2(m - 8 + n)
    ensures Octets(Join(w, v, n), m + n) + data ==
      [High(w, m - 8, 256) as Byte] + (Octets(Join(Low(w, m - 8), v, n), m - 8 + n) + data)
  {
    hide Pow2, Octets, High, Low, Join;
    FirstOctet(w, m, v, n);
    var top, rest := [High(w, m - 8, 256) as Byte], Octets(Join(Low(w, m - 8), v, n), m - 8 + n);
    assert top + (rest + data) == (top + rest) + data;
  }

  /** Every octet string survives the round trip. */
  lemma Base32RoundTrip(data: Bytes)
    ensures Base32HexDecode(Base32Hex(data)) == Some(data)
  {
    Pow2Small();
    DecodesEncoded(data, 0, 0, 0, 0);
    NoOctets(0);
    assert [] + data == data;
  }

  // --------------------------------------------------- the 32-bit accumulator

  /** Shifting left by `s` shifts the low digits too. */
  lemma ShiftMod(x: nat, p: nat, s: nat, d: nat)
    requires p > 0 && d < s
    ensures 0 < p * s && (x * s + d) % (p * s) == x % p * s + d
  {
    var q, r := x / p, x % p;
    assert x == q * p + r;
    MulMono(p, r, s);
    assert (q * p + r) * s == q * (p * s) + r * s;
    DivIs(x * s + d, p * s, q, r * s + d);
  }

  lemma WrapMod(x: nat, a: nat, b: nat)
    requires 0 < a && 0 < b && a * b == U32
    ensures x % U32 % a == x % a
  {
    ModDigits(x, a, b);
  }

  lemma AccLoad(buf: nat, k: nat, b: Byte)
    requires k <= 24
    ensures Low((buf * 256 + b as nat) % U32, k + 8) == Shift8(Low(buf, k), b)
  {
    hide Pow2;
    Pow2Add(k + 8, 24 - k);
    Pow2Add(k, 8);
    WrapMod(buf * 256 + b as nat, Pow2(k + 8), Pow2(24 - k));
    ShiftMod(buf, Pow2(k), 256, b as nat);
  }

  lemma AccLoadDigit(buf: nat, k: nat, d: nat)
    requires k <= 24 && d < 32
    ensures Low((buf * 32 + d) % U32, k + 5) == Shift5(Low(buf, k), d)
  {
    hide Pow2;
    Pow2Add(k + 5, 27 - k);
    Pow2Add(k, 5);
    WrapMod(buf * 32 + d, Pow2(k + 5), Pow2(27 - k));
    ShiftMod(buf, Pow2(k), 32, d);
  }

  lemma AccTop(buf: nat, k: nat, size: nat)
    requires size == 5 || size == 8
    ensures Low(buf, k + size) < Pow2(k) * Pow2(size)
    ensures buf / Pow2(k) % Pow2(size) == High(Low(buf, k + size), k, Pow2(size))
    ensures Low(Low(buf, k + size), k) == Low(buf, k)
  {
    hide Pow2;
    Pow2Add(k, size);
    ModDigits(buf, Pow2(k), Pow2(size));
  }

  lemma AccLast(buf: nat, k: nat)
    requires 0 < k < 5
    ensures buf * Pow2(5 - k) % U32 % 32 == Low(buf, k) * Pow2(5 - k)
  {
    hide Pow2;
    Pow2Add(k, 5 - k);
    Pow2Add(5, 27);
    WrapMod(buf * Pow2(5 - k), 32, Pow2(27));
    ShiftMod(buf, Pow2(k), Pow2(5 - k), 0);
  }

  lemma LowNone(buf: nat)
    ensures Low(buf, 0) == 0
  {
  }

  method EncodeBase32Hex(data: Bytes) returns (out: Bytes)
    ensures out == Base32Hex(data)
  {
    hide Pow2, Digit, High, Low, Shift8;
    Pow2Small();
    out := [];
    var buf: nat := 0;
    var bits: nat := 0;
    LowNone(0);
    for i := 0 to |data|
      invariant bits < 5
      invariant out + DigitsOf(data[i..], Low(buf, bits), bits) == Base32Hex(data)
    {
      assert data[i..][0] == data[i] && data[i..][1..] == data[i + 1..];
      AccLoad(buf, bits, data[i]);
      buf := (buf * 256 + data[i] as nat) % U32;
      bits := bits + 8;
      while bits >= 5
        invariant bits <= 12
        invariant out + DigitsOf(data[i + 1..], Low(buf, bits), bits) == Base32Hex(data)
      {
        ghost var rest := DigitsOf(data[i + 1..], Low(buf, bits - 5), bits - 5);
        bits := bits - 5;
        AccTop(buf, bits, 5);
        var d := Digit(buf / Pow2(bits) % 32);
        assert out + ([d] + rest) == (out + [d]) + rest;
        out := out + [d];
      }
    }
    if bits > 0 {
      AccLast(buf, bits);
      out := out + [Digit(buf * Pow2(5 - bits) % U32 % 32)];
    } else {
      assert out + [] == out;
    }
  }

  function Prepend(out: Bytes, rest: Option<Bytes>): Option<Bytes> {
    match rest
    case None => None
    case Some(more) => Some(out + more)
  }

  lemma PrependNone(rest: Option<Bytes>)
    ensures Prepend([], rest) == rest
  {
    if rest.Some? {
      assert [] + rest.value == rest.value;
    }
  }

  lemma PrependOne(out: Bytes, b: Byte, rest: Option<Bytes>)
    ensures Prepend(out, Prepend([b], rest)) == Prepend(out + [b], rest)
  {
    if rest.Some? {
      assert out + ([b] + rest.value) == (out + [b]) + rest.value;
    }
  }

  method DecodeBase32Hex(s: Bytes) returns (r: Option<Bytes>)
    ensures r == Base32HexDecode(s)
  {
    hide Pow2, DigitValue, High, Low, Shift5;
    Pow2Small();
    var out: Bytes := [];
    var buf: nat := 0;
    var bits: nat := 0;
    LowNone(0);
    PrependNone(Base32HexDecode(s));
    assert s[0..] == s;
    for i := 0 to |s|
      invariant bits < 8
      invariant Prepend(out, OctetsOf(s[i..], Low(buf, bits), bits)) == Base32HexDecode(s)
    {
      var v := DigitValue(s[i]);
      assert s[i..][0] == s[i] && s[i..][1..] == s[i + 1..];
      if v.None? {
        return None;
      }
      AccLoadDigit(buf, bits, v.value);
      buf := (buf * 32 + v.value) % U32;
      bits := bits + 5;
      if bits >= 8 {
        bits := bits - 8;
        AccTop(buf, bits, 8);
        PrependOne(out, (buf / Pow2(bits) % 256) as Byte, OctetsOf(s[i + 1..], Low(buf, bits), bits));
        out := out + [(buf / Pow2(bits) % 256) as Byte];
      }
    }
    r := Some(out);
    assert out + [] == out;
  }
}
