/** The type bitmap of NSEC and NSEC3 records: the writer, the reader and their agreement. */
module Bitmaps {
  import opened Bytes

  /** The largest type whose one-window bitmap still has a length that fits an octet. */
  const MAX_BITMAP_TYPE: nat := 2039

  // ----------------------------------------------------------------- octets

  function Pow2(n: nat): (r: nat)
    ensures r > 0
  {
    if n == 0 then 1 else 2 * Pow2(n - 1)
  }

  /** The low `n` bits of a number, most significant first. */
  function BitsOf(v: nat, n: nat): (r: seq<bool>)
    ensures |r| == n
  {
    if n == 0 then [] else BitsOf(v / 2, n - 1) + [v % 2 == 1]
  }

  function Value(x: seq<bool>): (v: nat)
    ensures v < Pow2(|x|)
  {
    if x == [] then 0 else 2 * Value(x[..|x| - 1]) + if x[|x| - 1] then 1 else 0
  }

  lemma {:induction false} BitsOfValue(x: seq<bool>)
    ensures BitsOf(Value(x), |x|) == x
  {
    if x != [] {
      BitsOfValue(x[..|x| - 1]);
      assert x == x[..|x| - 1] + [x[|x| - 1]];
    }
  }

  function Bits(b: Byte): (r: seq<bool>)
    ensures |r| == 8
  {
    BitsOf(b as nat, 8)
  }

  function Pack(x: seq<bool>): Byte
    requires |x| == 8
  {
    assert Pow2(8) == 256;
    Value(x) as Byte
  }

  lemma BitsPack(x: seq<bool>)
    requires |x| == 8
    ensures Bits(Pack(x)) == x
  {
    BitsOfValue(x);
  }

  // ----------------------------------------------------------------- writer

  function MaxType(types: seq<nat>): (m: nat)
    ensures forall t :: t in types ==> t <= m
    ensures m == 0 || m in types
  {
    if types == [] then 0
    else
      assert types == [types[0]] + types[1..];
      var m := MaxType(types[1..]);
      if types[0] > m then types[0] else m
  }

  function Octet(types: seq<nat>, i: nat): Byte { Pack(seq(8, k requires 0 <= k < 8 => 8 * i + k in types)) }

  /** One octet for each eight types up to the largest. */
  function Bitmap(types: seq<nat>): (r: Bytes)
    ensures |r| == MaxType(types) / 8 + 1
    ensures forall i :: 0 <= i < |r| ==> r[i] == Octet(types, i)
  {
    seq(MaxType(types) / 8 + 1, i requires 0 <= i => Octet(types, i))
  }

  /** Window number, length octet and the octets. */
  function BitmapField(types: seq<nat>): Bytes {
    [0, (|Bitmap(types)| % 256) as Byte] + Bitmap(types)
  }

  function SetBit(b: Byte, k: nat): Byte
    requires k < 8
  {
    Pack(Bits(b)[k := true])
  }

  lemma SetBitGrows(types: seq<nat>, n: nat, i: nat)
    requires n < |types| && i == types[n] / 8
    ensures SetBit(Octet(types[..n], i), types[n] % 8) == Octet(types[..n + 1], i)
  {
    hide Pack, Bits;
    var before := seq(8, k requires 0 <= k < 8 => 8 * i + k in types[..n]);
    var after := seq(8, k requires 0 <= k < 8 => 8 * i + k in types[..n + 1]);
    BitsPack(before);
    assert types[..n + 1] == types[..n] + [types[n]];
    assert before[types[n] % 8 := true] == after;
  }

  lemma OtherOctet(types: seq<nat>, n: nat, i: nat)
    requires n < |types| && i != types[n] / 8
    ensures Octet(types[..n], i) == Octet(types[..n + 1], i)
  {
    hide Pack;
    assert types[..n + 1] == types[..n] + [types[n]];
    assert seq(8, k requires 0 <= k < 8 => 8 * i + k in types[..n]) ==
      seq(8, k requires 0 <= k < 8 => 8 * i + k in types[..n + 1]);
  }

  lemma EmptyOctet(i: nat)
    ensures Octet([], i) == 0
  {
    var x := seq(8, k requires 0 <= k < 8 => 8 * i + k in []);
    assert x == [false, false, false, false, false, false, false, false];
    ZeroValue(x);
  }

  lemma {:induction false} ZeroValue(x: seq<bool>)
    requires forall k :: 0 <= k < |x| ==> !x[k]
    ensures Value(x) == 0
  {
    if x != [] {
      ZeroValue(x[..|x| - 1]);
    }
  }

  /** The bitmap loop of `nsec_rdata` and `nsec3_rdata`. */
  method BuildBitmap(types: seq<nat>) returns (bitmap: array<Byte>)
    ensures fresh(bitmap) && bitmap[..] == Bitmap(types)
  {
    hide Octet, SetBit;
    var max := 0;
    for i := 0 to |types|
      invariant forall t :: t in types[..i] ==> t <= max
      invariant max == 0 || max in types
    {
      assert types[..i + 1] == types[..i] + [types[i]];
      if types[i] > max {
        max := types[i];
      }
    }
    assert types[..|types|] == types;
    bitmap := new Byte[max / 8 + 1](_ => 0);
    forall i | 0 <= i < bitmap.Length ensures bitmap[i] == Octet(types[..0], i) {
      EmptyOctet(i);
    }
    for n := 0 to |types|
      invariant forall i :: 0 <= i < bitmap.Length ==> bitmap[i] == Octet(types[..n], i)
    {
      var t := types[n];
      assert t in types;
      forall i | 0 <= i < bitmap.Length && i != t / 8 ensures Octet(types[..n], i) == Octet(types[..n + 1], i) {
        OtherOctet(types, n, i);
      }
      SetBitGrows(types, n, t / 8);
      bitmap[t / 8] := SetBit(bitmap[t / 8], t % 8);
    }
    assert types[..|types|] == types;
  }

  // ----------------------------------------------------------------- reader

  /** Type `t` is marked by octet `i` of a window; type codes wrap at 16 bits. */
  predicate MarkedAt(window: nat, octets: Bytes, i: nat, k: nat, t: nat)
    requires i < |octets| && k < 8
  {
    Bits(octets[i])[k] && (window * 256 + i * 8 + k) % 65536 == t
  }

  predicate InWindow(window: nat, octets: Bytes, t: nat) {
    exists i, k | 0 <= i < |octets| && 0 <= k < 8 :: MarkedAt(window, octets, i, k, t)
  }

  /** Type `t` is marked by some window; reading stops at a window that does not fit. */
  predicate Marked(data: Bytes, t: nat) {
    if |data| < 2 || |data| < 2 + data[1] as nat then false
    else
      var len := data[1] as nat;
      InWindow(data[0] as nat, data[2..2 + len], t) || Marked(data[2 + len..], t)
  }

  method ReadWindow(window: nat, octets: Bytes) returns (types: seq<nat>)
    ensures forall t :: t in types <==> InWindow(window, octets, t)
  {
    hide Bits, InWindow;
    types := [];
    NoOctets(window);
    assert octets[..0] == [];
    for i := 0 to |octets|
      invariant forall t :: t in types <==> InWindow(window, octets[..i], t)
    {
      ghost var before := types;
      for k := 0 to 8
        invariant forall t :: t in types <==>
          t in before || exists j | 0 <= j < k :: MarkedAt(window, octets, i, j, t)
      {
        ghost var sofar := types;
        if Bits(octets[i])[k] {
          types := types + [(window * 256 + i * 8 + k) % 65536];
        }
        assert forall t :: t in types <==> t in sofar || MarkedAt(window, octets, i, k, t);
      }
      WindowGrows(window, octets, i);
    }
    assert octets[..|octets|] == octets;
  }

  lemma NoOctets(window: nat)
    ensures forall t :: !InWindow(window, [], t)
  {
  }

  lemma WindowGrows(window: nat, octets: Bytes, i: nat)
    requires i < |octets|
    ensures forall t :: InWindow(window, octets[..i + 1], t) <==>
      InWindow(window, octets[..i], t) || exists j | 0 <= j < 8 :: MarkedAt(window, octets, i, j, t)
  {
    hide Bits;
    var less, more := octets[..i], octets[..i + 1];
    forall t ensures InWindow(window, more, t) <==>
      InWindow(window, less, t) || exists j | 0 <= j < 8 :: MarkedAt(window, octets, i, j, t)
    {
      if InWindow(window, more, t) {
        var a, k :| 0 <= a < |more| && 0 <= k < 8 && MarkedAt(window, more, a, k, t);
        if a < i {
          assert MarkedAt(window, less, a, k, t);
        } else {
          assert MarkedAt(window, octets, i, k, t);
        }
      }
      if InWindow(window, less, t) {
        var a, k :| 0 <= a < |less| && 0 <= k < 8 && MarkedAt(window, less, a, k, t);
        assert MarkedAt(window, more, a, k, t);
      }
      if j :| 0 <= j < 8 && MarkedAt(window, octets, i, j, t) {
        assert MarkedAt(window, more, i, j, t);
      }
    }
  }

  /** `parse_type_bitmap`. */
  method ParseTypeBitmap(bytes: Bytes) returns (types: seq<nat>)
    ensures forall t :: t in types <==> Marked(bytes, t)
  {
    hide InWindow;
    types := [];
    var data := bytes;
    while |data| >= 2
      invariant forall t :: t in types || Marked(data, t) <==> Marked(bytes, t)
      decreases |data|
    {
      var len := data[1] as nat;
      if |data| < 2 + len {
        break;
      }
      var more := ReadWindow(data[0] as nat, data[2..2 + len]);
      types := types + more;
      data := data[2 + len..];
    }
  }

  // -------------------------------------------------------------- agreement

  lemma MarkedBit(types: seq<nat>, t: nat)
    requires t / 8 < |Bitmap(types)|
    ensures Bits(Bitmap(types)[t / 8])[t % 8] <==> t in types
  {
    hide Pack, Bits;
    var i := t / 8;
    var x := seq(8, k requires 0 <= k < 8 => 8 * i + k in types);
    BitsPack(x);
    assert 8 * i + t % 8 == t;
  }

  lemma ListedFits(types: seq<nat>, t: nat)
    requires t in types
    ensures t / 8 < |Bitmap(types)|
  {
    hide Octet;
  }

  lemma MarkedIs(octets: Bytes, i: nat, k: nat, t: nat)
    requires i < |octets| <= 255 && k < 8 && MarkedAt(0, octets, i, k, t)
    ensures t / 8 == i && t % 8 == k && Bits(octets[i])[k]
  {
    hide Bits;
  }

  lemma WindowOfBitmap(types: seq<nat>, t: nat)
    requires MaxType(types) <= MAX_BITMAP_TYPE
    ensures InWindow(0, Bitmap(types), t) <==> t in types
  {
    hide Bits, Octet, Bitmap, MaxType, MarkedAt;
    var octets := Bitmap(types);
    if InWindow(0, octets, t) {
      var i, k :| 0 <= i < |octets| && 0 <= k < 8 && MarkedAt(0, octets, i, k, t);
      MarkedIs(octets, i, k, t);
      MarkedBit(types, t);
    }
    if t in types {
      ListedFits(types, t);
      MarkedBit(types, t);
      assert MarkedAt(0, octets, t / 8, t % 8, t) by { MarksBit(octets, t); }
    }
  }

  lemma MarksBit(octets: Bytes, t: nat)
    requires t / 8 < |octets| <= 255 && Bits(octets[t / 8])[t % 8]
    ensures MarkedAt(0, octets, t / 8, t % 8, t)
  {
    hide Bits;
  }

  /** Up to type 2039 the reader marks exactly the types the writer was given. */
  lemma BitmapInverse(types: seq<nat>, t: nat)
    requires MaxType(types) <= MAX_BITMAP_TYPE
    ensures Marked(BitmapField(types), t) <==> t in types
  {
    hide Bits, Octet, InWindow;
    WindowOfBitmap(types, t);
    var data := BitmapField(types);
    var len := |Bitmap(types)|;
    assert data[2..2 + len] == Bitmap(types);
    assert data[2 + len..] == [];
  }

  // ------------------------------------------------------ past the last type

  lemma {:induction false} ZerosMarkNothing(data: Bytes, t: nat)
    requires forall i :: 0 <= i < |data| - 1 ==> data[i] == 0
    ensures !Marked(data, t)
    decreases |data|
  {
    hide Bits;
    if |data| >= 2 && |data| >= 2 + data[1] as nat {
      assert data[1] == 0;
      assert data[2..2] == [];
      ZerosMarkNothing(data[2..], t);
    }
  }

  lemma ZeroOctet(types: seq<nat>, i: nat)
    requires forall t :: t in types ==> t / 8 != i
    ensures Octet(types, i) == 0
  {
    var x := seq(8, k requires 0 <= k < 8 => 8 * i + k in types);
    forall k | 0 <= k < 8 ensures !x[k] {
      assert (8 * i + k) / 8 == i;
    }
    ZeroValue(x);
  }

  lemma ZeroWindow(octets: Bytes, t: nat)
    requires forall i :: 0 <= i < |octets| ==> octets[i] == 0
    ensures !InWindow(0, octets, t)
  {
    assert Bits(0) == [false, false, false, false, false, false, false, false];
  }

  /**
   * One type further the length octet wraps to zero, the octets are read as windows, and neither
   * type 2040 nor the RRSIG and NSEC bits beside it are seen.
   */
  lemma BitmapTooLong(t: nat)
    ensures !Marked(BitmapField([46, 47, 2040]), t)
  {
    hide Octet, Bits, InWindow;
    var types := [46, 47, 2040];
    assert MaxType(types) == 2040;
    var map_ := Bitmap(types);
    assert |map_| == 256;
    forall i | 0 <= i < 255 && i != 5 ensures map_[i] == 0 {
      ZeroOctet(types, i);
    }
    assert map_[5] == 3 by { OctetFive(); }
    var data := BitmapField(types);
    assert data[1] == 0 && data[2..2] == [] && data[2..] == map_;
    ZeroWindow([], t);
    ZerosMarkNothing(map_[9..], t);
    ZeroWindow(map_[6..9], t);
    var d4 := map_[4..];
    assert d4[2..2 + 3] == map_[6..9] && d4[2 + 3..] == map_[9..];
    assert !Marked(d4, t);
    var d2 := map_[2..];
    assert d2[2..2] == [] && d2[2..] == d4;
    assert !Marked(d2, t);
    assert map_[2..2] == [] && map_[2..] == d2;
    assert !Marked(map_, t);
  }

  lemma OctetFive()
    ensures Octet([46, 47, 2040], 5) == 3
  {
    var x := seq(8, k requires 0 <= k < 8 => 8 * 5 + k in [46, 47, 2040]);
    assert x == [false, false, false, false, false, false, true, true];
    assert x[..7] == [false, false, false, false, false, false, true];
    assert x[..7][..6] == [false, false, false, false, false, false];
    ZeroValue(x[..7][..6]);
    assert Value(x[..7]) == 1;
  }
}
