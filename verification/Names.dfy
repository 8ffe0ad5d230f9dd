/**
 * Domain names: the label sequence, the compressing encoder and the pointer-following
 * decoder, and the invariant that ties the two together.
 */
module Names {
  import opened Bytes

  type Label = seq<Byte>
  type DnsName = seq<Label>

  const MAX_NAME_WIRE_LEN: nat := 255
  const MAX_LABEL_LEN: nat := 63
  const MAX_POINTER_JUMPS: nat := 64

  // ---------------------------------------------------------------- values

  function LowerByte(b: Byte): Byte { if 65 <= b <= 90 then b + 32 else b }

  function Lower(l: Label): (r: Label)
    ensures |r| == |l|
    ensures forall i :: 0 <= i < |l| ==> r[i] == LowerByte(l[i])
  {
    seq(|l|, i requires 0 <= i < |l| => LowerByte(l[i]))
  }

  predicate ValidLabel(l: Label) {
    1 <= |l| <= MAX_LABEL_LEN && forall i :: 0 <= i < |l| ==> !(65 <= l[i] <= 90)
  }

  /** Length in uncompressed wire form: length octets, labels and the root octet. */
  function WireLen(n: DnsName): (r: nat)
    ensures r >= 1
  {
    if n == [] then 1 else |n[0]| + 1 + WireLen(n[1..])
  }

  predicate ValidName(n: DnsName) {
    (forall i :: 0 <= i < |n| ==> ValidLabel(n[i])) && WireLen(n) <= MAX_NAME_WIRE_LEN
  }

  /** `self` equals `suffix` or is a subdomain of it. */
  predicate EndsWith(n: DnsName, suffix: DnsName) {
    |n| >= |suffix| && forall i :: 0 <= i < |suffix| ==> n[|n| - |suffix| + i] == suffix[i]
  }

  function Parent(n: DnsName): Option<DnsName> {
    if n == [] then None else Some(n[1..])
  }

  const STAR: Label := [42]

  function WildcardAt(n: DnsName, skip: nat): Option<DnsName> {
    if skip == 0 || skip > |n| then None else Some([STAR] + n[skip..])
  }

  lemma {:induction false} WireLenSuffix(n: DnsName, k: nat)
    requires k <= |n|
    ensures WireLen(n[k..]) <= WireLen(n)
    decreases k
  {
    if k == 0 {
      assert n[0..] == n;
    } else {
      WireLenSuffix(n[1..], k - 1);
      assert n[1..][k - 1..] == n[k..];
    }
  }

  lemma SuffixValid(n: DnsName, k: nat)
    requires ValidName(n) && k <= |n|
    ensures ValidName(n[k..])
  {
    WireLenSuffix(n, k);
  }

  // --------------------------------------------------------------- encoding

  type Offset = o: nat | o <= 0x3FFF
  type Table = map<DnsName, Offset>

  /** Bytes appended by one encoding step, and the suffix table after it. */
  datatype Emitted = Emitted(bytes: Bytes, table: Table)

  function LabelWire(l: Label): Bytes { [(|l| % 256) as Byte] + l }

  /** `to_wire(out, None)`: no compression. */
  function PlainWire(n: DnsName): Bytes {
    if n == [] then [0] else LabelWire(n[0]) + PlainWire(n[1..])
  }

  /**
   * `to_wire(out, Some(table))` started when `out` has `base` bytes: a pointer for the longest
   * suffix already in the table, and new suffixes registered while they are addressable.
   */
  function NameWire(base: nat, t: Table, n: DnsName): Emitted
    decreases |n|
  {
    if n == [] then Emitted([0], t)
    else if n in t then Emitted(Be16(0xC000 + t[n] as nat), t)
    else
      var t' := if base <= 0x3FFF then t[n := base] else t;
      var rest := NameWire(base + 1 + |n[0]|, t', n[1..]);
      Emitted(LabelWire(n[0]) + rest.bytes, rest.table)
  }

  // --------------------------------------------------------------- decoding

  /** What sits at an offset: the root octet, a label, a compression pointer, or nothing usable. */
  datatype Token = Bad(error: WireError) | Root | Pointer(target: nat) | Text(text: Label)

  function TokenAt(buf: Bytes, cur: nat): Token {
    if cur >= |buf| then Bad(Truncated)
    else if buf[cur] == 0 then Root
    else if buf[cur] >= 192 then
      if cur + 1 >= |buf| then Bad(Truncated) else Pointer(Target(buf, cur))
    else if buf[cur] <= 63 then
      var end := cur + 1 + buf[cur] as nat;
      if end > |buf| then Bad(Truncated) else Text(buf[cur + 1..end])
    else Bad(BadLabel)
  }

  /** The decoder at offset `cur`, having followed `jumps` pointers and read `wireLen` octets. */
  function ReadName(buf: Bytes, cur: nat, jumps: nat, wireLen: nat): (r: Read<DnsName>)
    requires jumps <= MAX_POINTER_JUMPS && 1 <= wireLen <= MAX_NAME_WIRE_LEN
    decreases MAX_POINTER_JUMPS - jumps, MAX_NAME_WIRE_LEN - wireLen
  {
    match TokenAt(buf, cur)
    case Bad(e) => Fail(e)
    case Root => Got([], cur + 1)
    case Pointer(target) =>
      if target >= cur then Fail(CompressionLoop)
      else if jumps + 1 > MAX_POINTER_JUMPS then Fail(CompressionLoop)
      else
        match ReadName(buf, target, jumps + 1, wireLen) {
          case Fail(e) => Fail(e)
          case Got(rest, _) => Got(rest, cur + 2)
        }
    case Text(l) =>
      if wireLen + |l| + 1 > MAX_NAME_WIRE_LEN then Fail(NameTooLong)
      else
        match ReadName(buf, cur + 1 + |l|, jumps, wireLen + |l| + 1) {
          case Fail(e) => Fail(e)
          case Got(rest, end) => Got([Lower(l)] + rest, end)
        }
  }

  /** Where the two octets at `cur` point. */
  function Target(buf: Bytes, cur: nat): nat
    requires cur + 1 < |buf| && buf[cur] >= 192
  {
    Word(buf, cur) - 49152
  }

  /** `DnsName::from_wire` as a whole. */
  function Decode(buf: Bytes, pos: nat): (r: Read<DnsName>)
    ensures r.Got? ==> pos < r.pos <= |buf|
  {
    ReadNameValid(buf, pos, 0, 1);
    ReadName(buf, pos, 0, 1)
  }

  /** Whatever the buffer holds, a decoded name is valid and lowercase and the cursor moved forward in bounds. */
  lemma {:induction false} ReadNameValid(buf: Bytes, cur: nat, jumps: nat, wireLen: nat)
    requires jumps <= MAX_POINTER_JUMPS && 1 <= wireLen <= MAX_NAME_WIRE_LEN
    ensures var r := ReadName(buf, cur, jumps, wireLen);
      r.Got? ==>
        && cur < r.pos <= |buf|
        && (forall i :: 0 <= i < |r.value| ==> ValidLabel(r.value[i]))
        && wireLen - 1 + WireLen(r.value) <= MAX_NAME_WIRE_LEN
    decreases MAX_POINTER_JUMPS - jumps, MAX_NAME_WIRE_LEN - wireLen
  {
    match TokenAt(buf, cur) {
      case Bad(_) =>
      case Root =>
      case Pointer(target) =>
        if target < cur && jumps < MAX_POINTER_JUMPS {
          ReadNameValid(buf, target, jumps + 1, wireLen);
        }
      case Text(l) =>
        if wireLen + |l| + 1 <= MAX_NAME_WIRE_LEN {
          ReadNameValid(buf, cur + 1 + |l|, jumps, wireLen + |l| + 1);
          var rest := ReadName(buf, cur + 1 + |l|, jumps, wireLen + |l| + 1);
          assert rest.Got? ==> ([Lower(l)] + rest.value)[1..] == rest.value;
        }
    }
  }

  /** The decoding loop from a given state: labels so far, where the name ended, cursor and counters. */
  function Loop(buf: Bytes, cur: nat, jumps: nat, wireLen: nat, labels: DnsName, endOfName: Option<nat>): Read<DnsName>
    requires jumps <= MAX_POINTER_JUMPS && 1 <= wireLen <= MAX_NAME_WIRE_LEN
    decreases MAX_POINTER_JUMPS - jumps, MAX_NAME_WIRE_LEN - wireLen
  {
    match TokenAt(buf, cur)
    case Bad(e) => Fail(e)
    case Root => Got(labels, if endOfName.Some? then endOfName.value else cur + 1)
    case Pointer(target) =>
      if target >= cur || jumps == MAX_POINTER_JUMPS then Fail(CompressionLoop)
      else Loop(buf, target, jumps + 1, wireLen, labels, if endOfName.None? then Some(cur + 2) else endOfName)
    case Text(l) =>
      if wireLen + |l| + 1 > MAX_NAME_WIRE_LEN then Fail(NameTooLong)
      else Loop(buf, cur + 1 + |l|, jumps, wireLen + |l| + 1, labels + [Lower(l)], endOfName)
  }

  lemma {:induction false} LoopIsRead(buf: Bytes, cur: nat, jumps: nat, wireLen: nat, labels: DnsName, endOfName: Option<nat>)
    requires jumps <= MAX_POINTER_JUMPS && 1 <= wireLen <= MAX_NAME_WIRE_LEN
    ensures Loop(buf, cur, jumps, wireLen, labels, endOfName) ==
      match ReadName(buf, cur, jumps, wireLen) {
        case Fail(e) => Fail(e)
        case Got(n, end) => Got(labels + n, if endOfName.Some? then endOfName.value else end)
      }
    decreases MAX_POINTER_JUMPS - jumps, MAX_NAME_WIRE_LEN - wireLen
  {
    match TokenAt(buf, cur) {
      case Bad(_) =>
      case Root =>
        assert labels + [] == labels;
      case Pointer(target) =>
        if target < cur && jumps < MAX_POINTER_JUMPS {
          LoopIsRead(buf, target, jumps + 1, wireLen, labels, if endOfName.None? then Some(cur + 2) else endOfName);
        }
      case Text(l) =>
        if wireLen + |l| + 1 <= MAX_NAME_WIRE_LEN {
          LoopIsRead(buf, cur + 1 + |l|, jumps, wireLen + |l| + 1, labels + [Lower(l)], endOfName);
          var rest := ReadName(buf, cur + 1 + |l|, jumps, wireLen + |l| + 1);
          assert rest.Got? ==> labels + [Lower(l)] + rest.value == labels + ([Lower(l)] + rest.value);
        }
    }
  }

  lemma LoopIsDecode(buf: Bytes, pos: nat)
    ensures Loop(buf, pos, 0, 1, [], None) == Decode(buf, pos)
  {
    LoopIsRead(buf, pos, 0, 1, [], None);
    var r := ReadName(buf, pos, 0, 1);
    assert r.Got? ==> [] + r.value == r.value;
  }

  /** `DnsName::from_wire`: the decoding loop, with its cursor, jump and length counters. */
  method FromWire(buf: Bytes, pos: nat) returns (r: Read<DnsName>)
    ensures r == Decode(buf, pos)
  {
    hide Lower, Decode, TokenAt;
    LoopIsDecode(buf, pos);
    var labels: DnsName := [];
    var cur: nat := pos;
    var endOfName: Option<nat> := None;
    var jumps: nat := 0;
    var wireLen: nat := 1;
    while true
      invariant jumps <= MAX_POINTER_JUMPS && 1 <= wireLen <= MAX_NAME_WIRE_LEN
      invariant Loop(buf, cur, jumps, wireLen, labels, endOfName) == Loop(buf, pos, 0, 1, [], None)
      decreases MAX_POINTER_JUMPS - jumps, MAX_NAME_WIRE_LEN - wireLen
    {
      match TokenAt(buf, cur) {
        case Bad(e) =>
          return Fail(e);
        case Root =>
          cur := cur + 1;
          break;
        case Pointer(target) =>
          if endOfName.None? {
            endOfName := Some(cur + 2);
          }
          if target >= cur || jumps + 1 > MAX_POINTER_JUMPS {
            return Fail(CompressionLoop);
          }
          jumps := jumps + 1;
          cur := target;
        case Text(l) =>
          if wireLen + |l| + 1 > MAX_NAME_WIRE_LEN {
            return Fail(NameTooLong);
          }
          wireLen := wireLen + |l| + 1;
          labels := labels + [Lower(l)];
          cur := cur + 1 + |l|;
      }
    }
    r := Got(labels, if endOfName.Some? then endOfName.value else cur);
  }

  // -------------------------------------------- what a well-encoded name is

  /** `n` is encoded at `off`, and every pointer on the way lands on a label. */
  ghost predicate NameAt(buf: Bytes, off: nat, n: DnsName)
    decreases |n|, 1
  {
    off < |buf| &&
    if buf[off] >= 192 then
      off + 1 < |buf| && Target(buf, off) < off && n != [] && LabelAt(buf, Target(buf, off), n)
    else if n == [] then buf[off] == 0
    else LabelAt(buf, off, n)
  }

  ghost predicate LabelAt(buf: Bytes, off: nat, n: DnsName)
    requires n != []
    decreases |n|, 0
  {
    && 1 <= |n[0]| <= MAX_LABEL_LEN
    && off + 1 + |n[0]| <= |buf|
    && buf[off] as nat == |n[0]|
    && buf[off + 1..off + 1 + |n[0]|] == n[0]
    && NameAt(buf, off + 1 + |n[0]|, n[1..])
  }

  /** Pointers followed when decoding `n` from `off`. */
  function Hops(buf: Bytes, off: nat, n: DnsName): nat
    decreases |n|, 1
  {
    if off + 1 < |buf| && buf[off] >= 192 then 1 + LabelHops(buf, Target(buf, off), n) else LabelHops(buf, off, n)
  }

  function LabelHops(buf: Bytes, off: nat, n: DnsName): nat
    decreases |n|, 0
  {
    if n == [] then 0 else Hops(buf, off + 1 + |n[0]|, n[1..])
  }

  /** Position just past the name in its own location. */
  function EndAt(buf: Bytes, off: nat, n: DnsName): nat
    decreases |n|
  {
    if off < |buf| && buf[off] >= 192 then off + 2
    else if n == [] then off + 1
    else EndAt(buf, off + 1 + |n[0]|, n[1..])
  }

  /** Every pointer lands on a label, so a name of k labels needs at most k jumps. */
  lemma {:induction false} HopsBound(buf: Bytes, off: nat, n: DnsName)
    requires NameAt(buf, off, n)
    ensures Hops(buf, off, n) <= |n|
    decreases |n|
  {
    if n != [] {
      var at := if buf[off] >= 192 then Target(buf, off) else off;
      HopsBound(buf, at + 1 + |n[0]|, n[1..]);
    }
  }

  /** The decoder returns an encoded name exactly when its pointer chain is within the jump limit. */
  lemma {:induction false} ReadNameAt(buf: Bytes, off: nat, n: DnsName, jumps: nat, wireLen: nat)
    requires NameAt(buf, off, n)
    requires forall i :: 0 <= i < |n| ==> ValidLabel(n[i])
    requires jumps <= MAX_POINTER_JUMPS && 1 <= wireLen && wireLen - 1 + WireLen(n) <= MAX_NAME_WIRE_LEN
    ensures ReadName(buf, off, jumps, wireLen) ==
            if jumps + Hops(buf, off, n) <= MAX_POINTER_JUMPS then Got(n, EndAt(buf, off, n)) else Fail(CompressionLoop)
    decreases |n|
  {
    if n != [] {
      var at := if buf[off] >= 192 then Target(buf, off) else off;
      var j := if buf[off] >= 192 then jumps + 1 else jumps;
      assert Lower(n[0]) == n[0];
      assert [n[0]] + n[1..] == n;
      if j <= MAX_POINTER_JUMPS {
        ReadNameAt(buf, at + 1 + |n[0]|, n[1..], j, wireLen + |n[0]| + 1);
        assert buf[at] <= 63;
      }
    }
  }

  /** Appending bytes changes nothing about a name already there. */
  lemma {:induction false} NameAtAppend(a: Bytes, b: Bytes, off: nat, n: DnsName)
    requires a <= b && NameAt(a, off, n)
    ensures NameAt(b, off, n) && Hops(b, off, n) == Hops(a, off, n) && EndAt(b, off, n) == EndAt(a, off, n)
    decreases |n|
  {
    if n != [] {
      var at := if a[off] >= 192 then Target(a, off) else off;
      assert a[at + 1..at + 1 + |n[0]|] == b[at + 1..at + 1 + |n[0]|];
      NameAtAppend(a, b, at + 1 + |n[0]|, n[1..]);
    }
  }

  // ------------------------------------------------- the table invariant

  /** Every registered suffix outside `pending` decodes from its recorded offset. */
  ghost predicate TableOkBut(out: Bytes, t: Table, pending: set<DnsName>) {
    forall s :: s in t && s !in pending ==> s != [] && LabelAt(out, t[s], s)
  }

  ghost predicate TableOk(out: Bytes, t: Table) { TableOkBut(out, t, {}) }

  /** Jumps that decoding `n` will cost if it is encoded next: a check made before encoding. */
  function JumpsNeeded(out: Bytes, t: Table, n: DnsName): nat {
    if n == [] then 0
    else if n in t then 1 + LabelHops(out, t[n], n)
    else JumpsNeeded(out, t, n[1..])
  }

  lemma LabelAtAppend(a: Bytes, b: Bytes, off: nat, n: DnsName)
    requires a <= b && n != [] && LabelAt(a, off, n)
    ensures LabelAt(b, off, n) && LabelHops(b, off, n) == LabelHops(a, off, n)
  {
    assert a[off + 1..off + 1 + |n[0]|] == b[off + 1..off + 1 + |n[0]|];
    NameAtAppend(a, b, off + 1 + |n[0]|, n[1..]);
  }

  lemma TableOkAppend(a: Bytes, b: Bytes, t: Table, pending: set<DnsName>)
    requires a <= b && TableOkBut(a, t, pending)
    ensures TableOkBut(b, t, pending)
  {
    forall s | s in t && s !in pending ensures s != [] && LabelAt(b, t[s], s) {
      LabelAtAppend(a, b, t[s], s);
    }
  }

  /** Entries are never overwritten, and only suffixes of the encoded name are added. */
  lemma {:induction false} NameWireKeeps(base: nat, t: Table, n: DnsName)
    ensures var t' := NameWire(base, t, n).table;
      (forall s :: s in t ==> s in t' && t'[s] == t[s]) &&
      (forall s :: s in t' && s !in t ==> |s| <= |n|)
    decreases |n|
  {
    if n != [] && n !in t {
      NameWireKeeps(base + 1 + |n[0]|, if base <= 0x3FFF then t[n := base] else t, n[1..]);
    }
  }

  lemma {:induction false} JumpsNeededOther(a: Bytes, b: Bytes, t: Table, t': Table, n: DnsName, pending: set<DnsName>)
    requires a <= b && TableOkBut(a, t, pending)
    requires forall p :: p in pending ==> |p| > |n|
    requires forall s :: s in t ==> s in t' && t'[s] == t[s]
    requires forall s :: s in t' && s !in t ==> |s| > |n|
    ensures JumpsNeeded(b, t', n) == JumpsNeeded(a, t, n)
    decreases |n|
  {
    if n != [] {
      if n in t {
        LabelAtAppend(a, b, t[n], n);
      } else {
        JumpsNeededOther(a, b, t, t', n[1..], pending);
      }
    }
  }

  /**
   * After `n` was encoded as `e` behind `out`: it decodes where it was put, at the number of jumps
   * predicted before, and the table still holds. `pending` are longer suffixes of the same name
   * whose bytes are not complete yet.
   */
  ghost predicate Encoded(out: Bytes, t: Table, n: DnsName, e: Emitted, pending: set<DnsName>) {
    var all := out + e.bytes;
    && TableOkBut(all, e.table, pending)
    && NameAt(all, |out|, n)
    && EndAt(all, |out|, n) == |all|
    && Hops(all, |out|, n) == JumpsNeeded(out, t, n)
  }

  lemma {:induction false} NameWireOkBut(out: Bytes, t: Table, n: DnsName, pending: set<DnsName>)
    requires TableOkBut(out, t, pending) && forall i :: 0 <= i < |n| ==> ValidLabel(n[i])
    requires forall p :: p in pending ==> |p| > |n|
    ensures Encoded(out, t, n, NameWire(|out|, t, n), pending)
    decreases |n|
  {
    hide Encoded, TableOkBut, JumpsNeeded;
    if n == [] {
      NameWireRoot(out, t, pending);
    } else if n in t {
      NameWirePointer(out, t, n, pending);
    } else {
      var out1 := out + LabelWire(n[0]);
      var t1 := if |out| <= 0x3FFF then t[n := |out|] else t;
      NameWirePending(out, out1, t, t1, n, pending);
      NameWireOkBut(out1, t1, n[1..], pending + {n});
      NameWireKeeps(|out1|, t1, n[1..]);
      var e1 := NameWire(|out1|, t1, n[1..]);
      assert NameWire(|out|, t, n) == Emitted(LabelWire(n[0]) + e1.bytes, e1.table);
      NameWireLabel(out, t, t1, n, e1, pending);
    }
  }

  lemma NameWireRoot(out: Bytes, t: Table, pending: set<DnsName>)
    requires TableOkBut(out, t, pending)
    ensures Encoded(out, t, [], Emitted([0], t), pending)
  {
    TableOkAppend(out, out + [0], t, pending);
  }

  lemma NameWirePending(out: Bytes, out1: Bytes, t: Table, t1: Table, n: DnsName, pending: set<DnsName>)
    requires out <= out1 && TableOkBut(out, t, pending)
    requires |out| <= 0x3FFF ==> t1 == t[n := |out|]
    requires |out| > 0x3FFF ==> t1 == t
    ensures TableOkBut(out1, t1, pending + {n})
  {
    TableOkAppend(out, out1, t, pending);
  }

  lemma NameWirePointer(out: Bytes, t: Table, n: DnsName, pending: set<DnsName>)
    requires TableOkBut(out, t, pending) && n != [] && n in t && n !in pending
    ensures Encoded(out, t, n, Emitted(Be16(0xC000 + t[n] as nat), t), pending)
  {
    var all := out + Be16(0xC000 + t[n] as nat);
    assert all[|out|] as int == 192 + t[n] / 256 && all[|out| + 1] as int == t[n] % 256;
    assert Target(all, |out|) == t[n];
    TableOkAppend(out, all, t, pending);
    LabelAtAppend(out, all, t[n], n);
  }

  lemma NameWireLabel(out: Bytes, t: Table, t1: Table, n: DnsName, e1: Emitted, pending: set<DnsName>)
    requires n != [] && n !in t && ValidLabel(n[0])
    requires TableOkBut(out, t, pending) && forall p :: p in pending ==> |p| > |n|
    requires t1 == if |out| <= 0x3FFF then t[n := |out|] else t
    requires forall s :: s in t1 ==> s in e1.table && e1.table[s] == t1[s]
    requires forall s :: s in e1.table && s !in t1 ==> |s| < |n|
    requires Encoded(out + LabelWire(n[0]), t1, n[1..], e1, pending + {n})
    ensures Encoded(out, t, n, Emitted(LabelWire(n[0]) + e1.bytes, e1.table), pending)
  {
    hide LabelWire, ValidLabel, TableOkBut, NameAt, EndAt, Hops, LabelAt, JumpsNeeded;
    var out1 := out + LabelWire(n[0]);
    var all := out1 + e1.bytes;
    assert all == out + (LabelWire(n[0]) + e1.bytes);
    NameWireJoin(out, out1, all, n);
    assert n in e1.table ==> n in t1 && e1.table[n] == |out|;
    TableOkNow(all, e1.table, n, pending);
    JumpsNeededOther(out, out1, t, t1, n[1..], pending);
    JumpsNeededStep(out, t, n);
  }

  /** A pending suffix that is now in place is pending no more. */
  lemma TableOkNow(all: Bytes, t: Table, n: DnsName, pending: set<DnsName>)
    requires TableOkBut(all, t, pending + {n}) && n != [] && (n in t ==> LabelAt(all, t[n], n))
    ensures TableOkBut(all, t, pending)
  {
    hide LabelAt;
  }

  lemma JumpsNeededStep(out: Bytes, t: Table, n: DnsName)
    requires n != [] && n !in t
    ensures JumpsNeeded(out, t, n) == JumpsNeeded(out, t, n[1..])
  {
    hide LabelHops;
  }

  lemma NameWireJoin(out: Bytes, out1: Bytes, all: Bytes, n: DnsName)
    requires n != [] && ValidLabel(n[0])
    requires out1 == out + LabelWire(n[0]) && out1 <= all
    requires NameAt(all, |out1|, n[1..])
    ensures LabelAt(all, |out|, n) && NameAt(all, |out|, n)
    ensures EndAt(all, |out|, n) == EndAt(all, |out1|, n[1..])
    ensures Hops(all, |out|, n) == Hops(all, |out1|, n[1..])
  {
    assert all[|out|] == out1[|out|] == |n[0]| as Byte;
    assert all[|out| + 1..|out| + 1 + |n[0]|] == out1[|out| + 1..] == n[0];
  }

  /** Encoding a valid name next keeps the table invariant and costs at most one jump per label. */
  lemma NameWireOk(out: Bytes, t: Table, n: DnsName)
    requires TableOk(out, t) && ValidName(n)
    ensures Encoded(out, t, n, NameWire(|out|, t, n), {})
    ensures JumpsNeeded(out, t, n) <= |n|
  {
    NameWireOkBut(out, t, n, {});
    HopsBound(out + NameWire(|out|, t, n).bytes, |out|, n);
  }

  /** An uncompressed name decodes anywhere, without a jump. */
  lemma {:induction false} PlainWireOk(buf: Bytes, off: nat, n: DnsName)
    requires Occurs(buf, off, PlainWire(n))
    requires forall i :: 0 <= i < |n| ==> ValidLabel(n[i])
    ensures NameAt(buf, off, n) && EndAt(buf, off, n) == off + |PlainWire(n)| && Hops(buf, off, n) == 0
    decreases |n|
  {
    if n == [] {
      assert buf[off] == buf[off..off + 1][0];
    } else {
      OccursSplit(buf, off, LabelWire(n[0]), PlainWire(n[1..]));
      OccursSplit(buf, off, [(|n[0]| % 256) as Byte], n[0]);
      assert buf[off] == buf[off..off + 1][0];
      PlainWireOk(buf, off + 1 + |n[0]|, n[1..]);
    }
  }

  /** Round trip of an uncompressed name placed anywhere in a buffer. */
  lemma PlainRoundTrip(buf: Bytes, off: nat, n: DnsName)
    requires ValidName(n) && Occurs(buf, off, PlainWire(n))
    ensures Decode(buf, off) == Got(n, off + |PlainWire(n)|)
  {
    PlainWireOk(buf, off, n);
    ReadNameAt(buf, off, n, 0, 1);
  }

  lemma {:induction false} PlainWireLen(n: DnsName)
    ensures |PlainWire(n)| == WireLen(n)
    decreases |n|
  {
    if n != [] {
      PlainWireLen(n[1..]);
    }
  }
}
