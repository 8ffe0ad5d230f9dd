/**
 * The response cache: insertion with purging and shedding, fresh and stale hits, and its refinement
 * of a cache that forgets only what it sheds. Time is counted in nanoseconds of a monotone clock.
 */
module Caches {
  import opened Bytes
  import opened Names
  import opened Messages
  import opened Zones

  const SECOND: nat := 1_000_000_000
  const MAX_POSITIVE_TTL: nat := 86_400
  const MAX_NEGATIVE_TTL: nat := 3_600
  const DEFAULT_NEGATIVE_TTL: nat := 60
  const STALE_WINDOW: nat := 86_400 * SECOND
  const STALE_TTL: nat := 30

  datatype Key = Key(qname: DnsName, qtype: nat)

  datatype Entry = Entry(
    rcode: nat, answers: seq<Record>, authorities: seq<Record>, secure: bool, stored: nat, expires: nat)

  datatype Hit = Hit(rcode: nat, answers: seq<Record>, authorities: seq<Record>, secure: bool)

  type Entries = map<Key, Entry>

  function Min(a: nat, b: nat): nat { if a < b then a else b }

  function SubtractSaturating(a: nat, b: nat): nat { if a < b then 0 else a - b }

  // ---------------------------------------------------------------- lookups

  function WithTtl(rs: seq<Record>, f: nat -> nat): (r: seq<Record>)
    ensures |r| == |rs| && forall i :: 0 <= i < |rs| ==> r[i] == rs[i].(ttl := f(rs[i].ttl))
  {
    seq(|rs|, i requires 0 <= i < |rs| => rs[i].(ttl := f(rs[i].ttl)))
  }

  function Elapsed(e: Entry, now: nat): nat { SubtractSaturating(now, e.stored) / SECOND % U32 }

  function Aged(elapsed: nat): nat -> nat {
    (ttl: nat) => if SubtractSaturating(ttl, elapsed) < 1 then 1 else SubtractSaturating(ttl, elapsed)
  }

  predicate Fresh(e: Entry, now: nat) { e.expires > now }

  predicate Stale(e: Entry, now: nat) { e.expires < now <= e.expires + STALE_WINDOW }

  predicate Dead(e: Entry, now: nat) { now > e.expires + STALE_WINDOW }

  function FreshHit(e: Entry, now: nat): Hit {
    var f := Aged(Elapsed(e, now));
    Hit(e.rcode, WithTtl(e.answers, f), WithTtl(e.authorities, f), e.secure)
  }

  function StaleHit(e: Entry): Hit {
    Hit(e.rcode, WithTtl(e.answers, _ => STALE_TTL), WithTtl(e.authorities, _ => STALE_TTL), e.secure)
  }

  function Look(m: Entries, key: Key, now: nat): Option<Hit> {
    if key in m && Fresh(m[key], now) then Some(FreshHit(m[key], now)) else None
  }

  function LookStale(m: Entries, key: Key, now: nat): Option<Hit> {
    if key in m && Stale(m[key], now) then Some(StaleHit(m[key])) else None
  }

  /** What a lookup leaves: an entry past the stale window is dropped on the way. */
  function AfterLook(m: Entries, key: Key, now: nat): Entries {
    if key in m && Dead(m[key], now) then m - {key} else m
  }

  // --------------------------------------------------------------- insertion

  function LeastTtl(rs: seq<Record>): (t: nat)
    requires rs != []
    ensures forall r :: r in rs ==> t <= r.ttl
    ensures exists r :: r in rs && r.ttl == t
  {
    assert rs == [rs[0]] + rs[1..];
    if |rs| == 1 then rs[0].ttl else Min(rs[0].ttl, LeastTtl(rs[1..]))
  }

  /** The first SOA's lifetime for negative answers: the lesser of its minimum and its own TTL. */
  function SoaTtl(rs: seq<Record>): Option<nat> {
    if rs == [] then None
    else if rs[0].rdata.SoaData? then Some(Min(rs[0].rdata.soa.minimum, rs[0].ttl))
    else SoaTtl(rs[1..])
  }

  function Lifetime(answers: seq<Record>, authorities: seq<Record>): nat {
    if answers == [] then
      var soa := SoaTtl(authorities);
      Min(if soa.Some? then soa.value else DEFAULT_NEGATIVE_TTL, MAX_NEGATIVE_TTL)
    else Min(LeastTtl(answers), MAX_POSITIVE_TTL)
  }

  predicate Accepted(rcode: nat, answers: seq<Record>, authorities: seq<Record>) {
    (rcode == RCODE_NOERROR || rcode == RCODE_NXDOMAIN) && Lifetime(answers, authorities) > 0
  }

  function MakeEntry(rcode: nat, answers: seq<Record>, authorities: seq<Record>, secure: bool, now: nat): Entry {
    Entry(rcode, answers, authorities, secure, now, now + Lifetime(answers, authorities) * SECOND)
  }

  function Retained(m: Entries, now: nat): Entries { map k | k in m && !Dead(m[k], now) :: m[k] }

  predicate Full(max: nat, m: Entries, key: Key) { |m| >= max && key !in m }

  predicate Sheds(max: nat, m: Entries, key: Key, now: nat) {
    Full(max, m, key) && |Retained(m, now)| >= max
  }

  /** A legal choice of victims: about a tenth, from whatever order the map iterates. */
  predicate Legal(max: nat, m: Entries, key: Key, now: nat, shed: set<Key>) {
    if Sheds(max, m, key, now) then
      var live := Retained(m, now);
      shed <= live.Keys && |shed| == Min(max / 10 + 1, |live|)
    else shed == {}
  }

  function Stored(max: nat, m: Entries, key: Key, e: Entry, now: nat, shed: set<Key>): Entries {
    ((if Full(max, m, key) then Retained(m, now) else m) - shed)[key := e]
  }

  class Cache {
    var entries: Entries
    const maxEntries: nat

    constructor (maxEntries: nat)
      ensures entries == map[] && this.maxEntries == if maxEntries < 1 then 1 else maxEntries
    {
      entries := map[];
      this.maxEntries := if maxEntries < 1 then 1 else maxEntries;
    }

    method Get(key: Key, now: nat) returns (hit: Option<Hit>)
      modifies this
      ensures hit == Look(old(entries), key, now) && entries == AfterLook(old(entries), key, now)
    {
      if key !in entries {
        return None;
      }
      var e := entries[key];
      if e.expires > now {
        return Some(FreshHit(e, now));
      }
      if now > e.expires + STALE_WINDOW {
        entries := entries - {key};
      }
      hit := None;
    }

    method GetStale(key: Key, now: nat) returns (hit: Option<Hit>)
      ensures hit == LookStale(entries, key, now)
    {
      if key !in entries {
        return None;
      }
      var e := entries[key];
      if now <= e.expires || now > e.expires + STALE_WINDOW {
        return None;
      }
      hit := Some(StaleHit(e));
    }

    method Insert(key: Key, rcode: nat, answers: seq<Record>, authorities: seq<Record>, secure: bool, now: nat)
      returns (ghost shed: set<Key>)
      modifies this
      ensures Accepted(rcode, answers, authorities) ==>
        && Legal(maxEntries, old(entries), key, now, shed)
        && entries ==
           Stored(maxEntries, old(entries), key, MakeEntry(rcode, answers, authorities, secure, now), now, shed)
      ensures !Accepted(rcode, answers, authorities) ==> entries == old(entries)
    {
      hide Lifetime, Retained;
      shed := {};
      if rcode != RCODE_NOERROR && rcode != RCODE_NXDOMAIN {
        return;
      }
      var ttl := Lifetime(answers, authorities);
      if ttl == 0 {
        return;
      }
      var e := Entry(rcode, answers, authorities, secure, now, now + ttl * SECOND);
      if |entries| >= maxEntries && key !in entries {
        entries := Retained(entries, now);
        if |entries| >= maxEntries {
          var victims := TakeKeys(entries.Keys, maxEntries / 10 + 1);
          entries := entries - victims;
          shed := victims;
        }
      }
      assert entries - {} == entries;
      entries := entries[key := e];
    }
  }

  /** Up to `quota` keys, in whatever order they come. */
  method TakeKeys(keys: set<Key>, quota: nat) returns (victims: set<Key>)
    ensures victims <= keys && |victims| == Min(quota, |keys|)
  {
    victims := {};
    var left := keys;
    while |victims| < quota && left != {}
      invariant victims + left == keys && victims !! left
      invariant |victims| + |left| == |keys| && |victims| <= quota
      decreases |left|
    {
      var victim :| victim in left;
      victims := victims + {victim};
      left := left - {victim};
    }
  }

  // -------------------------------------------------------------------- size

  lemma ShedSize(m: Entries, shed: set<Key>)
    requires shed <= m.Keys
    ensures |m - shed| == |m| - |shed|
  {
    assert (m - shed).Keys == m.Keys - shed;
    assert |m.Keys - shed| == |m.Keys| - |shed|;
  }

  lemma GrowsByOne(m: Entries, key: Key, e: Entry)
    ensures |m[key := e]| == if key in m then |m| else |m| + 1
  {
    assert m[key := e].Keys == m.Keys + {key};
    if key in m {
      assert m.Keys + {key} == m.Keys;
    }
  }

  lemma RetainedFewer(m: Entries, now: nat)
    ensures |Retained(m, now)| <= |m|
  {
    var r := Retained(m, now);
    assert r.Keys <= m.Keys;
    assert |m.Keys| == |r.Keys| + |m.Keys - r.Keys|;
  }

  lemma StoredFits(max: nat, m: Entries, key: Key, e: Entry, now: nat, shed: set<Key>)
    requires max >= 1 && |m| <= max && Legal(max, m, key, now, shed)
    ensures |Stored(max, m, key, e, now, shed)| <= max
  {
    var base := if Full(max, m, key) then Retained(m, now) else m;
    RetainedFewer(m, now);
    ShedSize(base, shed);
    GrowsByOne(base - shed, key, e);
    if !Full(max, m, key) {
      assert base - shed == m;
    }
  }

  // -------------------------------------------------------------- refinement

  datatype Op =
    | Insert(key: Key, rcode: nat, answers: seq<Record>, authorities: seq<Record>, secure: bool, shed: set<Key>)
    | Get(key: Key)
    | GetStale(key: Key)

  /** An operation and the time of the clock when it runs. */
  datatype Timed = Timed(op: Op, now: nat)

  /** What the cache holds after an operation. */
  function Next(max: nat, m: Entries, t: Timed): Entries {
    match t.op
    case Insert(key, rcode, answers, authorities, secure, shed) =>
      if Accepted(rcode, answers, authorities)
      then Stored(max, m, key, MakeEntry(rcode, answers, authorities, secure, t.now), t.now, shed)
      else m
    case Get(key) => AfterLook(m, key, t.now)
    case GetStale(_) => m
  }

  /** The simple cache: the most recent accepted insert for each key, unless shed since. */
  function NextSimple(a: Entries, t: Timed): Entries {
    match t.op
    case Insert(key, rcode, answers, authorities, secure, shed) =>
      if Accepted(rcode, answers, authorities)
      then (a - shed)[key := MakeEntry(rcode, answers, authorities, secure, t.now)]
      else a
    case _ => a
  }

  function Answer(m: Entries, t: Timed): Option<Hit> {
    match t.op
    case Insert(_, _, _, _, _, _) => None
    case Get(key) => Look(m, key, t.now)
    case GetStale(key) => LookStale(m, key, t.now)
  }

  predicate LegalOp(max: nat, m: Entries, t: Timed) {
    t.op.Insert? && Accepted(t.op.rcode, t.op.answers, t.op.authorities) ==>
      Legal(max, m, t.op.key, t.now, t.op.shed)
  }

  /** The clock does not run backwards and victims are picked as the cache may pick them. */
  predicate LegalRun(max: nat, m: Entries, start: nat, ops: seq<Timed>)
    decreases |ops|
  {
    ops == [] ||
    (start <= ops[0].now && LegalOp(max, m, ops[0]) && LegalRun(max, Next(max, m, ops[0]), ops[0].now, ops[1..]))
  }

  function Answers(max: nat, m: Entries, ops: seq<Timed>): seq<Option<Hit>>
    decreases |ops|
  {
    if ops == [] then [] else [Answer(m, ops[0])] + Answers(max, Next(max, m, ops[0]), ops[1..])
  }

  function SimpleAnswers(a: Entries, ops: seq<Timed>): seq<Option<Hit>>
    decreases |ops|
  {
    if ops == [] then [] else [Answer(a, ops[0])] + SimpleAnswers(NextSimple(a, ops[0]), ops[1..])
  }

  function Final(max: nat, m: Entries, ops: seq<Timed>): Entries
    decreases |ops|
  {
    if ops == [] then m else Final(max, Next(max, m, ops[0]), ops[1..])
  }

  /** The cache holds the simple cache's entries, except some that are already dead. */
  ghost predicate Tracks(m: Entries, a: Entries, now: nat) {
    && (forall k :: k in m ==> k in a && m[k] == a[k])
    && (forall k :: k in a && k !in m ==> Dead(a[k], now))
  }

  lemma TracksRetained(m: Entries, a: Entries, now: nat)
    requires Tracks(m, a, now)
    ensures Tracks(Retained(m, now), a, now)
  {
    hide Dead;
  }

  lemma TracksStored(m: Entries, a: Entries, now: nat, shed: set<Key>, key: Key, e: Entry)
    requires Tracks(m, a, now)
    ensures Tracks((m - shed)[key := e], (a - shed)[key := e], now)
  {
    hide Dead;
    var m1, a1 := m - shed, a - shed;
    assert Tracks(m1, a1, now);
  }

  lemma TracksLater(m: Entries, a: Entries, now: nat, later: nat)
    requires Tracks(m, a, now) && now <= later
    ensures Tracks(m, a, later)
  {
  }

  lemma TracksNext(max: nat, m: Entries, a: Entries, now: nat, t: Timed)
    requires Tracks(m, a, now) && now <= t.now && LegalOp(max, m, t)
    ensures Tracks(Next(max, m, t), NextSimple(a, t), t.now)
  {
    hide Accepted, Tracks, MakeEntry, Retained, Full, LegalOp;
    TracksLater(m, a, now, t.now);
    match t.op {
      case Insert(key, rcode, answers, authorities, secure, shed) =>
        var e := MakeEntry(rcode, answers, authorities, secure, t.now);
        TracksRetained(m, a, t.now);
        TracksStored(Retained(m, t.now), a, t.now, shed, key, e);
        TracksStored(m, a, t.now, shed, key, e);
      case Get(key) => TracksLook(m, a, key, t.now);
      case GetStale(_) =>
    }
  }

  lemma TracksLook(m: Entries, a: Entries, key: Key, now: nat)
    requires Tracks(m, a, now)
    ensures Tracks(AfterLook(m, key, now), a, now)
  {
  }

  /** An entry that only the simple cache still holds is dead, and a dead entry answers nothing. */
  lemma SameAnswer(m: Entries, a: Entries, now: nat, t: Timed)
    requires Tracks(m, a, now) && now <= t.now
    ensures Answer(m, t) == Answer(a, t)
  {
    hide FreshHit, StaleHit;
  }

  lemma NextFits(max: nat, m: Entries, t: Timed)
    requires max >= 1 && |m| <= max && LegalOp(max, m, t)
    ensures |Next(max, m, t)| <= max
  {
    hide Accepted, MakeEntry, Stored;
    match t.op {
      case Insert(key, rcode, answers, authorities, secure, shed) =>
        if Accepted(rcode, answers, authorities) {
          StoredFits(max, m, key, MakeEntry(rcode, answers, authorities, secure, t.now), t.now, shed);
        }
      case Get(key) =>
        if key in m {
          ShedSize(m, {key});
        }
      case GetStale(_) =>
    }
  }

  /**
   * Over every sequential run the cache answers as the simple one does, so a hit is always the most
   * recent accepted insert and neither purging nor lazy removal shows, and it never outgrows its bound.
   */
  lemma {:induction false} CacheRefines(max: nat, m: Entries, a: Entries, start: nat, ops: seq<Timed>)
    requires max >= 1 && |m| <= max && Tracks(m, a, start) && LegalRun(max, m, start, ops)
    ensures Answers(max, m, ops) == SimpleAnswers(a, ops)
    ensures |Final(max, m, ops)| <= max
    decreases |ops|
  {
    hide Tracks, LegalOp, Next, NextSimple, Answer;
    if ops != [] {
      SameAnswer(m, a, start, ops[0]);
      TracksNext(max, m, a, start, ops[0]);
      NextFits(max, m, ops[0]);
      CacheRefines(max, Next(max, m, ops[0]), NextSimple(a, ops[0]), ops[0].now, ops[1..]);
    }
  }

  // --------------------------------------------------------------- lifetimes

  /** A fresh and a stale answer never exist together. */
  lemma NeverBoth(m: Entries, key: Key, now: nat)
    ensures Look(m, key, now).None? || LookStale(m, key, now).None?
  {
  }

  /**
   * A hit on a positive answer shows every answer TTL reduced by exactly the whole seconds since it
   * was stored, and that is at least one.
   */
  lemma ServedTtl(rcode: nat, answers: seq<Record>, authorities: seq<Record>, secure: bool, stored: nat, now: nat, i: nat)
    requires answers != [] && stored <= now && i < |answers|
    requires Fresh(MakeEntry(rcode, answers, authorities, secure, stored), now)
    ensures var e := MakeEntry(rcode, answers, authorities, secure, stored);
      var served := FreshHit(e, now).answers;
      && |served| == |answers|
      && served[i].ttl >= 1
      && served[i].ttl + (now - stored) / SECOND == answers[i].ttl
      && served[i] == answers[i].(ttl := served[i].ttl)
  {
    var life := Lifetime(answers, authorities);
    assert answers[i] in answers;
    assert life <= answers[i].ttl && life <= MAX_POSITIVE_TTL;
    assert (now - stored) / SECOND < life;
  }
}
