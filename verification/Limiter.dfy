/**
 * The token-bucket rate limiter over real time: how much one client is allowed in any window, and
 * when the purge of idle buckets can be noticed.
 */
module Limiter {
  type Client = nat

  datatype Bucket = Bucket(tokens: real, last: real)

  type Buckets = map<Client, Bucket>

  datatype Config = Config(qps: nat, burst: nat)

  const CLEANUP_THRESHOLD: nat := 65_536

  const IDLE: real := 60.0

  /** `RateLimiter::new`: the burst is at least one second's worth. */
  function NewConfig(qps: nat, burst: nat): Config { Config(qps, if burst < qps then qps else burst) }

  function Least(a: real, b: real): real { if a <= b then a else b }

  /** Tokens added in a stretch of time. */
  function Gain(c: Config, dt: real): real { c.qps as real * dt }

  lemma GainFacts(c: Config, a: real, b: real)
    ensures Gain(c, 0.0) == 0.0 && Gain(c, IDLE) == (60 * c.qps) as real
    ensures Gain(c, a + b) == Gain(c, a) + Gain(c, b)
    ensures a >= 0.0 ==> Gain(c, a) >= 0.0
    ensures b >= 0.0 ==> Gain(c, b) >= 0.0
  {
    var q := c.qps as real;
    assert q * (a + b) == q * a + q * b;
    assert a >= 0.0 ==> q * a >= 0.0;
    assert b >= 0.0 ==> q * b >= 0.0;
  }

  function Refill(c: Config, b: Bucket, now: real): real {
    Least(b.tokens + Gain(c, now - b.last), c.burst as real)
  }

  /** Buckets used within the last 60 whole seconds. */
  function Kept(m: Buckets, now: real): Buckets { map k | k in m && now - m[k].last < IDLE :: m[k] }

  function Purged(m: Buckets, now: real): Buckets { if |m| > CLEANUP_THRESHOLD then Kept(m, now) else m }

  /** Tokens a client would have at `now`; a client without a bucket has a full one. */
  function Level(c: Config, m: Buckets, ip: Client, now: real): real {
    if ip in m then Refill(c, m[ip], now) else c.burst as real
  }

  function Spend(level: real): (bool, real) { if level >= 1.0 then (true, level - 1.0) else (false, level) }

  /** `allow` on a map of buckets that was purged or not. */
  function Take(c: Config, m: Buckets, ip: Client, now: real): (Buckets, bool) {
    var (ok, left) := Spend(Level(c, m, ip, now));
    (m[ip := Bucket(left, now)], ok)
  }

  function Allow(c: Config, m: Buckets, ip: Client, now: real): (Buckets, bool) { Take(c, Purged(m, now), ip, now) }

  lemma NoTimeNoGain(c: Config, now: real)
    ensures Refill(c, Bucket(c.burst as real, now), now) == c.burst as real
  {
    hide Gain;
    GainFacts(c, 0.0, 0.0);
    assert now - now == 0.0;
  }

  class RateLimiter {
    const config: Config
    var buckets: Buckets

    constructor (qps: nat, burst: nat)
      ensures config == NewConfig(qps, burst) && buckets == map[]
    {
      config := NewConfig(qps, burst);
      buckets := map[];
    }

    method CheckAllowed(ip: Client, now: real) returns (ok: bool)
      modifies this
      ensures (buckets, ok) == Allow(config, old(buckets), ip, now)
    {
      if |buckets| > CLEANUP_THRESHOLD {
        buckets := Kept(buckets, now);
      }
      var bucket := if ip in buckets then buckets[ip] else Bucket(config.burst as real, now);
      NoTimeNoGain(config, now);
      bucket := Bucket(Refill(config, bucket, now), now);
      if bucket.tokens >= 1.0 {
        bucket := bucket.(tokens := bucket.tokens - 1.0);
        ok := true;
      } else {
        ok := false;
      }
      buckets := buckets[ip := bucket];
    }
  }

  // -------------------------------------------------------------------- runs

  datatype Call = Call(ip: Client, now: real)

  /** Calls between two times, in the order of the clock. */
  predicate Between(run: seq<Call>, start: real, end: real)
    decreases |run|
  {
    start <= end && (run == [] || (start <= run[0].now <= end && Between(run[1..], run[0].now, end)))
  }

  function After(c: Config, m: Buckets, run: seq<Call>): Buckets
    decreases |run|
  {
    if run == [] then m else After(c, Allow(c, m, run[0].ip, run[0].now).0, run[1..])
  }

  function Allowed(c: Config, m: Buckets, run: seq<Call>, ip: Client): nat
    decreases |run|
  {
    if run == [] then 0
    else
      var (m', ok) := Allow(c, m, run[0].ip, run[0].now);
      (if ok && run[0].ip == ip then 1 else 0) + Allowed(c, m', run[1..], ip)
  }

  ghost predicate Ok(c: Config, m: Buckets, now: real) {
    forall k :: k in m ==> 0.0 <= m[k].tokens <= c.burst as real && m[k].last <= now
  }

  lemma LevelRange(c: Config, m: Buckets, ip: Client, now: real)
    requires Ok(c, m, now)
    ensures 0.0 <= Level(c, m, ip, now) <= c.burst as real
  {
    if ip in m {
      RefillRange(c, m[ip], now);
    }
  }

  lemma RefillRange(c: Config, b: Bucket, now: real)
    requires 0.0 <= b.tokens && b.last <= now
    ensures 0.0 <= Refill(c, b, now) <= c.burst as real
  {
    hide Gain;
    GainFacts(c, now - b.last, 0.0);
  }

  lemma AllowKeeps(c: Config, m: Buckets, ip: Client, start: real, now: real)
    requires Ok(c, m, start) && start <= now
    ensures Ok(c, Allow(c, m, ip, now).0, now)
  {
    hide Level;
    LevelRange(c, Purged(m, now), ip, now);
  }

  lemma {:induction false} AfterKeeps(c: Config, m: Buckets, run: seq<Call>, start: real, end: real)
    requires Ok(c, m, start) && Between(run, start, end)
    ensures Ok(c, After(c, m, run), end)
    decreases |run|
  {
    hide Ok, Allow;
    if run == [] {
      OkLater(c, m, start, end);
    } else {
      AllowKeeps(c, m, run[0].ip, start, run[0].now);
      AfterKeeps(c, Allow(c, m, run[0].ip, run[0].now).0, run[1..], run[0].now, end);
    }
  }

  lemma OkLater(c: Config, m: Buckets, now: real, later: real)
    requires Ok(c, m, now) && now <= later
    ensures Ok(c, m, later)
  {
  }

  // --------------------------------------------------------------- the purge

  /** A minute refills any bucket. */
  predicate RefillsInAMinute(c: Config) { c.burst <= 60 * c.qps }

  /** Then a purged bucket was full anyway. */
  lemma PurgeUnseen(c: Config, m: Buckets, now: real, ip: Client)
    requires Ok(c, m, now) && RefillsInAMinute(c)
    ensures Level(c, Purged(m, now), ip, now) == Level(c, m, ip, now)
  {
    hide Gain;
    if ip in m && ip !in Kept(m, now) {
      var dt := now - m[ip].last;
      GainFacts(c, dt - IDLE, IDLE);
      assert dt - IDLE + IDLE == dt;
    }
  }

  /** Levels rise by at most the refill rate. */
  lemma LevelRises(c: Config, m: Buckets, ip: Client, now: real, later: real)
    requires Ok(c, m, now) && now <= later
    ensures Level(c, m, ip, later) <= Level(c, m, ip, now) + Gain(c, later - now)
  {
    hide Gain;
    GainFacts(c, later - now, 0.0);
    if ip in m {
      GainFacts(c, now - m[ip].last, later - now);
      assert now - m[ip].last + (later - now) == later - m[ip].last;
    }
  }

  /** Who else calls does not matter, and a client's own call costs one token if it is allowed. */
  lemma AllowCosts(c: Config, m: Buckets, ip: Client, who: Client, now: real)
    requires Ok(c, m, now) && RefillsInAMinute(c)
    ensures var (m', ok) := Allow(c, m, who, now);
      && Level(c, m', ip, now) == Level(c, m, ip, now) - (if who == ip && ok then 1.0 else 0.0)
      && (who == ip ==> (ok <==> Level(c, m, ip, now) >= 1.0))
  {
    hide Purged, Gain;
    GainFacts(c, 0.0, 0.0);
    assert now - now == 0.0;
    PurgeUnseen(c, m, now, ip);
    LevelRange(c, m, ip, now);
    if who != ip {
      assert Allow(c, m, who, now).0 == Purged(m, now)[who := Allow(c, m, who, now).0[who]];
    }
  }

  lemma {:induction false} AllowedBound(c: Config, m: Buckets, run: seq<Call>, ip: Client, start: real, end: real)
    requires Ok(c, m, start) && Between(run, start, end) && RefillsInAMinute(c)
    ensures Allowed(c, m, run, ip) as real <= Level(c, m, ip, start) + Gain(c, end - start)
    decreases |run|
  {
    hide Ok, Allow, Level, RefillsInAMinute, Gain;
    if run == [] {
      GainFacts(c, end - start, 0.0);
      LevelRange(c, m, ip, start);
    } else {
      var t := run[0].now;
      var (m', ok) := Allow(c, m, run[0].ip, t);
      OkLater(c, m, start, t);
      AllowKeeps(c, m, run[0].ip, start, t);
      AllowCosts(c, m, ip, run[0].ip, t);
      LevelRises(c, m, ip, start, t);
      AllowedBound(c, m', run[1..], ip, t, end);
      GainFacts(c, t - start, end - t);
      assert t - start + (end - t) == end - start;
    }
  }

  /** At most `burst + qps * T` in every window, after any earlier calls. */
  ghost predicate Bounded(c: Config) {
    forall before, window, ip, start, end ::
      Between(before, 0.0, start) && Between(window, start, end) ==>
        Allowed(c, After(c, map[], before), window, ip) as real <= c.burst as real + Gain(c, end - start)
  }

  lemma BoundHolds(c: Config, before: seq<Call>, window: seq<Call>, ip: Client, start: real, end: real)
    requires Between(before, 0.0, start) && Between(window, start, end) && RefillsInAMinute(c)
    ensures Allowed(c, After(c, map[], before), window, ip) as real <= c.burst as real + Gain(c, end - start)
  {
    hide Allowed, After, Level, Gain;
    AfterKeeps(c, map[], before, 0.0, start);
    AllowedBound(c, After(c, map[], before), window, ip, start, end);
    LevelRange(c, After(c, map[], before), ip, start);
  }

  // ------------------------------------------- a burst longer than a minute

  ghost predicate AllAt(m: Buckets, t: real) { forall k :: k in m ==> m[k].last == t }

  lemma NothingIdle(m: Buckets, t: real)
    requires AllAt(m, t)
    ensures Purged(m, t) == m
  {
    assert Kept(m, t) == m;
  }

  lemma {:induction false} AfterLast(c: Config, m: Buckets, run: seq<Call>, x: Call)
    ensures After(c, m, run + [x]) == Allow(c, After(c, m, run), x.ip, x.now).0
    decreases |run|
  {
    hide Allow;
    if run == [] {
      assert (run + [x])[1..] == [];
    } else {
      assert (run + [x])[1..] == run[1..] + [x];
      AfterLast(c, Allow(c, m, run[0].ip, run[0].now).0, run[1..], x);
    }
  }

  /** Clients `1..n` each ask once at the start. */
  function Crowd(n: nat): seq<Call> { if n == 0 then [] else Crowd(n - 1) + [Call(n, 0.0)] }

  lemma {:induction false} CrowdState(c: Config, n: nat)
    ensures var m := After(c, map[], Crowd(n));
      |m| == n && AllAt(m, 0.0) && forall k :: k in m ==> 0 < k <= n
  {
    hide Gain, Purged, Level;
    if n > 0 {
      CrowdState(c, n - 1);
      var m := After(c, map[], Crowd(n - 1));
      AfterLast(c, map[], Crowd(n - 1), Call(n, 0.0));
      NothingIdle(m, 0.0);
      var m' := Allow(c, m, n, 0.0).0;
      assert m'.Keys == m.Keys + {n};
    }
  }

  lemma {:induction false} BetweenLast(run: seq<Call>, start: real, end: real, x: Call)
    requires Between(run, start, end) && x.now == end
    ensures Between(run + [x], start, end)
    decreases |run|
  {
    if run == [] {
      assert (run + [x])[1..] == [];
    } else {
      assert (run + [x])[1..] == run[1..] + [x];
      BetweenLast(run[1..], run[0].now, end, x);
    }
  }

  lemma {:induction false} CrowdBetween(n: nat)
    ensures Between(Crowd(n), 0.0, 0.0)
  {
    if n > 0 {
      CrowdBetween(n - 1);
      BetweenLast(Crowd(n - 1), 0.0, 0.0, Call(n, 0.0));
    }
  }

  /** Client 0 asks `k` times at once. */
  function Flood(k: nat, t: real): seq<Call> { if k == 0 then [] else [Call(0, t)] + Flood(k - 1, t) }

  lemma {:induction false} FloodAllowed(c: Config, m: Buckets, k: nat, t: real)
    requires AllAt(m, t) && Level(c, m, 0, t) >= k as real && Level(c, m, 0, t) <= c.burst as real
    ensures Allowed(c, m, Flood(k, t), 0) == k
    ensures var m' := After(c, m, Flood(k, t)); AllAt(m', t) && |m'| >= |m|
    decreases k
  {
    hide Gain, Level, Purged;
    if k > 0 {
      FloodStep(c, m, t);
      NothingIdle(m, t);
      var m' := Allow(c, m, 0, t).0;
      assert Flood(k, t)[1..] == Flood(k - 1, t);
      FloodAllowed(c, m', k - 1, t);
    }
  }

  lemma FloodStep(c: Config, m: Buckets, t: real)
    requires AllAt(m, t) && 1.0 <= Level(c, m, 0, t) <= c.burst as real
    ensures var (m', ok) := Allow(c, m, 0, t);
      ok && AllAt(m', t) && |m'| >= |m| && Level(c, m', 0, t) == Level(c, m, 0, t) - 1.0
  {
    hide Gain, Purged;
    NothingIdle(m, t);
    GainFacts(c, 0.0, 0.0);
    assert t - t == 0.0;
    var m' := Allow(c, m, 0, t).0;
    assert m'.Keys == m.Keys + {0};
    assert |m.Keys + {0}| >= |m.Keys|;
  }

  /** A minute later everyone is purged, and client 0 starts afresh. */
  lemma FloodAgain(c: Config, m: Buckets, k: nat)
    requires |m| > CLEANUP_THRESHOLD && AllAt(m, 0.0) && 0 < k <= c.burst
    ensures Allowed(c, m, Flood(k, IDLE), 0) == k
  {
    hide Take;
    assert Kept(m, IDLE) == map[] && Purged(map[], IDLE) == map[];
    assert Allow(c, m, 0, IDLE) == Allow(c, map[], 0, IDLE);
    assert Flood(k, IDLE)[0] == Call(0, IDLE);
    assert Allowed(c, m, Flood(k, IDLE), 0) == Allowed(c, map[], Flood(k, IDLE), 0);
    FloodAllowed(c, map[], k, IDLE);
  }

  lemma {:induction false} AllowedJoin(c: Config, m: Buckets, a: seq<Call>, b: seq<Call>, ip: Client)
    ensures Allowed(c, m, a + b, ip) == Allowed(c, m, a, ip) + Allowed(c, After(c, m, a), b, ip)
    decreases |a|
  {
    hide Allow;
    if a == [] {
      assert a + b == b;
    } else {
      assert (a + b)[1..] == a[1..] + b;
      AllowedJoin(c, Allow(c, m, a[0].ip, a[0].now).0, a[1..], b, ip);
    }
  }

  lemma {:induction false} FloodBetween(k: nat, start: real, end: real, rest: seq<Call>)
    requires Between(rest, start, end)
    ensures Between(Flood(k, start) + rest, start, end)
    decreases k
  {
    if k == 0 {
      assert Flood(0, start) + rest == rest;
    } else {
      FloodBetween(k - 1, start, end, rest);
      assert (Flood(k, start) + rest)[1..] == Flood(k - 1, start) + rest;
    }
  }

  /** With a longer burst the bound fails: drain, let a crowd force the purge a minute later, drain again. */
  lemma BoundFails(c: Config)
    requires !RefillsInAMinute(c)
    ensures var before := Crowd(CLEANUP_THRESHOLD + 1);
      var window := Flood(c.burst, 0.0) + Flood(c.burst, IDLE);
      && Between(before, 0.0, 0.0) && Between(window, 0.0, IDLE)
      && Allowed(c, After(c, map[], before), window, 0) == 2 * c.burst
      && Allowed(c, After(c, map[], before), window, 0) as real > c.burst as real + Gain(c, IDLE)
  {
    hide Crowd, Allowed, After, Allow, Flood, Gain, Between;
    GainFacts(c, 0.0, 0.0);
    var n := CLEANUP_THRESHOLD + 1;
    CrowdBetween(n);
    CrowdState(c, n);
    var m := After(c, map[], Crowd(n));
    assert Level(c, m, 0, 0.0) == c.burst as real;
    FloodAllowed(c, m, c.burst, 0.0);
    var m' := After(c, m, Flood(c.burst, 0.0));
    FloodAgain(c, m', c.burst);
    AllowedJoin(c, m, Flood(c.burst, 0.0), Flood(c.burst, IDLE), 0);
    assert Between([], IDLE, IDLE) by { NothingBetween(IDLE); }
    FloodBetween(c.burst, IDLE, IDLE, []);
    assert Flood(c.burst, IDLE) + [] == Flood(c.burst, IDLE);
    FloodLater(c.burst, IDLE, 0.0);
    FloodBetween(c.burst, 0.0, IDLE, Flood(c.burst, IDLE));
  }

  lemma NothingBetween(t: real)
    ensures Between([], t, t)
  {
  }

  lemma FloodLater(k: nat, t: real, start: real)
    requires Between(Flood(k, t), t, t) && start <= t
    ensures Between(Flood(k, t), start, t)
  {
  }

  /** The bound holds for every run exactly when a minute refills any bucket. */
  lemma BoundExact(c: Config)
    ensures Bounded(c) <==> RefillsInAMinute(c)
  {
    hide Allowed, After, Between, RefillsInAMinute, Gain;
    if RefillsInAMinute(c) {
      forall before, window, ip, start, end | Between(before, 0.0, start) && Between(window, start, end)
        ensures Allowed(c, After(c, map[], before), window, ip) as real <= c.burst as real + Gain(c, end - start)
      {
        BoundHolds(c, before, window, ip, start, end);
      }
    } else {
      BoundFails(c);
      var before, window := Crowd(CLEANUP_THRESHOLD + 1), Flood(c.burst, 0.0) + Flood(c.burst, IDLE);
      assert IDLE - 0.0 == IDLE;
      assert Between(before, 0.0, 0.0) && Between(window, 0.0, IDLE);
    }
  }

  // ----------------------------------------------------- answers, purge or no

  function AnswersOf(c: Config, m: Buckets, run: seq<Call>): seq<bool>
    decreases |run|
  {
    if run == [] then []
    else
      var (m', ok) := Allow(c, m, run[0].ip, run[0].now);
      [ok] + AnswersOf(c, m', run[1..])
  }

  function AnswersUnpurged(c: Config, m: Buckets, run: seq<Call>): seq<bool>
    decreases |run|
  {
    if run == [] then []
    else
      var (m', ok) := Take(c, m, run[0].ip, run[0].now);
      [ok] + AnswersUnpurged(c, m', run[1..])
  }

  /** Two bucket maps in which every client has the same level from now on. */
  ghost predicate SameLevels(c: Config, a: Buckets, b: Buckets, now: real) {
    forall ip, t :: t >= now ==> Level(c, a, ip, t) == Level(c, b, ip, t)
  }

  lemma PurgeSame(c: Config, m: Buckets, now: real)
    requires Ok(c, m, now) && RefillsInAMinute(c)
    ensures SameLevels(c, Purged(m, now), m, now)
  {
    hide Gain;
    forall ip, t | t >= now ensures Level(c, Purged(m, now), ip, t) == Level(c, m, ip, t) {
      if ip in m && ip !in Purged(m, now) {
        PurgeUnseen(c, m, now, ip);
        GainFacts(c, now - m[ip].last, t - now);
        assert now - m[ip].last + (t - now) == t - m[ip].last;
      }
    }
  }

  lemma TakeSame(c: Config, a: Buckets, b: Buckets, ip: Client, now: real)
    requires SameLevels(c, a, b, now)
    ensures Take(c, a, ip, now).1 == Take(c, b, ip, now).1
    ensures SameLevels(c, Take(c, a, ip, now).0, Take(c, b, ip, now).0, now)
  {
    hide Refill;
    var a', b' := Take(c, a, ip, now).0, Take(c, b, ip, now).0;
    assert Level(c, a, ip, now) == Level(c, b, ip, now);
    forall k, t | t >= now ensures Level(c, a', k, t) == Level(c, b', k, t) {
      assert Level(c, a, k, t) == Level(c, b, k, t);
    }
  }

  /** When a minute refills any bucket, no answer in any run depends on the purge. */
  lemma {:induction false} PurgeInvisible(c: Config, a: Buckets, b: Buckets, run: seq<Call>, start: real, end: real)
    requires RefillsInAMinute(c) && Ok(c, a, start) && SameLevels(c, a, b, start) && Between(run, start, end)
    ensures AnswersOf(c, a, run) == AnswersUnpurged(c, b, run)
    decreases |run|
  {
    hide Ok, SameLevels, Take, RefillsInAMinute, Purged;
    if run != [] {
      var x := run[0];
      OkLater(c, a, start, x.now);
      PurgeSame(c, a, x.now);
      SameJoin(c, Purged(a, x.now), a, b, start, x.now);
      TakeSame(c, Purged(a, x.now), b, x.ip, x.now);
      AllowKeeps(c, a, x.ip, start, x.now);
      PurgeInvisible(c, Allow(c, a, x.ip, x.now).0, Take(c, b, x.ip, x.now).0, run[1..], x.now, end);
    }
  }

  lemma SameJoin(c: Config, p: Buckets, a: Buckets, b: Buckets, start: real, now: real)
    requires SameLevels(c, p, a, now) && SameLevels(c, a, b, start) && start <= now
    ensures SameLevels(c, p, b, now)
  {
    forall ip, t | t >= now ensures Level(c, p, ip, t) == Level(c, b, ip, t) {
      assert Level(c, a, ip, t) == Level(c, b, ip, t);
    }
  }
}
