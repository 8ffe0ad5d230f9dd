/**
 * Singleflight under every interleaving: any number of requests, each step of theirs atomic, with
 * requests abandoned and cache entries evicted at any moment.
 */
module Flights {
  import Caches

  type Key = Caches.Key

  const ROUNDS: nat := 3

  type Task = nat
  type Channel = nat

  /** A flight: who leads it and how far its guard has come. */
  datatype Flight = Flight(key: Key, leader: Task, inserted: bool, removed: bool, woken: bool)

  /** Where a request stands; `ok` tells whether its own lookup succeeded. */
  datatype Pc =
    | Check(round: nat)
    | Begin(round: nat)
    | Wait(round: nat, chan: Channel)
    | Lead(chan: Channel)
    | Store(chan: Channel)
    | Remove(chan: Channel, ok: bool)
    | Signal(chan: Channel, ok: bool)
    | Direct
    | Done

  datatype Request = Request(key: Key, pc: Pc)

  datatype System = System(
    requests: map<Task, Request>, inflight: map<Key, Channel>, flights: map<Channel, Flight>,
    cache: map<Key, Channel>, next: Channel)

  const START: System := System(map[], map[], map[], map[], 0)

  // ------------------------------------------------------------------- steps

  datatype Step =
    | Arrive(task: Task, key: Key)
    | Hit(task: Task)
    | Miss(task: Task)
    | BeginLead(task: Task)
    | BeginFollow(task: Task)
    | Reply(task: Task)
    | Fail(task: Task)
    | DoStore(task: Task, kept: bool)
    | DoRemove(task: Task)
    | DoSignal(task: Task)
    | Resume(task: Task)
    | GoDirect(task: Task)
    | Abandon(task: Task)
    | Evict(gone: Key)

  function At(s: System, t: Task): Pc { if t in s.requests then s.requests[t].pc else Done }

  function Move(s: System, t: Task, pc: Pc): System
    requires t in s.requests
  {
    s.(requests := s.requests[t := s.requests[t].(pc := pc)])
  }

  predicate Enabled(s: System, step: Step) {
    match step
    case Arrive(t, _) => t !in s.requests
    case Hit(t) => t in s.requests && At(s, t).Check? && s.requests[t].key in s.cache
    case Miss(t) => t in s.requests && At(s, t).Check? && s.requests[t].key !in s.cache
    case BeginLead(t) => t in s.requests && At(s, t).Begin? && s.requests[t].key !in s.inflight
    case BeginFollow(t) => t in s.requests && At(s, t).Begin? && s.requests[t].key in s.inflight
    case Reply(t) => t in s.requests && At(s, t).Lead?
    case Fail(t) => t in s.requests && At(s, t).Lead?
    case DoStore(t, _) => t in s.requests && At(s, t).Store? && At(s, t).chan in s.flights
    case DoRemove(t) => t in s.requests && At(s, t).Remove? && At(s, t).chan in s.flights
    case DoSignal(t) => t in s.requests && At(s, t).Signal? && At(s, t).chan in s.flights
    case Resume(t) =>
      t in s.requests && At(s, t).Wait? && At(s, t).chan in s.flights && s.flights[At(s, t).chan].woken
    case GoDirect(t) => t in s.requests && At(s, t).Direct?
    case Abandon(t) => t in s.requests && (At(s, t).Wait? || At(s, t).Direct?)
    case Evict(k) => k in s.cache
  }

  datatype Role = Leader(own: Channel) | Follower(other: Channel)

  class Singleflight {
    var inflight: map<Key, Channel>
    var next: Channel

    /**
     * The locked part of `begin`, for a request about to take that step: it leads exactly when no
     * live guard holds the key, and otherwise it waits on the channel of the guard that does.
     */
    method BeginFlight(key: Key, ghost s: System, ghost t: Task) returns (role: Role)
      requires Inv(s) && t in s.requests && At(s, t).Begin? && s.requests[t].key == key
      requires inflight == s.inflight && next == s.next
      modifies this
      ensures role.Leader? <==> forall u :: !HoldsKey(s, u, key)
      ensures role.Follower? ==> exists u :: HoldsKey(s, u, key) && At(s, u).chan == role.other
      ensures var step := if role.Leader? then BeginLead(t) else BeginFollow(t);
        && Enabled(s, step) && inflight == Next(s, step).inflight && next == Next(s, step).next
        && At(Next(s, step), t) == if role.Leader? then Lead(role.own) else Wait(At(s, t).round, role.other)
    {
      EntryOwned(s, key);
      EntryLed(s, key);
      if key in inflight {
        return Follower(inflight[key]);
      }
      var chan := next;
      next := next + 1;
      inflight := inflight[key := chan];
      role := Leader(chan);
    }

    /** The locked part of the guard's drop: afterwards nobody holds the key, and other entries are as they were. */
    method Release(key: Key, ghost s: System, ghost t: Task)
      requires Inv(s) && Enabled(s, DoRemove(t)) && s.requests[t].key == key
      requires inflight == s.inflight && next == s.next
      modifies this
      ensures inflight == Next(s, DoRemove(t)).inflight && next == Next(s, DoRemove(t)).next
      ensures forall u :: !HoldsKey(Next(s, DoRemove(t)), u, key)
      ensures key in old(inflight) && old(inflight)[key] == At(s, t).chan
      ensures forall k :: k != key ==>
        (k in inflight <==> k in old(inflight)) && (k in inflight ==> inflight[k] == old(inflight)[k])
    {
      RemovesOwn(s, t);
      StepKeeps(s, DoRemove(t));
      EntryOwned(Next(s, DoRemove(t)), key);
      inflight := inflight - {key};
    }
  }

  function NewFlight(s: System, t: Task): System
    requires t in s.requests
  {
    var key := s.requests[t].key;
    Move(s, t, Lead(s.next)).(
      inflight := s.inflight[key := s.next],
      flights := s.flights[s.next := Flight(key, t, false, false, false)],
      next := s.next + 1)
  }

  /** The result is offered to the cache, which keeps it or not. */
  function Stored(s: System, t: Task, kept: bool): System
    requires Enabled(s, DoStore(t, kept))
  {
    var c := At(s, t).chan;
    var s1 := Move(s, t, Remove(c, true)).(flights := s.flights[c := s.flights[c].(inserted := true)]);
    if kept then s1.(cache := s.cache[s.requests[t].key := c]) else s1
  }

  /** The first half of the guard's drop: its key leaves the map. */
  function Removed(s: System, t: Task): System
    requires Enabled(s, DoRemove(t))
  {
    var pc := At(s, t);
    Move(s, t, Signal(pc.chan, pc.ok)).(
      inflight := s.inflight - {s.requests[t].key},
      flights := s.flights[pc.chan := s.flights[pc.chan].(removed := true)])
  }

  /** The second half: the followers are woken. */
  function Signalled(s: System, t: Task): System
    requires Enabled(s, DoSignal(t))
  {
    var c := At(s, t).chan;
    Move(s, t, Done).(flights := s.flights[c := s.flights[c].(woken := true)])
  }

  function AfterWait(round: nat): Pc { if round + 1 < ROUNDS then Check(round + 1) else Direct }

  function Next(s: System, step: Step): System
    requires Enabled(s, step)
  {
    match step
    case Arrive(t, key) => s.(requests := s.requests[t := Request(key, Check(0))])
    case Hit(t) => Move(s, t, Done)
    case Miss(t) => Move(s, t, Begin(At(s, t).round))
    case BeginLead(t) => NewFlight(s, t)
    case BeginFollow(t) => Move(s, t, Wait(At(s, t).round, s.inflight[s.requests[t].key]))
    case Reply(t) => Move(s, t, Store(At(s, t).chan))
    case Fail(t) => Move(s, t, Remove(At(s, t).chan, false))
    case DoStore(t, kept) => Stored(s, t, kept)
    case DoRemove(t) => Removed(s, t)
    case DoSignal(t) => Signalled(s, t)
    case Resume(t) => Move(s, t, AfterWait(At(s, t).round))
    case GoDirect(t) => Move(s, t, Done)
    case Abandon(t) => Move(s, t, Done)
    case Evict(k) => s.(cache := s.cache - {k})
  }

  // -------------------------------------------------------------- invariants

  /** The guard holds its entry: the lookup is running, its result is being stored, or it is about to let go. */
  predicate Holds(pc: Pc, c: Channel) {
    (pc.Lead? || pc.Store? || pc.Remove?) && pc.chan == c
  }

  /** The flight's leader stands where the flight says it does. */
  predicate FlightOk(s: System, c: Channel)
    requires c in s.flights
  {
    var f := s.flights[c];
    && c < s.next
    && (f.woken ==> f.removed)
    && (!f.removed ==>
          f.leader in s.requests && Holds(At(s, f.leader), c) && f.key in s.inflight && s.inflight[f.key] == c)
    && (f.removed && !f.woken ==> At(s, f.leader).Signal? && At(s, f.leader).chan == c)
  }

  predicate RequestOk(s: System, t: Task)
    requires t in s.requests
  {
    var key := s.requests[t].key;
    match s.requests[t].pc
    case Check(r) => r < ROUNDS
    case Begin(r) => r < ROUNDS
    case Wait(r, c) => r < ROUNDS && c in s.flights && s.flights[c].key == key
    case Lead(c) => Leads(s, t, c) && !s.flights[c].removed
    case Store(c) => Leads(s, t, c) && !s.flights[c].removed
    case Remove(c, ok) => Leads(s, t, c) && !s.flights[c].removed && (ok ==> s.flights[c].inserted)
    case Signal(c, ok) =>
      Leads(s, t, c) && s.flights[c].removed && !s.flights[c].woken && (ok ==> s.flights[c].inserted)
    case Direct => true
    case Done => true
  }

  predicate Leads(s: System, t: Task, c: Channel)
    requires t in s.requests
  {
    c in s.flights && s.flights[c].leader == t && s.flights[c].key == s.requests[t].key
  }

  /** Both maps name flights for their own key: live ones in one, stored ones in the other. */
  ghost predicate MapsOk(s: System) {
    && (forall k :: k in s.inflight ==>
          var c := s.inflight[k]; c in s.flights && s.flights[c].key == k && !s.flights[c].removed)
    && (forall k :: k in s.cache ==>
          var c := s.cache[k]; c in s.flights && s.flights[c].key == k && s.flights[c].inserted)
  }

  ghost predicate Inv(s: System) {
    && MapsOk(s)
    && (forall c :: c in s.flights ==> FlightOk(s, c))
    && (forall t :: t in s.requests ==> RequestOk(s, t))
  }

  predicate Guarding(pc: Pc) { pc.Lead? || pc.Store? || pc.Remove? || pc.Signal? }

  /** A request without a guard moves on. */
  lemma PlainMove(s: System, t: Task, pc: Pc)
    requires Inv(s) && t in s.requests && !Guarding(At(s, t)) && !Guarding(pc)
    requires RequestOk(Move(s, t, pc), t)
    ensures Inv(Move(s, t, pc))
  {
    var s' := Move(s, t, pc);
    forall c | c in s'.flights ensures FlightOk(s', c) {
      assert FlightOk(s, c);
    }
    forall x | x in s'.requests ensures RequestOk(s', x) {
      assert x != t ==> RequestOk(s, x);
    }
  }

  lemma ArriveKeeps(s: System, t: Task, key: Key)
    requires Inv(s) && t !in s.requests
    ensures Inv(Next(s, Arrive(t, key)))
  {
    var s' := Next(s, Arrive(t, key));
    forall c | c in s'.flights ensures FlightOk(s', c) {
      assert FlightOk(s, c);
    }
    forall x | x in s'.requests ensures RequestOk(s', x) {
      assert x != t ==> RequestOk(s, x);
    }
  }

  /** A leader moves on with its entry still in the map. */
  lemma HolderMove(s: System, t: Task, pc: Pc)
    requires Inv(s) && t in s.requests && At(s, t).Lead? && Holds(pc, At(s, t).chan) && RequestOk(Move(s, t, pc), t)
    ensures Inv(Move(s, t, pc))
  {
    var s' := Move(s, t, pc);
    forall c | c in s'.flights ensures FlightOk(s', c) {
      assert FlightOk(s, c);
    }
    forall x | x in s'.requests ensures RequestOk(s', x) {
      assert RequestOk(s, x);
    }
  }

  lemma LeadFlight(s: System, t: Task, c: Channel)
    requires Inv(s) && Enabled(s, BeginLead(t)) && c in NewFlight(s, t).flights
    ensures FlightOk(NewFlight(s, t), c)
  {
    assert RequestOk(s, t);
    if c in s.flights {
      assert FlightOk(s, c);
    }
  }

  lemma LeadRequest(s: System, t: Task, x: Task)
    requires Inv(s) && Enabled(s, BeginLead(t)) && x in s.requests
    ensures RequestOk(NewFlight(s, t), x)
  {
    assert RequestOk(s, t) && RequestOk(s, x);
    FreshChannel(s);
  }

  lemma LeadKeeps(s: System, t: Task)
    requires Inv(s) && Enabled(s, BeginLead(t))
    ensures Inv(NewFlight(s, t))
  {
    hide FlightOk, RequestOk;
    var s' := NewFlight(s, t);
    forall c | c in s'.flights ensures FlightOk(s', c) {
      LeadFlight(s, t, c);
    }
    forall x | x in s'.requests ensures RequestOk(s', x) {
      LeadRequest(s, t, x);
    }
    LeadMaps(s, t);
  }

  lemma FreshChannel(s: System)
    requires Inv(s)
    ensures s.next !in s.flights
  {
    forall c | c in s.flights ensures c != s.next {
      assert FlightOk(s, c);
    }
  }

  lemma StoreFlight(s: System, t: Task, kept: bool, c: Channel)
    requires Inv(s) && Enabled(s, DoStore(t, kept)) && c in Stored(s, t, kept).flights
    ensures FlightOk(Stored(s, t, kept), c)
  {
    assert RequestOk(s, t);
    if c in s.flights {
      assert FlightOk(s, c);
    }
  }

  lemma StoreRequest(s: System, t: Task, kept: bool, x: Task)
    requires Inv(s) && Enabled(s, DoStore(t, kept)) && x in s.requests
    ensures RequestOk(Stored(s, t, kept), x)
  {
    assert RequestOk(s, t) && RequestOk(s, x);
  }

  lemma StoreKeeps(s: System, t: Task, kept: bool)
    requires Inv(s) && Enabled(s, DoStore(t, kept))
    ensures Inv(Stored(s, t, kept))
  {
    hide FlightOk, RequestOk;
    var s' := Stored(s, t, kept);
    forall c | c in s'.flights ensures FlightOk(s', c) {
      StoreFlight(s, t, kept, c);
    }
    forall x | x in s'.requests ensures RequestOk(s', x) {
      StoreRequest(s, t, kept, x);
    }
    StoreMaps(s, t, kept);
  }

  lemma RemoveFlight(s: System, t: Task, c: Channel)
    requires Inv(s) && Enabled(s, DoRemove(t)) && c in Removed(s, t).flights
    ensures FlightOk(Removed(s, t), c)
  {
    assert RequestOk(s, t);
    if c in s.flights {
      assert FlightOk(s, c);
    }
  }

  lemma RemoveRequest(s: System, t: Task, x: Task)
    requires Inv(s) && Enabled(s, DoRemove(t)) && x in s.requests
    ensures RequestOk(Removed(s, t), x)
  {
    assert RequestOk(s, t) && RequestOk(s, x);
  }

  lemma RemoveKeeps(s: System, t: Task)
    requires Inv(s) && Enabled(s, DoRemove(t))
    ensures Inv(Removed(s, t))
  {
    hide FlightOk, RequestOk;
    var s' := Removed(s, t);
    forall c | c in s'.flights ensures FlightOk(s', c) {
      RemoveFlight(s, t, c);
    }
    forall x | x in s'.requests ensures RequestOk(s', x) {
      RemoveRequest(s, t, x);
    }
    RemoveMaps(s, t);
  }

  lemma SignalFlight(s: System, t: Task, c: Channel)
    requires Inv(s) && Enabled(s, DoSignal(t)) && c in Signalled(s, t).flights
    ensures FlightOk(Signalled(s, t), c)
  {
    assert RequestOk(s, t);
    if c in s.flights {
      assert FlightOk(s, c);
    }
  }

  lemma SignalRequest(s: System, t: Task, x: Task)
    requires Inv(s) && Enabled(s, DoSignal(t)) && x in s.requests
    ensures RequestOk(Signalled(s, t), x)
  {
    assert RequestOk(s, t) && RequestOk(s, x);
  }

  lemma SignalKeeps(s: System, t: Task)
    requires Inv(s) && Enabled(s, DoSignal(t))
    ensures Inv(Signalled(s, t))
  {
    hide FlightOk, RequestOk;
    var s' := Signalled(s, t);
    forall c | c in s'.flights ensures FlightOk(s', c) {
      SignalFlight(s, t, c);
    }
    forall x | x in s'.requests ensures RequestOk(s', x) {
      SignalRequest(s, t, x);
    }
    SignalMaps(s, t);
  }

  lemma LeadMaps(s: System, t: Task)
    requires Inv(s) && Enabled(s, BeginLead(t))
    ensures MapsOk(NewFlight(s, t))
  {
    hide FlightOk, RequestOk;
    FreshChannel(s);
  }

  lemma StoreMaps(s: System, t: Task, kept: bool)
    requires Inv(s) && Enabled(s, DoStore(t, kept))
    ensures MapsOk(Stored(s, t, kept))
  {
    hide FlightOk;
    assert RequestOk(s, t);
  }

  lemma RemoveMaps(s: System, t: Task)
    requires Inv(s) && Enabled(s, DoRemove(t))
    ensures MapsOk(Removed(s, t))
  {
    assert RequestOk(s, t) && FlightOk(s, At(s, t).chan);
  }

  lemma SignalMaps(s: System, t: Task)
    requires Inv(s) && Enabled(s, DoSignal(t))
    ensures MapsOk(Signalled(s, t))
  {
    hide FlightOk;
    assert RequestOk(s, t);
  }

  lemma EvictKeeps(s: System, k: Key)
    requires Inv(s) && k in s.cache
    ensures Inv(Next(s, Evict(k)))
  {
    var s' := Next(s, Evict(k));
    forall c | c in s'.flights ensures FlightOk(s', c) {
      assert FlightOk(s, c);
    }
    forall x | x in s'.requests ensures RequestOk(s', x) {
      assert RequestOk(s, x);
    }
  }

  /** Every step, whoever takes it, keeps the invariant. */
  lemma StepKeeps(s: System, step: Step)
    requires Inv(s) && Enabled(s, step)
    ensures Inv(Next(s, step))
  {
    hide FlightOk, Removed, Stored, Signalled, NewFlight;
    match step {
      case Arrive(t, key) => ArriveKeeps(s, t, key);
      case Hit(t) => PlainMove(s, t, Done);
      case Miss(t) =>
        assert RequestOk(s, t);
        PlainMove(s, t, Begin(At(s, t).round));
      case BeginLead(t) => LeadKeeps(s, t);
      case BeginFollow(t) =>
        assert RequestOk(s, t);
        PlainMove(s, t, Wait(At(s, t).round, s.inflight[s.requests[t].key]));
      case Reply(t) =>
        assert RequestOk(s, t);
        HolderMove(s, t, Store(At(s, t).chan));
      case Fail(t) =>
        assert RequestOk(s, t);
        HolderMove(s, t, Remove(At(s, t).chan, false));
      case DoStore(t, kept) => StoreKeeps(s, t, kept);
      case DoRemove(t) => RemoveKeeps(s, t);
      case DoSignal(t) => SignalKeeps(s, t);
      case Resume(t) =>
        assert RequestOk(s, t);
        PlainMove(s, t, AfterWait(At(s, t).round));
      case GoDirect(t) => PlainMove(s, t, Done);
      case Abandon(t) => PlainMove(s, t, Done);
      case Evict(k) => EvictKeeps(s, k);
    }
  }

  // -------------------------------------------------------------------- runs

  predicate LegalRun(s: System, steps: seq<Step>)
    decreases |steps|
  {
    steps == [] || (Enabled(s, steps[0]) && LegalRun(Next(s, steps[0]), steps[1..]))
  }

  function Run(s: System, steps: seq<Step>): System
    requires LegalRun(s, steps)
    decreases |steps|
  {
    if steps == [] then s else Run(Next(s, steps[0]), steps[1..])
  }

  /** So every reachable state has it. */
  lemma {:induction false} RunKeeps(s: System, steps: seq<Step>)
    requires Inv(s) && LegalRun(s, steps)
    ensures Inv(Run(s, steps))
    decreases |steps|
  {
    hide Inv, Next, Enabled;
    if steps != [] {
      StepKeeps(s, steps[0]);
      RunKeeps(Next(s, steps[0]), steps[1..]);
    }
  }

  lemma StartOk()
    ensures Inv(START)
  {
  }

  // --------------------------------------------------------- what it amounts to

  predicate HoldsKey(s: System, t: Task, k: Key) {
    t in s.requests && s.requests[t].key == k && (At(s, t).Lead? || At(s, t).Store? || At(s, t).Remove?)
  }

  /** A key is in the map exactly while one live guard that has not removed it owns the entry. */
  lemma EntryOwned(s: System, k: Key)
    requires Inv(s)
    ensures k in s.inflight <==> exists t :: HoldsKey(s, t, k)
    ensures forall t, u :: HoldsKey(s, t, k) && HoldsKey(s, u, k) ==> t == u
  {
    if k in s.inflight {
      var c := s.inflight[k];
      assert FlightOk(s, c);
      assert HoldsKey(s, s.flights[c].leader, k);
    }
    forall t | HoldsKey(s, t, k)
      ensures k in s.inflight && s.inflight[k] == At(s, t).chan && s.flights[At(s, t).chan].leader == t
    {
      assert RequestOk(s, t) && FlightOk(s, At(s, t).chan);
    }
  }

  /** What a guard removes is its own entry, and what it leaves are the others'. */
  lemma RemovesOwn(s: System, t: Task)
    requires Inv(s) && Enabled(s, DoRemove(t))
    ensures var k := s.requests[t].key;
      && k in s.inflight && s.inflight[k] == At(s, t).chan && s.flights[s.inflight[k]].leader == t
      && Next(s, DoRemove(t)).inflight == s.inflight - {k}
  {
    assert RequestOk(s, t) && FlightOk(s, At(s, t).chan);
  }

  /** A follower's channel has been signalled, or its sender is alive and will signal it. */
  lemma WaiterServed(s: System, t: Task)
    requires Inv(s) && t in s.requests && At(s, t).Wait?
    ensures var c := At(s, t).chan;
      && c in s.flights && s.flights[c].key == s.requests[t].key
      && (s.flights[c].woken ||
          var leader := s.flights[c].leader; leader != t && Guarding(At(s, leader)) && At(s, leader).chan == c)
  {
    assert RequestOk(s, t) && FlightOk(s, At(s, t).chan);
  }

  /** A successful leader has offered its result to the cache, and let the key go, before it wakes anyone. */
  lemma StoredBeforeWake(s: System, t: Task)
    requires Inv(s) && Enabled(s, DoSignal(t))
    ensures var c := At(s, t).chan;
      && (At(s, t).ok ==> s.flights[c].inserted)
      && s.flights[c].removed && !s.flights[c].woken && c !in s.inflight.Values
  {
    assert RequestOk(s, t);
  }

  /** The entry's channel is the one its holder leads. */
  lemma EntryLed(s: System, k: Key)
    requires Inv(s)
    ensures k in s.inflight ==> exists u :: HoldsKey(s, u, k) && At(s, u).chan == s.inflight[k]
  {
    if k in s.inflight {
      var c := s.inflight[k];
      assert FlightOk(s, c);
      assert HoldsKey(s, s.flights[c].leader, k);
    }
  }

  /** What is stored stays until it is evicted. */
  lemma {:induction false} KeptStays(s: System, steps: seq<Step>, k: Key)
    requires LegalRun(s, steps) && k in s.cache && Evict(k) !in steps
    ensures k in Run(s, steps).cache
    decreases |steps|
  {
    hide Enabled;
    if steps != [] {
      assert steps[0] in steps;
      KeptOnce(s, steps[0], k);
      KeptStays(Next(s, steps[0]), steps[1..], k);
    }
  }

  lemma KeptOnce(s: System, step: Step, k: Key)
    requires Enabled(s, step) && k in s.cache && step != Evict(k)
    ensures k in Next(s, step).cache
  {
  }

  /** Nobody's key changes while it is under way. */
  lemma {:induction false} KeyStays(s: System, steps: seq<Step>, t: Task)
    requires LegalRun(s, steps) && t in s.requests
    ensures t in Run(s, steps).requests && Run(s, steps).requests[t].key == s.requests[t].key
    decreases |steps|
  {
    hide Enabled;
    if steps != [] {
      KeyOnce(s, steps[0], t);
      KeyStays(Next(s, steps[0]), steps[1..], t);
    }
  }

  lemma KeyOnce(s: System, step: Step, t: Task)
    requires Enabled(s, step) && t in s.requests
    ensures t in Next(s, step).requests && Next(s, step).requests[t].key == s.requests[t].key
  {
  }

  /**
   * The wake is worth waiting for: when the leader's result was kept and not evicted since, a
   * follower with a round left that resumes, however much later, hits the cache with a stored result
   * for its own key.
   */
  lemma KeptThenHit(s: System, t: Task, steps: seq<Step>, u: Task)
    requires Inv(s) && Enabled(s, DoStore(t, true)) && LegalRun(Next(s, DoStore(t, true)), steps)
    requires u in s.requests && At(s, u).Wait? && At(s, u).chan == At(s, t).chan
    requires Evict(s.requests[t].key) !in steps
    requires var s' := Run(Next(s, DoStore(t, true)), steps);
      Enabled(s', Resume(u)) && At(s', u).round + 1 < ROUNDS
    ensures HitsStored(Next(Run(Next(s, DoStore(t, true)), steps), Resume(u)), u, s.requests[u].key)
  {
    hide Inv, LegalRun, Run, MapsOk;
    var k := s.requests[t].key;
    SameKey(s, t, u);
    var s1 := Next(s, DoStore(t, true));
    StepKeeps(s, DoStore(t, true));
    KeyOnce(s, DoStore(t, true), u);
    RunKeeps(s1, steps);
    KeptStays(s1, steps, k);
    KeyStays(s1, steps, u);
    var s' := Run(s1, steps);
    StepKeeps(s', Resume(u));
    HitIsStored(Next(s', Resume(u)), u);
  }

  /** The request's next step is a cache hit, on the stored result of a flight for its own key. */
  predicate HitsStored(s: System, u: Task, k: Key) {
    && Enabled(s, Hit(u)) && !Enabled(s, Miss(u)) && s.requests[u].key == k
    && s.cache[k] in s.flights && s.flights[s.cache[k]].inserted && s.flights[s.cache[k]].key == k
  }

  lemma SameKey(s: System, t: Task, u: Task)
    requires Inv(s) && Enabled(s, DoStore(t, true)) && u in s.requests
    requires At(s, u).Wait? && At(s, u).chan == At(s, t).chan
    ensures s.requests[u].key == s.requests[t].key
  {
    assert RequestOk(s, t) && RequestOk(s, u);
  }

  lemma HitIsStored(s: System, u: Task)
    requires Inv(s) && Enabled(s, Hit(u))
    ensures HitsStored(s, u, s.requests[u].key)
  {
  }

  // --------------------------------------------------------- progress and end

  /** The step an unfinished request is about to take. */
  function OwnStep(s: System, t: Task): Step
    requires t in s.requests
  {
    match At(s, t)
    case Check(_) => if s.requests[t].key in s.cache then Hit(t) else Miss(t)
    case Begin(_) => if s.requests[t].key in s.inflight then BeginFollow(t) else BeginLead(t)
    case Wait(_, _) => Resume(t)
    case Lead(_) => Reply(t)
    case Store(_) => DoStore(t, true)
    case Remove(_, _) => DoRemove(t)
    case Signal(_, _) => DoSignal(t)
    case Direct => GoDirect(t)
    case Done => Abandon(t)
  }

  /** No deadlock: an unfinished request can step, or it waits for a leader that can. */
  lemma CanStep(s: System, t: Task)
    requires Inv(s) && t in s.requests && !At(s, t).Done?
    ensures Enabled(s, OwnStep(s, t)) ||
      (At(s, t).Wait? && At(s, t).chan in s.flights &&
       var leader := s.flights[At(s, t).chan].leader;
       leader in s.requests && Guarding(At(s, leader)) && Enabled(s, OwnStep(s, leader)))
  {
    assert RequestOk(s, t);
    if At(s, t).Wait? {
      WaiterServed(s, t);
      var leader := s.flights[At(s, t).chan].leader;
      if !s.flights[At(s, t).chan].woken {
        assert RequestOk(s, leader);
      }
    }
  }

  /** An upper bound on the steps a request has left. */
  function Rank(pc: Pc): int {
    match pc
    case Check(r) => 3 * (ROUNDS - r) + 5
    case Begin(r) => 3 * (ROUNDS - r) + 4
    case Wait(r, _) => 3 * (ROUNDS - r) + 3
    case Lead(_) => 4
    case Store(_) => 3
    case Remove(_, _) => 2
    case Signal(_, _) => 1
    case Direct => 1
    case Done => 0
  }

  predicate Takes(step: Step, t: Task) { !step.Arrive? && !step.Evict? && step.task == t }

  lemma RankFalls(s: System, step: Step, t: Task)
    requires Inv(s) && Enabled(s, step) && t in s.requests
    ensures t in Next(s, step).requests
    ensures if Takes(step, t) then 0 <= Rank(At(Next(s, step), t)) < Rank(At(s, t)) else At(Next(s, step), t) == At(s, t)
  {
    assert RequestOk(s, t);
  }

  function StepsOf(steps: seq<Step>, t: Task): nat {
    if steps == [] then 0 else (if Takes(steps[0], t) then 1 else 0) + StepsOf(steps[1..], t)
  }

  /** In any run a request takes at most fourteen steps from its arrival, three rounds included. */
  lemma {:induction false} StepsBounded(s: System, steps: seq<Step>, t: Task)
    requires Inv(s) && t in s.requests && LegalRun(s, steps)
    ensures StepsOf(steps, t) <= Rank(At(s, t)) <= 14
    decreases |steps|
  {
    hide Inv, Next, Enabled, Takes;
    RankMost(s, t);
    if steps != [] {
      StepKeeps(s, steps[0]);
      RankFalls(s, steps[0], t);
      StepsBounded(Next(s, steps[0]), steps[1..], t);
    }
  }

  lemma RankMost(s: System, t: Task)
    requires Inv(s) && t in s.requests
    ensures 0 <= Rank(At(s, t)) <= 14
  {
    assert RequestOk(s, t);
  }
}
