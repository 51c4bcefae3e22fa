/** Current and recent sessions of peers. A session that is replaced or cleared is kept for
    a while so that answers encrypted with it can still be read. */
module SessionStore {
  import opened Common
  import opened ScopedExpiryMap

  const SESSION_TTL: nat := 31 * 60 * 1000
  const CACHE: Config := Config(15_000, 15_000, 60_000)

  /** A session of a peer and when it was stored. */
  datatype Held = Held(session: nat, since: nat)

  /** A reader that has looked at the store but not yet at the cache. */
  datatype Reader = Reader(peer: string, current: Option<nat>)

  /** An error handler that has compared sessions but not yet cleared. */
  datatype Decision = Decision(peer: string, blamed: nat)

  datatype Cleared = Cleared(blamed: nat, session: nat)

  /** The store, the cache of displaced sessions, and as history: the log of displacements,
      all sessions ever stored, and the sessions cleared by error handlers. */
  datatype Sys = Sys(
    store: map<string, Held>, cache: State<string, nat>, log: Log<string, nat>,
    readers: map<nat, Reader>, decisions: map<nat, Decision>, known: set<nat>, cleared: seq<Cleared>, clock: nat)

  datatype Event =
    | Establish(peer: string, session: nat, now: nat, later: nat)
    | Clear(peer: string, now: nat, later: nat)
    | ChangeIdentity
    | ReadStore(reader: nat, peer: string, now: nat)
    | ReadCache(reader: nat, now: nat, later: nat)
    | SessionError(peer: string, sentWith: nat, now: nat, later: nat)
    | CompareOnly(handler: nat, peer: string, sentWith: nat, now: nat)
    | ClearDecided(handler: nat, now: nat, later: nat)

  // ----- The manager's operations -----

  /** The stored session, unless it has expired. */
  function Established(store: map<string, Held>, peer: string, now: nat): (session: Option<nat>) {
    if peer in store && Since(now, store[peer].since) < SESSION_TTL then Some(store[peer].session) else None
  }

  function Displace(cache: State<string, nat>, peer: string, old_: Option<nat>, now: nat, later: nat): State<string, nat> {
    match old_
    case None => cache
    case Some(session) => Step(CACHE, cache, Call(Push(peer, session), now, later)).0
  }

  function LogDisplaced(log: Log<string, nat>, peer: string, old_: Option<nat>, now: nat): Log<string, nat> {
    match old_
    case None => log
    case Some(session) => LogStep(CACHE, log, Push(peer, session), now)
  }

  function AfterEstablish(s: Sys, peer: string, session: nat, now: nat, later: nat): Sys {
    var old_ := Established(s.store, peer, now);
    s.(store := s.store[peer := Held(session, now)], cache := Displace(s.cache, peer, old_, now, later),
       log := LogDisplaced(s.log, peer, old_, now), known := s.known + {session}, clock := later)
  }

  function AfterClear(s: Sys, peer: string, now: nat, later: nat): Sys {
    var old_ := Established(s.store, peer, now);
    s.(store := s.store - {peer}, cache := Displace(s.cache, peer, old_, now, later),
       log := LogDisplaced(s.log, peer, old_, now), clock := later)
  }

  /** What a reader gets: the session that was current when it looked, then the cached ones. */
  function Recent(s: Sys, reader: Reader, now: nat, later: nat): (sessions: seq<nat>) {
    (if reader.current.Some? then [reader.current.value] else [])
      + Step(CACHE, s.cache, Call(Get(reader.peer), now, later)).1
  }

  // ----- Steps -----

  predicate Enabled(s: Sys, ev: Event) {
    match ev
    case Establish(_, session, now, later) => s.clock <= now <= later && session !in s.known
    case Clear(_, now, later) => s.clock <= now <= later
    case ChangeIdentity => true
    case ReadStore(_, _, now) => s.clock <= now
    case ReadCache(reader, now, later) => s.clock <= now <= later && reader in s.readers
    case SessionError(_, _, now, later) => s.clock <= now <= later
    case CompareOnly(_, _, _, now) => s.clock <= now
    case ClearDecided(handler, now, later) => s.clock <= now <= later && handler in s.decisions
  }

  function Next(s: Sys, ev: Event): (next: Sys)
    requires Enabled(s, ev)
  {
    match ev
    case Establish(peer, session, now, later) => AfterEstablish(s, peer, session, now, later)
    case Clear(peer, now, later) => AfterClear(s, peer, now, later)
    case ChangeIdentity => s.(store := map[])
    case ReadStore(reader, peer, now) =>
      s.(readers := s.readers[reader := Reader(peer, Established(s.store, peer, now))], clock := now)
    case ReadCache(reader, now, later) =>
      s.(cache := Step(CACHE, s.cache, Call(Get(s.readers[reader].peer), now, later)).0,
         readers := s.readers - {reader}, clock := later)
    case SessionError(peer, sentWith, now, later) =>
      if Established(s.store, peer, now) == Some(sentWith) then
        AfterClear(s, peer, now, later).(cleared := s.cleared + [Cleared(sentWith, sentWith)])
      else s.(clock := later)
    case CompareOnly(handler, peer, sentWith, now) =>
      if Established(s.store, peer, now) == Some(sentWith) then
        s.(decisions := s.decisions[handler := Decision(peer, sentWith)], clock := now)
      else s.(clock := now)
    case ClearDecided(handler, now, later) =>
      var d := s.decisions[handler];
      var gone := Established(s.store, d.peer, now);
      var after := AfterClear(s, d.peer, now, later).(decisions := s.decisions - {handler});
      if gone.Some? then after.(cleared := s.cleared + [Cleared(d.blamed, gone.value)]) else after
  }

  // ----- Recent sessions -----

  ghost predicate CacheInv(s: Sys) {
    Follows(CACHE, s.cache, s.log, s.clock)
  }

  lemma DisplaceFollows(cache: State<string, nat>, log: Log<string, nat>, clock: nat, peer: string, old_: Option<nat>, now: nat, later: nat)
    requires Follows(CACHE, cache, log, clock) && clock <= now <= later
    ensures Follows(CACHE, Displace(cache, peer, old_, now, later), LogDisplaced(log, peer, old_, now), later)
  {
    FollowsLater(CACHE, cache, log, clock, later);
    if old_.Some? {
      StepFollows(CACHE, cache, log, clock, Call(Push(peer, old_.value), now, later));
    }
  }

  lemma StepKeepsCacheInv(s: Sys, ev: Event)
    requires CacheInv(s) && Enabled(s, ev)
    ensures CacheInv(Next(s, ev))
  {
    match ev {
      case Establish(peer, _, now, later) =>
        DisplaceFollows(s.cache, s.log, s.clock, peer, Established(s.store, peer, now), now, later);
      case Clear(peer, now, later) =>
        DisplaceFollows(s.cache, s.log, s.clock, peer, Established(s.store, peer, now), now, later);
      case ChangeIdentity =>
      case ReadStore(_, _, now) => FollowsLater(CACHE, s.cache, s.log, s.clock, now);
      case ReadCache(reader, now, later) =>
        StepFollows(CACHE, s.cache, s.log, s.clock, Call(Get(s.readers[reader].peer), now, later));
      case SessionError(peer, _, now, later) =>
        DisplaceFollows(s.cache, s.log, s.clock, peer, Established(s.store, peer, now), now, later);
        FollowsLater(CACHE, s.cache, s.log, s.clock, later);
      case CompareOnly(_, _, _, now) => FollowsLater(CACHE, s.cache, s.log, s.clock, now);
      case ClearDecided(handler, now, later) =>
        var peer := s.decisions[handler].peer;
        DisplaceFollows(s.cache, s.log, s.clock, peer, Established(s.store, peer, now), now, later);
    }
  }

  ghost predicate Initial(s: Sys) {
    && s.store == map[] && s.cache == State(map[], s.clock) && s.log == map[] && s.readers == map[]
    && s.decisions == map[] && s.known == {} && s.cleared == []
  }

  ghost predicate IsRun(states: seq<Sys>, events: seq<Event>) {
    && |states| == |events| + 1
    && Initial(states[0])
    && (forall i :: 0 <= i < |events| ==> Enabled(states[i], events[i]) && states[i + 1] == Next(states[i], events[i]))
  }

  lemma {:induction false} RunKeepsCacheInv(states: seq<Sys>, events: seq<Event>, i: nat)
    requires IsRun(states, events) && i < |states|
    ensures CacheInv(states[i])
  {
    if i > 0 {
      RunKeepsCacheInv(states, events, i - 1);
      assert states[i - 1 + 1] == Next(states[i - 1], events[i - 1]);
      StepKeepsCacheInv(states[i - 1], events[i - 1]);
    }
  }

  /** A session taken out of the store. */
  datatype Displaced = Displaced(peer: string, session: nat, at: nat)

  /** The session that an event replaces or clears, if any. */
  function Displaces(s: Sys, ev: Event): (d: Option<Displaced>)
    requires Enabled(s, ev)
  {
    match ev
    case Establish(peer, _, now, _) => DisplacedFrom(s, peer, now)
    case Clear(peer, now, _) => DisplacedFrom(s, peer, now)
    case SessionError(peer, sentWith, now, _) =>
      if Established(s.store, peer, now) == Some(sentWith) then Some(Displaced(peer, sentWith, now)) else None
    case ClearDecided(handler, now, _) => DisplacedFrom(s, s.decisions[handler].peer, now)
    case _ => None
  }

  function DisplacedFrom(s: Sys, peer: string, now: nat): Option<Displaced> {
    match Established(s.store, peer, now)
    case None => None
    case Some(session) => Some(Displaced(peer, session, now))
  }

  /** What the first i events of a run have displaced from a peer, oldest first, with the time
      until which it can still be asked for. */
  ghost function Displacements(states: seq<Sys>, events: seq<Event>, i: nat, peer: string): seq<TimedValue<nat>>
    requires IsRun(states, events) && i <= |events|
  {
    if i == 0 then []
    else
      Displacements(states, events, i - 1, peer) + Kept(Displaces(states[i - 1], events[i - 1]), peer)
  }

  function Kept(d: Option<Displaced>, peer: string): seq<TimedValue<nat>> {
    if d.Some? && d.value.peer == peer then [TimedValue(d.value.session, d.value.at + 15_000)] else []
  }

  lemma StepLogsDisplaced(s: Sys, ev: Event, peer: string)
    requires Enabled(s, ev)
    ensures Pushed(Next(s, ev).log, peer) == Pushed(s.log, peer) + Kept(Displaces(s, ev), peer)
  {
  }

  lemma {:induction false} LogIsDisplacements(states: seq<Sys>, events: seq<Event>, i: nat, peer: string)
    requires IsRun(states, events) && i <= |events|
    ensures Pushed(states[i].log, peer) == Displacements(states, events, i, peer)
  {
    if i > 0 {
      LogIsDisplacements(states, events, i - 1, peer);
      assert states[i - 1 + 1] == Next(states[i - 1], events[i - 1]);
      StepLogsDisplaced(states[i - 1], events[i - 1], peer);
    }
  }

  /** Over every interleaving, a reader gets first the session that was current when it looked
      at the store, and then exactly the sessions displaced from the peer within the last 15
      seconds, newest first; only sessions whose time runs out between the clock readings of
      the read may be missing. */
  lemma RecentSessionsAreComplete(states: seq<Sys>, events: seq<Event>, i: nat)
    requires IsRun(states, events) && i < |events| && events[i].ReadCache?
    ensures var s, ev := states[i], events[i];
            var reader := s.readers[ev.reader];
            var displaced := Displacements(states, events, i, reader.peer);
            var first := if reader.current.Some? then [reader.current.value] else [];
            || Recent(s, reader, ev.now, ev.later) == first + NewestFirst(displaced, ev.now)
            || (Recent(s, reader, ev.now, ev.later) == first && NewestFirst(displaced, ev.later) == [])
  {
    RunKeepsCacheInv(states, events, i);
    var s, ev := states[i], events[i];
    StepFollows(CACHE, s.cache, s.log, s.clock, Call(Get(s.readers[ev.reader].peer), ev.now, ev.later));
    LogIsDisplacements(states, events, i, s.readers[ev.reader].peer);
  }

  lemma {:induction false} DisplacementsGrow(states: seq<Sys>, events: seq<Event>, i: nat, j: nat)
    requires IsRun(states, events) && i < j <= |events| && Displaces(states[i], events[i]).Some?
    ensures var d := Displaces(states[i], events[i]).value;
            TimedValue(d.session, d.at + 15_000) in Displacements(states, events, j, d.peer)
  {
    if i + 1 < j {
      DisplacementsGrow(states, events, i, j - 1);
    }
  }

  /** Whatever displaces a session, by replacing it or by clearing it, anyone who reads the cache
      of the peer within 15 seconds gets it. */
  lemma DisplacedSessionIsFound(states: seq<Sys>, events: seq<Event>, i: nat, j: nat)
    requires IsRun(states, events) && i < j < |events| && Displaces(states[i], events[i]).Some? && events[j].ReadCache?
    requires var d := Displaces(states[i], events[i]).value;
             states[j].readers[events[j].reader].peer == d.peer && events[j].later < d.at + 15_000
    ensures var d := Displaces(states[i], events[i]).value;
            d.session in Recent(states[j], states[j].readers[events[j].reader], events[j].now, events[j].later)
  {
    var d := Displaces(states[i], events[i]).value;
    var displaced := Displacements(states, events, j, d.peer);
    RecentSessionsAreComplete(states, events, j);
    DisplacementsGrow(states, events, i, j);
    assert Enabled(states[j], events[j]);
    NewestAreUnexpired(displaced, events[j].now);
    NewestAreUnexpired(displaced, events[j].later);
  }

  // ----- The current session -----

  /** The event takes away or replaces the session of a peer. */
  predicate Ends(s: Sys, ev: Event, peer: string)
    requires Enabled(s, ev)
  {
    match ev
    case Establish(p, _, _, _) => p == peer
    case Clear(p, _, _) => p == peer
    case ChangeIdentity => true
    case SessionError(p, sentWith, now, _) => p == peer && Established(s.store, p, now) == Some(sentWith)
    case ClearDecided(handler, _, _) => s.decisions[handler].peer == peer
    case _ => false
  }

  /** Event j stored the session, and nothing up to state i has ended it. */
  ghost predicate StoredBy(states: seq<Sys>, events: seq<Event>, i: nat, j: nat, peer: string, held: Held)
    requires IsRun(states, events) && j < i <= |events|
  {
    && events[j].Establish? && events[j].peer == peer && Held(events[j].session, events[j].now) == held
    && forall k: nat :: j < k < i ==> !Ends(states[k], events[k], peer)
  }

  /** Over every run, a peer's current session is the one that was agreed last, if that is less
      than 31 minutes old and was neither cleared nor dropped with the identity; otherwise there is none. */
  lemma {:induction false} CurrentSessionIsLastAgreed(states: seq<Sys>, events: seq<Event>, i: nat, peer: string, now: nat, session: nat)
    requires IsRun(states, events) && i <= |events|
    ensures Established(states[i].store, peer, now) == Some(session) <==>
            exists j: nat :: j < i && events[j].Establish? && Since(now, events[j].now) < 1_860_000
                      && StoredBy(states, events, i, j, peer, Held(session, events[j].now))
  {
    if peer in states[i].store {
      var j := HeldWasStored(states, events, i, peer);
    }
    forall j: nat | j < i && events[j].Establish? && StoredBy(states, events, i, j, peer, Held(session, events[j].now))
      ensures peer in states[i].store && states[i].store[peer] == Held(session, events[j].now)
    {
      StoredIsHeld(states, events, i, j, peer, Held(session, events[j].now));
    }
  }

  /** What one event makes of the session stored for a peer. */
  lemma StepKeepsOrEnds(s: Sys, ev: Event, peer: string)
    requires Enabled(s, ev)
    ensures var store := Next(s, ev).store;
            if Ends(s, ev, peer) then
              if ev.Establish? then peer in store && store[peer] == Held(ev.session, ev.now) else peer !in store
            else (peer in store <==> peer in s.store) && (peer in store ==> store[peer] == s.store[peer])
  {
  }

  lemma {:induction false} HeldWasStored(states: seq<Sys>, events: seq<Event>, i: nat, peer: string) returns (j: nat)
    requires IsRun(states, events) && i <= |events| && peer in states[i].store
    ensures j < i && StoredBy(states, events, i, j, peer, states[i].store[peer])
  {
    assert states[i - 1 + 1] == Next(states[i - 1], events[i - 1]);
    StepKeepsOrEnds(states[i - 1], events[i - 1], peer);
    if Ends(states[i - 1], events[i - 1], peer) {
      j := i - 1;
    } else {
      j := HeldWasStored(states, events, i - 1, peer);
    }
  }

  lemma {:induction false} StoredIsHeld(states: seq<Sys>, events: seq<Event>, i: nat, j: nat, peer: string, held: Held)
    requires IsRun(states, events) && j < i <= |events| && StoredBy(states, events, i, j, peer, held)
    ensures peer in states[i].store && states[i].store[peer] == held
  {
    assert states[i - 1 + 1] == Next(states[i - 1], events[i - 1]);
    StepKeepsOrEnds(states[i - 1], events[i - 1], peer);
    if j + 1 < i {
      StoredIsHeld(states, events, i - 1, j, peer, held);
    }
  }

  // ----- Clearing after session errors -----

  /** Sessions are new when stored, no stored session was cleared, none was cleared twice. */
  ghost predicate ClearInv(s: Sys) {
    && (forall p :: p in s.store ==> s.store[p].session in s.known)
    && (forall p, q :: p in s.store && q in s.store && s.store[p].session == s.store[q].session ==> p == q)
    && (forall i: nat :: i < |s.cleared| ==>
          && s.cleared[i].session in s.known && s.cleared[i].session == s.cleared[i].blamed
          && forall p :: p in s.store ==> s.store[p].session != s.cleared[i].session)
    && (forall i: nat, j: nat :: i < j < |s.cleared| ==> s.cleared[i].session != s.cleared[j].session)
  }

  /** Error handlers run one after another: each compares and clears in one go. */
  ghost predicate Sequential(events: seq<Event>) {
    forall i :: 0 <= i < |events| ==> !events[i].CompareOnly? && !events[i].ClearDecided?
  }

  lemma EstablishKeepsClearInv(s: Sys, peer: string, session: nat, now: nat, later: nat)
    requires ClearInv(s) && session !in s.known
    ensures ClearInv(AfterEstablish(s, peer, session, now, later))
  {
  }

  lemma ClearKeepsClearInv(s: Sys, peer: string, now: nat, later: nat)
    requires ClearInv(s)
    ensures var s' := AfterClear(s, peer, now, later);
            && ClearInv(s')
            && var gone := Established(s.store, peer, now);
               gone.Some? ==> ClearInv(s'.(cleared := s.cleared + [Cleared(gone.value, gone.value)]))
  {
  }

  /** A handler that has decided to clear a session clears that one or none. */
  predicate Timely(s: Sys, ev: Event)
    requires Enabled(s, ev)
  {
    ev.ClearDecided? ==>
      var d := s.decisions[ev.handler];
      var current := Established(s.store, d.peer, ev.now);
      current == None || current == Some(d.blamed)
  }

  lemma StepKeepsClearInv(s: Sys, ev: Event)
    requires ClearInv(s) && Enabled(s, ev) && Timely(s, ev)
    ensures ClearInv(Next(s, ev))
  {
    match ev {
      case Establish(peer, session, now, later) => EstablishKeepsClearInv(s, peer, session, now, later);
      case Clear(peer, now, later) => ClearKeepsClearInv(s, peer, now, later);
      case SessionError(peer, _, now, later) => ClearKeepsClearInv(s, peer, now, later);
      case ClearDecided(handler, now, later) => ClearKeepsClearInv(s, s.decisions[handler].peer, now, later);
      case _ =>
    }
  }

  lemma {:induction false} RunKeepsClearInv(states: seq<Sys>, events: seq<Event>, i: nat)
    requires IsRun(states, events) && i < |states| && forall k :: 0 <= k < i ==> Timely(states[k], events[k])
    ensures ClearInv(states[i])
  {
    if i > 0 {
      RunKeepsClearInv(states, events, i - 1);
      assert states[i - 1 + 1] == Next(states[i - 1], events[i - 1]);
      StepKeepsClearInv(states[i - 1], events[i - 1]);
    }
  }

  /** Every session that an error handler cleared is the one it blamed, and none was cleared
      twice. */
  ghost predicate ClearsRight(s: Sys) {
    && (forall i: nat :: i < |s.cleared| ==> s.cleared[i].session == s.cleared[i].blamed)
    && (forall i: nat, j: nat :: i < j < |s.cleared| ==> s.cleared[i].session != s.cleared[j].session)
  }

  /** If error handlers run one after another, then however many requests fail under a session,
      it is cleared at most once, and no other session is cleared because of it. */
  lemma SessionIsClearedAtMostOnce(states: seq<Sys>, events: seq<Event>, i: nat)
    requires IsRun(states, events) && Sequential(events) && i < |states|
    ensures ClearsRight(states[i])
  {
    RunKeepsClearInv(states, events, i);
  }

  lemma UntimelyClearIsWrong(s: Sys, ev: Event)
    requires Enabled(s, ev) && !Timely(s, ev)
    ensures !ClearsRight(Next(s, ev))
  {
    var s' := Next(s, ev);
    assert s'.cleared[|s.cleared|].session != s'.cleared[|s.cleared|].blamed;
  }

  /** Over every run, whether handlers are interleaved or not, sessions are cleared at most once
      and only when blamed, exactly if whenever a handler comes to clear a session, that is
      still the current one or there is none. */
  lemma ClearsRightIffTimely(states: seq<Sys>, events: seq<Event>)
    requires IsRun(states, events)
    ensures (forall i :: 0 <= i < |states| ==> ClearsRight(states[i]))
       <==> (forall i :: 0 <= i < |events| ==> Timely(states[i], events[i]))
  {
    if forall i :: 0 <= i < |events| ==> Timely(states[i], events[i]) {
      forall i | 0 <= i < |states| ensures ClearsRight(states[i]) {
        RunKeepsClearInv(states, events, i);
      }
    } else {
      var i :| 0 <= i < |events| && !Timely(states[i], events[i]);
      UntimelyClearIsWrong(states[i], events[i]);
      assert !ClearsRight(states[i + 1]);
    }
  }

  /** Two handlers that compare before either clears: the second clears the new session. */
  const RACE: seq<Event> := [
    Establish("p", 1, 0, 0), CompareOnly(0, "p", 1, 0), CompareOnly(1, "p", 1, 0),
    ClearDecided(0, 0, 0), Establish("p", 2, 0, 0), ClearDecided(1, 0, 0)]

  /** Both handlers have decided to clear session 1. */
  predicate Decided(s: Sys) {
    && s.store == map["p" := Held(1, 0)] && s.decisions == map[0 := Decision("p", 1), 1 := Decision("p", 1)]
    && s.known == {1} && s.cleared == [] && s.clock == 0
  }

  lemma RaceBegins() returns (states: seq<Sys>)
    ensures IsRun(states, RACE[..3]) && Decided(states[3])
  {
    var s0 := Sys(map[], State(map[], 0), map[], map[], map[], {}, [], 0);
    var s1 := Next(s0, RACE[0]);
    var s2 := Next(s1, RACE[1]);
    states := [s0, s1, s2, Next(s2, RACE[2])];
  }

  lemma RaceEnds(s: Sys)
    requires Decided(s)
    ensures Enabled(s, RACE[3])
    ensures var s4 := Next(s, RACE[3]);
            && Enabled(s4, RACE[4])
            && var s5 := Next(s4, RACE[4]);
               Enabled(s5, RACE[5]) && Next(s5, RACE[5]).cleared == [Cleared(1, 1), Cleared(1, 2)]
  {
    var s4 := Next(s, RACE[3]);
    assert s4.cleared == [Cleared(1, 1)] && s4.store == map[] && s4.decisions == map[1 := Decision("p", 1)];
  }

  lemma RacingHandlersClearNewSession() returns (states: seq<Sys>)
    ensures IsRun(states, RACE)
    ensures states[|RACE|].cleared == [Cleared(1, 1), Cleared(1, 2)]
  {
    var begun := RaceBegins();
    RaceEnds(begun[3]);
    var s4 := Next(begun[3], RACE[3]);
    var s5 := Next(s4, RACE[4]);
    states := begun + [s4, s5, Next(s5, RACE[5])];
    forall i | 0 <= i < |RACE| ensures Enabled(states[i], RACE[i]) && states[i + 1] == Next(states[i], RACE[i]) {
      if i < 3 {
        assert states[i] == begun[i] && states[i + 1] == begun[i + 1] && RACE[..3][i] == RACE[i];
      }
    }
  }

  // ----- The manager in place -----

  class SessionManager {
    var sessionStore: map<string, Held>
    const expiredSessionCache: ScopedMap<string, nat>

    constructor (now: nat)
      ensures sessionStore == map[] && fresh(expiredSessionCache)
      ensures expiredSessionCache.config == CACHE && expiredSessionCache.Current() == State(map[], now)
    {
      sessionStore := map[];
      expiredSessionCache := new ScopedMap(CACHE, now);
    }

    /** Stores a session agreed with a peer, whichever side asked for it; the session it
        replaces goes to the cache. */
    method StoreSession(peer: string, session: nat, now: nat, later: nat)
      requires expiredSessionCache.config == CACHE
      modifies this, expiredSessionCache
      ensures sessionStore == old(sessionStore)[peer := Held(session, now)]
      ensures expiredSessionCache.Current() ==
              Displace(old(expiredSessionCache.Current()), peer, Established(old(sessionStore), peer, now), now, later)
    {
      var old_ := Established(sessionStore, peer, now);
      sessionStore := sessionStore[peer := Held(session, now)];
      if old_.Some? {
        expiredSessionCache.PushValue(peer, old_.value, now, later);
      }
    }

    method GetEstablishedSession(peer: string, now: nat) returns (session: Option<nat>)
      ensures session == Established(sessionStore, peer, now)
    {
      session := Established(sessionStore, peer, now);
    }

    method GetRecentReceiveSessions(peer: string, now: nat, later: nat) returns (sessions: seq<nat>)
      requires expiredSessionCache.config == CACHE
      modifies expiredSessionCache
      ensures sessions ==
              (if Established(sessionStore, peer, now).Some? then [Established(sessionStore, peer, now).value] else [])
                + Step(CACHE, old(expiredSessionCache.Current()), Call(Get(peer), now, later)).1
      ensures expiredSessionCache.Current() == Step(CACHE, old(expiredSessionCache.Current()), Call(Get(peer), now, later)).0
    {
      var current := Established(sessionStore, peer, now);
      var cached := expiredSessionCache.GetValues(peer, now, later);
      sessions := (if current.Some? then [current.value] else []) + cached;
    }

    method ClearSession(peer: string, now: nat, later: nat)
      requires expiredSessionCache.config == CACHE
      modifies this, expiredSessionCache
      ensures sessionStore == old(sessionStore) - {peer}
      ensures expiredSessionCache.Current() ==
              Displace(old(expiredSessionCache.Current()), peer, Established(old(sessionStore), peer, now), now, later)
    {
      var old_ := Established(sessionStore, peer, now);
      sessionStore := sessionStore - {peer};
      if old_.Some? {
        expiredSessionCache.PushValue(peer, old_.value, now, later);
      }
    }
  }
}
