/** A map from scopes to short-lived values. A scope that is not used for a while is removed
    whole by a cleanup that runs as a side effect of other operations. */
module ScopedExpiryMap {
  import opened Common

  datatype Config = Config(scopeIdleTtl: nat, valueTtl: nat, cleanupInterval: nat)

  datatype TimedValue<V> = TimedValue(value: V, expiresAt: nat)

  datatype Queue<V> = Queue(entries: seq<TimedValue<V>>, touched: nat)

  datatype State<K, V> = State(scopes: map<K, Queue<V>>, lastCleanup: nat)

  datatype Op<K, V> = Push(scope: K, value: V) | Get(scope: K) | RemoveScope(scope: K) | Clear

  /** The clock is read once at the start and again when a cleanup looks for empty queues. */
  datatype Call<K, V> = Call(op: Op<K, V>, now: nat, later: nat)

  /** The entries that are not expired, oldest first. */
  function Live<V>(entries: seq<TimedValue<V>>, now: nat): (live: seq<TimedValue<V>>) {
    if entries == [] then []
    else
      var k := |entries| - 1;
      if entries[k].expiresAt > now then Live(entries[..k], now) + [entries[k]] else Live(entries[..k], now)
  }

  function NewestFirst<V>(entries: seq<TimedValue<V>>, now: nat): (values: seq<V>) {
    if entries == [] then []
    else
      var k := |entries| - 1;
      if entries[k].expiresAt > now then [entries[k].value] + NewestFirst(entries[..k], now)
      else NewestFirst(entries[..k], now)
  }

  // ----- The map as implemented -----

  predicate Idle<V>(c: Config, q: Queue<V>, now: nat) {
    Since(now, q.touched) >= c.scopeIdleTtl
  }

  predicate Survives<V(==)>(c: Config, q: Queue<V>, now: nat, later: nat) {
    !Idle(c, q, now) && Live(Live(q.entries, now), later) != []
  }

  function Cleanup<K, V(==)>(c: Config, s: State<K, V>, now: nat, later: nat): (after: State<K, V>) {
    if Since(now, s.lastCleanup) < c.cleanupInterval then s
    else
      State(map k | k in s.scopes && Survives(c, s.scopes[k], now, later) ::
              Queue(Live(s.scopes[k].entries, now), s.scopes[k].touched), now)
  }

  function Entries<K, V>(s: State<K, V>, scope: K): seq<TimedValue<V>> {
    if scope in s.scopes then s.scopes[scope].entries else []
  }

  /** What an operation does once the map is cleaned up. */
  function Apply<K, V>(c: Config, clean: State<K, V>, op: Op<K, V>, now: nat): (r: (State<K, V>, seq<V>)) {
    match op
    case Push(scope, value) =>
      (clean.(scopes := clean.scopes[scope := Queue(Entries(clean, scope) + [TimedValue(value, now + c.valueTtl)], now)]), [])
    case Get(scope) =>
      if scope !in clean.scopes then (clean, [])
      else
        var entries := clean.scopes[scope].entries;
        (clean.(scopes := clean.scopes[scope := Queue(entries, now)]), NewestFirst(entries, now))
    case RemoveScope(scope) => (clean.(scopes := clean.scopes - {scope}), [])
    case Clear => (State(map[], now), [])
  }

  /** Only pushes and reads clean up first. */
  function Step<K, V(==)>(c: Config, s: State<K, V>, call: Call<K, V>): (r: (State<K, V>, seq<V>)) {
    if call.op.Push? || call.op.Get? then Apply(c, Cleanup(c, s, call.now, call.later), call.op, call.now)
    else Apply(c, s, call.op, call.now)
  }

  // ----- A plain log of pushes -----

  type Log<K, V> = map<K, seq<TimedValue<V>>>

  function Pushed<K, V>(log: Log<K, V>, scope: K): seq<TimedValue<V>> {
    if scope in log then log[scope] else []
  }

  function LogStep<K, V>(c: Config, log: Log<K, V>, op: Op<K, V>, now: nat): (after: Log<K, V>) {
    match op
    case Push(scope, value) => log[scope := Pushed(log, scope) + [TimedValue(value, now + c.valueTtl)]]
    case Get(_) => log
    case RemoveScope(scope) => log - {scope}
    case Clear => map[]
  }

  /** What a read must answer: the unexpired pushes, newest first. Values that expire
      between the two clock readings of the read may be missing, all together. */
  ghost predicate Answers<K, V>(log: Log<K, V>, call: Call<K, V>, values: seq<V>) {
    match call.op
    case Get(scope) =>
      || values == NewestFirst(Pushed(log, scope), call.now)
      || (values == [] && NewestFirst(Pushed(log, scope), call.later) == [])
    case _ => values == []
  }

  // ----- Filtering -----

  lemma {:induction false} LiveTwice<V>(entries: seq<TimedValue<V>>, now: nat, later: nat)
    requires now <= later
    ensures Live(Live(entries, now), later) == Live(entries, later)
  {
    if entries != [] {
      var k := |entries| - 1;
      LiveTwice(entries[..k], now, later);
      if entries[k].expiresAt > now {
        assert Live(entries, now)[..|Live(entries, now)| - 1] == Live(entries[..k], now);
      }
    }
  }

  lemma {:induction false} LiveAppend<V>(entries: seq<TimedValue<V>>, e: TimedValue<V>, now: nat)
    ensures Live(entries + [e], now) == Live(entries, now) + if e.expiresAt > now then [e] else []
  {
    assert (entries + [e])[..|entries|] == entries;
  }

  lemma {:induction false} NewestOfLive<V>(entries: seq<TimedValue<V>>, now: nat)
    ensures NewestFirst(entries, now) == NewestFirst(Live(entries, now), now)
    ensures |NewestFirst(entries, now)| == |Live(entries, now)|
  {
    if entries != [] {
      var k := |entries| - 1;
      NewestOfLive(entries[..k], now);
      if entries[k].expiresAt > now {
        assert Live(entries, now)[..|Live(entries, now)| - 1] == Live(entries[..k], now);
      }
    }
  }

  lemma {:induction false} NoneLive<V>(entries: seq<TimedValue<V>>, now: nat)
    requires forall e :: e in entries ==> e.expiresAt <= now
    ensures Live(entries, now) == []
  {
    if entries != [] {
      NoneLive(entries[..|entries| - 1], now);
    }
  }

  lemma {:induction false} LiveAreEntries<V>(entries: seq<TimedValue<V>>, now: nat, e: TimedValue<V>)
    ensures e in Live(entries, now) <==> e in entries && e.expiresAt > now
  {
    if entries != [] {
      LiveAreEntries(entries[..|entries| - 1], now, e);
      assert entries == entries[..|entries| - 1] + [entries[|entries| - 1]];
    }
  }

  // ----- Agreement -----

  /** Both lists hold the same values that are unexpired now or later. */
  ghost predicate SameLive<V>(a: seq<TimedValue<V>>, b: seq<TimedValue<V>>, clock: nat) {
    Live(a, clock) == Live(b, clock)
  }

  lemma SameLiveLater<V>(a: seq<TimedValue<V>>, b: seq<TimedValue<V>>, clock: nat, later: nat)
    requires SameLive(a, b, clock) && clock <= later
    ensures SameLive(a, b, later) && NewestFirst(a, later) == NewestFirst(b, later)
  {
    LiveTwice(a, clock, later);
    LiveTwice(b, clock, later);
    NewestOfLive(a, later);
    NewestOfLive(b, later);
  }

  /** No value outlives the last use of its scope by more than its lifetime. */
  ghost predicate TouchedInTime<V>(c: Config, q: Queue<V>) {
    forall e :: e in q.entries ==> e.expiresAt <= q.touched + c.valueTtl
  }

  /** Every value expires by the time the next cleanup is due. */
  ghost predicate ExpiresInStep<V>(c: Config, lastCleanup: nat, q: Queue<V>) {
    forall e :: e in q.entries ==> e.expiresAt <= lastCleanup + c.cleanupInterval
  }

  /** Scopes may idle for as long as values live; or idling takes no time at all, but values live
      for one tick of the clock only, so that no cleanup can come between. */
  predicate Covers(c: Config) {
    c.scopeIdleTtl >= c.valueTtl || (c.scopeIdleTtl == 0 && c.valueTtl == 1 && c.cleanupInterval > 0)
  }

  ghost predicate Follows<K(!new), V(!new)>(c: Config, s: State<K, V>, log: Log<K, V>, clock: nat) {
    && (forall k :: k in s.scopes ==> TouchedInTime(c, s.scopes[k]) && s.scopes[k].touched <= clock)
    && (forall k :: k in s.scopes && c.scopeIdleTtl < c.valueTtl ==> ExpiresInStep(c, s.lastCleanup, s.scopes[k]))
    && (forall k :: SameLive(Entries(s, k), Pushed(log, k), clock))
  }

  lemma FollowsLater<K(!new), V(!new)>(c: Config, s: State<K, V>, log: Log<K, V>, clock: nat, later: nat)
    requires Follows(c, s, log, clock) && clock <= later
    ensures Follows(c, s, log, later)
  {
    forall k ensures SameLive(Entries(s, k), Pushed(log, k), later) {
      SameLiveLater(Entries(s, k), Pushed(log, k), clock, later);
    }
  }

  lemma IdleIsExpired<V>(c: Config, lastCleanup: nat, q: Queue<V>, now: nat)
    requires Covers(c) && TouchedInTime(c, q) && Idle(c, q, now) && q.touched <= now
    requires c.scopeIdleTtl < c.valueTtl ==> ExpiresInStep(c, lastCleanup, q)
    requires Since(now, lastCleanup) >= c.cleanupInterval
    ensures Live(q.entries, now) == []
  {
    NoneLive(q.entries, now);
  }

  /** A cleanup leaves of every scope what is unexpired, or nothing if all expired meanwhile. */
  lemma CleanupKeeps<K(!new), V(!new)>(c: Config, s: State<K, V>, now: nat, later: nat, k: K)
    requires Covers(c) && now <= later
    requires k in s.scopes ==> TouchedInTime(c, s.scopes[k]) && s.scopes[k].touched <= now
    requires k in s.scopes && c.scopeIdleTtl < c.valueTtl ==> ExpiresInStep(c, s.lastCleanup, s.scopes[k])
    ensures var clean := Cleanup(c, s, now, later);
            && (k in clean.scopes ==> k in s.scopes && clean.scopes[k].touched == s.scopes[k].touched
                                      && TouchedInTime(c, clean.scopes[k]))
            && (k in clean.scopes && c.scopeIdleTtl < c.valueTtl ==> ExpiresInStep(c, clean.lastCleanup, clean.scopes[k]))
            && Live(Entries(clean, k), later) == Live(Entries(s, k), later)
            && (|| Live(Entries(clean, k), now) == Live(Entries(s, k), now)
                || (Entries(clean, k) == [] && Live(Entries(s, k), later) == []))
  {
    if k in s.scopes && Since(now, s.lastCleanup) >= c.cleanupInterval {
      var q := s.scopes[k];
      LiveTwice(q.entries, now, now);
      LiveTwice(q.entries, now, later);
      forall e | e in Live(q.entries, now) ensures e in q.entries {
        LiveAreEntries(q.entries, now, e);
      }
      if Idle(c, q, now) {
        IdleIsExpired(c, s.lastCleanup, q, now);
      }
    }
  }

  /** A cleanup does not count as a use of a scope. */
  lemma CleanupTouches<K(!new), V(!new)>(c: Config, s: State<K, V>, now: nat, later: nat, k: K)
    requires k in s.scopes ==> s.scopes[k].touched <= now
    ensures k in Cleanup(c, s, now, later).scopes ==> Cleanup(c, s, now, later).scopes[k].touched <= now
  {
  }

  lemma CleanupFollows<K(!new), V(!new)>(c: Config, s: State<K, V>, log: Log<K, V>, clock: nat, now: nat, later: nat)
    requires Follows(c, s, log, clock) && clock <= now <= later && Covers(c)
    ensures Follows(c, Cleanup(c, s, now, later), log, later)
  {
    var clean := Cleanup(c, s, now, later);
    FollowsLater(c, s, log, clock, later);
    forall k ensures SameLive(Entries(clean, k), Pushed(log, k), later) {
      CleanupKeeps(c, s, now, later, k);
    }
    forall k | k in clean.scopes
      ensures TouchedInTime(c, clean.scopes[k]) && clean.scopes[k].touched <= later
      ensures c.scopeIdleTtl < c.valueTtl ==> ExpiresInStep(c, clean.lastCleanup, clean.scopes[k])
    {
      CleanupKeeps(c, s, now, later, k);
    }
  }

  lemma PushSameLive<V>(a: seq<TimedValue<V>>, b: seq<TimedValue<V>>, e: TimedValue<V>, clock: nat)
    requires SameLive(a, b, clock)
    ensures SameLive(a + [e], b + [e], clock)
  {
    LiveAppend(a, e, clock);
    LiveAppend(b, e, clock);
  }

  lemma PushFollows<K(!new), V(!new)>(
      c: Config, clean: State<K, V>, log: Log<K, V>, scope: K, entries: seq<TimedValue<V>>, pushed: seq<TimedValue<V>>,
      e: TimedValue<V>, now: nat, later: nat)
    requires Follows(c, clean, log, later) && now <= later && e.expiresAt == now + c.valueTtl
    requires entries == Entries(clean, scope) && pushed == Pushed(log, scope)
    requires scope in clean.scopes ==> clean.scopes[scope].touched <= now
    requires c.scopeIdleTtl < c.valueTtl ==> e.expiresAt <= clean.lastCleanup + c.cleanupInterval
    ensures Follows(c, clean.(scopes := clean.scopes[scope := Queue(entries + [e], now)]), log[scope := pushed + [e]], later)
  {
    assert SameLive(Entries(clean, scope), Pushed(log, scope), later);
    PushSameLive(entries, pushed, e, later);
    PushTouchesInTime(c, entries, if scope in clean.scopes then clean.scopes[scope].touched else now, e.value, now);
    FollowsUpdate(c, clean, log, scope, Queue(entries + [e], now), pushed + [e], later);
  }

  lemma FollowsUpdate<K(!new), V(!new)>(
      c: Config, s: State<K, V>, log: Log<K, V>, scope: K, queue: Queue<V>, pushed: seq<TimedValue<V>>, clock: nat)
    requires Follows(c, s, log, clock)
    requires TouchedInTime(c, queue) && queue.touched <= clock && SameLive(queue.entries, pushed, clock)
    requires c.scopeIdleTtl < c.valueTtl ==> ExpiresInStep(c, s.lastCleanup, queue)
    ensures Follows(c, s.(scopes := s.scopes[scope := queue]), log[scope := pushed], clock)
  {
    var after, log' := s.(scopes := s.scopes[scope := queue]), log[scope := pushed];
    forall k ensures SameLive(Entries(after, k), Pushed(log', k), clock) {
      if k != scope {
        assert Entries(after, k) == Entries(s, k) && Pushed(log', k) == Pushed(log, k);
        assert SameLive(Entries(s, k), Pushed(log, k), clock);
      }
    }
  }

  lemma PushTouchesInTime<V>(c: Config, entries: seq<TimedValue<V>>, touched: nat, value: V, now: nat)
    requires TouchedInTime(c, Queue(entries, touched)) && touched <= now
    ensures TouchedInTime(c, Queue(entries + [TimedValue(value, now + c.valueTtl)], now))
  {
  }

  lemma GetAnswers<K(!new), V(!new)>(c: Config, s: State<K, V>, log: Log<K, V>, clock: nat, call: Call<K, V>)
    requires Follows(c, s, log, clock) && clock <= call.now <= call.later
    requires Covers(c) && call.op.Get?
    ensures Answers(log, call, Step(c, s, call).1)
  {
    var scope := call.op.scope;
    var clean := Cleanup(c, s, call.now, call.later);
    CleanupKeeps(c, s, call.now, call.later, scope);
    assert SameLive(Entries(s, scope), Pushed(log, scope), clock);
    SameLiveLater(Entries(s, scope), Pushed(log, scope), clock, call.now);
    SameLiveLater(Entries(s, scope), Pushed(log, scope), clock, call.later);
    NewestOfLive(Entries(s, scope), call.now);
    NewestOfLive(Entries(s, scope), call.later);
    NewestOfLive(Entries(clean, scope), call.now);
  }

  /** On a cleaned map an operation follows the log. */
  lemma ApplyFollows<K(!new), V(!new)>(c: Config, clean: State<K, V>, log: Log<K, V>, op: Op<K, V>, now: nat, later: nat)
    requires Follows(c, clean, log, later) && now <= later
    requires (op.Push? || op.Get?) && op.scope in clean.scopes ==> clean.scopes[op.scope].touched <= now
    requires op.Push? && c.scopeIdleTtl < c.valueTtl ==> now + c.valueTtl <= clean.lastCleanup + c.cleanupInterval
    ensures Follows(c, Apply(c, clean, op, now).0, LogStep(c, log, op, now), later)
  {
    match op {
      case Push(scope, value) =>
        PushFollows(c, clean, log, scope, Entries(clean, scope), Pushed(log, scope),
                    TimedValue(value, now + c.valueTtl), now, later);
      case Get(scope) => TouchFollows(c, clean, log, scope, now, later);
      case RemoveScope(scope) => RemoveFollows(c, clean, log, scope, later);
      case Clear =>
    }
  }

  /** One operation: the right answer, and the map still follows the log. */
  lemma StepFollows<K(!new), V(!new)>(c: Config, s: State<K, V>, log: Log<K, V>, clock: nat, call: Call<K, V>)
    requires Follows(c, s, log, clock) && clock <= call.now <= call.later && Covers(c)
    ensures Follows(c, Step(c, s, call).0, LogStep(c, log, call.op, call.now), call.later)
    ensures Answers(log, call, Step(c, s, call).1)
  {
    if call.op.Push? || call.op.Get? {
      CleanupFollows(c, s, log, clock, call.now, call.later);
      CleanupTouches(c, s, call.now, call.later, call.op.scope);
      ApplyFollows(c, Cleanup(c, s, call.now, call.later), log, call.op, call.now, call.later);
      if call.op.Get? {
        GetAnswers(c, s, log, clock, call);
      }
    } else {
      FollowsLater(c, s, log, clock, call.later);
      ApplyFollows(c, s, log, call.op, call.now, call.later);
    }
  }

  lemma TouchFollows<K(!new), V(!new)>(c: Config, clean: State<K, V>, log: Log<K, V>, scope: K, now: nat, later: nat)
    requires Follows(c, clean, log, later) && now <= later
    requires scope in clean.scopes ==> clean.scopes[scope].touched <= now
    ensures scope in clean.scopes ==>
              Follows(c, clean.(scopes := clean.scopes[scope := Queue(clean.scopes[scope].entries, now)]), log, later)
  {
    if scope in clean.scopes {
      var after := clean.(scopes := clean.scopes[scope := Queue(clean.scopes[scope].entries, now)]);
      forall k ensures SameLive(Entries(after, k), Pushed(log, k), later) {
        assert SameLive(Entries(clean, k), Pushed(log, k), later);
      }
    }
  }

  lemma RemoveFollows<K(!new), V(!new)>(c: Config, s: State<K, V>, log: Log<K, V>, scope: K, later: nat)
    requires Follows(c, s, log, later)
    ensures Follows(c, s.(scopes := s.scopes - {scope}), log - {scope}, later)
  {
    var after := s.(scopes := s.scopes - {scope});
    forall k ensures SameLive(Entries(after, k), Pushed(log - {scope}, k), later) {
      assert SameLive(Entries(s, k), Pushed(log, k), later);
    }
  }

  // ----- Runs -----

  ghost predicate Monotone<K, V>(calls: seq<Call<K, V>>, clock: nat) {
    && (forall i :: 0 <= i < |calls| ==> clock <= calls[i].now <= calls[i].later)
    && (forall i, j :: 0 <= i < j < |calls| ==> calls[i].later <= calls[j].now)
  }

  /** Every answer of a run is right for the log of the pushes before it. */
  ghost predicate AnswersRun<K, V>(c: Config, s: State<K, V>, log: Log<K, V>, calls: seq<Call<K, V>>)
    decreases |calls|
  {
    calls == [] ||
    (Answers(log, calls[0], Step(c, s, calls[0]).1) &&
     AnswersRun(c, Step(c, s, calls[0]).0, LogStep(c, log, calls[0].op, calls[0].now), calls[1..]))
  }

  /** If scopes may idle for as long as values live, every run answers as the log does. */
  lemma {:induction false} AgreesWithLog<K(!new), V(!new)>(
      c: Config, s: State<K, V>, log: Log<K, V>, clock: nat, calls: seq<Call<K, V>>)
    requires Follows(c, s, log, clock) && Monotone(calls, clock) && Covers(c)
    ensures AnswersRun(c, s, log, calls)
    decreases |calls|
  {
    if calls != [] {
      StepFollows(c, s, log, clock, calls[0]);
      assert Monotone(calls[1..], calls[0].later);
      AgreesWithLog(c, Step(c, s, calls[0]).0, LogStep(c, log, calls[0].op, calls[0].now), calls[0].later, calls[1..]);
    }
  }

  /** A value returned is unexpired at the first reading; one unexpired at the last reading
      is returned. */
  lemma AnswersAreUnexpired<K(!new), V(!new)>(log: Log<K, V>, call: Call<K, V>, values: seq<V>, e: TimedValue<V>)
    requires call.op.Get? && call.now <= call.later && Answers(log, call, values)
    ensures e in Pushed(log, call.op.scope) && e.expiresAt > call.later ==> e.value in values
    ensures forall v :: v in values ==>
              exists x :: x in Pushed(log, call.op.scope) && x.value == v && x.expiresAt > call.now
  {
    var pushed := Pushed(log, call.op.scope);
    NewestAreUnexpired(pushed, call.now);
    NewestAreUnexpired(pushed, call.later);
  }

  lemma {:induction false} NewestAreUnexpired<V(!new)>(entries: seq<TimedValue<V>>, now: nat)
    ensures forall e :: e in entries && e.expiresAt > now ==> e.value in NewestFirst(entries, now)
    ensures forall v :: v in NewestFirst(entries, now) ==> exists e :: e in entries && e.value == v && e.expiresAt > now
  {
    if entries != [] {
      var k := |entries| - 1;
      NewestAreUnexpired(entries[..k], now);
      assert entries == entries[..k] + [entries[k]];
      forall v | v in NewestFirst(entries, now)
        ensures exists e :: e in entries && e.value == v && e.expiresAt > now
      {
        if v in NewestFirst(entries[..k], now) {
          var e :| e in entries[..k] && e.value == v && e.expiresAt > now;
          assert e in entries;
        } else {
          assert entries[k] in entries;
        }
      }
    }
  }

  /** A read of a scope that has not idled out gives back every value that has not expired. */
  lemma ReadGivesUnexpired<K(!new), V(!new)>(c: Config, s: State<K, V>, read: Call<K, V>, e: TimedValue<V>)
    requires read.op.Get? && read.op.scope in s.scopes && read.now <= read.later
    requires Since(read.now, s.scopes[read.op.scope].touched) < c.scopeIdleTtl
    requires e in s.scopes[read.op.scope].entries && e.expiresAt > read.later
    ensures e.value in Step(c, s, read).1
  {
    var entries := s.scopes[read.op.scope].entries;
    LiveAreEntries(entries, read.now, e);
    LiveAreEntries(Live(entries, read.now), read.later, e);
    NewestAreUnexpired(entries, read.now);
    NewestAreUnexpired(Live(entries, read.now), read.now);
  }

  /** Whatever the configuration, a scope that was read or pushed to gives back every value that
      has not expired, to every read before it has idled out since. */
  lemma UseProlongsScope<K(!new), V(!new)>(c: Config, s: State<K, V>, use: Call<K, V>, read: Call<K, V>, e: TimedValue<V>)
    requires (use.op.Get? || use.op.Push?) && read.op == Get(use.op.scope)
    requires use.now <= read.now <= read.later && Since(read.now, use.now) < c.scopeIdleTtl
    requires var s' := Step(c, s, use).0; e in Entries(s', use.op.scope) && e.expiresAt > read.later
    ensures e.value in Step(c, Step(c, s, use).0, read).1
  {
    ReadGivesUnexpired(c, Step(c, s, use).0, read, e);
  }

  /** A wrong answer to the second of two calls makes the run wrong. */
  lemma SecondAnswerCounts<K, V>(c: Config, s: State<K, V>, log: Log<K, V>, a: Call<K, V>, b: Call<K, V>)
    requires !Answers(LogStep(c, log, a.op, a.now), b, Step(c, Step(c, s, a).0, b).1)
    ensures !AnswersRun(c, s, log, [a, b])
  {
    assert [a, b][1..] == [b];
  }

  lemma FirstPush(c: Config, at: nat)
    ensures var s := Step<nat, nat>(c, State(map[], 0), Call(Push(0, 7), at, at)).0;
            && s.scopes == map[0 := Queue([TimedValue(7, at + c.valueTtl)], at)]
            && s.lastCleanup == if at < c.cleanupInterval then 0 else at
  {
    var clean: State<nat, nat> := Cleanup(c, State(map[], 0), at, at);
    assert clean.scopes == map[];
    assert Entries(clean, 0) + [TimedValue(7, at + c.valueTtl)] == [TimedValue(7, at + c.valueTtl)];
  }

  lemma IdledOut(c: Config, s: State<nat, nat>, e: TimedValue<nat>, touched: nat, now: nat)
    requires s.scopes == map[0 := Queue([e], touched)]
    requires Since(now, touched) >= c.scopeIdleTtl && Since(now, s.lastCleanup) >= c.cleanupInterval
    ensures Step(c, s, Call(Get(0), now, now)).1 == []
  {
    assert Idle(c, s.scopes[0], now);
    assert 0 !in Cleanup(c, s, now, now).scopes;
  }

  /** An empty answer is wrong while the value that was pushed is live. */
  lemma EmptyAnswerIsWrong(log: Log<nat, nat>, e: TimedValue<nat>, now: nat)
    requires Pushed(log, 0) == [e] && e.expiresAt > now
    ensures !Answers(log, Call(Get(0), now, now), [])
  {
    assert [e][..0] == [];
    assert NewestFirst([e], now) == [e.value];
  }

  /** A value that was pushed is lost if its scope has idled out when a cleanup is due. */
  lemma LostAnswer(c: Config, a: Call<nat, nat>, b: Call<nat, nat>)
    requires a == Call(Push(0, 7), a.now, a.now) && b == Call(Get(0), b.now, b.now) && a.now <= b.now < a.now + c.valueTtl
    requires b.now - a.now >= c.scopeIdleTtl
    requires b.now >= (if a.now < c.cleanupInterval then 0 else a.now) + c.cleanupInterval
    ensures !Answers(LogStep(c, map[], a.op, a.now), b, Step(c, Step(c, State(map[], 0), a).0, b).1)
  {
    var e := TimedValue(7, a.now + c.valueTtl);
    FirstPush(c, a.now);
    IdledOut(c, Step(c, State(map[], 0), a).0, e, a.now, b.now);
    EmptyAnswerIsWrong(LogStep(c, map[], a.op, a.now), e, b.now);
  }

  /** A configuration that does not cover the lifetime of values loses one. */
  lemma ShortIdleLosesValues(c: Config) returns (calls: seq<Call<nat, nat>>)
    requires !Covers(c)
    ensures Monotone(calls, 0)
    ensures !AnswersRun(c, State(map[], 0), map[], calls)
  {
    var pushAt := if c.cleanupInterval > 0 then c.cleanupInterval - 1 else 0;
    var getAt := pushAt + if c.scopeIdleTtl == 0 && c.cleanupInterval > 0 then 1 else c.scopeIdleTtl;
    var a: Call<nat, nat>, b: Call<nat, nat> := Call(Push(0, 7), pushAt, pushAt), Call(Get(0), getAt, getAt);
    LostAnswer(c, a, b);
    SecondAnswerCounts(c, State(map[], 0), map[], a, b);
    calls := [a, b];
  }

  /** Whether every run over one configuration answers as the log does. */
  ghost predicate AlwaysAgrees(c: Config) {
    forall calls: seq<Call<nat, nat>> :: Monotone(calls, 0) ==> AnswersRun(c, State(map[], 0), map[], calls)
  }

  /** The exact condition on a configuration. */
  lemma AgreesIffIdleCoversLifetime(c: Config)
    ensures AlwaysAgrees(c) <==> Covers(c)
  {
    if Covers(c) {
      forall calls: seq<Call<nat, nat>> | Monotone(calls, 0) ensures AnswersRun(c, State(map[], 0), map[], calls) {
        AgreesWithLog<nat, nat>(c, State(map[], 0), map[], 0, calls);
      }
    } else {
      var calls := ShortIdleLosesValues(c);
    }
  }

  // ----- The map in place -----

  class ScopedMap<K(!new, ==), V(==)> {
    const config: Config
    var scopes: map<K, Queue<V>>
    var lastCleanup: nat

    function Current(): (s: State<K, V>)
      reads this
    {
      State(scopes, lastCleanup)
    }

    constructor (config: Config, now: nat)
      ensures this.config == config && Current() == State(map[], now)
    {
      this.config, scopes, lastCleanup := config, map[], now;
    }

    method PushValue(scope: K, value: V, now: nat, later: nat)
      modifies this
      ensures Current() == Step(config, old(Current()), Call(Push(scope, value), now, later)).0
    {
      CleanupIfDue(now, later);
      var entries := if scope in scopes then scopes[scope].entries else [];
      scopes := scopes[scope := Queue(entries + [TimedValue(value, now + config.valueTtl)], now)];
    }

    method GetValues(scope: K, now: nat, later: nat) returns (values: seq<V>)
      modifies this
      ensures (Current(), values) == Step(config, old(Current()), Call(Get(scope), now, later))
    {
      CleanupIfDue(now, later);
      if scope !in scopes {
        return [];
      }
      var entries := scopes[scope].entries;
      scopes := scopes[scope := Queue(entries, now)];
      values := [];
      var i := 0;
      while i < |entries|
        invariant 0 <= i <= |entries|
        invariant values == NewestFirst(entries[..i], now)
      {
        assert entries[..i + 1][..i] == entries[..i];
        if entries[i].expiresAt > now {
          values := [entries[i].value] + values;
        }
        i := i + 1;
      }
      assert entries[..i] == entries;
    }

    method RemoveScopeOf(scope: K, now: nat)
      modifies this`scopes
      ensures Current() == Step(config, old(Current()), Call(RemoveScope(scope), now, now)).0
    {
      scopes := scopes - {scope};
    }

    method ClearAll(now: nat)
      modifies this
      ensures Current() == Step(config, old(Current()), Call(Clear, now, now)).0
    {
      scopes, lastCleanup := map[], now;
    }

    static method Prune(entries: seq<TimedValue<V>>, now: nat) returns (live: seq<TimedValue<V>>)
      ensures live == Live(entries, now)
    {
      live := [];
      for i := 0 to |entries|
        invariant live == Live(entries[..i], now)
      {
        assert entries[..i + 1][..i] == entries[..i];
        if entries[i].expiresAt > now {
          live := live + [entries[i]];
        }
      }
      assert entries[..|entries|] == entries;
    }

    method CleanupIfDue(now: nat, later: nat)
      modifies this
      ensures Current() == Cleanup(config, old(Current()), now, later)
    {
      if Since(now, lastCleanup) < config.cleanupInterval {
        return;
      }
      ghost var goal := Cleanup(config, Current(), now, later).scopes;
      var before := scopes;
      lastCleanup := now;
      var rest := scopes.Keys;
      while rest != {}
        invariant rest <= before.Keys
        invariant forall k :: k in rest ==> k in scopes
        invariant forall k :: k !in rest ==> (k in scopes <==> k in goal) && (k in goal ==> scopes[k] == goal[k])
        invariant lastCleanup == now
        decreases rest
      {
        var k :| k in rest;
        rest := rest - {k};
        var kept := Retain(before[k], now, later);
        scopes := if kept.Some? then scopes[k := kept.value] else scopes - {k};
      }
      assert scopes == goal;
    }

    /** What a cleanup leaves of a queue, if anything. */
    method Retain(queue: Queue<V>, now: nat, later: nat) returns (kept: Option<Queue<V>>)
      ensures kept == if Survives(config, queue, now, later) then Some(Queue(Live(queue.entries, now), queue.touched)) else None
    {
      if Idle(config, queue, now) {
        return None;
      }
      var live := Prune(queue.entries, now);
      var stillLive := Prune(live, later);
      kept := if stillLive == [] then None else Some(Queue(live, queue.touched));
    }
  }
}
