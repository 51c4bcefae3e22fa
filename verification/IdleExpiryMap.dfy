/** A map whose entries expire when they are not touched for a while. Expired entries stay
    stored until a cleanup, which runs as a side effect of other operations. */
module IdleExpiryMap {
  import opened Common

  datatype Config = Config(idleTtl: nat, cleanupInterval: nat)

  datatype Timed<V> = Timed(value: V, touched: nat)

  datatype State<K, V> = State(entries: map<K, Timed<V>>, lastCleanup: nat)

  predicate Expired<V>(e: Timed<V>, ttl: nat, now: nat) {
    Since(now, e.touched) >= ttl
  }

  /** What a caller does with an entry once it has looked it up. */
  datatype Action<V> =
    | Peek
    | GetValue
    | IntoMut
    | OrInsert(fallback: V)
    | Replace(value: V)
    | Take
    | Destruct
    | AndModify

  /** Operations. Looking an entry up and each action on it read the clock separately. */
  datatype Op<K, V> =
    | Insert(key: K, value: V)
    | Get(key: K)
    | Remove(key: K)
    | Clear
    | Lookup(key: K)
    | OnEntry(key: K, action: Action<V>)

  datatype Call<K, V> = Call(op: Op<K, V>, now: nat)

  /** The entry that the caller holds after an operation. */
  function Held<K, V>(op: Op<K, V>): (key: Option<K>) {
    match op
    case Lookup(k) => Some(k)
    case OnEntry(k, _) => Some(k)
    case _ => None
  }

  datatype Answer<V> =
    | Replaced(old_: Option<V>)
    | Value(value: Option<V>)
    | Slot(occupied: bool, value: Option<V>)
    | Unit

  /** The new state, the answer, and where values went. */
  datatype Outcome<K, V> = Outcome(
    state: State<K, V>, answer: Answer<V>,
    inserted: set<V>, expired: set<V>, returned: set<V>, dropped: set<V>)

  // ----- The map as implemented -----

  function ExpiredKeys<K, V>(s: State<K, V>, ttl: nat, now: nat): (keys: set<K>) {
    set k | k in s.entries && Expired(s.entries[k], ttl, now)
  }

  function Cleanup<K, V>(c: Config, s: State<K, V>, now: nat): (after: State<K, V>) {
    if Since(now, s.lastCleanup) < c.cleanupInterval then s
    else State(s.entries - ExpiredKeys(s, c.idleTtl, now), now)
  }

  function CleanedValues<K, V(==)>(c: Config, s: State<K, V>, now: nat): (values: set<V>) {
    if Since(now, s.lastCleanup) < c.cleanupInterval then {}
    else set k | k in ExpiredKeys(s, c.idleTtl, now) :: s.entries[k].value
  }

  /** Looks an entry up: an expired one is given to the expiry callback and counts as vacant. */
  function Open<K, V(==)>(c: Config, s: State<K, V>, key: K, now: nat): (o: (State<K, V>, set<V>)) {
    var clean := Cleanup(c, s, now);
    if key in clean.entries && Expired(clean.entries[key], c.idleTtl, now) then
      (clean.(entries := clean.entries - {key}), CleanedValues(c, s, now) + {clean.entries[key].value})
    else
      (clean, CleanedValues(c, s, now))
  }

  function Put<K, V>(s: State<K, V>, key: K, value: V, now: nat): State<K, V> {
    s.(entries := s.entries[key := Timed(value, now)])
  }

  function Act<K, V(==)>(c: Config, s: State<K, V>, key: K, action: Action<V>, now: nat): (o: Outcome<K, V>) {
    if key in s.entries then
      var e := s.entries[key];
      var live := !Expired(e, c.idleTtl, now);
      var gone := s.(entries := s.entries - {key});
      match action
      case Peek => Outcome(s, Slot(true, None), {}, {}, {}, {})
      case GetValue =>
        if live then Outcome(Put(s, key, e.value, now), Slot(true, Some(e.value)), {}, {}, {}, {})
        else Outcome(s, Slot(true, None), {}, {}, {}, {})
      case IntoMut =>
        if live then Outcome(Put(s, key, e.value, now), Slot(true, Some(e.value)), {}, {}, {}, {})
        else Outcome(gone, Slot(true, None), {}, {e.value}, {}, {})
      case OrInsert(v) =>
        if live then Outcome(Put(s, key, e.value, now), Slot(true, Some(e.value)), {}, {}, {}, {})
        else Outcome(Put(s, key, v, now), Slot(true, Some(v)), {v}, {e.value}, {}, {})
      case Replace(v) => Outcome(Put(s, key, v, now), Slot(true, Some(e.value)), {v}, {}, {e.value}, {})
      case Take => Outcome(gone, Slot(true, Some(e.value)), {}, {}, {e.value}, {})
      case Destruct => Outcome(gone, Slot(true, None), {}, {e.value}, {}, {})
      case AndModify =>
        if live then Outcome(Put(s, key, e.value, now), Slot(true, Some(e.value)), {}, {}, {}, {})
        else Outcome(gone, Slot(true, None), {}, {}, {}, {e.value})
    else
      match action
      case OrInsert(v) => Outcome(Put(s, key, v, now), Slot(false, Some(v)), {v}, {}, {}, {})
      case Replace(v) => Outcome(Put(s, key, v, now), Slot(false, None), {v}, {}, {}, {})
      case _ => Outcome(s, Slot(false, None), {}, {}, {}, {})
  }

  function Step<K, V(==)>(c: Config, s: State<K, V>, call: Call<K, V>): (o: Outcome<K, V>) {
    match call.op
    case Insert(key, value) =>
      var clean := Cleanup(c, s, call.now);
      var old_ := if key in clean.entries then Some(clean.entries[key].value) else None;
      Outcome(Put(clean, key, value, call.now), Replaced(old_), {value}, CleanedValues(c, s, call.now),
              if old_.Some? then {old_.value} else {}, {})
    case Get(key) =>
      var clean := Cleanup(c, s, call.now);
      if key in clean.entries && !Expired(clean.entries[key], c.idleTtl, call.now) then
        var v := clean.entries[key].value;
        Outcome(Put(clean, key, v, call.now), Value(Some(v)), {}, CleanedValues(c, s, call.now), {}, {})
      else
        Outcome(clean, Value(None), {}, CleanedValues(c, s, call.now), {}, {})
    case Remove(key) =>
      var rest := s.(entries := s.entries - {key});
      if key !in s.entries then Outcome(rest, Value(None), {}, {}, {}, {})
      else
        var v := s.entries[key].value;
        if Expired(s.entries[key], c.idleTtl, call.now) then Outcome(rest, Value(None), {}, {}, {}, {v})
        else Outcome(rest, Value(Some(v)), {}, {}, {v}, {})
    case Clear => Outcome(State(map[], call.now), Unit, {}, {}, {}, Stored(s))
    case Lookup(key) =>
      var (found, expired) := Open(c, s, key, call.now);
      Outcome(found, Slot(key in found.entries, None), {}, expired, {}, {})
    case OnEntry(key, action) => Act(c, s, key, action, call.now)
  }

  function Stored<K, V(==)>(s: State<K, V>): (values: set<V>) {
    set k | k in s.entries :: s.entries[k].value
  }

  /** When a cleanup is due, an insertion, a get or a look-up gives every expired value to the
      callback and leaves nothing expired behind; before that, at most the entry looked up. */
  lemma DueCleanupExpiresAll<K(!new), V>(c: Config, s: State<K, V>, call: Call<K, V>)
    requires call.op.Insert? || call.op.Get? || call.op.Lookup?
    ensures var o := Step(c, s, call);
            if Since(call.now, s.lastCleanup) >= c.cleanupInterval then
              && o.state.lastCleanup == call.now
              && (forall k :: k in s.entries && Since(call.now, s.entries[k].touched) >= c.idleTtl ==> s.entries[k].value in o.expired)
              && (forall k :: k in o.state.entries && !(call.op.Insert? && k == call.op.key) ==>
                    k in s.entries && Since(call.now, s.entries[k].touched) < c.idleTtl)
            else
              && o.state.lastCleanup == s.lastCleanup
              && (forall k :: k in s.entries && k != call.op.key ==> k in o.state.entries && o.state.entries[k] == s.entries[k])
              && (!call.op.Lookup? ==> o.expired == {})
  {
    forall k | k in s.entries && Since(call.now, s.entries[k].touched) >= c.idleTtl && Since(call.now, s.lastCleanup) >= c.cleanupInterval
      ensures s.entries[k].value in Step(c, s, call).expired
    {
      assert k in ExpiredKeys(s, c.idleTtl, call.now);
    }
  }

  // ----- A timed map that never cleans up -----

  predicate Live<K, V>(m: map<K, Timed<V>>, ttl: nat, key: K, now: nat) {
    key in m && Since(now, m[key].touched) < ttl
  }

  /** The entries, and whether the entry that the caller holds counts as occupied. */
  datatype Plain<K, V> = Plain(entries: map<K, Timed<V>>, occupied: bool)

  function PlainStep<K, V>(ttl: nat, p: Plain<K, V>, call: Call<K, V>): (r: (Plain<K, V>, Answer<V>)) {
    var m := p.entries;
    match call.op
    case Insert(key, value) =>
      (p.(entries := m[key := Timed(value, call.now)]), Replaced(if key in m then Some(m[key].value) else None))
    case Get(key) =>
      if Live(m, ttl, key, call.now) then (p.(entries := m[key := Timed(m[key].value, call.now)]), Value(Some(m[key].value)))
      else (p, Value(None))
    case Remove(key) =>
      (p.(entries := m - {key}), Value(if Live(m, ttl, key, call.now) then Some(m[key].value) else None))
    case Clear => (p.(entries := map[]), Unit)
    case Lookup(key) => (p.(occupied := Live(m, ttl, key, call.now)), Slot(Live(m, ttl, key, call.now), None))
    case OnEntry(key, action) => PlainAct(ttl, p, key, action, call.now)
  }

  function PlainAct<K, V>(ttl: nat, p: Plain<K, V>, key: K, action: Action<V>, now: nat): (r: (Plain<K, V>, Answer<V>)) {
    var m := p.entries;
    var occupied := p.occupied && key in m;
    var live := occupied && Live(m, ttl, key, now);
    match action
    case Peek => (p, Slot(occupied, None))
    case GetValue =>
      if live then (p.(entries := m[key := Timed(m[key].value, now)]), Slot(true, Some(m[key].value)))
      else (p, Slot(occupied, None))
    case IntoMut | AndModify =>
      if live then (p.(entries := m[key := Timed(m[key].value, now)]), Slot(true, Some(m[key].value)))
      else (p.(occupied := false), Slot(occupied, None))
    case OrInsert(v) =>
      if live then (p.(entries := m[key := Timed(m[key].value, now)]), Slot(true, Some(m[key].value)))
      else (Plain(m[key := Timed(v, now)], true), Slot(occupied, Some(v)))
    case Replace(v) => (Plain(m[key := Timed(v, now)], true), Slot(occupied, if occupied then Some(m[key].value) else None))
    case Take => if occupied then (Plain(m - {key}, false), Slot(true, Some(m[key].value))) else (p, Slot(false, None))
    case Destruct => if occupied then (Plain(m - {key}, false), Slot(true, None)) else (p, Slot(false, None))
  }

  /** The lazy map holds the plain map's entries, except for some that have expired. */
  ghost predicate Lags<K(!new), V(!new)>(entries: map<K, Timed<V>>, m: map<K, Timed<V>>, ttl: nat, clock: nat) {
    forall k :: && (k in entries ==> k in m && m[k] == entries[k])
                && (k in m && k !in entries ==> Expired(m[k], ttl, clock))
  }

  /** The caller's entry is occupied in both maps or in neither. */
  ghost predicate SameEntry<K, V>(entries: map<K, Timed<V>>, p: Plain<K, V>, held: Option<K>) {
    held.Some? ==> (held.value in entries <==> p.occupied)
  }

  /** The answer is the plain map's, except that an insertion may find the value it replaces
      cleaned up, if that has expired. */
  predicate Agrees<K, V(==)>(ttl: nat, p: Plain<K, V>, call: Call<K, V>, answer: Answer<V>) {
    || answer == PlainStep(ttl, p, call).1
    || (call.op.Insert? && answer == Replaced(None) && call.op.key in p.entries && Expired(p.entries[call.op.key], ttl, call.now))
  }

  lemma CleanupLags<K(!new), V(!new)>(c: Config, s: State<K, V>, m: map<K, Timed<V>>, clock: nat, now: nat)
    requires Lags(s.entries, m, c.idleTtl, clock) && clock <= now
    ensures Lags(Cleanup(c, s, now).entries, m, c.idleTtl, now)
  {
  }

  /** One operation: same answer, and the lazy map still only lags behind. */
  lemma StepLags<K(!new), V(!new)>(c: Config, s: State<K, V>, p: Plain<K, V>, clock: nat, held: Option<K>, call: Call<K, V>)
    requires Lags(s.entries, p.entries, c.idleTtl, clock) && SameEntry(s.entries, p, held) && clock <= call.now
    requires call.op.OnEntry? ==> held == Some(call.op.key)
    ensures var o, r := Step(c, s, call), PlainStep(c.idleTtl, p, call);
            && Lags(o.state.entries, r.0.entries, c.idleTtl, call.now)
            && SameEntry(o.state.entries, r.0, Held(call.op))
            && Agrees(c.idleTtl, p, call, o.answer)
  {
    CleanupLags(c, s, p.entries, clock, call.now);
    if call.op.OnEntry? {
      ActLags(c, s, p, clock, call.op.key, call.op.action, call.now);
    }
  }

  lemma LagsAfterPut<K(!new), V(!new)>(entries: map<K, Timed<V>>, m: map<K, Timed<V>>, ttl: nat, clock: nat, later: nat, key: K, e: Timed<V>)
    requires Lags(entries, m, ttl, clock) && clock <= later
    ensures Lags(entries[key := e], m[key := e], ttl, later)
  {
  }

  lemma LagsAfterRemoval<K(!new), V(!new)>(entries: map<K, Timed<V>>, m: map<K, Timed<V>>, ttl: nat, clock: nat, later: nat, key: K)
    requires Lags(entries, m, ttl, clock) && clock <= later
    ensures Lags(entries, m, ttl, later)
    ensures Lags(entries - {key}, m - {key}, ttl, later)
    ensures key in entries && Expired(entries[key], ttl, later) ==> Lags(entries - {key}, m, ttl, later)
  {
  }

  lemma ActLags<K(!new), V(!new)>(c: Config, s: State<K, V>, p: Plain<K, V>, clock: nat, key: K, action: Action<V>, now: nat)
    requires Lags(s.entries, p.entries, c.idleTtl, clock) && SameEntry(s.entries, p, Some(key)) && clock <= now
    ensures var o, r := Act(c, s, key, action, now), PlainAct(c.idleTtl, p, key, action, now);
            Lags(o.state.entries, r.0.entries, c.idleTtl, now) && SameEntry(o.state.entries, r.0, Some(key)) && o.answer == r.1
  {
    var entries, m := s.entries, p.entries;
    LagsAfterRemoval(entries, m, c.idleTtl, clock, now, key);
    if key in entries {
      LagsAfterPut(entries, m, c.idleTtl, clock, now, key, Timed(entries[key].value, now));
    }
    match action {
      case OrInsert(v) => LagsAfterPut(entries, m, c.idleTtl, clock, now, key, Timed(v, now));
      case Replace(v) => LagsAfterPut(entries, m, c.idleTtl, clock, now, key, Timed(v, now));
      case _ =>
    }
  }

  // ----- Runs -----

  /** Clock readings do not go back, and an entry is acted on, any number of times, only while
      the caller holds it. */
  ghost predicate WellTimed<K, V>(calls: seq<Call<K, V>>, clock: nat, held: Option<K>)
    decreases |calls|
  {
    calls == [] ||
    (&& clock <= calls[0].now && (calls[0].op.OnEntry? ==> held == Some(calls[0].op.key))
     && WellTimed(calls[1..], calls[0].now, Held(calls[0].op)))
  }

  /** Every answer of a run is that of the plain map after the same calls. */
  ghost predicate AgreesRun<K, V>(c: Config, s: State<K, V>, p: Plain<K, V>, calls: seq<Call<K, V>>)
    decreases |calls|
  {
    calls == [] ||
    (Agrees(c.idleTtl, p, calls[0], Step(c, s, calls[0]).answer) &&
     AgreesRun(c, Step(c, s, calls[0]).state, PlainStep(c.idleTtl, p, calls[0]).0, calls[1..]))
  }

  /** For every sequence of operations, every clock and every cleanup interval, the answers
      are those of a map that never cleans up. */
  lemma {:induction false} CleanupIsInvisible<K(!new), V(!new)>(
      c: Config, s: State<K, V>, p: Plain<K, V>, clock: nat, held: Option<K>, calls: seq<Call<K, V>>)
    requires Lags(s.entries, p.entries, c.idleTtl, clock) && SameEntry(s.entries, p, held) && WellTimed(calls, clock, held)
    ensures AgreesRun(c, s, p, calls)
    decreases |calls|
  {
    if calls != [] {
      StepLags(c, s, p, clock, held, calls[0]);
      CleanupIsInvisible(c, Step(c, s, calls[0]).state, PlainStep(c.idleTtl, p, calls[0]).0, calls[0].now,
                         Held(calls[0].op), calls[1..]);
    }
  }

  // ----- Conservation -----

  /** How often each value was inserted, given to the expiry callback, given back, dropped. */
  datatype Ledger<V> = Ledger(inserted: set<V>, expired: multiset<V>, returned: multiset<V>, dropped: multiset<V>)

  function Book<K, V(==)>(l: Ledger<V>, o: Outcome<K, V>): (after: Ledger<V>) {
    Ledger(l.inserted + o.inserted, l.expired + multiset(o.expired),
           l.returned + multiset(o.returned), l.dropped + multiset(o.dropped))
  }

  function One(b: bool): nat { if b then 1 else 0 }

  ghost predicate Injective<K(!new), V(!new)>(s: State<K, V>) {
    forall a, b :: a in s.entries && b in s.entries && s.entries[a].value == s.entries[b].value ==> a == b
  }

  /** Every inserted value is in exactly one place, and got there once. */
  ghost predicate Balanced<K(!new), V(!new)>(s: State<K, V>, l: Ledger<V>) {
    && Injective(s)
    && (forall v :: l.expired[v] + l.returned[v] + l.dropped[v] + One(v in Stored(s)) == One(v in l.inserted))
  }

  /** The value an operation may insert is one that was not inserted before. */
  ghost predicate FreshValue<K, V>(l: Ledger<V>, op: Op<K, V>) {
    match op
    case Insert(_, v) => v !in l.inserted
    case OnEntry(_, OrInsert(v)) => v !in l.inserted
    case OnEntry(_, Replace(v)) => v !in l.inserted
    case _ => true
  }

  /** An outcome moves every value it touches to exactly one place. */
  ghost predicate Moves<K(!new), V(!new)>(s: State<K, V>, o: Outcome<K, V>) {
    && Injective(o.state)
    && (forall v :: One(v in o.expired) + One(v in o.returned) + One(v in o.dropped) + One(v in Stored(o.state))
                    == One(v in Stored(s)) + One(v in o.inserted))
  }

  lemma MovesBalance<K(!new), V(!new)>(s: State<K, V>, l: Ledger<V>, o: Outcome<K, V>)
    requires Balanced(s, l) && Moves(s, o) && o.inserted !! l.inserted
    ensures Balanced(o.state, Book(l, o))
  {
  }

  lemma StoredAfterRemoving<K(!new), V(!new)>(s: State<K, V>, keys: set<K>, values: set<V>)
    requires Injective(s) && keys <= s.entries.Keys
    requires values == set k | k in keys :: s.entries[k].value
    ensures Stored(s.(entries := s.entries - keys)) == Stored(s) - values
    ensures values <= Stored(s)
  {
    var rest := s.(entries := s.entries - keys);
    forall v | v in Stored(s) - values ensures v in Stored(rest) {
      var k :| k in s.entries && s.entries[k].value == v;
      assert k in rest.entries;
    }
  }

  lemma StoredAfterPut<K(!new), V(!new)>(s: State<K, V>, key: K, value: V, now: nat)
    requires Injective(s) && value !in Stored(s)
    ensures Injective(Put(s, key, value, now))
    ensures Stored(Put(s, key, value, now)) ==
            Stored(s) - (if key in s.entries then {s.entries[key].value} else {}) + {value}
  {
    var after := Put(s, key, value, now);
    assert after.entries[key].value == value;
    forall v | v in Stored(s) && v != value && (key in s.entries ==> v != s.entries[key].value)
      ensures v in Stored(after)
    {
      var k :| k in s.entries && s.entries[k].value == v;
      assert k in after.entries && after.entries[k].value == v;
    }
  }

  lemma StoredAfterTouch<K(!new), V(!new)>(s: State<K, V>, key: K, now: nat)
    requires Injective(s) && key in s.entries
    ensures Injective(Put(s, key, s.entries[key].value, now))
    ensures Stored(Put(s, key, s.entries[key].value, now)) == Stored(s)
  {
    var after := Put(s, key, s.entries[key].value, now);
    forall v | v in Stored(s) ensures v in Stored(after) {
      var k :| k in s.entries && s.entries[k].value == v;
      assert k in after.entries && after.entries[k].value == v;
    }
  }

  lemma CleanupStored<K(!new), V(!new)>(c: Config, s: State<K, V>, now: nat)
    requires Injective(s)
    ensures Injective(Cleanup(c, s, now))
    ensures CleanedValues(c, s, now) <= Stored(s)
    ensures Stored(Cleanup(c, s, now)) == Stored(s) - CleanedValues(c, s, now)
  {
    if Since(now, s.lastCleanup) >= c.cleanupInterval {
      var keys := ExpiredKeys(s, c.idleTtl, now);
      StoredAfterRemoving(s, keys, CleanedValues(c, s, now));
      assert Stored(Cleanup(c, s, now)) == Stored(s.(entries := s.entries - keys));
    }
  }

  lemma OpenStored<K(!new), V(!new)>(c: Config, s: State<K, V>, key: K, now: nat)
    requires Injective(s)
    ensures var (found, expired) := Open(c, s, key, now);
            Injective(found) && expired <= Stored(s) && Stored(found) == Stored(s) - expired
  {
    CleanupStored(c, s, now);
    var clean := Cleanup(c, s, now);
    if key in clean.entries && Expired(clean.entries[key], c.idleTtl, now) {
      StoredAfterRemoving(clean, {key}, {clean.entries[key].value});
    }
  }

  lemma ActMoves<K(!new), V(!new)>(c: Config, s: State<K, V>, key: K, action: Action<V>, now: nat)
    requires Injective(s)
    requires action.OrInsert? ==> action.fallback !in Stored(s)
    requires action.Replace? ==> action.value !in Stored(s)
    ensures Moves(s, Act(c, s, key, action, now))
  {
    if key in s.entries {
      StoredAfterTouch(s, key, now);
      StoredAfterRemoving(s, {key}, {s.entries[key].value});
      assert s.entries[key].value in Stored(s);
    }
    match action {
      case OrInsert(v) => StoredAfterPut(s, key, v, now);
      case Replace(v) => StoredAfterPut(s, key, v, now);
      case _ =>
    }
  }

  lemma InsertMoves<K(!new), V(!new)>(c: Config, s: State<K, V>, call: Call<K, V>)
    requires Injective(s) && call.op.Insert? && call.op.value !in Stored(s)
    ensures Moves(s, Step(c, s, call))
  {
    CleanupStored(c, s, call.now);
    var clean := Cleanup(c, s, call.now);
    StoredAfterPut(clean, call.op.key, call.op.value, call.now);
    if call.op.key in clean.entries {
      assert clean.entries[call.op.key].value in Stored(clean);
    }
  }

  lemma GetMoves<K(!new), V(!new)>(c: Config, s: State<K, V>, call: Call<K, V>)
    requires Injective(s) && call.op.Get?
    ensures Moves(s, Step(c, s, call))
  {
    CleanupStored(c, s, call.now);
    var clean := Cleanup(c, s, call.now);
    if call.op.key in clean.entries {
      StoredAfterTouch(clean, call.op.key, call.now);
    }
  }

  lemma RemoveMoves<K(!new), V(!new)>(c: Config, s: State<K, V>, call: Call<K, V>)
    requires Injective(s) && call.op.Remove?
    ensures Moves(s, Step(c, s, call))
  {
    var key := call.op.key;
    if key in s.entries {
      StoredAfterRemoving(s, {key}, {s.entries[key].value});
    } else {
      assert s.entries - {key} == s.entries;
    }
  }

  lemma StoredWasInserted<K(!new), V(!new)>(s: State<K, V>, l: Ledger<V>)
    requires Balanced(s, l)
    ensures Stored(s) <= l.inserted
  {
    forall v | v in Stored(s) ensures v in l.inserted {
      assert l.expired[v] + l.returned[v] + l.dropped[v] + One(v in Stored(s)) == One(v in l.inserted);
    }
  }

  lemma ClearMoves<K(!new), V(!new)>(c: Config, s: State<K, V>, now: nat)
    ensures Moves(s, Step(c, s, Call(Clear, now)))
  {
  }

  lemma LookupMoves<K(!new), V(!new)>(c: Config, s: State<K, V>, key: K, now: nat)
    requires Injective(s)
    ensures Moves(s, Step(c, s, Call(Lookup(key), now)))
  {
    OpenStored(c, s, key, now);
  }

  lemma StepMoves<K(!new), V(!new)>(c: Config, s: State<K, V>, l: Ledger<V>, call: Call<K, V>)
    requires Balanced(s, l) && FreshValue(l, call.op)
    ensures Moves(s, Step(c, s, call))
    ensures Step(c, s, call).inserted !! l.inserted
  {
    StoredWasInserted(s, l);
    match call.op {
      case Insert(_, _) => InsertMoves(c, s, call);
      case Get(_) => GetMoves(c, s, call);
      case Remove(_) => RemoveMoves(c, s, call);
      case Clear => ClearMoves(c, s, call.now);
      case Lookup(key) => LookupMoves(c, s, key, call.now);
      case OnEntry(key, action) => ActMoves(c, s, key, action, call.now);
    }
  }

  function RunLedger<K, V(==)>(c: Config, s: State<K, V>, l: Ledger<V>, calls: seq<Call<K, V>>): (r: (State<K, V>, Ledger<V>))
    decreases |calls|
  {
    if calls == [] then (s, l)
    else
      var o := Step(c, s, calls[0]);
      RunLedger(c, o.state, Book(l, o), calls[1..])
  }

  /** Every call of a run inserts a value not inserted before. */
  ghost predicate FreshRun<K, V>(c: Config, s: State<K, V>, l: Ledger<V>, calls: seq<Call<K, V>>)
    decreases |calls|
  {
    calls == [] ||
    (FreshValue(l, calls[0].op) &&
     FreshRun(c, Step(c, s, calls[0]).state, Book(l, Step(c, s, calls[0])), calls[1..]))
  }

  /** In every reachable state, each inserted value is in exactly one place: stored, given
      once to the callback, given back once, or dropped once. */
  lemma {:induction false} ValuesAreConserved<K(!new), V(!new)>(
      c: Config, s: State<K, V>, l: Ledger<V>, calls: seq<Call<K, V>>)
    requires Balanced(s, l) && FreshRun(c, s, l, calls)
    ensures var (end, ledger) := RunLedger(c, s, l, calls); Balanced(end, ledger)
    decreases |calls|
  {
    if calls != [] {
      var o := Step(c, s, calls[0]);
      StepMoves(c, s, l, calls[0]);
      MovesBalance(s, l, o);
      ValuesAreConserved(c, o.state, Book(l, o), calls[1..]);
    }
  }

  /** The callback sees an unexpired value only when the caller destructs its entry, and
      only a clear, the removal of an expired key or a modification of an entry that
      expired meanwhile drops a value silently. */
  lemma CallbackSeesExpired<K(!new), V(!new)>(c: Config, s: State<K, V>, call: Call<K, V>, v: V)
    ensures v in Step(c, s, call).expired ==>
              exists k :: k in s.entries && s.entries[k].value == v &&
                          (Expired(s.entries[k], c.idleTtl, call.now) || call.op == OnEntry(k, Destruct))
    ensures v in Step(c, s, call).dropped ==>
              exists k :: k in s.entries && s.entries[k].value == v &&
                          (|| call.op.Clear?
                           || (call.op == Remove(k) && Expired(s.entries[k], c.idleTtl, call.now))
                           || (call.op == OnEntry(k, AndModify) && Expired(s.entries[k], c.idleTtl, call.now)))
  {
  }

  // ----- The map in place -----

  ghost function ValuesAt<K(!new), V>(s: State<K, V>, keys: set<K>): set<V> {
    set k | k in keys && k in s.entries :: s.entries[k].value
  }

  lemma ValuesAtPlus<K(!new), V(!new)>(s: State<K, V>, keys: set<K>, k: K)
    requires Injective(s) && k in s.entries && k !in keys
    ensures s.entries[k].value !in ValuesAt(s, keys)
    ensures multiset(ValuesAt(s, keys + {k})) == multiset(ValuesAt(s, keys)) + multiset{s.entries[k].value}
  {
  }

  /** Values stand for owned objects, so no value is stored under two keys. */
  class ExpiryMap<K(!new, ==), V(!new, ==)> {
    const config: Config
    var entries: map<K, Timed<V>>
    var lastCleanup: nat
    /** The values given to the expiry callback so far. */
    var onExpired: multiset<V>

    function Current(): (s: State<K, V>)
      reads this
    {
      State(entries, lastCleanup)
    }

    constructor (config: Config, now: nat)
      ensures this.config == config && Current() == State(map[], now) && onExpired == multiset{}
    {
      this.config, entries, lastCleanup, onExpired := config, map[], now, multiset{};
    }

    method CleanupIfDue(now: nat)
      requires Injective(Current())
      modifies this
      ensures Current() == Cleanup(config, old(Current()), now)
      ensures onExpired == old(onExpired) + multiset(CleanedValues(config, old(Current()), now))
    {
      if Since(now, lastCleanup) < config.cleanupInterval {
        return;
      }
      lastCleanup := now;
      ghost var before := old(Current());
      var expired := ExpiredKeys(Current(), config.idleTtl, now);
      assert expired == ExpiredKeys(before, config.idleTtl, now);
      Evict(expired);
      assert ValuesAt(before, expired) == CleanedValues(config, before, now);
    }

    /** Removes the given entries, handing each value to the callback. */
    method Evict(keys: set<K>)
      requires Injective(Current()) && keys <= entries.Keys
      modifies this`entries, this`onExpired
      ensures entries == old(entries) - keys
      ensures onExpired == old(onExpired) + multiset(ValuesAt(old(Current()), keys))
    {
      ghost var before := Current();
      var rest := keys;
      while rest != {}
        invariant rest <= keys
        invariant entries == before.entries - (keys - rest)
        invariant onExpired == old(onExpired) + multiset(ValuesAt(before, keys - rest))
        decreases rest
      {
        var k :| k in rest;
        ghost var gone := keys - rest;
        rest := rest - {k};
        assert keys - rest == gone + {k};
        ValuesAtPlus(before, gone, k);
        onExpired := onExpired + multiset{entries[k].value};
        entries := entries - {k};
      }
    }

    method Insert(key: K, value: V, now: nat) returns (old_: Option<V>)
      requires Injective(Current())
      modifies this
      ensures var o := Step(config, old(Current()), Call(Op.Insert(key, value), now));
              && Current() == o.state && Replaced(old_) == o.answer
              && onExpired == old(onExpired) + multiset(o.expired)
    {
      CleanupIfDue(now);
      old_ := if key in entries then Some(entries[key].value) else None;
      entries := entries[key := Timed(value, now)];
    }

    method Get(key: K, now: nat) returns (value: Option<V>)
      requires Injective(Current())
      modifies this
      ensures var o := Step(config, old(Current()), Call(Op.Get(key), now));
              && Current() == o.state && Value(value) == o.answer
              && onExpired == old(onExpired) + multiset(o.expired)
    {
      CleanupIfDue(now);
      if key !in entries || Expired(entries[key], config.idleTtl, now) {
        return None;
      }
      value := Some(entries[key].value);
      entries := entries[key := Timed(entries[key].value, now)];
    }

    method Remove(key: K, now: nat) returns (value: Option<V>)
      modifies this`entries
      ensures var o := Step(config, old(Current()), Call(Op.Remove(key), now));
              Current() == o.state && Value(value) == o.answer
    {
      value := if key in entries && !Expired(entries[key], config.idleTtl, now) then Some(entries[key].value) else None;
      entries := entries - {key};
    }

    method Clear(now: nat)
      modifies this`entries, this`lastCleanup
      ensures Current() == Step(config, old(Current()), Call(Op.Clear, now)).state
    {
      entries, lastCleanup := map[], now;
    }

    /** Looks an entry up; the caller then acts on it. */
    method Entry(key: K, now: nat) returns (occupied: bool)
      requires Injective(Current())
      modifies this
      ensures var o := Step(config, old(Current()), Call(Lookup(key), now));
              && Current() == o.state && Slot(occupied, None) == o.answer
              && onExpired == old(onExpired) + multiset(o.expired)
    {
      CleanupStored(config, Current(), now);
      CleanupIfDue(now);
      if key in entries && Expired(entries[key], config.idleTtl, now) {
        assert entries[key].value in Stored(Current());
        onExpired := onExpired + multiset{entries[key].value};
        entries := entries - {key};
      }
      occupied := key in entries;
    }

    /** Acts on an entry that was looked up. */
    method Apply(key: K, action: Action<V>, now: nat) returns (value: Option<V>)
      modifies this`entries, this`onExpired
      ensures var o := Step(config, old(Current()), Call(OnEntry(key, action), now));
              && Current() == o.state && Slot(key in old(entries), value) == o.answer
              && onExpired == old(onExpired) + multiset(o.expired)
    {
      value := None;
      if key in entries {
        var e := entries[key];
        var live := !Expired(e, config.idleTtl, now);
        if live && (action.GetValue? || action.IntoMut? || action.OrInsert? || action.AndModify?) {
          entries := entries[key := Timed(e.value, now)];
          return Some(e.value);
        }
        match action {
          case Peek =>
          case GetValue =>
          case IntoMut =>
            entries := entries - {key};
            onExpired := onExpired + multiset{e.value};
          case OrInsert(v) =>
            entries := entries[key := Timed(v, now)];
            onExpired := onExpired + multiset{e.value};
            value := Some(v);
          case Replace(v) =>
            entries := entries[key := Timed(v, now)];
            value := Some(e.value);
          case Take =>
            entries := entries - {key};
            value := Some(e.value);
          case Destruct =>
            entries := entries - {key};
            onExpired := onExpired + multiset{e.value};
          case AndModify =>
            entries := entries - {key};
        }
      } else {
        match action {
          case OrInsert(v) =>
            entries := entries[key := Timed(v, now)];
            value := Some(v);
          case Replace(v) =>
            entries := entries[key := Timed(v, now)];
          case _ =>
        }
      }
    }
  }
}
