/** One encrypted session seen from its two ends: nonces split between initiator and
    responder, an ideal cipher, and a network that may lose, repeat, reorder and forge. */
module SessionCipher {
  import opened Common
  import opened LeastAbsent
  import opened NonceWindow

  const U64_HALF: nat := 0x7FFF_FFFF_FFFF_FFFF
  const WINDOW: nat := 100

  // ----- Nonces on the wire -----

  /** The first `count` bytes of a number, least significant first. */
  function LittleEndian(n: nat, count: nat): (bytes: seq<nat>)
    ensures |bytes| == count
  {
    if count == 0 then [] else [n % 256] + LittleEndian(n / 256, count - 1)
  }

  function FromLittleEndian(bytes: seq<nat>): nat {
    if bytes == [] then 0 else bytes[0] + 256 * FromLittleEndian(bytes[1..])
  }

  function Power256(count: nat): nat {
    if count == 0 then 1 else 256 * Power256(count - 1)
  }

  /** A 96-bit nonce: eight bytes of the counter and four zero bytes. */
  function NonceBytes(nonce: nat): (bytes: seq<nat>)
    ensures |bytes| == 12
  {
    LittleEndian(nonce, 8) + [0, 0, 0, 0]
  }

  lemma {:induction false} LittleEndianRoundTrip(n: nat, count: nat)
    requires n < Power256(count)
    ensures FromLittleEndian(LittleEndian(n, count)) == n
  {
    if count > 0 {
      LittleEndianRoundTrip(n / 256, count - 1);
      assert LittleEndian(n, count)[1..] == LittleEndian(n / 256, count - 1);
    }
  }

  /** Different 64-bit nonces have different encodings. */
  lemma NonceBytesInjective(a: nat, b: nat)
    requires a <= U64_MAX && b <= U64_MAX && NonceBytes(a) == NonceBytes(b)
    ensures a == b
  {
    assert Power256(8) == 0x1_0000_0000_0000_0000 by {
      assert Power256(4) == 0x1_0000_0000;
      assert Power256(6) == 0x1_0000_0000_0000;
    }
    assert LittleEndian(a, 8) == NonceBytes(a)[..8] == NonceBytes(b)[..8] == LittleEndian(b, 8);
    LittleEndianRoundTrip(a, 8);
    LittleEndianRoundTrip(b, 8);
  }

  // ----- An ideal cipher -----

  /** A ciphertext opens only under the nonce it was sealed with; others are forgeries. */
  datatype Cipher = Sealed(nonce: seq<nat>, plain: Bytes) | Forged

  function Unseal(cipher: Cipher, nonce: seq<nat>): Option<Bytes> {
    if cipher.Sealed? && cipher.nonce == nonce then Some(cipher.plain) else None
  }

  // ----- One end -----

  /** The send counter of an end and the nonces of the other end it has used up. */
  datatype End = End(initiator: bool, counter: nat, used: set<nat>)

  function SendNonce(e: End): (nonce: Option<nat>) {
    if e.counter == U64_HALF then None else Some(e.counter + if e.initiator then 0 else U64_HALF)
  }

  /** The received nonce as the window counts it: nonces of the responder are shifted, in
      64-bit arithmetic that wraps around. */
  function Shifted(initiator: bool, nonce: nat): (n: nat)
    requires nonce <= U64_MAX
    ensures n <= U64_MAX
  {
    if !initiator then nonce
    else if nonce >= U64_HALF then nonce - U64_HALF
    else nonce + (U64_MAX + 1 - U64_HALF)
  }

  /** Whether a nonce is one that the end itself would send. */
  predicate InOwnHalf(initiator: bool, nonce: nat) {
    if initiator then nonce < U64_HALF else nonce >= U64_HALF
  }

  ghost function Decrypted(e: End, nonce: nat, cipher: Cipher): (r: (End, Option<Bytes>))
    requires nonce <= U64_MAX
  {
    var n := Shifted(e.initiator, nonce);
    if Acceptable(e.used, WINDOW, n) then (e.(used := e.used + {n}), Unseal(cipher, NonceBytes(nonce)))
    else (e, None)
  }

  // ----- Two ends and the network -----

  datatype Sent = Sent(byInitiator: bool, nonce: nat, plain: Bytes)

  datatype Got = Got(byInitiator: bool, nonce: nat, plain: Bytes)

  datatype Sys = Sys(initiator: End, responder: End, sent: seq<Sent>, got: seq<Got>)

  datatype Event =
    | Encrypts(byInitiator: bool, plain: Bytes, works: bool)
    | Receives(byInitiator: bool, nonce: nat, cipher: Cipher)

  ghost function EndOf(s: Sys, byInitiator: bool): End {
    if byInitiator then s.initiator else s.responder
  }

  /** The network delivers any nonce with any ciphertext, except that it cannot make a sealed
      one that was never sent. */
  ghost predicate Enabled(s: Sys, ev: Event) {
    match ev
    case Encrypts(_, _, _) => true
    case Receives(byInitiator, nonce, cipher) =>
      && nonce <= U64_MAX
      && (cipher.Sealed? ==> exists i :: 0 <= i < |s.sent| && NonceBytes(s.sent[i].nonce) == cipher.nonce
                                                           && s.sent[i].plain == cipher.plain)
  }

  ghost function Step(s: Sys, ev: Event): (next: Sys)
    requires Enabled(s, ev)
  {
    match ev
    case Encrypts(byInitiator, plain, works) =>
      var e := EndOf(s, byInitiator);
      var nonce := SendNonce(e);
      if nonce.None? then s
      else
        var e' := e.(counter := e.counter + 1);
        var s' := if works then s.(sent := s.sent + [Sent(byInitiator, nonce.value, plain)]) else s;
        if byInitiator then s'.(initiator := e') else s'.(responder := e')
    case Receives(byInitiator, nonce, cipher) =>
      var e := EndOf(s, byInitiator);
      var (e', plain) := Decrypted(e, nonce, cipher);
      var s' := s.(got := s.got + if plain.Some? then [Got(byInitiator, nonce, plain.value)] else []);
      if byInitiator then s'.(initiator := e') else s'.(responder := e')
  }

  /** Each end counts its own nonces, in its own half. */
  ghost predicate SentOk(s: Sys) {
    && s.initiator.initiator && !s.responder.initiator
    && s.initiator.counter <= U64_HALF && s.responder.counter <= U64_HALF
    && (forall i :: 0 <= i < |s.sent| ==>
          var x := s.sent[i];
          if x.byInitiator then x.nonce < s.initiator.counter
          else U64_HALF <= x.nonce < U64_HALF + s.responder.counter)
    && (forall i, j :: 0 <= i < j < |s.sent| ==> s.sent[i].nonce != s.sent[j].nonce)
  }

  ghost predicate GotNonceOk(x: Got, e: End) {
    && x.nonce <= U64_MAX
    && Shifted(x.byInitiator, x.nonce) in e.used
    && (InOwnHalf(x.byInitiator, x.nonce) ==> |e.used| + WINDOW > U64_HALF)
  }

  /** Each end has used up the nonces of everything it got, and got each once. */
  ghost predicate GotOk(s: Sys) {
    && (forall i :: 0 <= i < |s.got| ==> GotNonceOk(s.got[i], EndOf(s, s.got[i].byInitiator)))
    && (forall i, j :: 0 <= i < j < |s.got| && s.got[i].byInitiator == s.got[j].byInitiator ==>
          s.got[i].nonce != s.got[j].nonce)
    && (forall i :: 0 <= i < |s.got| ==> WasSent(s, s.got[i]))
  }

  ghost predicate Inv(s: Sys) {
    SentOk(s) && GotOk(s)
  }

  ghost predicate WasSent(s: Sys, x: Got) {
    exists i :: 0 <= i < |s.sent| && s.sent[i].nonce == x.nonce && s.sent[i].plain == x.plain
  }

  lemma EncryptsKeepsInv(s: Sys, ev: Event)
    requires Inv(s) && Enabled(s, ev) && ev.Encrypts?
    ensures Inv(Step(s, ev))
  {
    var s' := Step(s, ev);
    forall i | 0 <= i < |s'.got| ensures WasSent(s', s'.got[i]) {
      assert WasSent(s, s.got[i]);
      var j :| 0 <= j < |s.sent| && s.sent[j].nonce == s.got[i].nonce && s.sent[j].plain == s.got[i].plain;
      assert s'.sent[j] == s.sent[j];
    }
  }

  /** What is newly got was sent under that nonce, and nothing was got under it before. */
  lemma GotIsNewAndSent(s: Sys, ev: Event)
    requires Inv(s) && Enabled(s, ev) && ev.Receives?
    ensures var (_, plain) := Decrypted(EndOf(s, ev.byInitiator), ev.nonce, ev.cipher);
            plain.Some? ==>
              && WasSent(s, Got(ev.byInitiator, ev.nonce, plain.value))
              && forall i :: 0 <= i < |s.got| && s.got[i].byInitiator == ev.byInitiator ==> s.got[i].nonce != ev.nonce
  {
    var (_, plain) := Decrypted(EndOf(s, ev.byInitiator), ev.nonce, ev.cipher);
    if plain.Some? {
      var i :| 0 <= i < |s.sent| && NonceBytes(s.sent[i].nonce) == ev.cipher.nonce && s.sent[i].plain == ev.cipher.plain;
      NonceBytesInjective(s.sent[i].nonce, ev.nonce);
    }
  }

  /** Decrypting uses up at most the nonce received, and does if anything comes out. */
  lemma DecryptedUses(e: End, nonce: nat, cipher: Cipher)
    requires nonce <= U64_MAX
    ensures var (e', plain) := Decrypted(e, nonce, cipher);
            && e'.initiator == e.initiator && e'.counter == e.counter
            && e.used <= e'.used <= e.used + {Shifted(e.initiator, nonce)}
            && (plain.Some? ==> Shifted(e.initiator, nonce) in e'.used)
            && (plain.Some? && InOwnHalf(e.initiator, nonce) ==> |e'.used| + WINDOW > U64_HALF)
  {
    var n := Shifted(e.initiator, nonce);
    if Acceptable(e.used, WINDOW, n) {
      LeastUnusedIsAtMostCount(e.used);
      SubsetSize(e.used, e.used + {n});
    }
  }

  lemma ReceivesKeepsInv(s: Sys, ev: Event)
    requires Inv(s) && Enabled(s, ev) && ev.Receives?
    ensures Inv(Step(s, ev))
  {
    GotIsNewAndSent(s, ev);
    DecryptedUses(EndOf(s, ev.byInitiator), ev.nonce, ev.cipher);
    var (e', plain) := Decrypted(EndOf(s, ev.byInitiator), ev.nonce, ev.cipher);
    GotKeepsInv(s, ev.byInitiator, ev.nonce, e', plain);
  }

  lemma GotKeepsInv(s: Sys, byInitiator: bool, nonce: nat, e': End, plain: Option<Bytes>)
    requires Inv(s) && nonce <= U64_MAX
    requires var e := EndOf(s, byInitiator);
             && e'.initiator == e.initiator && e'.counter == e.counter
             && e.used <= e'.used <= e.used + {Shifted(byInitiator, nonce)}
    requires plain.Some? ==>
               && Shifted(byInitiator, nonce) in e'.used
               && (InOwnHalf(byInitiator, nonce) ==> |e'.used| + WINDOW > U64_HALF)
               && WasSent(s, Got(byInitiator, nonce, plain.value))
               && forall i :: 0 <= i < |s.got| && s.got[i].byInitiator == byInitiator ==> s.got[i].nonce != nonce
    ensures var s' := s.(got := s.got + if plain.Some? then [Got(byInitiator, nonce, plain.value)] else []);
            Inv(if byInitiator then s'.(initiator := e') else s'.(responder := e'))
  {
    var s1 := s.(got := s.got + if plain.Some? then [Got(byInitiator, nonce, plain.value)] else []);
    var s' := if byInitiator then s1.(initiator := e') else s1.(responder := e');
    SubsetSize(EndOf(s, byInitiator).used, e'.used);
    forall i | 0 <= i < |s'.got|
      ensures WasSent(s', s'.got[i]) && GotNonceOk(s'.got[i], EndOf(s', s'.got[i].byInitiator))
    {
      assert WasSent(s, s'.got[i]);
      if i < |s.got| {
        assert GotNonceOk(s.got[i], EndOf(s, s.got[i].byInitiator));
      }
    }
  }

  lemma StepKeepsInv(s: Sys, ev: Event)
    requires Inv(s) && Enabled(s, ev)
    ensures Inv(Step(s, ev))
  {
    if ev.Encrypts? { EncryptsKeepsInv(s, ev); } else { ReceivesKeepsInv(s, ev); }
  }

  ghost predicate IsRun(states: seq<Sys>, events: seq<Event>) {
    && |states| == |events| + 1
    && states[0] == Sys(End(true, 0, {}), End(false, 0, {}), [], [])
    && (forall i {:trigger events[i]} :: 0 <= i < |events| ==>
          Enabled(states[i], events[i]) && states[i + 1] == Step(states[i], events[i]))
  }

  lemma {:induction false} RunKeepsInv(states: seq<Sys>, events: seq<Event>, i: nat)
    requires IsRun(states, events) && i < |states|
    ensures Inv(states[i])
  {
    if i > 0 {
      RunKeepsInv(states, events, i - 1);
      assert states[i - 1 + 1] == Step(states[i - 1], events[i - 1]);
      StepKeepsInv(states[i - 1], events[i - 1]);
    }
  }

  /** Over every run, no nonce is used for two encryptions, by one end or by both, and the
      counters stay within 64 bits. */
  lemma NoncesAreNeverReused(states: seq<Sys>, events: seq<Event>, k: nat, i: nat, j: nat)
    requires IsRun(states, events) && k < |states| && i < j < |states[k].sent|
    ensures states[k].sent[i].nonce != states[k].sent[j].nonce
    ensures NonceBytes(states[k].sent[i].nonce) != NonceBytes(states[k].sent[j].nonce)
    ensures states[k].sent[i].nonce <= U64_MAX && states[k].sent[j].nonce <= U64_MAX
  {
    RunKeepsInv(states, events, k);
    if NonceBytes(states[k].sent[i].nonce) == NonceBytes(states[k].sent[j].nonce) {
      NonceBytesInjective(states[k].sent[i].nonce, states[k].sent[j].nonce);
    }
  }

  /** Over every run, an end decrypts under each nonce at most once, and gets only what was
      sent under it; and what it gets was sent by the other end, unless it has accepted almost
      half of the 64-bit space. */
  lemma DecryptsOnceWhatWasSent(states: seq<Sys>, events: seq<Event>, k: nat, i: nat) returns (origin: nat)
    requires IsRun(states, events) && k < |states| && i < |states[k].got|
    ensures var s, x := states[k], states[k].got[i];
            && (forall j :: 0 <= j < |s.got| && j != i && s.got[j].byInitiator == x.byInitiator ==> s.got[j].nonce != x.nonce)
            && origin < |s.sent| && s.sent[origin].nonce == x.nonce && s.sent[origin].plain == x.plain
            && (|EndOf(s, x.byInitiator).used| + WINDOW <= U64_HALF ==> s.sent[origin].byInitiator != x.byInitiator)
  {
    RunKeepsInv(states, events, k);
    var s, x := states[k], states[k].got[i];
    assert WasSent(s, x);
    origin :| 0 <= origin < |s.sent| && s.sent[origin].nonce == x.nonce && s.sent[origin].plain == x.plain;
    assert GotNonceOk(x, EndOf(s, x.byInitiator));
  }

  /** The lower bound of a window overflows 64 bits only after almost as many acceptances. */
  lemma WindowStaysWithin64Bits(e: End)
    requires |e.used| + WINDOW <= U64_MAX
    ensures Least(e.used) + WINDOW <= U64_MAX
  {
    LeastUnusedIsAtMostCount(e.used);
  }

  // ----- Deliveries -----

  /** The nonces delivered to an end, in order, as its window counts them. */
  ghost function Arrivals(events: seq<Event>, byInitiator: bool): (arrivals: seq<nat>) {
    if events == [] then []
    else
      var k := |events| - 1;
      var ev := events[k];
      Arrivals(events[..k], byInitiator) +
      if ev.Receives? && ev.byInitiator == byInitiator && ev.nonce <= U64_MAX then [Shifted(byInitiator, ev.nonce)] else []
  }

  /** A delivery to an end uses its nonce up if the window takes it; nothing else does. */
  lemma StepUses(s: Sys, ev: Event, byInitiator: bool)
    requires SentOk(s) && Enabled(s, ev)
    ensures EndOf(Step(s, ev), byInitiator).used ==
            if ev.Receives? && ev.byInitiator == byInitiator
            then UsedAfter(EndOf(s, byInitiator).used, WINDOW, Shifted(byInitiator, ev.nonce))
            else EndOf(s, byInitiator).used
  {
  }

  lemma UsedAfterOneMore(before: seq<nat>, n: nat)
    ensures UsedAfterAll({}, WINDOW, before + [n]) == UsedAfter(UsedAfterAll({}, WINDOW, before), WINDOW, n)
  {
    assert (before + [n])[..|before|] == before;
  }

  /** The nonces an end has used up are those its window accepted, whatever came with them. */
  lemma {:induction false} UsedIsFromArrivals(states: seq<Sys>, events: seq<Event>, i: nat, byInitiator: bool)
    requires IsRun(states, events) && i <= |events|
    ensures EndOf(states[i], byInitiator).used == UsedAfterAll({}, WINDOW, Arrivals(events[..i], byInitiator))
    ensures states[i].initiator.initiator && !states[i].responder.initiator
  {
    RunKeepsInv(states, events, i);
    if i > 0 {
      UsedIsFromArrivals(states, events, i - 1, byInitiator);
      RunKeepsInv(states, events, i - 1);
      assert states[i - 1 + 1] == Step(states[i - 1], events[i - 1]);
      assert events[..i][..i - 1] == events[..i - 1];
      var before, ev := Arrivals(events[..i - 1], byInitiator), events[i - 1];
      StepUses(states[i - 1], ev, byInitiator);
      if ev.Receives? && ev.byInitiator == byInitiator {
        UsedAfterOneMore(before, Shifted(byInitiator, ev.nonce));
      } else {
        assert Arrivals(events[..i], byInitiator) == before;
      }
    }
  }

  /** Some message with the nonce was delivered to the end before event i. */
  ghost predicate DeliveredBefore(events: seq<Event>, i: nat, byInitiator: bool, nonce: nat)
    requires i <= |events|
  {
    exists k: nat :: k < i && events[k].Receives? && events[k].byInitiator == byInitiator && events[k].nonce == nonce
  }

  lemma {:induction false} ArrivedIffDelivered(events: seq<Event>, i: nat, byInitiator: bool, nonce: nat)
    requires i <= |events| && nonce <= U64_MAX
    ensures Shifted(byInitiator, nonce) in Arrivals(events[..i], byInitiator) <==> DeliveredBefore(events, i, byInitiator, nonce)
  {
    if i > 0 {
      ArrivedIffDelivered(events, i - 1, byInitiator, nonce);
      assert events[..i][..i - 1] == events[..i - 1];
    }
  }

  /** Over every run in which no delivery to an end overtakes one that is a window older, a message
      that was sealed on the session is decrypted exactly if nothing was delivered with its
      nonce before: nothing is lost, and nothing is taken twice. */
  lemma FirstDeliveriesAreDecrypted(states: seq<Sys>, events: seq<Event>, i: nat)
    requires IsRun(states, events) && i < |events| && events[i].Receives?
    requires events[i].cipher.Sealed? && events[i].cipher.nonce == NonceBytes(events[i].nonce)
    requires DisplacedLessThan(WINDOW, Arrivals(events[..i + 1], events[i].byInitiator))
    ensures var ev := events[i];
            states[i + 1].got == states[i].got +
              if DeliveredBefore(events, i, ev.byInitiator, ev.nonce) then [] else [Got(ev.byInitiator, ev.nonce, ev.cipher.plain)]
  {
    var ev := events[i];
    assert Enabled(states[i], ev);
    var before, all := Arrivals(events[..i], ev.byInitiator), Arrivals(events[..i + 1], ev.byInitiator);
    assert events[..i + 1][..i] == events[..i];
    assert all == before + [Shifted(ev.byInitiator, ev.nonce)];
    assert all[..|before|] == before;
    UsedIsFromArrivals(states, events, i, ev.byInitiator);
    ArrivedIffDelivered(events, i, ev.byInitiator, ev.nonce);
    ReorderingWithinWindowLosesNothing(WINDOW, all, |before|);
    assert states[i + 1] == Step(states[i], ev);
  }

  // ----- The end in place -----

  datatype EncryptResult = EncryptAndNonce(nonce: nat, cipher: Cipher) | NonceSpaceExhausted | EncryptionFailure

  datatype DecryptResult = Plain(plain: Bytes) | NonceRejected(error: BitStoreError) | DecryptionFailure

  class NonceGeneratorValidator {
    var usedNonceCounter: nat
    const isInitiatorSession: bool
    const validator: RollingNonceWindow

    ghost predicate Valid()
      reads this, validator, validator.window
    {
      && usedNonceCounter <= U64_HALF
      && validator.window.Length == WINDOW
      && validator.Valid()
    }

    ghost function State(): (e: End)
      reads this, validator
    {
      End(isInitiatorSession, usedNonceCounter, validator.used)
    }

    constructor (isInitiatorSession: bool)
      ensures Valid() && fresh(validator) && fresh(validator.window)
      ensures State() == End(isInitiatorSession, 0, {})
    {
      usedNonceCounter := 0;
      this.isInitiatorSession := isInitiatorSession;
      validator := new RollingNonceWindow(WINDOW);
    }

    method GetNextSendNonce() returns (nonce: Option<nat>)
      requires Valid()
      modifies this
      ensures Valid()
      ensures nonce == SendNonce(old(State()))
      ensures nonce.Some? ==> nonce.value <= U64_MAX
      ensures State() == old(State()).(counter := old(usedNonceCounter) + if nonce.Some? then 1 else 0)
    {
      if usedNonceCounter == U64_HALF {
        return None;
      }
      var next := usedNonceCounter;
      usedNonceCounter := usedNonceCounter + 1;
      nonce := Some(if isInitiatorSession then next else next + U64_HALF);
    }

    method Validate(nonce: nat) returns (verdict: Verdict)
      requires Valid() && nonce <= U64_MAX
      requires validator.lowerBound + WINDOW <= U64_MAX
      modifies validator, validator.window
      ensures Valid() && validator.window == old(validator.window)
      ensures verdict.Accepted? <==> Acceptable(old(validator.used), WINDOW, Shifted(isInitiatorSession, nonce))
      ensures State().used == UsedAfter(old(State()).used, WINDOW, Shifted(isInitiatorSession, nonce))
      ensures forall k: nat :: SendNonce(End(!isInitiatorSession, k, {})) == Some(nonce) && k < U64_HALF ==>
                (verdict.Accepted? <==> Acceptable(old(validator.used), 100, k))
    {
      verdict := validator.IsValid(Shifted(isInitiatorSession, nonce));
    }
  }

  class Dencryptor {
    const nonces: NonceGeneratorValidator

    constructor (isInitiatorSession: bool)
      ensures nonces.Valid() && nonces.State() == End(isInitiatorSession, 0, {})
      ensures fresh(nonces) && fresh(nonces.validator) && fresh(nonces.validator.window)
    {
      nonces := new NonceGeneratorValidator(isInitiatorSession);
    }

    /** Seals under the next nonce, which is never used again, even if sealing fails. */
    method Encrypt(plain: Bytes, works: bool) returns (result: EncryptResult)
      requires nonces.Valid()
      modifies nonces
      ensures nonces.Valid()
      ensures var nonce := SendNonce(old(nonces.State()));
              && result == (if nonce.None? then NonceSpaceExhausted
                            else if works then EncryptAndNonce(nonce.value, Sealed(NonceBytes(nonce.value), plain))
                            else EncryptionFailure)
              && nonces.State() == old(nonces.State()).(counter := old(nonces.State()).counter + if nonce.Some? then 1 else 0)
    {
      var nonce := nonces.GetNextSendNonce();
      result := if nonce.None? then NonceSpaceExhausted
                else if works then EncryptAndNonce(nonce.value, Sealed(NonceBytes(nonce.value), plain))
                else EncryptionFailure;
    }

    /** Uses the nonce up before it looks at the ciphertext, so a forgery costs the nonce. */
    method Decrypt(nonce: nat, cipher: Cipher) returns (result: DecryptResult)
      requires nonces.Valid() && nonce <= U64_MAX
      requires nonces.validator.lowerBound + WINDOW <= U64_MAX
      modifies nonces.validator, nonces.validator.window
      ensures nonces.Valid() && nonces.validator.window == old(nonces.validator.window)
      ensures nonces.State() == Decrypted(old(nonces.State()), nonce, cipher).0
      ensures Decrypted(old(nonces.State()), nonce, cipher).1 == if result.Plain? then Some(result.plain) else None
      ensures result.NonceRejected? <==>
                !Acceptable(old(nonces.State()).used, WINDOW, Shifted(nonces.isInitiatorSession, nonce))
    {
      var verdict := nonces.Validate(nonce);
      match verdict {
        case Rejected(error) =>
          result := NonceRejected(error);
        case Accepted =>
          var plain := Unseal(cipher, NonceBytes(nonce));
          result := if plain.Some? then Plain(plain.value) else DecryptionFailure;
      }
    }
  }
}
