/** Requests and responses over sessions: trying the recent sessions on what arrives, running
    the business logic, and deciding what to resend. */
module SessionSendReceive {
  import opened Common
  import opened RequestRegistry
  import opened SessionCipher

  // ----- Trying sessions -----

  class Session {
    const key: nat
    const contact: Option<string>
    const dencryptor: Dencryptor

    constructor (key: nat, contact: Option<string>, dencryptor: Dencryptor)
      ensures this.key == key && this.contact == contact && this.dencryptor == dencryptor
    {
      this.key, this.contact, this.dencryptor := key, contact, dencryptor;
    }

    ghost predicate Ready()
      reads dencryptor.nonces, dencryptor.nonces.validator, dencryptor.nonces.validator.window
    {
      dencryptor.nonces.Valid() && dencryptor.nonces.validator.lowerBound + WINDOW <= U64_MAX
    }

    ghost function End(): SessionCipher.End
      reads dencryptor.nonces, dencryptor.nonces.validator
    {
      dencryptor.nonces.State()
    }
  }

  /** A message sealed under some session's key. */
  datatype Message = Message(key: nat, nonce: nat, cipher: Cipher)

  /** To a session with another key a message is a forgery. */
  function CipherFor(key: nat, m: Message): Cipher {
    if key == m.key then m.cipher else Forged
  }

  ghost predicate Opens(e: End, key: nat, m: Message)
    requires m.nonce <= U64_MAX
  {
    Decrypted(e, m.nonce, CipherFor(key, m)).1.Some?
  }

  /** Sessions share no state. */
  ghost predicate Apart(sessions: seq<Session>)
    reads set s | s in sessions :: s.dencryptor.nonces.validator
  {
    forall i, j :: 0 <= i < j < |sessions| ==>
      && sessions[i].dencryptor.nonces != sessions[j].dencryptor.nonces
      && sessions[i].dencryptor.nonces.validator != sessions[j].dencryptor.nonces.validator
      && sessions[i].dencryptor.nonces.validator.window != sessions[j].dencryptor.nonces.validator.window
  }

  ghost predicate AllReady(sessions: seq<Session>)
    reads set s | s in sessions :: s.dencryptor.nonces
    reads set s | s in sessions :: s.dencryptor.nonces.validator
    reads set s | s in sessions :: s.dencryptor.nonces.validator.window
  {
    forall i :: 0 <= i < |sessions| ==> sessions[i].Ready()
  }

  /** A session after it was tried on a message: the nonce is used up if it was acceptable. */
  ghost function Tried(e: End, key: nat, m: Message): End
    requires m.nonce <= U64_MAX
  {
    Decrypted(e, m.nonce, CipherFor(key, m)).0
  }

  /** Tries one session; the others stay as they are. */
  method TryOne(sessions: seq<Session>, i: nat, m: Message) returns (result: DecryptResult)
    requires Apart(sessions) && m.nonce <= U64_MAX && i < |sessions| && sessions[i].Ready()
    modifies sessions[i].dencryptor.nonces.validator, sessions[i].dencryptor.nonces.validator.window
    ensures Apart(sessions) && sessions[i].dencryptor.nonces.Valid()
    ensures sessions[i].End() == Tried(old(sessions[i].End()), sessions[i].key, m)
    ensures Decrypted(old(sessions[i].End()), m.nonce, CipherFor(sessions[i].key, m)).1 ==
            if result.Plain? then Some(result.plain) else None
    ensures forall j :: 0 <= j < |sessions| ==>
              sessions[j].dencryptor.nonces.validator.window == old(sessions[j].dencryptor.nonces.validator.window)
    ensures forall j :: 0 <= j < |sessions| && j != i ==>
              && sessions[j].End() == old(sessions[j].End())
              && sessions[j].Ready() == old(sessions[j].Ready())
              && sessions[j].dencryptor.nonces.Valid() == old(sessions[j].dencryptor.nonces.Valid())
  {
    ghost var tried := sessions[i].dencryptor.nonces;
    result := sessions[i].dencryptor.Decrypt(m.nonce, CipherFor(sessions[i].key, m));
    assert forall j :: 0 <= j < |sessions| && j != i ==>
        && sessions[j].dencryptor.nonces != tried
        && sessions[j].dencryptor.nonces.validator != tried.validator
        && sessions[j].dencryptor.nonces.validator.window != tried.validator.window;
  }

  /** Tries sessions in order until one decrypts the message. Every session tried has used
      up the nonce, those after the opener are untouched. */
  method TrySessions(sessions: seq<Session>, m: Message) returns (opener: Option<nat>, plain: Bytes, errors: nat)
    requires Apart(sessions) && AllReady(sessions) && m.nonce <= U64_MAX
    modifies set s | s in sessions :: s.dencryptor.nonces.validator
    modifies set s | s in sessions :: s.dencryptor.nonces.validator.window
    ensures opener.Some? ==>
              && opener.value < |sessions| && errors == opener.value
              && Decrypted(old(sessions[opener.value].End()), m.nonce, CipherFor(sessions[opener.value].key, m)).1 == Some(plain)
    ensures opener.None? ==> errors == |sessions|
    ensures forall j :: 0 <= j < errors ==> !Opens(old(sessions[j].End()), sessions[j].key, m)
    ensures forall j :: 0 <= j < |sessions| ==>
              && sessions[j].dencryptor.nonces.Valid()
              && sessions[j].End() == if j <= errors then Tried(old(sessions[j].End()), sessions[j].key, m) else old(sessions[j].End())
    ensures Apart(sessions)
  {
    opener, plain, errors := None, [], 0;
    while errors < |sessions|
      invariant errors <= |sessions| && Apart(sessions)
      invariant forall j :: 0 <= j < errors ==> !Opens(old(sessions[j].End()), sessions[j].key, m)
      invariant forall j :: 0 <= j < |sessions| ==>
                  && sessions[j].dencryptor.nonces.Valid()
                  && sessions[j].dencryptor.nonces.validator.window == old(sessions[j].dencryptor.nonces.validator.window)
      invariant forall j :: errors <= j < |sessions| ==> sessions[j].Ready() && sessions[j].End() == old(sessions[j].End())
      invariant forall j :: 0 <= j < errors ==> sessions[j].End() == Tried(old(sessions[j].End()), sessions[j].key, m)
    {
      var result := TryOne(sessions, errors, m);
      if result.Plain? {
        return Some(errors), result.plain, errors;
      }
      errors := errors + 1;
    }
  }

  // ----- The responder -----

  datatype Answer = Encrypted(nonce: nat, cipher: Cipher) | MissingSession | CouldNotDecrypt | EncryptError

  /** Decrypts a request, runs the business logic on it once, for the contact of the session
      that opened it, and encrypts what it answers. Every error but a failed encryption of
      the answer means that the logic did not run. */
  method DecryptRespond(sessions: seq<Session>, m: Message, business: (Option<string>, Bytes) -> Option<Bytes>, sealingWorks: bool)
      returns (answer: Option<Answer>, ran: Option<(Option<string>, Bytes)>)
    requires Apart(sessions) && AllReady(sessions) && m.nonce <= U64_MAX
    modifies set s | s in sessions :: s.dencryptor.nonces
    modifies set s | s in sessions :: s.dencryptor.nonces.validator
    modifies set s | s in sessions :: s.dencryptor.nonces.validator.window
    ensures ran.None? <==> forall j :: 0 <= j < |sessions| ==> !Opens(old(sessions[j].End()), sessions[j].key, m)
    ensures ran.None? ==> answer == Some(if sessions == [] then MissingSession else CouldNotDecrypt)
    ensures ran.Some? ==>
              exists i :: 0 <= i < |sessions|
                && (forall j :: 0 <= j < i ==> !Opens(old(sessions[j].End()), sessions[j].key, m))
                && ran.value.0 == sessions[i].contact
                && Decrypted(old(sessions[i].End()), m.nonce, CipherFor(sessions[i].key, m)).1 == Some(ran.value.1)
                && answer == Reply(business(ran.value.0, ran.value.1), SendNonce(old(sessions[i].End())), sealingWorks)
  {
    var opener, plain, errors := TrySessions(sessions, m);
    if opener.None? {
      return Some(if errors == 0 then MissingSession else CouldNotDecrypt), None;
    }
    var i := opener.value;
    ran := Some((sessions[i].contact, plain));
    var response := business(sessions[i].contact, plain);
    if response.None? {
      answer := None;
    } else {
      assert SendNonce(sessions[i].End()) == SendNonce(old(sessions[i].End()));
      var message := sessions[i].dencryptor.Encrypt(response.value, sealingWorks);
      answer := Some(if message.EncryptAndNonce? then Encrypted(message.nonce, message.cipher) else EncryptError);
    }
  }

  /** What is sent back for a response of the business logic, given the next nonce. */
  function Reply(response: Option<Bytes>, nonce: Option<nat>, sealingWorks: bool): (answer: Option<Answer>) {
    if response.None? then None
    else if nonce.None? || !sealingWorks then Some(EncryptError)
    else Some(Encrypted(nonce.value, Sealed(NonceBytes(nonce.value), response.value)))
  }

  // ----- The requester -----

  datatype Received = Response(contact: Option<string>, plain: Bytes) | NoSession | NotDecrypted(errors: nat)

  /** Takes a response: its request is settled, and the first recent session that opens it
      decides what it says. */
  method ReceiveResponse(registry: TimeoutRequestRegistry, sessions: seq<Session>, requestId: nat, m: Message)
      returns (removed: Option<Entry>, received: Received)
    requires Apart(sessions) && AllReady(sessions) && m.nonce <= U64_MAX
    modifies registry
    modifies set s | s in sessions :: s.dencryptor.nonces.validator
    modifies set s | s in sessions :: s.dencryptor.nonces.validator.window
    ensures registry.Current() == Removed(old(registry.Current()), requestId)
    ensures removed == if requestId in old(registry.register) then Some(old(registry.register)[requestId]) else None
    ensures received.NoSession? <==> sessions == []
    ensures received.NotDecrypted? <==>
              sessions != [] && forall j :: 0 <= j < |sessions| ==> !Opens(old(sessions[j].End()), sessions[j].key, m)
    ensures received.Response? ==>
              exists j :: 0 <= j < |sessions| && received.contact == sessions[j].contact
                && Decrypted(old(sessions[j].End()), m.nonce, CipherFor(sessions[j].key, m)).1 == Some(received.plain)
                && forall k :: 0 <= k < j ==> !Opens(old(sessions[k].End()), sessions[k].key, m)
  {
    removed := registry.RemoveRequest(requestId);
    var opener, plain, errors := TrySessions(sessions, m);
    received := match opener
      case Some(j) => Response(sessions[j].contact, plain)
      case None => if errors == 0 then NoSession else NotDecrypted(errors);
  }

  /** What to do about a request whose outcome was an error. */
  datatype Verdict = GiveUp(externalId: Option<nat>) | Resend(request: nat, contact: Option<string>, clearSession: bool)

  /** A request is resent at most once: after a session error of the responder in any case,
      after a local error only if it is idempotent. The session is cleared only if it is the
      one the request was sent with. */
  method HandleError(registry: TimeoutRequestRegistry, requestId: nat, remote: bool, current: Option<nat>)
      returns (verdict: Verdict)
    modifies registry
    ensures var register := old(registry.register);
            verdict.Resend? <==>
            && requestId in register && register[requestId].retryCount == 0 && register[requestId].data.Some?
            && (remote || register[requestId].data.value.idempotent)
    ensures verdict.Resend? ==>
              var e := old(registry.register)[requestId];
              && verdict == Resend(e.data.value.request, e.data.value.contact, remote && current == Some(e.data.value.session))
              && registry.register == old(registry.register)[requestId := e.(retryCount := 1)]
    ensures verdict.GiveUp? ==>
              && registry.register == old(registry.register)
              && verdict.externalId == if requestId in registry.register then Some(registry.register[requestId].externalId) else None
    ensures registry.nextExternalRequestId == old(registry.nextExternalRequestId)
  {
    var metadata := registry.CheckRequestMetadata(requestId);
    if metadata.None? {
      return GiveUp(None);
    }
    var (retryCount, externalId) := metadata.value;
    if retryCount > 0 {
      return GiveUp(Some(externalId));
    }
    if remote {
      var resend := registry.GetRequestForResendAfterSessionError(current, requestId);
      if resend.None? {
        return GiveUp(Some(externalId));
      }
      verdict := Resend(resend.value.request, resend.value.contact, resend.value.requiresNewSession);
    } else {
      var resend := registry.GetRequestForResend(requestId);
      if resend.None? {
        return GiveUp(Some(externalId));
      }
      verdict := Resend(resend.value.request, resend.value.contact, false);
    }
  }
}
