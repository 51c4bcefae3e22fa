/** Establishing sessions: one attempt per peer at a time, and one result for everyone who
    waits for it. */
module SessionEstablishment {

  // ----- One result per attempt -----

  datatype Cause =
    | DroppedWithoutResponse
    | SharedSecretGenerationFailed
    | NoResponse
    | Refused

  datatype Outcome = Ready(session: nat) | NotReady(cause: Cause)

  /** A sender for one broadcast; dropping it unsent broadcasts a failure. */
  class SessionEstablishmentSender {
    var hasSent: bool
    var broadcast: seq<Outcome>

    constructor ()
      ensures !hasSent && broadcast == []
    {
      hasSent, broadcast := false, [];
    }

    method NonDestructiveSend(value: Outcome)
      modifies this
      ensures hasSent && broadcast == old(broadcast) + [value]
    {
      hasSent := true;
      broadcast := broadcast + [value];
    }

    /** Runs when the sender goes out of scope. */
    method Drop()
      modifies this
      ensures broadcast == old(broadcast) + if old(hasSent) then [] else [NotReady(DroppedWithoutResponse)]
      ensures hasSent == old(hasSent)
    {
      if !hasSent {
        broadcast := broadcast + [NotReady(DroppedWithoutResponse)];
      }
    }

    /** Sends and goes out of scope. */
    method Send(value: Outcome)
      modifies this
      ensures broadcast == old(broadcast) + [value]
    {
      NonDestructiveSend(value);
      Drop();
    }
  }

  /** What a response makes of an attempt: unknown or verified keys and a shared secret give
      a session. */
  datatype Response = Response(keysKnown: bool, signatureFits: bool, secretFits: bool, session: nat)

  datatype CreationResult = Created(session: nat) | AuthenticationFailed | CryptoFailed

  function Result(r: Response): CreationResult {
    if r.keysKnown && !r.signatureFits then AuthenticationFailed
    else if !r.secretFits then CryptoFailed
    else Created(r.session)
  }

  /** What the waiters are told. */
  function Told(r: Response): Outcome {
    match Result(r)
    case Created(session) => Ready(session)
    case AuthenticationFailed => NotReady(DroppedWithoutResponse)
    case CryptoFailed => NotReady(SharedSecretGenerationFailed)
  }

  class InitiatorSessionCreation {
    const sender: SessionEstablishmentSender

    ghost predicate Pending()
      reads sender
    {
      !sender.hasSent && sender.broadcast == []
    }

    constructor ()
      ensures Pending() && fresh(sender)
    {
      sender := new SessionEstablishmentSender();
    }

    /** Ends the attempt with a response; whichever way it goes, one result is broadcast, and
        it is a session exactly if one was created. */
    method ToSession(r: Response) returns (result: CreationResult)
      requires Pending()
      modifies sender
      ensures result == Result(r)
      ensures sender.broadcast == [Told(r)]
      ensures result.Created? <==> r.secretFits && (r.keysKnown ==> r.signatureFits)
      ensures result == AuthenticationFailed <==> r.keysKnown && !r.signatureFits
      ensures sender.broadcast[0].Ready? <==> result.Created?
      ensures result.Created? ==> result == Created(r.session) && sender.broadcast == [Ready(r.session)]
    {
      if r.keysKnown && !r.signatureFits {
        sender.Drop();
        return AuthenticationFailed;
      }
      sender.Send(if r.secretFits then Ready(r.session) else NotReady(SharedSecretGenerationFailed));
      result := if r.secretFits then Created(r.session) else CryptoFailed;
    }

    method Cancel(cause: Cause)
      requires Pending()
      modifies sender
      ensures sender.broadcast == [NotReady(cause)]
    {
      sender.Send(NotReady(cause));
    }

    method DropUnused()
      requires Pending()
      modifies sender
      ensures sender.broadcast == [NotReady(DroppedWithoutResponse)]
    {
      sender.Drop();
    }
  }

  // ----- Single flight -----

  const BUILD_TTL: nat := 60_000

  /** An attempt in the build store. */
  datatype Build = Build(id: nat, since: nat)

  /** Where a caller stands: before looking for a session, before looking for an attempt,
      waiting for someone's attempt, waiting for its own, or done. */
  datatype Phase =
    | Looking(attempt: nat)
    | NoSession(attempt: nat)
    | Waiting(attempt: nat, build: nat)
    | Own(build: nat)
    | Finished(outcome: Outcome)

  datatype Caller = Caller(peer: string, phase: Phase)

  datatype Initiation = Initiation(peer: string, caller: nat, build: nat, at: nat)

  /** Sessions and attempts per peer, the attempts taken out of the store for a response that
      is being verified, the callers, and as history the initiations sent and what each
      attempt has broadcast. */
  datatype Sys = Sys(
    sessions: map<string, nat>, builds: map<string, Build>, taken: set<nat>, callers: map<nat, Caller>,
    initiations: seq<Initiation>, results: seq<seq<Outcome>>, clock: nat)

  datatype Event =
    | Call(caller: nat, peer: string)
    | LookForSession(caller: nat, alive: bool)
    | LookForBuild(caller: nat, now: nat, canSign: bool)
    | Wake(caller: nat, missed: bool)
    | GiveUp(caller: nat)
    | Take(peer: string)
    | Conclude(build: nat, response: Response)
    | SessionStored(peer: string, session: nat)
    | RespondError(peer: string)
    | TransportFails(peer: string)
    | Vacuum(peer: string, now: nat)
    | ChangeIdentity

  predicate Unexpired(b: Build, now: nat) {
    now < b.since + BUILD_TTL
  }

  /** Takes an attempt out of the store and broadcasts its result. */
  function Settle(s: Sys, peer: string, outcome: Outcome): Sys
    requires peer in s.builds && s.builds[peer].id < |s.results|
  {
    var id := s.builds[peer].id;
    s.(builds := s.builds - {peer}, results := s.results[id := s.results[id] + [outcome]])
  }

  function SetPhase(s: Sys, caller: nat, phase: Phase): Sys
    requires caller in s.callers
  {
    s.(callers := s.callers[caller := s.callers[caller].(phase := phase)])
  }

  predicate Enabled(s: Sys, ev: Event) {
    match ev
    case Call(c, _) => c !in s.callers
    case LookForSession(c, _) => c in s.callers && s.callers[c].phase.Looking?
    case LookForBuild(c, now, _) => c in s.callers && s.callers[c].phase.NoSession? && s.clock <= now
    case Wake(c, missed) =>
      && c in s.callers
      && (match s.callers[c].phase
          case Waiting(_, b) => missed || (b < |s.results| && s.results[b] != [])
          case Own(b) => !missed && b < |s.results| && s.results[b] != []
          case _ => false)
    case GiveUp(c) => c in s.callers && s.callers[c].phase.Own?
    case Take(peer) => peer in s.builds
    case Conclude(b, _) => b in s.taken && b < |s.results|
    case SessionStored(_, _) => true
    case RespondError(peer) => peer in s.builds
    case TransportFails(peer) => peer in s.builds
    case Vacuum(peer, now) => peer in s.builds && s.clock <= now && !Unexpired(s.builds[peer], now)
    case ChangeIdentity => true
  }

  /** A caller that finds an unexpired attempt waits for it; otherwise it starts one of its
      own, replacing an expired one. */
  ghost function Join(s: Sys, c: nat, now: nat, canSign: bool): Sys
    requires Enabled(s, LookForBuild(c, now, canSign)) && Stored(s)
  {
    var peer := s.callers[c].peer;
    if peer in s.builds && Unexpired(s.builds[peer], now) then
      SetPhase(s, c, Waiting(s.callers[c].phase.attempt, s.builds[peer].id)).(clock := now)
    else if !canSign then SetPhase(s, c, Finished(NotReady(Refused))).(clock := now)
    else
      Launch(if peer in s.builds then Settle(s, peer, NotReady(DroppedWithoutResponse)) else s, c, now)
  }

  /** Stores a new attempt and sends its initiation. */
  function Launch(s: Sys, c: nat, now: nat): Sys
    requires c in s.callers
  {
    var peer, id := s.callers[c].peer, |s.results|;
    SetPhase(s, c, Own(id)).(
      builds := s.builds[peer := Build(id, now)], results := s.results + [[]],
      initiations := s.initiations + [Initiation(peer, c, id, now)], clock := now)
  }

  /** What a caller does with the result it waited for: only a second attempt is left. */
  function Awake(s: Sys, c: nat, missed: bool): Sys
    requires Enabled(s, Wake(c, missed))
  {
    match s.callers[c].phase
    case Own(b) => SetPhase(s, c, Finished(s.results[b][0]))
    case Waiting(attempt, b) =>
      if !missed && s.results[b][0].Ready? then SetPhase(s, c, Finished(s.results[b][0]))
      else if attempt + 1 < 2 then SetPhase(s, c, Looking(attempt + 1))
      else SetPhase(s, c, Finished(NotReady(Refused)))
  }

  ghost predicate InStore(builds: map<string, Build>, id: nat) {
    exists p :: p in builds && builds[p].id == id
  }

  ghost predicate Stored(s: Sys) {
    forall p :: p in s.builds ==> s.builds[p].id < |s.results|
  }

  ghost function Next(s: Sys, ev: Event): (next: Sys)
    requires Enabled(s, ev) && Stored(s)
  {
    match ev
    case Call(c, peer) => s.(callers := s.callers[c := Caller(peer, Looking(0))])
    case LookForSession(c, alive) =>
      var Caller(peer, phase) := s.callers[c];
      if peer in s.sessions && alive then SetPhase(s, c, Finished(Ready(s.sessions[peer])))
      else SetPhase(s, c, NoSession(phase.attempt))
    case LookForBuild(c, now, canSign) => Join(s, c, now, canSign)
    case Wake(c, missed) => Awake(s, c, missed)
    case GiveUp(c) => SetPhase(s, c, Finished(NotReady(NoResponse)))
    case Take(peer) => s.(builds := s.builds - {peer}, taken := s.taken + {s.builds[peer].id})
    case Conclude(b, r) => s.(taken := s.taken - {b}, results := s.results[b := s.results[b] + [Told(r)]])
    case SessionStored(peer, session) => s.(sessions := s.sessions[peer := session])
    case RespondError(peer) => Settle(s, peer, NotReady(Refused))
    case TransportFails(peer) => Settle(s, peer, NotReady(NoResponse))
    case Vacuum(peer, now) => Settle(s, peer, NotReady(DroppedWithoutResponse)).(clock := now)
    case ChangeIdentity =>
      s.(sessions := map[], builds := map[],
         results := seq(|s.results|, i requires 0 <= i < |s.results| =>
           if InStore(s.builds, i) then s.results[i] + [NotReady(DroppedWithoutResponse)]
           else s.results[i]))
  }

  // ----- The invariant -----

  /** An attempt is in the store or taken out for a response and has broadcast nothing, or it
      has broadcast one result. */
  ghost predicate OneResult(s: Sys) {
    && Stored(s)
    && (forall p, q :: p in s.builds && q in s.builds && s.builds[p].id == s.builds[q].id ==> p == q)
    && (forall b :: b in s.taken ==> b < |s.results| && !InStore(s.builds, b))
    && (forall i: nat :: i < |s.results| ==> |s.results[i]| == if InStore(s.builds, i) || i in s.taken then 0 else 1)
  }

  /** Each initiation is the one of its attempt; one that is still running is in the store;
      each caller has sent at most one and is then waiting for it or done. */
  ghost predicate Flights(s: Sys) {
    && |s.initiations| == |s.results|
    && (forall i: nat :: i < |s.initiations| ==> s.initiations[i].build == i)
    && (forall p :: p in s.builds ==>
          s.builds[p].id < |s.initiations| && s.initiations[s.builds[p].id].peer == p
          && s.initiations[s.builds[p].id].at == s.builds[p].since)
    && (forall i: nat :: i < |s.initiations| ==>
          s.initiations[i].caller in s.callers &&
          (s.callers[s.initiations[i].caller].phase.Own? || s.callers[s.initiations[i].caller].phase.Finished?))
    && (forall i: nat, j: nat :: i < j < |s.initiations| ==> s.initiations[i].caller != s.initiations[j].caller)
  }

  ghost predicate Inv(s: Sys) {
    OneResult(s) && Flights(s)
  }

  lemma SettleKeepsOneResult(s: Sys, peer: string, outcome: Outcome)
    requires OneResult(s) && peer in s.builds
    ensures OneResult(Settle(s, peer, outcome))
    ensures Settle(s, peer, outcome).results[s.builds[peer].id] == [outcome]
  {
    var id, s' := s.builds[peer].id, Settle(s, peer, outcome);
    assert InStore(s.builds, id);
    assert |s.results[id]| == 0;
    forall i: nat | i < |s'.results| ensures |s'.results[i]| == if InStore(s'.builds, i) || i in s'.taken then 0 else 1 {
      if i != id && InStore(s.builds, i) {
        var p :| p in s.builds && s.builds[p].id == i;
        assert p in s'.builds;
      }
    }
  }

  lemma LaunchKeepsOneResult(s: Sys, peer: string, now: nat, s': Sys)
    requires OneResult(s) && peer !in s.builds
    requires s'.builds == s.builds[peer := Build(|s.results|, now)] && s'.results == s.results + [[]] && s'.taken == s.taken
    ensures OneResult(s')
  {
    assert s'.builds[peer].id == |s.results|;
    forall i: nat | i < |s'.results| ensures |s'.results[i]| == if InStore(s'.builds, i) || i in s'.taken then 0 else 1 {
      if i < |s.results| {
        assert s'.results[i] == s.results[i];
        if InStore(s.builds, i) {
          var p :| p in s.builds && s.builds[p].id == i;
          assert p in s'.builds && s'.builds[p].id == i;
        }
      } else {
        assert InStore(s'.builds, i);
      }
    }
  }

  lemma LaunchKeepsInv(s: Sys, c: nat, now: nat)
    requires Inv(s) && c in s.callers && s.callers[c].phase.NoSession? && s.callers[c].peer !in s.builds
    ensures Inv(Launch(s, c, now))
  {
    var s' := Launch(s, c, now);
    LaunchKeepsOneResult(s, s.callers[c].peer, now, s');
    forall i: nat | i < |s.initiations| ensures s.initiations[i].caller != c {
    }
  }

  lemma JoinKeepsInv(s: Sys, c: nat, now: nat, canSign: bool)
    requires Inv(s) && Enabled(s, LookForBuild(c, now, canSign))
    ensures Inv(Join(s, c, now, canSign))
  {
    var peer := s.callers[c].peer;
    if peer in s.builds && Unexpired(s.builds[peer], now) {
      PhaseKeepsInv(s, c, Waiting(s.callers[c].phase.attempt, s.builds[peer].id), now);
    } else if !canSign {
      PhaseKeepsInv(s, c, Finished(NotReady(Refused)), now);
    } else {
      if peer in s.builds {
        SettleKeepsInv(s, peer, NotReady(DroppedWithoutResponse));
        LaunchKeepsInv(Settle(s, peer, NotReady(DroppedWithoutResponse)), c, now);
      } else {
        LaunchKeepsInv(s, c, now);
      }
    }
  }

  lemma PhaseKeepsInv(s: Sys, c: nat, phase: Phase, now: nat)
    requires Inv(s) && c in s.callers && s.callers[c].phase.NoSession?
    ensures Inv(SetPhase(s, c, phase).(clock := now))
  {
  }

  lemma IdentityKeepsInv(s: Sys)
    requires Inv(s)
    ensures Inv(Next(s, ChangeIdentity))
  {
  }

  lemma SettleKeepsInv(s: Sys, peer: string, outcome: Outcome)
    requires Inv(s) && peer in s.builds
    ensures Inv(Settle(s, peer, outcome))
  {
    SettleKeepsOneResult(s, peer, outcome);
  }

  lemma TakeKeepsInv(s: Sys, peer: string)
    requires Inv(s) && peer in s.builds
    ensures Inv(Next(s, Take(peer)))
  {
    var s', id := Next(s, Take(peer)), s.builds[peer].id;
    assert InStore(s.builds, id);
    forall i: nat | i < |s'.results| ensures |s'.results[i]| == if InStore(s'.builds, i) || i in s'.taken then 0 else 1 {
      if i != id && InStore(s.builds, i) {
        var p :| p in s.builds && s.builds[p].id == i;
        assert p in s'.builds;
      }
    }
  }

  lemma ConcludeKeepsInv(s: Sys, b: nat, r: Response)
    requires Inv(s) && Enabled(s, Conclude(b, r))
    ensures Inv(Next(s, Conclude(b, r)))
    ensures Next(s, Conclude(b, r)).results[b] == [Told(r)]
  {
  }

  /** A caller may move on, unless it goes back from an attempt of its own. */
  lemma CallersKeepInv(s: Sys, c: nat, caller: Caller, sessions: map<string, nat>)
    requires Inv(s)
    requires c in s.callers && (s.callers[c].phase.Own? || s.callers[c].phase.Finished?) ==> caller.phase.Own? || caller.phase.Finished?
    ensures Inv(s.(callers := s.callers[c := caller]))
    ensures Inv(s.(sessions := sessions))
  {
  }

  /** Steps that change only where a caller stands, without sending anything. */
  lemma CallerStepKeepsInv(s: Sys, ev: Event)
    requires Inv(s) && Enabled(s, ev) && (ev.Call? || ev.LookForSession? || ev.Wake? || ev.GiveUp? || ev.SessionStored?)
    ensures Inv(Next(s, ev))
  {
    var s' := Next(s, ev);
    if ev.SessionStored? {
      CallersKeepInv(s, 0, Caller("", Finished(NotReady(Refused))), s'.sessions);
    } else {
      CallersKeepInv(s, ev.caller, s'.callers[ev.caller], s.sessions);
      assert s' == s.(callers := s.callers[ev.caller := s'.callers[ev.caller]]);
    }
  }

  lemma StepKeepsInv(s: Sys, ev: Event)
    requires Inv(s) && Enabled(s, ev)
    ensures Inv(Next(s, ev))
  {
    match ev {
      case LookForBuild(c, now, canSign) => JoinKeepsInv(s, c, now, canSign);
      case Take(peer) => TakeKeepsInv(s, peer);
      case Conclude(b, r) => ConcludeKeepsInv(s, b, r);
      case RespondError(peer) => SettleKeepsInv(s, peer, NotReady(Refused));
      case TransportFails(peer) => SettleKeepsInv(s, peer, NotReady(NoResponse));
      case Vacuum(peer, _) => SettleKeepsInv(s, peer, NotReady(DroppedWithoutResponse));
      case ChangeIdentity => IdentityKeepsInv(s);
      case _ => CallerStepKeepsInv(s, ev);
    }
  }

  // ----- Runs -----

  ghost predicate IsRun(states: seq<Sys>, events: seq<Event>) {
    && |states| == |events| + 1
    && states[0] == Sys(map[], map[], {}, map[], [], [], 0)
    && (forall i {:trigger events[i]} :: 0 <= i < |events| ==>
          Enabled(states[i], events[i]) && Stored(states[i]) && states[i + 1] == Next(states[i], events[i]))
  }

  lemma {:induction false} RunKeepsInv(states: seq<Sys>, events: seq<Event>, i: nat)
    requires IsRun(states, events) && i < |states|
    ensures Inv(states[i])
  {
    if i > 0 {
      RunKeepsInv(states, events, i - 1);
      assert states[i - 1 + 1] == Next(states[i - 1], events[i - 1]);
      StepKeepsInv(states[i - 1], events[i - 1]);
    }
  }

  /** In every state of every run, each attempt has broadcast exactly one result, or none while
      it is in the store or its response is being verified. */
  lemma OneOutcomePerAttempt(states: seq<Sys>, events: seq<Event>, i: nat, b: nat)
    requires IsRun(states, events) && i < |states| && b < |states[i].results|
    ensures var s := states[i];
            && |s.results[b]| <= 1
            && (s.results[b] == [] <==> InStore(s.builds, b) || b in s.taken)
  {
    RunKeepsInv(states, events, i);
  }

  /** In every state of every run, of two attempts for a peer at most one waits for an answer,
      and every caller has sent at most one initiation. */
  lemma SingleFlight(states: seq<Sys>, events: seq<Event>, i: nat, a: nat, b: nat)
    requires IsRun(states, events) && i < |states| && a < b < |states[i].initiations|
    ensures var s := states[i];
            && |s.initiations| == |s.results|
            && s.initiations[a].caller != s.initiations[b].caller
            && (s.initiations[a].peer == s.initiations[b].peer ==>
                  || s.results[a] != [] || a in s.taken
                  || s.results[b] != [] || b in s.taken)
  {
    RunKeepsInv(states, events, i);
  }

  /** An initiation is sent only if the peer has no unexpired attempt in the store. */
  lemma NoInitiationDuringFlight(states: seq<Sys>, events: seq<Event>, i: nat)
    requires IsRun(states, events) && i < |events|
    requires states[i + 1].initiations != states[i].initiations
    ensures events[i].LookForBuild? && |states[i + 1].initiations| == |states[i].initiations| + 1
    ensures var peer := states[i + 1].initiations[|states[i].initiations|].peer;
            peer in states[i].builds ==> states[i].builds[peer].since + 60_000 <= events[i].now
  {
    assert states[i + 1] == Next(states[i], events[i]);
  }

  // ----- Where results come from -----

  /** An attempt for the peer is given up for its age. */
  predicate Outdated(s: Sys, peer: string, build: nat, now: nat) {
    peer in s.builds && s.builds[peer].id == build && s.builds[peer].since + 60_000 <= now
  }

  /** What has happened when an attempt broadcasts a result. */
  predicate Explains(s: Sys, ev: Event, build: nat, outcome: Outcome) {
    match outcome
    case Ready(session) =>
      && ev.Conclude? && ev.build == build && ev.response.session == session
      && ev.response.secretFits && (ev.response.keysKnown ==> ev.response.signatureFits)
    case NotReady(SharedSecretGenerationFailed) =>
      && ev.Conclude? && ev.build == build
      && !ev.response.secretFits && (ev.response.keysKnown ==> ev.response.signatureFits)
    case NotReady(NoResponse) => build < |s.initiations| && ev == TransportFails(s.initiations[build].peer)
    case NotReady(Refused) => build < |s.initiations| && ev == RespondError(s.initiations[build].peer)
    case NotReady(DroppedWithoutResponse) =>
      || (ev.Conclude? && ev.build == build && ev.response.keysKnown && !ev.response.signatureFits)
      || (ev.Vacuum? && Outdated(s, ev.peer, build, ev.now))
      || (ev.LookForBuild? && ev.caller in s.callers && Outdated(s, s.callers[ev.caller].peer, build, ev.now))
      || ev.ChangeIdentity?
  }

  /** A step leaves the result of an attempt as it is, or broadcasts a first one and explains it. */
  lemma StepExplainsResult(s: Sys, ev: Event, build: nat)
    requires Inv(s) && Enabled(s, ev) && build < |Next(s, ev).results|
    ensures var results := Next(s, ev).results;
            || results[build] == []
            || (build < |s.results| && results[build] == s.results[build])
            || (|results[build]| == 1 && Explains(s, ev, build, results[build][0]))
  {
    if ev.LookForBuild? {
      JoinExplainsResult(s, ev, build);
    }
  }

  lemma JoinExplainsResult(s: Sys, ev: Event, build: nat)
    requires Inv(s) && Enabled(s, ev) && ev.LookForBuild? && build < |Next(s, ev).results|
    ensures var results := Next(s, ev).results;
            || results[build] == []
            || (build < |s.results| && results[build] == s.results[build])
            || (|results[build]| == 1 && Explains(s, ev, build, results[build][0]))
  {
    var peer := s.callers[ev.caller].peer;
    if peer in s.builds {
      assert InStore(s.builds, s.builds[peer].id);
    }
  }

  /** Over every run, each result was broadcast by an event that explains it: a session only by
      a response for that attempt with that session, whose secret fits and whose signature fits
      if the keys of the peer were known. */
  lemma {:induction false} ResultsAreExplained(states: seq<Sys>, events: seq<Event>, i: nat, build: nat) returns (j: nat)
    requires IsRun(states, events) && i < |states| && build < |states[i].results| && states[i].results[build] != []
    ensures j < i && |states[i].results[build]| == 1 && Explains(states[j], events[j], build, states[i].results[build][0])
  {
    RunKeepsInv(states, events, i);
    RunKeepsInv(states, events, i - 1);
    var s, ev := states[i - 1], events[i - 1];
    assert states[i - 1 + 1] == Next(s, ev);
    StepExplainsResult(s, ev, build);
    if build < |s.results| && states[i].results[build] == s.results[build] {
      j := ResultsAreExplained(states, events, i - 1, build);
    } else {
      j := i - 1;
    }
  }

  // ----- What callers are told -----

  /** A caller waits for an attempt for its own peer, at most twice. */
  ghost predicate WaitsForPeer(s: Sys, c: nat)
    requires c in s.callers
  {
    match s.callers[c].phase
    case Waiting(attempt, b) => attempt < 2 && b < |s.initiations| && s.initiations[b].peer == s.callers[c].peer
    case Own(b) => b < |s.initiations| && s.initiations[b].peer == s.callers[c].peer
    case Finished(_) => true
    case _ => s.callers[c].phase.attempt < 2
  }

  lemma JoinKeepsWaiting(s: Sys, ev: Event, c: nat)
    requires Inv(s) && Enabled(s, ev) && ev.LookForBuild? && c in s.callers && WaitsForPeer(s, c)
    ensures WaitsForPeer(Next(s, ev), c)
  {
    var peer := s.callers[ev.caller].peer;
    if peer in s.builds {
      assert s.initiations[s.builds[peer].id].peer == peer;
    }
  }

  lemma CallerStepKeepsWaiting(s: Sys, ev: Event, c: nat)
    requires Stored(s) && Enabled(s, ev) && (ev.Call? || ev.LookForSession? || ev.Wake? || ev.GiveUp?)
    requires c in Next(s, ev).callers && (c in s.callers ==> WaitsForPeer(s, c))
    ensures WaitsForPeer(Next(s, ev), c)
  {
  }

  lemma StepKeepsWaiting(s: Sys, ev: Event, c: nat)
    requires Inv(s) && Enabled(s, ev) && c in Next(s, ev).callers && (c in s.callers ==> WaitsForPeer(s, c))
    ensures WaitsForPeer(Next(s, ev), c)
  {
    match ev {
      case LookForBuild(_, _, _) => JoinKeepsWaiting(s, ev, c);
      case Call(_, _) => CallerStepKeepsWaiting(s, ev, c);
      case LookForSession(_, _) => CallerStepKeepsWaiting(s, ev, c);
      case Wake(_, _) => CallerStepKeepsWaiting(s, ev, c);
      case GiveUp(_) => CallerStepKeepsWaiting(s, ev, c);
      case _ => assert Next(s, ev).callers == s.callers && Next(s, ev).initiations == s.initiations;
    }
  }

  lemma {:induction false} RunKeepsWaiting(states: seq<Sys>, events: seq<Event>, i: nat, c: nat)
    requires IsRun(states, events) && i < |states| && c in states[i].callers
    ensures WaitsForPeer(states[i], c)
  {
    if i > 0 {
      RunKeepsInv(states, events, i - 1);
      assert states[i - 1 + 1] == Next(states[i - 1], events[i - 1]);
      if c in states[i - 1].callers {
        RunKeepsWaiting(states, events, i - 1, c);
      }
      StepKeepsWaiting(states[i - 1], events[i - 1], c);
    }
  }

  /** Over every run, a caller that wakes is told the result it waited for: its own attempt's,
      whatever it is, or the session of another's; after a failure or a missed result it looks
      again, but once only. */
  lemma WakingCallerIsTold(states: seq<Sys>, events: seq<Event>, i: nat)
    requires IsRun(states, events) && i < |events| && events[i].Wake?
    ensures var c, s := events[i].caller, states[i];
            && c in s.callers && c in states[i + 1].callers
            && var after := states[i + 1].callers[c].phase;
               match s.callers[c].phase
               case Own(b) => b < |s.results| && s.results[b] != [] && after == Finished(s.results[b][0])
               case Waiting(attempt, b) =>
                 if !events[i].missed && b < |s.results| && s.results[b] != [] && s.results[b][0].Ready?
                 then after == Finished(s.results[b][0])
                 else after == if attempt == 0 then Looking(1) else Finished(NotReady(Refused))
               case _ => false
  {
    assert states[i + 1] == Next(states[i], events[i]);
    RunKeepsWaiting(states, events, i, events[i].caller);
  }

  /** The session was stored for the peer by event j, and it was neither replaced nor dropped
      with the identity up to event i. */
  ghost predicate StoredAt(events: seq<Event>, j: nat, i: nat, peer: string, session: nat)
    requires i <= |events|
  {
    && j < i && events[j] == SessionStored(peer, session)
    && forall k: nat :: j < k < i ==> !events[k].ChangeIdentity? && !(events[k].SessionStored? && events[k].peer == peer)
  }

  lemma StepKeepsSessions(s: Sys, ev: Event, peer: string)
    requires Enabled(s, ev) && Stored(s)
    ensures var after := Next(s, ev).sessions;
            if ev.ChangeIdentity? then after == map[]
            else if ev.SessionStored? && ev.peer == peer then peer in after && after[peer] == ev.session
            else (peer in after <==> peer in s.sessions) && (peer in after ==> after[peer] == s.sessions[peer])
  {
  }

  /** Over every run, the session in the store is the one stored last under this identity. */
  lemma {:induction false} StoreHasLastSession(states: seq<Sys>, events: seq<Event>, i: nat, peer: string, session: nat)
    requires IsRun(states, events) && i <= |events|
    ensures peer in states[i].sessions && states[i].sessions[peer] == session <==>
            WasStored(events, i, peer, session)
  {
    if i > 0 {
      var h := i - 1;
      StoreHasLastSession(states, events, h, peer, session);
      assert states[h + 1] == Next(states[h], events[h]);
      StepKeepsSessions(states[h], events[h], peer);
      StoredLater(events, h, peer, session);
    }
  }

  ghost predicate WasStored(events: seq<Event>, i: nat, peer: string, session: nat)
    requires i <= |events|
  {
    exists j: nat :: StoredAt(events, j, i, peer, session)
  }

  lemma StoredLater(events: seq<Event>, i: nat, peer: string, session: nat)
    requires i < |events|
    ensures WasStored(events, i + 1, peer, session) <==>
            if events[i].ChangeIdentity? then false
            else if events[i].SessionStored? && events[i].peer == peer then events[i].session == session
            else WasStored(events, i, peer, session)
  {
    if events[i] == SessionStored(peer, session) {
      assert StoredAt(events, i, i + 1, peer, session);
    } else {
      if j: nat :| StoredAt(events, j, i, peer, session) {
        assert !events[i].ChangeIdentity? && !(events[i].SessionStored? && events[i].peer == peer) ==>
            StoredAt(events, j, i + 1, peer, session);
      }
      if WasStored(events, i + 1, peer, session) {
        var next := i + 1;
        var j: nat :| StoredAt(events, j, next, peer, session);
        assert StoredAt(events, j, i, peer, session);
      }
    }
  }

  /** Over every run, a caller that looks for a session returns the usable one its peer has in
      the store, and goes on to the attempts exactly if there is none. */
  lemma LookingCallerFinds(states: seq<Sys>, events: seq<Event>, i: nat)
    requires IsRun(states, events) && i < |events| && events[i].LookForSession?
    ensures var c, s := events[i].caller, states[i];
            && c in s.callers && s.callers[c].phase.Looking? && c in states[i + 1].callers
            && var after, peer := states[i + 1].callers[c].phase, s.callers[c].peer;
               if events[i].alive && peer in s.sessions then after == Finished(Ready(s.sessions[peer]))
               else after == NoSession(s.callers[c].phase.attempt)
  {
    assert states[i + 1] == Next(states[i], events[i]);
  }

  /** Over every run, a caller without a session waits for the attempt of its peer that is
      younger than 60 seconds if there is one; otherwise it starts its own, or gives up if it
      cannot sign. */
  lemma CallerWithoutSessionJoins(states: seq<Sys>, events: seq<Event>, i: nat)
    requires IsRun(states, events) && i < |events| && events[i].LookForBuild?
    ensures var c, s := events[i].caller, states[i];
            && c in s.callers && s.callers[c].phase.NoSession? && c in states[i + 1].callers
            && var after, peer := states[i + 1].callers[c].phase, s.callers[c].peer;
               if peer in s.builds && events[i].now < s.builds[peer].since + 60_000
               then after == Waiting(s.callers[c].phase.attempt, s.builds[peer].id) && states[i + 1].initiations == s.initiations
               else if events[i].canSign
               then after == Own(|s.results|) && states[i + 1].initiations == s.initiations + [Initiation(peer, c, |s.results|, events[i].now)]
               else after == Finished(NotReady(Refused)) && states[i + 1].initiations == s.initiations
  {
    assert states[i + 1] == Next(states[i], events[i]);
  }

  /** The session of the caller's peer was in the store when the caller looked for it. */
  ghost predicate FoundAt(states: seq<Sys>, events: seq<Event>, j: nat, c: nat, peer: string, session: nat)
    requires j < |events| < |states|
  {
    && events[j] == LookForSession(c, true)
    && peer in states[j].sessions && states[j].sessions[peer] == session
  }

  ghost predicate AttemptGave(s: Sys, build: nat, peer: string, session: nat) {
    build < |s.results| && build < |s.initiations| && s.initiations[build].peer == peer && s.results[build] == [Ready(session)]
  }

  lemma StepGivesSession(s: Sys, ev: Event, c: nat, session: nat) returns (build: nat)
    requires OneResult(s) && Enabled(s, ev) && c in s.callers && WaitsForPeer(s, c)
    requires s.callers[c].phase != Finished(Ready(session)) == Next(s, ev).callers[c].phase
    ensures || (ev == LookForSession(c, true) && s.callers[c].peer in s.sessions && s.sessions[s.callers[c].peer] == session)
            || AttemptGave(Next(s, ev), build, s.callers[c].peer, session)
  {
    build := 0;
    if ev.Wake? {
      build := s.callers[c].phase.build;
    }
  }

  lemma HistoryGrows(s: Sys, ev: Event, build: nat)
    requires Stored(s) && Enabled(s, ev) && build < |s.results| && build < |s.initiations|
    ensures var s' := Next(s, ev);
            && build < |s'.results| && s.results[build] <= s'.results[build]
            && build < |s'.initiations| && s'.initiations[build] == s.initiations[build]
  {
  }

  lemma StepKeepsAttempt(s: Sys, ev: Event, build: nat, peer: string, session: nat)
    requires Inv(s) && Enabled(s, ev) && AttemptGave(s, build, peer, session)
    ensures AttemptGave(Next(s, ev), build, peer, session)
  {
    StepKeepsInv(s, ev);
    HistoryGrows(s, ev, build);
  }

  /** Where a caller has its session from. */
  ghost predicate Origin(states: seq<Sys>, events: seq<Event>, i: nat, c: nat, peer: string, session: nat)
    requires i <= |events| < |states|
  {
    || (exists j: nat :: j < i && FoundAt(states, events, j, c, peer, session))
    || (exists b: nat :: AttemptGave(states[i], b, peer, session))
  }

  lemma OriginStays(states: seq<Sys>, events: seq<Event>, i: nat, c: nat, peer: string, session: nat)
    requires i < |events| < |states| && Origin(states, events, i, c, peer, session)
    requires Inv(states[i]) && Enabled(states[i], events[i]) && states[i + 1] == Next(states[i], events[i])
    ensures Origin(states, events, i + 1, c, peer, session)
  {
    if b: nat :| AttemptGave(states[i], b, peer, session) {
      StepKeepsAttempt(states[i], events[i], b, peer, session);
    }
  }

  lemma OriginBegins(states: seq<Sys>, events: seq<Event>, i: nat, c: nat, session: nat)
    requires i < |events| < |states| && c in states[i].callers && WaitsForPeer(states[i], c)
    requires Inv(states[i]) && Enabled(states[i], events[i]) && states[i + 1] == Next(states[i], events[i])
    requires states[i].callers[c].phase != Finished(Ready(session)) == states[i + 1].callers[c].phase
    ensures Origin(states, events, i + 1, c, states[i].callers[c].peer, session)
  {
    var peer := states[i].callers[c].peer;
    var b := StepGivesSession(states[i], events[i], c, session);
    if !AttemptGave(states[i + 1], b, peer, session) {
      assert FoundAt(states, events, i, c, peer, session);
    }
  }

  /** A step starts no caller with a session and changes no caller's peer. */
  lemma CallersStay(s: Sys, ev: Event, c: nat)
    requires Stored(s) && Enabled(s, ev) && c in Next(s, ev).callers
    ensures if c in s.callers then Next(s, ev).callers[c].peer == s.callers[c].peer else Next(s, ev).callers[c].phase.Looking?
  {
  }

  /** Over every run, a caller is given no session but one that its peer had in the store when
      the caller looked, or that an attempt for its peer has broadcast. */
  lemma {:induction false} CallersGetTheirPeersSession(states: seq<Sys>, events: seq<Event>, i: nat, c: nat)
    requires IsRun(states, events) && i < |states| && c in states[i].callers && states[i].callers[c].phase.Finished?
    requires states[i].callers[c].phase.outcome.Ready?
    ensures Origin(states, events, i, c, states[i].callers[c].peer, states[i].callers[c].phase.outcome.session)
  {
    if i > 0 {
      var h := i - 1;
      var session := states[i].callers[c].phase.outcome.session;
      RunKeepsInv(states, events, h);
      assert states[h + 1] == Next(states[h], events[h]);
      CallersStay(states[h], events[h], c);
      if states[h].callers[c].phase == Finished(Ready(session)) {
        CallersGetTheirPeersSession(states, events, h, c);
        OriginStays(states, events, h, c, states[i].callers[c].peer, session);
      } else {
        RunKeepsWaiting(states, events, h, c);
        OriginBegins(states, events, h, c, session);
      }
    }
  }
}
