/** Sending, losing, refusing and resending requests, as steps of two nodes and a network.
    The requester resends after errors; the responder runs its business logic for what it
    can decrypt. Requests are numbered; every transmission has its own transport id. */
module ResendProtocol {
  import opened Common
  import opened RequestRegistry

  datatype ErrorKind = Remote | Local

  /** A handler of an error event, before and after it has looked at the retry count. */
  datatype HandlerPhase = Reported(kind: ErrorKind) | Checked(kind: ErrorKind)

  datatype SendConfig = First | Again(old_: nat)

  /** A send in progress, before the transmission and before it is filed in the registry. */
  datatype SendPhase = ToSend(config: SendConfig) | ToRecord(config: SendConfig, id: nat, session: nat)

  datatype State = State(
    idempotent: map<nat, bool>,
    sends: map<nat, SendPhase>,
    handlers: map<nat, HandlerPhase>,
    registry: Registry,
    /** Which transport ids each request was transmitted under, in order. */
    transmissions: map<nat, seq<nat>>,
    /** The request of each transport id. */
    sent: map<nat, nat>,
    inFlight: set<nat>,
    /** Transport ids whose outcome was reported to the requester. */
    settled: set<nat>,
    /** Transport ids the responder could not decrypt, and those it ran its business logic for;
        the answer to a spoiled one could not be encrypted and reads like a refusal. */
    refused: set<nat>, ran: set<nat>, spoiled: set<nat>)

  datatype Step =
    | CallSend(request: nat, idempotent: bool)
    | SendFails(request: nat)
    | Transmit(request: nat, id: nat, session: nat)
    | Record(request: nat)
    | Lose(id: nat)
    | DeliverRefused(id: nat)
    | DeliverRun(id: nat)
    | DeliverSpoiled(id: nat)
    | Respond(id: nat)
    | Fail(id: nat, kind: ErrorKind)
    | Check(id: nat)
    | Fetch(id: nat)

  /** What may happen next. Transport ids are fresh, a message is delivered at most once, and
      each transport id has one outcome: a response, a session error of the responder, or a
      local error. */
  predicate Enabled(s: State, step: Step) {
    match step
    case CallSend(r, _) => r !in s.idempotent
    case SendFails(r) => r in s.sends && s.sends[r].ToSend?
    case Transmit(r, id, _) => r in s.sends && s.sends[r].ToSend? && r in s.transmissions && id !in s.sent
    case Record(r) => r in s.sends && s.sends[r].ToRecord? && r in s.idempotent
    case Lose(id) => id in s.inFlight
    case DeliverRefused(id) => id in s.inFlight
    case DeliverRun(id) => id in s.inFlight
    case DeliverSpoiled(id) => id in s.inFlight
    case Respond(id) => id in s.ran - s.spoiled && id !in s.settled
    case Fail(id, kind) =>
      id in s.sent && id !in s.settled && (kind.Remote? ==> id in s.refused + s.spoiled)
    case Check(id) => id in s.handlers && s.handlers[id].Reported?
    case Fetch(id) => id in s.handlers && s.handlers[id].Checked?
  }

  function Recorded(s: State, r: nat): (after: Registry)
    requires Enabled(s, Record(r))
  {
    var ToRecord(config, id, session) := s.sends[r];
    match config
    case First => Added(s.registry, id, Some(Data(None, r, s.idempotent[r], session)))
    case Again(old_) =>
      if old_ in s.registry.register then Moved(s.registry, old_, id) else Added(s.registry, id, None)
  }

  function Next(s: State, step: Step): (next: State)
    requires Enabled(s, step)
  {
    match step
    case CallSend(r, idem) =>
      s.(idempotent := s.idempotent[r := idem], sends := s.sends[r := ToSend(First)],
         transmissions := s.transmissions[r := []])
    case SendFails(r) => s.(sends := s.sends - {r})
    case Transmit(r, id, session) =>
      s.(sends := s.sends[r := ToRecord(s.sends[r].config, id, session)],
         transmissions := s.transmissions[r := s.transmissions[r] + [id]],
         sent := s.sent[id := r], inFlight := s.inFlight + {id})
    case Record(r) => s.(sends := s.sends - {r}, registry := Recorded(s, r))
    case Lose(id) => s.(inFlight := s.inFlight - {id})
    case DeliverRefused(id) => s.(inFlight := s.inFlight - {id}, refused := s.refused + {id})
    case DeliverRun(id) => s.(inFlight := s.inFlight - {id}, ran := s.ran + {id})
    case DeliverSpoiled(id) => s.(inFlight := s.inFlight - {id}, ran := s.ran + {id}, spoiled := s.spoiled + {id})
    case Respond(id) => s.(settled := s.settled + {id}, registry := Removed(s.registry, id))
    case Fail(id, kind) => s.(settled := s.settled + {id}, handlers := s.handlers[id := Reported(kind)])
    case Check(id) =>
      if id !in s.registry.register || s.registry.register[id].retryCount > 0 then s.(handlers := s.handlers - {id})
      else s.(handlers := s.handlers[id := Checked(s.handlers[id].kind)])
    case Fetch(id) =>
      var afterSessionError := s.handlers[id].kind.Remote?;
      var done := s.(handlers := s.handlers - {id}, registry := Retried(s.registry, id, afterSessionError));
      if CanResend(s.registry, id, afterSessionError) then
        done.(sends := s.sends[s.registry.register[id].data.value.request := ToSend(Again(id))])
      else done
  }

  const START: State := State(map[], map[], map[], Registry(map[], 0), map[], map[], {}, {}, {}, {}, {})

  // ----- The invariant -----

  /** Transmissions and messages: each transport id belongs to one request, is delivered at
      most once, and is either refused or run. */
  ghost predicate WiresOk(s: State) {
    && s.transmissions.Keys == s.idempotent.Keys
    && (forall id :: id in s.sent ==> s.sent[id] in s.transmissions && id in s.transmissions[s.sent[id]])
    && (forall r, i: nat :: r in s.transmissions && i < |s.transmissions[r]| ==>
          s.transmissions[r][i] in s.sent && s.sent[s.transmissions[r][i]] == r)
    && s.inFlight + s.settled + s.refused + s.ran <= s.sent.Keys
    && s.refused !! s.ran && s.spoiled <= s.ran && s.inFlight !! s.refused + s.ran
  }

  /** The request whose entry is being replaced after an error: it may be repeated, or the
      responder has answered with a session error. */
  ghost predicate MayRepeat(s: State, r: nat, old_: nat) {
    && r in s.idempotent && (s.idempotent[r] || old_ in s.refused + s.spoiled)
    && old_ in s.settled
    && old_ in s.registry.register
    && s.registry.register[old_].retryCount > 0
    && s.registry.register[old_].data.Some? && s.registry.register[old_].data.value.request == r
  }

  ghost predicate SendOk(s: State, r: nat, phase: SendPhase) {
    && r in s.transmissions
    && match phase
       case ToSend(First) => s.transmissions[r] == []
       case ToSend(Again(old_)) => s.transmissions[r] == [old_] && MayRepeat(s, r, old_)
       case ToRecord(First, id, _) => s.transmissions[r] == [id] && id !in s.registry.register
       case ToRecord(Again(old_), id, _) => s.transmissions[r] == [old_, id] && id !in s.registry.register && MayRepeat(s, r, old_)
  }

  ghost predicate EntryOk(s: State, id: nat, e: Entry) {
    && e.retryCount <= 1 && e.data.Some? && id in s.sent && s.sent[id] == e.data.value.request
    && e.data.value.request in s.transmissions
    && e.data.value.request in s.idempotent && e.data.value.idempotent == s.idempotent[e.data.value.request]
    && (e.retryCount == 0 ==> s.transmissions[e.data.value.request] == [id] && e.data.value.request !in s.sends)
  }

  ghost predicate HandlerOk(s: State, id: nat, h: HandlerPhase) {
    && id in s.settled
    && (h.kind.Remote? ==> id in s.refused + s.spoiled)
    && (h.Checked? ==> id in s.registry.register && s.registry.register[id].retryCount == 0)
  }

  /** A request is transmitted at most twice, under different transport ids; a request that
      may not be repeated only if the first transmission was answered with a session error. */
  ghost predicate TransmissionsOk(s: State, r: nat)
    requires r in s.transmissions && r in s.idempotent
  {
    var ids := s.transmissions[r];
    && |ids| <= 2
    && (|ids| == 2 ==> ids[0] != ids[1] && (s.idempotent[r] || ids[0] in s.refused + s.spoiled))
  }

  ghost predicate Inv(s: State) {
    && WiresOk(s)
    && UniqueIds(s.registry)
    && (forall r :: r in s.sends ==> SendOk(s, r, s.sends[r]))
    && (forall id :: id in s.registry.register ==> EntryOk(s, id, s.registry.register[id]))
    && (forall id :: id in s.handlers ==> HandlerOk(s, id, s.handlers[id]))
    && (forall r :: r in s.transmissions ==> TransmissionsOk(s, r))
  }

  // ----- Executions -----

  /** How many of the transport ids are in a set. */
  function Among(ids: seq<nat>, chosen: set<nat>): (count: nat)
    ensures count <= |ids|
  {
    if ids == [] then 0
    else Among(ids[..|ids| - 1], chosen) + if ids[|ids| - 1] in chosen then 1 else 0
  }

  /** How often the business logic ran for a request, and how often its answer was spoiled. */
  function Executions(s: State, r: nat): nat {
    if r in s.transmissions then Among(s.transmissions[r], s.ran) else 0
  }

  function SpoiledAnswers(s: State, r: nat): nat {
    if r in s.transmissions then Among(s.transmissions[r], s.spoiled) else 0
  }

  lemma InvBoundsExecutions(s: State, r: nat)
    requires Inv(s) && r in s.idempotent
    ensures |s.transmissions[r]| <= 2
    ensures Executions(s, r) <= 2
    ensures !s.idempotent[r] ==> Executions(s, r) <= 1 + SpoiledAnswers(s, r)
  {
    assert TransmissionsOk(s, r);
    var ids := s.transmissions[r];
    if |ids| == 1 {
      assert ids[..0] == [];
      assert Among(ids, s.ran) <= 1;
    } else if |ids| == 2 {
      assert ids[..1][..0] == [] && ids[..1][0] == ids[0];
      assert Among(ids[..1], s.ran) == if ids[0] in s.ran then 1 else 0;
      assert Among(ids[..1], s.spoiled) == if ids[0] in s.spoiled then 1 else 0;
    }
  }

  // ----- Every step keeps the invariant -----

  lemma CallSendKeepsInv(s: State, r: nat, idem: bool)
    requires Inv(s) && Enabled(s, CallSend(r, idem))
    ensures Inv(Next(s, CallSend(r, idem)))
  {
    var n := Next(s, CallSend(r, idem));
    forall q | q in n.sends ensures SendOk(n, q, n.sends[q]) {
      if q != r { assert SendOk(s, q, s.sends[q]); }
    }
    forall id | id in n.registry.register ensures EntryOk(n, id, n.registry.register[id]) {
      assert EntryOk(s, id, s.registry.register[id]);
    }
    forall id | id in n.handlers ensures HandlerOk(n, id, n.handlers[id]) {
      assert HandlerOk(s, id, s.handlers[id]);
    }
    forall q | q in n.transmissions ensures TransmissionsOk(n, q) {
      if q != r { assert TransmissionsOk(s, q); }
    }
  }

  lemma SendFailsKeepsInv(s: State, r: nat)
    requires Inv(s) && Enabled(s, SendFails(r))
    ensures Inv(Next(s, SendFails(r)))
  {
  }

  lemma TransmitKeepsInv(s: State, r: nat, id: nat, session: nat)
    requires Inv(s) && Enabled(s, Transmit(r, id, session))
    ensures Inv(Next(s, Transmit(r, id, session)))
  {
    var n := Next(s, Transmit(r, id, session));
    assert SendOk(s, r, s.sends[r]);
    TransmitKeepsWires(s, r, id, session);
    TransmitKeepsSends(s, r, id, session);
    TransmitKeepsEntries(s, r, id, session);
    forall q | q in n.transmissions ensures TransmissionsOk(n, q) {
      assert TransmissionsOk(s, q);
    }
  }

  lemma TransmitKeepsEntries(s: State, r: nat, id: nat, session: nat)
    requires Inv(s) && Enabled(s, Transmit(r, id, session))
    ensures var n := Next(s, Transmit(r, id, session));
            && (forall k :: k in n.registry.register ==> EntryOk(n, k, n.registry.register[k]))
            && (forall k :: k in n.handlers ==> HandlerOk(n, k, n.handlers[k]))
  {
  }

  lemma TransmitKeepsSends(s: State, r: nat, id: nat, session: nat)
    requires Inv(s) && Enabled(s, Transmit(r, id, session))
    ensures var n := Next(s, Transmit(r, id, session)); forall q :: q in n.sends ==> SendOk(n, q, n.sends[q])
  {
  }

  lemma TransmitKeepsWires(s: State, r: nat, id: nat, session: nat)
    requires WiresOk(s) && Enabled(s, Transmit(r, id, session))
    ensures WiresOk(Next(s, Transmit(r, id, session)))
  {
  }

  lemma RecordKeepsSends(s: State, r: nat)
    requires Inv(s) && Enabled(s, Record(r))
    ensures var n := Next(s, Record(r)); forall q :: q in n.sends ==> SendOk(n, q, n.sends[q])
  {
    var n := Next(s, Record(r));
    assert SendOk(s, r, s.sends[r]);
    assert s.transmissions[r][|s.transmissions[r]| - 1] == s.sends[r].id;
    forall q | q in n.sends ensures SendOk(n, q, n.sends[q]) {
      assert SendOk(s, q, s.sends[q]);
      SendsApart(s, r, q);
    }
  }

  lemma RecordKeepsEntries(s: State, r: nat)
    requires Inv(s) && Enabled(s, Record(r))
    ensures var n := Next(s, Record(r));
            && (forall k :: k in n.registry.register ==> EntryOk(n, k, n.registry.register[k]))
            && (forall k :: k in n.handlers ==> HandlerOk(n, k, n.handlers[k]))
  {
    var n := Next(s, Record(r));
    var ToRecord(config, id, session) := s.sends[r];
    assert SendOk(s, r, s.sends[r]);
    assert s.transmissions[r][|s.transmissions[r]| - 1] == id;
    forall k | k in n.registry.register ensures EntryOk(n, k, n.registry.register[k]) {
      if k != id { assert EntryOk(s, k, s.registry.register[k]); }
      if config.Again? { assert EntryOk(s, config.old_, s.registry.register[config.old_]); }
    }
    forall k | k in n.handlers ensures HandlerOk(n, k, n.handlers[k]) {
      assert HandlerOk(s, k, s.handlers[k]);
    }
  }

  /** Steps that leave transmissions and refusals alone keep what is known of them. */
  lemma TransmissionsKept(s: State, n: State)
    requires Inv(s) && n.transmissions == s.transmissions && n.idempotent == s.idempotent
    requires s.refused <= n.refused && s.spoiled <= n.spoiled
    ensures forall r :: r in n.transmissions ==> TransmissionsOk(n, r)
  {
  }

  lemma RecordKeepsInv(s: State, r: nat)
    requires Inv(s) && Enabled(s, Record(r))
    ensures Inv(Next(s, Record(r)))
  {
    RecordKeepsSends(s, r);
    RecordKeepsEntries(s, r);
    TransmissionsKept(s, Next(s, Record(r)));
    var ToRecord(config, id, session) := s.sends[r];
    OperationsKeepUniqueIds(s.registry, id, id, Some(Data(None, r, s.idempotent[r], session)), true);
    OperationsKeepUniqueIds(s.registry, id, id, None, true);
    if config.Again? {
      OperationsKeepUniqueIds(s.registry, config.old_, id, None, true);
    }
  }

  /** Two sends in progress use different transport ids. */
  lemma SendsApart(s: State, r: nat, q: nat)
    requires WiresOk(s) && r in s.transmissions && q in s.transmissions && r != q
    ensures forall i: nat, j: nat :: i < |s.transmissions[r]| && j < |s.transmissions[q]| ==>
              s.transmissions[r][i] != s.transmissions[q][j]
  {
  }

  /** Steps of the network and the responder change neither registry nor sends. */
  lemma WireStepKeepsInv(s: State, step: Step)
    requires Inv(s) && Enabled(s, step)
    requires step.Lose? || step.DeliverRefused? || step.DeliverRun? || step.DeliverSpoiled?
    ensures Inv(Next(s, step))
  {
    var n := Next(s, step);
    forall q | q in n.sends ensures SendOk(n, q, n.sends[q]) {
      assert SendOk(s, q, s.sends[q]);
    }
    forall k | k in n.registry.register ensures EntryOk(n, k, n.registry.register[k]) {
      assert EntryOk(s, k, s.registry.register[k]);
    }
    forall k | k in n.handlers ensures HandlerOk(n, k, n.handlers[k]) {
      assert HandlerOk(s, k, s.handlers[k]);
    }
    forall q | q in n.transmissions ensures TransmissionsOk(n, q) {
      assert TransmissionsOk(s, q);
    }
  }

  lemma RespondKeepsInv(s: State, step: Step)
    requires Inv(s) && Enabled(s, step) && step.Respond?
    ensures Inv(Next(s, step))
  {
    var n := Next(s, step);
    forall q | q in n.sends ensures SendOk(n, q, n.sends[q]) {
      assert SendOk(s, q, s.sends[q]);
    }
    forall k | k in n.registry.register ensures EntryOk(n, k, n.registry.register[k]) {
      assert EntryOk(s, k, s.registry.register[k]);
    }
    forall k | k in n.handlers ensures HandlerOk(n, k, n.handlers[k]) {
      if k in s.handlers { assert HandlerOk(s, k, s.handlers[k]); }
    }
    forall q | q in n.transmissions ensures TransmissionsOk(n, q) {
      assert TransmissionsOk(s, q);
    }
  }

  lemma FailKeepsInv(s: State, step: Step)
    requires Inv(s) && Enabled(s, step) && step.Fail?
    ensures Inv(Next(s, step))
  {
    var n := Next(s, step);
    forall q | q in n.sends ensures SendOk(n, q, n.sends[q]) {
      assert SendOk(s, q, s.sends[q]);
    }
    forall k | k in n.registry.register ensures EntryOk(n, k, n.registry.register[k]) {
      assert EntryOk(s, k, s.registry.register[k]);
    }
    forall k | k in n.handlers ensures HandlerOk(n, k, n.handlers[k]) {
      if k in s.handlers { assert HandlerOk(s, k, s.handlers[k]); }
    }
    forall q | q in n.transmissions ensures TransmissionsOk(n, q) {
      assert TransmissionsOk(s, q);
    }
  }

  lemma CheckKeepsInv(s: State, step: Step)
    requires Inv(s) && Enabled(s, step) && step.Check?
    ensures Inv(Next(s, step))
  {
    var n := Next(s, step);
    assert n.registry == s.registry && n.sends == s.sends;
    HandlersOnlyKeepRest(s, n);
    forall k | k in n.handlers ensures HandlerOk(n, k, n.handlers[k]) {
      assert HandlerOk(s, k, s.handlers[k]);
    }
  }

  /** Steps that change nothing but handlers. */
  lemma HandlersOnlyKeepRest(s: State, n: State)
    requires Inv(s) && n == s.(handlers := n.handlers)
    ensures WiresOk(n)
    ensures forall r :: r in n.sends ==> SendOk(n, r, n.sends[r])
    ensures forall k :: k in n.registry.register ==> EntryOk(n, k, n.registry.register[k])
    ensures forall r :: r in n.transmissions ==> TransmissionsOk(n, r)
  {
  }

  lemma FetchKeepsSends(s: State, id: nat)
    requires Inv(s) && Enabled(s, Fetch(id))
    ensures var n := Next(s, Fetch(id)); forall q :: q in n.sends ==> SendOk(n, q, n.sends[q])
  {
    var n := Next(s, Fetch(id));
    assert HandlerOk(s, id, s.handlers[id]);
    assert EntryOk(s, id, s.registry.register[id]);
    forall q | q in n.sends ensures SendOk(n, q, n.sends[q]) {
      if q in s.sends { assert SendOk(s, q, s.sends[q]); }
    }
  }

  lemma FetchKeepsInv(s: State, id: nat)
    requires Inv(s) && Enabled(s, Fetch(id))
    ensures Inv(Next(s, Fetch(id)))
  {
    FetchKeepsSends(s, id);
    FetchKeepsEntries(s, id);
    FetchKeepsHandlers(s, id);
    TransmissionsKept(s, Next(s, Fetch(id)));
    OperationsKeepUniqueIds(s.registry, id, id, None, s.handlers[id].kind.Remote?);
  }

  lemma FetchKeepsEntries(s: State, id: nat)
    requires Inv(s) && Enabled(s, Fetch(id))
    ensures var n := Next(s, Fetch(id)); forall k :: k in n.registry.register ==> EntryOk(n, k, n.registry.register[k])
  {
    var n := Next(s, Fetch(id));
    assert HandlerOk(s, id, s.handlers[id]);
    forall k | k in n.registry.register ensures EntryOk(n, k, n.registry.register[k]) {
      assert EntryOk(s, k, s.registry.register[k]);
    }
  }

  lemma FetchKeepsHandlers(s: State, id: nat)
    requires Inv(s) && Enabled(s, Fetch(id))
    ensures var n := Next(s, Fetch(id)); forall k :: k in n.handlers ==> HandlerOk(n, k, n.handlers[k])
  {
    var n := Next(s, Fetch(id));
    forall k | k in n.handlers ensures HandlerOk(n, k, n.handlers[k]) {
      assert HandlerOk(s, k, s.handlers[k]);
    }
  }

  lemma StepKeepsInv(s: State, step: Step)
    requires Inv(s) && Enabled(s, step)
    ensures Inv(Next(s, step))
  {
    match step {
      case CallSend(r, idem) => CallSendKeepsInv(s, r, idem);
      case SendFails(r) => SendFailsKeepsInv(s, r);
      case Transmit(r, id, session) => TransmitKeepsInv(s, r, id, session);
      case Record(r) => RecordKeepsInv(s, r);
      case Respond(_) => RespondKeepsInv(s, step);
      case Fail(_, _) => FailKeepsInv(s, step);
      case Check(_) => CheckKeepsInv(s, step);
      case Fetch(id) => FetchKeepsInv(s, id);
      case _ => WireStepKeepsInv(s, step);
    }
  }

  // ----- Runs -----

  ghost predicate IsRun(states: seq<State>, steps: seq<Step>) {
    && |states| == |steps| + 1
    && states[0] == START
    && (forall i {:trigger steps[i]} :: 0 <= i < |steps| ==>
          Enabled(states[i], steps[i]) && states[i + 1] == Next(states[i], steps[i]))
  }

  lemma {:induction false} RunKeepsInv(states: seq<State>, steps: seq<Step>, i: nat)
    requires IsRun(states, steps) && i < |states|
    ensures Inv(states[i])
  {
    if i > 0 {
      RunKeepsInv(states, steps, i - 1);
      assert states[i - 1 + 1] == Next(states[i - 1], steps[i - 1]);
      StepKeepsInv(states[i - 1], steps[i - 1]);
    }
  }

  /** Over every run of losses, refusals, local errors and resends: the business logic runs at
      most once for a request that is not idempotent, unless an answer could not be encrypted,
      and at most twice for one that is. */
  lemma AtMostOnce(states: seq<State>, steps: seq<Step>, i: nat, r: nat)
    requires IsRun(states, steps) && i < |states| && r in states[i].idempotent
    ensures states[i].idempotent[r] ==> Executions(states[i], r) <= 2
    ensures !states[i].idempotent[r] ==> Executions(states[i], r) <= 1 + SpoiledAnswers(states[i], r)
    ensures !states[i].idempotent[r] && states[i].spoiled == {} ==> Executions(states[i], r) <= 1
  {
    RunKeepsInv(states, steps, i);
    InvBoundsExecutions(states[i], r);
    NoneAmong(states[i].transmissions[r]);
  }

  lemma {:induction false} NoneAmong(ids: seq<nat>)
    ensures Among(ids, {}) == 0
  {
    if ids != [] {
      NoneAmong(ids[..|ids| - 1]);
    }
  }

  /** Over every run, external ids are unique among live requests, a request has one from its
      registration on, keeps it across the resend, and is transmitted at most twice. */
  lemma ExternalIdsAreStable(states: seq<State>, steps: seq<Step>, i: nat, r: nat)
    requires IsRun(states, steps) && i < |steps| && steps[i] == Record(r)
    ensures UniqueIds(states[i + 1].registry)
    ensures r in states[i].transmissions && |states[i].transmissions[r]| <= 2
    ensures var ToRecord(config, id, _) := states[i].sends[r];
            && id in states[i + 1].registry.register
            && match config
               case First =>
                 states[i + 1].registry.register[id].externalId == states[i].registry.nextExternal
               case Again(old_) =>
                 && old_ in states[i].registry.register
                 && states[i + 1].registry.register[id].externalId == states[i].registry.register[old_].externalId
                 && states[i + 1].registry.nextExternal == states[i].registry.nextExternal
  {
    RunKeepsInv(states, steps, i);
    RunKeepsInv(states, steps, i + 1);
    assert SendOk(states[i], r, states[i].sends[r]);
    assert states[i + 1] == Next(states[i], steps[i]);
    assert TransmissionsOk(states[i], r);
  }

  /** What the metadata of a live request tell: with a retry count of 0 it was transmitted once,
      under this transport id, and no resend is under way; with a count of 1 it was handed out
      for its one resend. The count is never higher. */
  lemma RetryCountTellsHistory(states: seq<State>, steps: seq<Step>, i: nat, id: nat)
    requires IsRun(states, steps) && i < |states| && id in states[i].registry.register
    ensures var s, e := states[i], states[i].registry.register[id];
            && e.retryCount <= 1 && e.data.Some? && e.data.value.request in s.transmissions
            && id in s.transmissions[e.data.value.request]
            && (e.retryCount == 0 ==> s.transmissions[e.data.value.request] == [id] && e.data.value.request !in s.sends)
  {
    RunKeepsInv(states, steps, i);
    assert EntryOk(states[i], id, states[i].registry.register[id]);
  }

  // ----- External ids over a run -----

  /** Step i files a request for the first time and issues it an external id. */
  ghost predicate Issues(states: seq<State>, steps: seq<Step>, i: nat, r: nat, x: nat)
    requires IsRun(states, steps) && i < |steps|
  {
    steps[i] == Record(r) && states[i].sends[r].config.First? && states[i].registry.nextExternal == x
  }

  lemma StepKeepsNextExternal(s: State, step: Step)
    requires Inv(s) && Enabled(s, step)
    ensures s.registry.nextExternal <= Next(s, step).registry.nextExternal
    ensures step.Record? && s.sends[step.request].config.First? ==> s.registry.nextExternal < Next(s, step).registry.nextExternal
  {
  }

  lemma {:induction false} NextExternalGrows(states: seq<State>, steps: seq<Step>, i: nat, j: nat)
    requires IsRun(states, steps) && i <= j < |states|
    ensures states[i].registry.nextExternal <= states[j].registry.nextExternal
  {
    if i < j {
      NextExternalGrows(states, steps, i, j - 1);
      assert states[j - 1 + 1] == Next(states[j - 1], steps[j - 1]);
      RunKeepsInv(states, steps, j - 1);
      StepKeepsNextExternal(states[j - 1], steps[j - 1]);
    }
  }

  /** Over every run, each external id is issued at most once. */
  lemma ExternalIdsAreIssuedOnce(states: seq<State>, steps: seq<Step>, i: nat, j: nat, r: nat, q: nat, x: nat)
    requires IsRun(states, steps) && i <= j < |steps| && Issues(states, steps, i, r, x) && Issues(states, steps, j, q, x)
    ensures i == j && r == q
  {
    if i < j {
      assert states[i + 1] == Next(states[i], steps[i]);
      RunKeepsInv(states, steps, i);
      StepKeepsNextExternal(states[i], steps[i]);
      NextExternalGrows(states, steps, i + 1, j);
    }
  }

  /** An entry of the registry with the same external id for the same request. */
  ghost predicate Carries(reg: Registry, id: nat, e: Entry) {
    id in reg.register && reg.register[id].externalId == e.externalId && reg.register[id].data == e.data
  }

  /** Where the entries after a step come from: one that was there with the same request and
      external id, or a first filing. */
  lemma EntriesComeFrom(s: State, step: Step, id: nat)
    requires Inv(s) && Enabled(s, step) && id in Next(s, step).registry.register
    ensures var e := Next(s, step).registry.register[id];
            || (step.Record? && s.sends[step.request].config.First? && e.externalId == s.registry.nextExternal
                && e.data.Some? && e.data.value.request == step.request)
            || exists old_ :: Carries(s.registry, old_, e)
  {
    if step.Record? {
      RecordedComesFrom(s, step.request, id);
    } else {
      KeptEntryCarries(s, step, id);
    }
  }

  lemma KeptEntryCarries(s: State, step: Step, id: nat)
    requires Enabled(s, step) && !step.Record? && id in Next(s, step).registry.register
    ensures Carries(s.registry, id, Next(s, step).registry.register[id])
  {
  }

  lemma RecordedComesFrom(s: State, r: nat, id: nat)
    requires Inv(s) && Enabled(s, Record(r)) && id in Recorded(s, r).register
    ensures var e := Recorded(s, r).register[id];
            || (s.sends[r].config.First? && e.externalId == s.registry.nextExternal && e.data.Some? && e.data.value.request == r)
            || exists old_ :: Carries(s.registry, old_, e)
  {
    assert SendOk(s, r, s.sends[r]);
    var ToRecord(config, newId, _) := s.sends[r];
    var e := Recorded(s, r).register[id];
    assert id != newId ==> Carries(s.registry, id, e);
    assert id == newId && config.Again? ==> Carries(s.registry, config.old_, e);
  }

  /** Over every run, the external id of a live request was issued to that request. */
  lemma {:induction false} LiveIdWasIssued(states: seq<State>, steps: seq<Step>, k: nat, id: nat) returns (i: nat)
    requires IsRun(states, steps) && k < |states| && id in states[k].registry.register
    ensures var e := states[k].registry.register[id];
            i < k && e.data.Some? && Issues(states, steps, i, e.data.value.request, e.externalId)
  {
    assert states[k - 1 + 1] == Next(states[k - 1], steps[k - 1]);
    RunKeepsInv(states, steps, k - 1);
    EntriesComeFrom(states[k - 1], steps[k - 1], id);
    var before, e := states[k - 1].registry, states[k].registry.register[id];
    if exists old_ :: Carries(before, old_, e) {
      var old_ :| Carries(before, old_, e);
      i := LiveIdWasIssued(states, steps, k - 1, old_);
    } else {
      i := k - 1;
    }
  }

  /** Over every run, an external id is only ever carried by the request it was issued to, and
      that request is transmitted at most twice. */
  lemma ExternalIdIsTransmittedAtMostTwice(states: seq<State>, steps: seq<Step>, i: nat, k: nat, r: nat, x: nat)
    requires IsRun(states, steps) && i < |steps| && k < |states| && Issues(states, steps, i, r, x)
    ensures r in states[k].transmissions ==> |states[k].transmissions[r]| <= 2
    ensures forall id :: id in states[k].registry.register && states[k].registry.register[id].externalId == x ==>
              && states[k].registry.register[id].data.Some? && states[k].registry.register[id].data.value.request == r
              && r in states[k].transmissions && id in states[k].transmissions[r]
  {
    RunKeepsInv(states, steps, k);
    assert r in states[k].transmissions ==> TransmissionsOk(states[k], r);
    forall id | id in states[k].registry.register && states[k].registry.register[id].externalId == x
      ensures states[k].registry.register[id].data.Some? && states[k].registry.register[id].data.value.request == r
      ensures r in states[k].transmissions && id in states[k].transmissions[r]
    {
      var j := LiveIdWasIssued(states, steps, k, id);
      var q := states[k].registry.register[id].data.value.request;
      if i <= j {
        ExternalIdsAreIssuedOnce(states, steps, i, j, r, q, x);
      } else {
        ExternalIdsAreIssuedOnce(states, steps, j, i, q, r, x);
      }
      RetryCountTellsHistory(states, steps, k, id);
    }
  }

  // ----- Errors lead to a resend -----

  /** Over every run, a handler goes on after its check exactly if the request is still
      registered and was not handed out before. */
  lemma CheckPassesIff(states: seq<State>, steps: seq<Step>, i: nat, id: nat)
    requires IsRun(states, steps) && i < |steps| && steps[i] == Check(id)
    ensures var s, s' := states[i], states[i + 1];
            && id in s.handlers
            && (id in s'.handlers <==> id in s.registry.register && s.registry.register[id].retryCount == 0)
            && (id in s'.handlers ==> s'.handlers[id] == Checked(s.handlers[id].kind))
            && s' == s.(handlers := s'.handlers)
  {
    assert states[i + 1] == Next(states[i], steps[i]);
  }

  lemma StepKeepsKind(s: State, step: Step, id: nat, kind: ErrorKind)
    requires Enabled(s, step) && id in s.settled && (id in s.handlers ==> s.handlers[id].kind == kind)
    ensures var s' := Next(s, step); id in s'.settled && (id in s'.handlers ==> s'.handlers[id].kind == kind)
  {
  }

  /** The handler of an error knows what kind of error it was. */
  lemma {:induction false} HandlerKnowsKind(states: seq<State>, steps: seq<Step>, i: nat, k: nat, id: nat)
    requires IsRun(states, steps) && i < k < |states| && steps[i].Fail? && steps[i].id == id
    ensures id in states[k].settled && (id in states[k].handlers ==> states[k].handlers[id].kind == steps[i].kind)
  {
    assert states[k - 1 + 1] == Next(states[k - 1], steps[k - 1]);
    if i < k - 1 {
      HandlerKnowsKind(states, steps, i, k - 1, id);
      StepKeepsKind(states[k - 1], steps[k - 1], id, steps[i].kind);
    }
  }

  /** Over every run: when the handler of an error fetches its request, the request is on its
      way to be sent again exactly if it is idempotent or the error was a session error of the
      responder, and that counts as its one retry. */
  lemma FetchedRequestIsResentIff(states: seq<State>, steps: seq<Step>, i: nat, k: nat, id: nat)
    requires IsRun(states, steps) && i < k < |steps| && steps[i].Fail? && steps[i].id == id && steps[k] == Fetch(id)
    ensures var s, s' := states[k], states[k + 1];
            && id in s.sent && s.sent[id] in s.idempotent && s.sent[id] !in s.sends && id in s.registry.register
            && var r, e := s.sent[id], s.registry.register[id];
            && e.retryCount == 0
            && if s.idempotent[r] || steps[i].kind.Remote?
               then s'.sends == s.sends[r := ToSend(Again(id))]
                    && s'.registry.register == s.registry.register[id := e.(retryCount := 1)]
               else s'.sends == s.sends && s'.registry == s.registry
  {
    HandlerKnowsKind(states, steps, i, k, id);
    RunKeepsInv(states, steps, k);
    assert HandlerOk(states[k], id, states[k].handlers[id]);
    assert EntryOk(states[k], id, states[k].registry.register[id]);
    assert states[k + 1] == Next(states[k], steps[k]);
  }

  // ----- Answered requests -----

  /** A request has at most one entry, and one that is being sent again has the entry of the
      transmission that failed. */
  ghost predicate OneEntry(s: State) {
    && (forall a, b :: a in s.registry.register && b in s.registry.register && SameRequest(s, a, b) ==> a == b)
    && (forall id, r :: id in s.registry.register && r in s.sends && IsFor(s, id, r) ==> s.sends[r].config == Again(id))
  }

  ghost predicate IsFor(s: State, id: nat, r: nat)
    requires id in s.registry.register
  {
    s.registry.register[id].data.Some? && s.registry.register[id].data.value.request == r
  }

  ghost predicate SameRequest(s: State, a: nat, b: nat)
    requires a in s.registry.register && b in s.registry.register
  {
    s.registry.register[a].data.Some? && IsFor(s, b, s.registry.register[a].data.value.request)
  }

  lemma RecordKeepsOneEntry(s: State, r: nat)
    requires Inv(s) && OneEntry(s) && Enabled(s, Record(r))
    ensures OneEntry(Next(s, Record(r)))
  {
    assert SendOk(s, r, s.sends[r]);
    var n, id := Next(s, Record(r)), s.sends[r].id;
    var config := s.sends[r].config;
    forall a, b | a in n.registry.register && b in n.registry.register && SameRequest(n, a, b) ensures a == b {
      var a', b' := if a == id && config.Again? then config.old_ else a, if b == id && config.Again? then config.old_ else b;
      assert a' in s.registry.register && b' in s.registry.register ==> SameRequest(s, a', b');
      assert a' in s.registry.register && config.First? ==> !IsFor(s, a', r);
      assert b' in s.registry.register && config.First? ==> !IsFor(s, b', r);
    }
    forall k, q | k in n.registry.register && q in n.sends && IsFor(n, k, q) ensures n.sends[q].config == Again(k) {
      assert k != id ==> IsFor(s, k, q);
    }
  }

  lemma FetchKeepsOneEntry(s: State, id: nat)
    requires Inv(s) && OneEntry(s) && Enabled(s, Fetch(id))
    ensures OneEntry(Next(s, Fetch(id)))
  {
    assert HandlerOk(s, id, s.handlers[id]);
    assert EntryOk(s, id, s.registry.register[id]);
    var n := Next(s, Fetch(id));
    forall a, b | a in n.registry.register && b in n.registry.register && SameRequest(n, a, b) ensures a == b {
      assert SameRequest(s, a, b);
    }
    forall k, q | k in n.registry.register && q in n.sends && IsFor(n, k, q) ensures n.sends[q].config == Again(k) {
      assert IsFor(s, k, q);
      assert IsFor(s, id, q) ==> SameRequest(s, id, k);
    }
  }

  /** Steps that file and hand out nothing. */
  lemma OthersKeepOneEntry(s: State, step: Step)
    requires Inv(s) && OneEntry(s) && Enabled(s, step) && !step.Record? && !step.Fetch?
    ensures OneEntry(Next(s, step))
  {
    var n := Next(s, step);
    forall a, b | a in n.registry.register && b in n.registry.register && SameRequest(n, a, b) ensures a == b {
      assert SameRequest(s, a, b);
    }
    forall k, q | k in n.registry.register && q in n.sends && IsFor(n, k, q) ensures n.sends[q].config == Again(k) {
      assert IsFor(s, k, q) && EntryOk(s, k, s.registry.register[k]);
    }
  }

  lemma {:induction false} RunKeepsOneEntry(states: seq<State>, steps: seq<Step>, i: nat)
    requires IsRun(states, steps) && i < |states|
    ensures OneEntry(states[i])
  {
    if i > 0 {
      RunKeepsOneEntry(states, steps, i - 1);
      RunKeepsInv(states, steps, i - 1);
      var s, step := states[i - 1], steps[i - 1];
      assert states[i - 1 + 1] == Next(s, step);
      match step {
        case Record(r) => RecordKeepsOneEntry(s, r);
        case Fetch(id) => FetchKeepsOneEntry(s, id);
        case _ => OthersKeepOneEntry(s, step);
      }
    }
  }

  /** The requester is done with a request. */
  ghost predicate Over(s: State, r: nat) {
    && r in s.idempotent && r in s.transmissions && r !in s.sends
    && forall id :: id in s.registry.register ==> !IsFor(s, id, r)
  }

  lemma StepKeepsOver(s: State, step: Step, r: nat)
    requires Inv(s) && Enabled(s, step) && Over(s, r)
    ensures Over(Next(s, step), r) && Next(s, step).transmissions[r] == s.transmissions[r]
  {
    var n := Next(s, step);
    if step.Fetch? {
      assert HandlerOk(s, step.id, s.handlers[step.id]);
    }
    if step.Record? {
      assert SendOk(s, step.request, s.sends[step.request]);
    }
    forall id | id in n.registry.register ensures !IsFor(n, id, r) {
      EntriesComeFrom(s, step, id);
      if old_ :| Carries(s.registry, old_, n.registry.register[id]) {
        assert !IsFor(s, old_, r);
      }
    }
  }

  lemma AnswerEndsRequest(s: State, id: nat)
    requires Inv(s) && OneEntry(s) && Enabled(s, Respond(id)) && id in s.registry.register
    ensures id in s.sent && Over(Next(s, Respond(id)), s.sent[id])
    ensures Next(s, Respond(id)).transmissions == s.transmissions
  {
    assert EntryOk(s, id, s.registry.register[id]);
    var r := s.sent[id];
    assert IsFor(s, id, r);
    assert r in s.sends ==> SendOk(s, r, s.sends[r]);
    forall k | k in s.registry.register && IsFor(s, k, r) ensures k == id {
      assert SameRequest(s, id, k);
    }
  }

  /** Over every run, a request whose answer arrives while it is registered is never transmitted
      again and never registered again. */
  lemma {:induction false} AnsweredRequestIsOver(states: seq<State>, steps: seq<Step>, i: nat, k: nat, id: nat)
    requires IsRun(states, steps) && i < k < |states| && steps[i] == Respond(id) && id in states[i].registry.register
    ensures id in states[i].sent && Over(states[k], states[i].sent[id])
    ensures states[i].sent[id] in states[i].transmissions
            && states[k].transmissions[states[i].sent[id]] == states[i].transmissions[states[i].sent[id]]
  {
    assert states[k - 1 + 1] == Next(states[k - 1], steps[k - 1]);
    RunKeepsInv(states, steps, k - 1);
    if i == k - 1 {
      RunKeepsOneEntry(states, steps, i);
      AnswerEndsRequest(states[i], id);
    } else {
      AnsweredRequestIsOver(states, steps, i, k - 1, id);
      StepKeepsOver(states[k - 1], steps[k - 1], states[i].sent[id]);
    }
  }

  /** Nobody will send the request again: no send is under way and what is left of it in the
      registry was handed out before. */
  ghost predicate Spent(s: State, r: nat) {
    && r in s.idempotent && r in s.transmissions && r !in s.sends
    && forall id :: id in s.registry.register && IsFor(s, id, r) ==> s.registry.register[id].retryCount > 0
  }

  lemma RecordKeepsSpent(s: State, q: nat, r: nat)
    requires Inv(s) && Enabled(s, Record(q)) && Spent(s, r)
    ensures Spent(Next(s, Record(q)), r)
  {
    assert SendOk(s, q, s.sends[q]);
    var n := Next(s, Record(q));
    forall id | id in n.registry.register && IsFor(n, id, r) ensures n.registry.register[id].retryCount > 0 {
      assert id != s.sends[q].id ==> IsFor(s, id, r);
    }
  }

  lemma StepKeepsSpent(s: State, step: Step, r: nat)
    requires Inv(s) && Enabled(s, step) && Spent(s, r)
    ensures Spent(Next(s, step), r) && Next(s, step).transmissions[r] == s.transmissions[r]
  {
    var n := Next(s, step);
    if step.Record? {
      RecordKeepsSpent(s, step.request, r);
    } else {
      assert step.Fetch? ==> HandlerOk(s, step.id, s.handlers[step.id]);
      forall id | id in n.registry.register && IsFor(n, id, r) ensures n.registry.register[id].retryCount > 0 {
        assert IsFor(s, id, r);
      }
    }
  }

  lemma FailedSendIsSpent(s: State, r: nat)
    requires Inv(s) && OneEntry(s) && Enabled(s, SendFails(r))
    ensures Spent(Next(s, SendFails(r)), r) && Next(s, SendFails(r)).transmissions == s.transmissions
  {
    assert SendOk(s, r, s.sends[r]);
    forall id | id in s.registry.register && IsFor(s, id, r) ensures s.registry.register[id].retryCount > 0 {
      assert s.sends[r].config == Again(id);
    }
  }

  /** Over every run, a request whose sending fails, the first time or again, is never
      transmitted after that. */
  lemma {:induction false} FailedSendIsFinal(states: seq<State>, steps: seq<Step>, i: nat, k: nat, r: nat)
    requires IsRun(states, steps) && i < k < |states| && steps[i] == SendFails(r)
    ensures Spent(states[k], r) && r in states[i].transmissions && states[k].transmissions[r] == states[i].transmissions[r]
  {
    assert states[k - 1 + 1] == Next(states[k - 1], steps[k - 1]);
    RunKeepsInv(states, steps, k - 1);
    if i == k - 1 {
      RunKeepsOneEntry(states, steps, i);
      FailedSendIsSpent(states[i], r);
    } else {
      FailedSendIsFinal(states, steps, i, k - 1, r);
      StepKeepsSpent(states[k - 1], steps[k - 1], r);
    }
  }

  // ----- The hypothesis is needed -----

  /** A request runs, but its answer cannot be encrypted, which reads like a refusal. */
  const SPOILED: seq<Step> := [
    CallSend(0, false), Transmit(0, 10, 1), Record(0), DeliverSpoiled(10), Fail(10, Remote), Check(10), Fetch(10)]

  /** So it is sent and run again. */
  const REPEATED: seq<Step> := [Transmit(0, 11, 2), Record(0), DeliverRun(11)]

  function AfterCall(idempotent: bool): State {
    START.(idempotent := map[0 := idempotent], sends := map[0 := ToSend(First)], transmissions := map[0 := []])
  }

  function AfterTransmit(idempotent: bool): State {
    AfterCall(idempotent).(
      sends := map[0 := ToRecord(First, 10, 1)], transmissions := map[0 := [10]], sent := map[10 := 0], inFlight := {10})
  }

  function AfterRecord(idempotent: bool): State {
    AfterTransmit(idempotent).(
      sends := map[], registry := Registry(map[10 := Entry(0, 0, Some(Data(None, 0, idempotent, 1)))], 1))
  }

  function AfterFetch(s: State, idempotent: bool): State {
    s.(handlers := map[], sends := map[0 := ToSend(Again(10))],
       registry := Registry(map[10 := Entry(0, 1, Some(Data(None, 0, idempotent, 1)))], 1))
  }

  const RAN: State := AfterRecord(false).(inFlight := {}, ran := {10}, spoiled := {10})
  const REPORTED: State := RAN.(settled := {10}, handlers := map[10 := Reported(Remote)])
  const CHECKED: State := REPORTED.(handlers := map[10 := Checked(Remote)])

  lemma FirstTransmission(idempotent: bool)
    ensures Enabled(START, CallSend(0, idempotent)) && Next(START, CallSend(0, idempotent)) == AfterCall(idempotent)
    ensures Enabled(AfterCall(idempotent), Transmit(0, 10, 1)) && Next(AfterCall(idempotent), Transmit(0, 10, 1)) == AfterTransmit(idempotent)
    ensures Enabled(AfterTransmit(idempotent), Record(0)) && Next(AfterTransmit(idempotent), Record(0)) == AfterRecord(idempotent)
  {
    assert [] + [10] == [10];
  }

  lemma SpoiledHandling()
    ensures Enabled(AfterRecord(false), SPOILED[3]) && Next(AfterRecord(false), SPOILED[3]) == RAN
    ensures Enabled(RAN, SPOILED[4]) && Next(RAN, SPOILED[4]) == REPORTED
    ensures Enabled(REPORTED, SPOILED[5]) && Next(REPORTED, SPOILED[5]) == CHECKED
  {
  }

  lemma SpoiledResend()
    ensures Enabled(CHECKED, SPOILED[6]) && Next(CHECKED, SPOILED[6]) == AfterFetch(CHECKED, false)
  {
  }

  lemma SpoiledPart() returns (states: seq<State>)
    ensures IsRun(states, SPOILED) && states[|SPOILED|] == AfterFetch(CHECKED, false)
  {
    FirstTransmission(false);
    SpoiledHandling();
    SpoiledResend();
    states := [START, AfterCall(false), AfterTransmit(false), AfterRecord(false), RAN, REPORTED, CHECKED, AfterFetch(CHECKED, false)];
  }

  /** Without the hypothesis on encryption a request that may not be repeated runs twice. */
  lemma SpoiledAnswerRunsTwice() returns (states: seq<State>)
    ensures IsRun(states, SPOILED + REPEATED)
    ensures var s := states[|SPOILED + REPEATED|];
            Executions(s, 0) == 2 && 0 in s.idempotent && !s.idempotent[0]
  {
    var first := SpoiledPart();
    var s8 := Next(AfterFetch(CHECKED, false), REPEATED[0]);
    var s9 := Next(s8, REPEATED[1]);
    var s10 := Next(s9, REPEATED[2]);
    states := first + [s8, s9, s10];
    assert s10.transmissions[0] == [10, 11];
    assert [10, 11][..1] == [10] && [10][..0] == [];
    assert Among([10], s10.ran) == 1;
    var steps := SPOILED + REPEATED;
    forall i | 0 <= i < |steps| ensures Enabled(states[i], steps[i]) && states[i + 1] == Next(states[i], steps[i]) {
      if i < |SPOILED| {
        assert steps[i] == SPOILED[i] && states[i] == first[i] && states[i + 1] == first[i + 1];
      }
    }
  }

  // ----- A resend after a local error -----

  /** A request that may be repeated is lost on the way; it is sent again after the timeout. */
  const LOST: seq<Step> := [
    CallSend(0, true), Transmit(0, 10, 1), Record(0), Lose(10), Fail(10, Local), Check(10), Fetch(10), Transmit(0, 11, 2)]

  const GONE: State := AfterRecord(true).(inFlight := {})
  const TIMED_OUT: State := GONE.(settled := {10}, handlers := map[10 := Reported(Local)])
  const RETRYING: State := TIMED_OUT.(handlers := map[10 := Checked(Local)])

  const RESENT: State := AfterFetch(RETRYING, true).(
    sends := map[0 := ToRecord(Again(10), 11, 2)], transmissions := map[0 := [10, 11]],
    sent := map[10 := 0, 11 := 0], inFlight := {11})

  lemma LostHandling()
    ensures Enabled(AfterRecord(true), LOST[3]) && Next(AfterRecord(true), LOST[3]) == GONE
    ensures Enabled(GONE, LOST[4]) && Next(GONE, LOST[4]) == TIMED_OUT
    ensures Enabled(TIMED_OUT, LOST[5]) && Next(TIMED_OUT, LOST[5]) == RETRYING
  {
  }

  lemma LostResend()
    ensures Enabled(RETRYING, LOST[6]) && Next(RETRYING, LOST[6]) == AfterFetch(RETRYING, true)
    ensures Enabled(AfterFetch(RETRYING, true), LOST[7]) && Next(AfterFetch(RETRYING, true), LOST[7]) == RESENT
  {
    assert [10] + [11] == [10, 11];
  }

  lemma LostRequestIsTransmittedTwice() returns (states: seq<State>)
    ensures IsRun(states, LOST)
    ensures states[|LOST|].transmissions == map[0 := [10, 11]] && states[|LOST|].inFlight == {11}
  {
    FirstTransmission(true);
    LostHandling();
    LostResend();
    states := [START, AfterCall(true), AfterTransmit(true), AfterRecord(true), GONE, TIMED_OUT, RETRYING,
               AfterFetch(RETRYING, true), RESENT];
  }
}
