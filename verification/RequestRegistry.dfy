/** The registry of outstanding requests and the worker that times them out. */
module RequestRegistry {
  import opened Common

  /** What is needed to send a request again. */
  datatype Data = Data(contact: Option<string>, request: nat, idempotent: bool, session: nat)

  datatype Entry = Entry(externalId: nat, retryCount: nat, data: Option<Data>)

  /** Commands to the timeout worker, in the order sent. */
  datatype Command = Register(id: nat, node: string) | Unregister(id: nat) | ResetTimeout(id: nat)

  datatype Registry = Registry(register: map<nat, Entry>, nextExternal: nat)

  datatype ForResend = ForResend(request: nat, contact: Option<string>)

  datatype ForResendAfterSessionError = ForResendAfterSessionError(request: nat, contact: Option<string>, requiresNewSession: bool)

  // ----- The registry's operations -----

  function Added(reg: Registry, requestId: nat, data: Option<Data>): (after: Registry) {
    Registry(reg.register[requestId := Entry(reg.nextExternal, 0, data)], reg.nextExternal + 1)
  }

  function Removed(reg: Registry, requestId: nat): (after: Registry) {
    reg.(register := reg.register - {requestId})
  }

  predicate CanResend(reg: Registry, requestId: nat, afterSessionError: bool) {
    && requestId in reg.register
    && reg.register[requestId].data.Some?
    && (afterSessionError || reg.register[requestId].data.value.idempotent)
  }

  /** Handing a request out for a resend counts as a retry. */
  function Retried(reg: Registry, requestId: nat, afterSessionError: bool): (after: Registry) {
    if CanResend(reg, requestId, afterSessionError) then
      var e := reg.register[requestId];
      reg.(register := reg.register[requestId := e.(retryCount := e.retryCount + 1)])
    else reg
  }

  /** Filing an entry under the transport id of the resend. */
  function Moved(reg: Registry, oldId: nat, newId: nat): (after: Registry) {
    if oldId in reg.register then
      reg.(register := (reg.register - {oldId})[newId := reg.register[oldId]])
    else reg
  }

  /** External ids are issued in order, and no two entries share one. */
  ghost predicate UniqueIds(reg: Registry) {
    && (forall i :: i in reg.register ==> reg.register[i].externalId < reg.nextExternal)
    && (forall i, j :: i in reg.register && j in reg.register && i != j ==>
          reg.register[i].externalId != reg.register[j].externalId)
  }

  /** Every operation keeps external ids unique; a resend keeps the external id. */
  lemma OperationsKeepUniqueIds(reg: Registry, id: nat, newId: nat, data: Option<Data>, afterSessionError: bool)
    requires UniqueIds(reg)
    ensures UniqueIds(Added(reg, id, data)) && Added(reg, id, data).register[id].externalId == reg.nextExternal
    ensures UniqueIds(Removed(reg, id))
    ensures UniqueIds(Retried(reg, id, afterSessionError))
    ensures UniqueIds(Moved(reg, id, newId))
    ensures id in reg.register ==> Moved(reg, id, newId).register[newId].externalId == reg.register[id].externalId
    ensures reg.nextExternal <= Moved(reg, id, newId).nextExternal
  {
  }

  class TimeoutRequestRegistry {
    var register: map<nat, Entry>
    var nextExternalRequestId: nat
    var commands: seq<Command>

    function Current(): (reg: Registry)
      reads this
    {
      Registry(register, nextExternalRequestId)
    }

    constructor ()
      ensures Current() == Registry(map[], 0) && commands == []
    {
      register, nextExternalRequestId, commands := map[], 0, [];
    }

    method RegisterRequestId(requestId: nat, node: string) returns (externalId: nat)
      modifies this
      ensures Current() == Added(old(Current()), requestId, None)
      ensures externalId == old(nextExternalRequestId) < nextExternalRequestId
      ensures requestId in register && register[requestId].externalId == externalId && register[requestId].retryCount == 0
      ensures commands == old(commands) + [Register(externalId, node)]
    {
      externalId := nextExternalRequestId;
      nextExternalRequestId := nextExternalRequestId + 1;
      register := register[requestId := Entry(externalId, 0, None)];
      commands := commands + [Register(externalId, node)];
    }

    method RegisterRequest(session: nat, requestId: nat, node: string, contact: Option<string>, request: nat, idempotent: bool)
        returns (externalId: nat)
      modifies this
      ensures Current() == Added(old(Current()), requestId, Some(Data(contact, request, idempotent, session)))
      ensures externalId == old(nextExternalRequestId) < nextExternalRequestId
      ensures requestId in register && register[requestId].externalId == externalId && register[requestId].retryCount == 0
      ensures commands == old(commands) + [Register(externalId, node)]
    {
      externalId := nextExternalRequestId;
      nextExternalRequestId := nextExternalRequestId + 1;
      register := register[requestId := Entry(externalId, 0, Some(Data(contact, request, idempotent, session)))];
      commands := commands + [Register(externalId, node)];
    }

    method RemoveRequest(requestId: nat) returns (removed: Option<Entry>)
      modifies this
      ensures Current() == Removed(old(Current()), requestId)
      ensures register == old(register) - {requestId} && nextExternalRequestId == old(nextExternalRequestId)
      ensures removed == if requestId in old(register) then Some(old(register)[requestId]) else None
      ensures commands == old(commands) + if removed.Some? then [Unregister(removed.value.externalId)] else []
    {
      removed := None;
      if requestId in register {
        removed := Some(register[requestId]);
        commands := commands + [Unregister(register[requestId].externalId)];
      }
      register := register - {requestId};
    }

    method GetRequestForResend(requestId: nat) returns (resend: Option<ForResend>)
      modifies this
      ensures Current() == Retried(old(Current()), requestId, false)
      ensures resend.Some? <==>
                && requestId in old(register) && old(register)[requestId].data.Some?
                && old(register)[requestId].data.value.idempotent
      ensures resend.None? ==> register == old(register)
      ensures resend.Some? ==>
                && resend.value == ForResend(old(register)[requestId].data.value.request, old(register)[requestId].data.value.contact)
                && register == old(register)[requestId := old(register)[requestId].(retryCount := old(register)[requestId].retryCount + 1)]
                && commands == old(commands) + [ResetTimeout(old(register)[requestId].externalId)]
      ensures resend.None? ==> commands == old(commands)
    {
      resend := None;
      if requestId in register {
        var e := register[requestId];
        if e.data.Some? && e.data.value.idempotent {
          resend := Some(ForResend(e.data.value.request, e.data.value.contact));
          register := register[requestId := e.(retryCount := e.retryCount + 1)];
          commands := commands + [ResetTimeout(e.externalId)];
        }
      }
    }

    /** Also tells whether the session the request was sent with is still the current one,
        in which case it has to be replaced before the resend. */
    method GetRequestForResendAfterSessionError(current: Option<nat>, requestId: nat)
        returns (resend: Option<ForResendAfterSessionError>)
      modifies this
      ensures Current() == Retried(old(Current()), requestId, true)
      ensures resend.Some? <==> requestId in old(register) && old(register)[requestId].data.Some?
      ensures resend.None? ==> register == old(register)
      ensures resend.Some? ==>
                && register == old(register)[requestId := old(register)[requestId].(retryCount := old(register)[requestId].retryCount + 1)]
                && resend.value.request == old(register)[requestId].data.value.request
                && resend.value.contact == old(register)[requestId].data.value.contact
                && (resend.value.requiresNewSession <==> current == Some(old(register)[requestId].data.value.session))
                && commands == old(commands) + [ResetTimeout(old(register)[requestId].externalId)]
      ensures resend.None? ==> commands == old(commands)
    {
      resend := None;
      if requestId in register {
        var e := register[requestId];
        if e.data.Some? {
          var d := e.data.value;
          resend := Some(ForResendAfterSessionError(d.request, d.contact, current.Some? && current.value == d.session));
          register := register[requestId := e.(retryCount := e.retryCount + 1)];
          commands := commands + [ResetTimeout(e.externalId)];
        }
      }
    }

    method CheckRequestMetadata(requestId: nat) returns (metadata: Option<(nat, nat)>)
      ensures metadata == if requestId in register
                          then Some((register[requestId].retryCount, register[requestId].externalId)) else None
    {
      metadata := if requestId in register then Some((register[requestId].retryCount, register[requestId].externalId)) else None;
    }

    method UpdateRequestId(oldId: nat, newId: nat) returns (externalId: Option<nat>)
      modifies this`register
      ensures Current() == Moved(old(Current()), oldId, newId)
      ensures externalId == if oldId in old(register) then Some(old(register)[oldId].externalId) else None
      ensures oldId !in old(register) ==> register == old(register)
      ensures oldId in old(register) ==>
                && newId in register && register[newId] == old(register)[oldId]
                && (forall k :: k != newId ==> (k in register <==> k in old(register) && k != oldId))
                && (forall k :: k != newId && k in register ==> register[k] == old(register)[k])
    {
      externalId := None;
      if oldId in register {
        var request := register[oldId];
        externalId := Some(request.externalId);
        register := (register - {oldId})[newId := request];
      }
    }
  }
}
