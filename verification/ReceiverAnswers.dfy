/** What the answers of the receiving side mean to the peer: when each is given, and what has
    happened to memory, database and disk by then. */
module ReceiverAnswers {
  import opened Common
  import opened ChunkRing
  import opened Receiver

  /** The peer has a transfer in memory that was touched less than 30 seconds ago. */
  predicate Running(r: Receiver, peer: string, now: nat) {
    peer in r.receiving && Since(now, r.receiving[peer].touched) < 30_000
  }

  /** The filerequest is there, is active, and is public or meant for the contact. */
  predicate Invites(db: Db, filerequest: string, contact: Option<string>) {
    && filerequest in db.filerequests
    && db.filerequests[filerequest].active
    && var access := db.filerequests[filerequest].access;
       access == Public || (contact.Some? && access.Audience? && contact.value in access.contacts)
  }

  /** The owner may use every active filerequest. */
  predicate IsOwn(db: Db, filerequest: string, contact: Option<string>) {
    && filerequest in db.filerequests && db.filerequests[filerequest].active
    && contact.Some? && db.self == contact
  }

  /** The record is of that peer and contact. */
  predicate RecordedFor(db: Db, transfer: string, peer: string, contact: Option<string>) {
    transfer in db.received && db.received[transfer].peer == peer && db.received[transfer].contact == contact
  }

  predicate InOrder(env: Env) {
    env.now <= env.later <= env.last
  }

  // ----- Other peers -----

  /** The transfer of a peer is as it was. */
  predicate SameEntry(r: Receiver, r': Receiver, p: string) {
    (p in r'.receiving <==> p in r.receiving) && (p in r.receiving ==> r'.receiving[p] == r.receiving[p])
  }

  lemma StartTouchesOwn(r: Receiver, peer: string, contact: Option<string>, req: FileRequest, env: Env, p: string)
    requires WellFormedReceiver(r) && p != peer && (req.NewTransfer? || req.ContinueTransfer?)
    ensures SameEntry(r, Respond(r, peer, contact, req, env).receiver, p)
  {
  }

  lemma ChunkTouchesOwn(r: Receiver, peer: string, contact: Option<string>, req: FileRequest, env: Env, p: string)
    requires WellFormedReceiver(r) && p != peer && req.ChunkOf?
    ensures SameEntry(r, Respond(r, peer, contact, req, env).receiver, p)
  {
  }

  lemma EndTouchesOwn(r: Receiver, peer: string, contact: Option<string>, req: FileRequest, env: Env, p: string)
    requires WellFormedReceiver(r) && p != peer && (req.AbortTransfer? || req.Done? || req.ViolationReport?)
    ensures SameEntry(r, Respond(r, peer, contact, req, env).receiver, p)
  {
  }

  /** A request of a peer never touches the transfer of another. */
  lemma OtherPeersAreUntouched(r: Receiver, peer: string, contact: Option<string>, req: FileRequest, env: Env, p: string)
    requires WellFormedReceiver(r) && p != peer
    ensures SameEntry(r, Respond(r, peer, contact, req, env).receiver, p)
  {
    match req {
      case NewTransfer(_, _, _, _) => StartTouchesOwn(r, peer, contact, req, env, p);
      case ContinueTransfer(_, _) => StartTouchesOwn(r, peer, contact, req, env, p);
      case ChunkOf(_) => ChunkTouchesOwn(r, peer, contact, req, env, p);
      case _ => EndTouchesOwn(r, peer, contact, req, env, p);
    }
  }

  // ----- New transfers -----

  /** A new transfer is rejected exactly if nobody invited it, and accepted exactly if it was
      invited, its id is new and nothing failed. */
  lemma NewIsAcceptedIff(r: Receiver, peer: string, contact: Option<string>, req: FileRequest, env: Env)
    requires WellFormedReceiver(r) && req.NewTransfer?
    ensures var response := Respond(r, peer, contact, req, env).response;
            var invited := Invites(r.db, req.filerequest, contact) || IsOwn(r.db, req.filerequest, contact);
            && (response == RejectNewTransfer <==> !invited)
            && (response == AcceptNewTransfer <==>
                  invited && env.epochMillis.Some? && env.opens && env.persists && req.transfer !in r.db.received)
            && response in {AcceptNewTransfer, RejectNewTransfer, InternalError}
  {
  }

  /** An accepted transfer is on record as it was announced, and in memory with nothing received,
      writing to the part file of its own tag. */
  lemma AcceptedNewIsRecorded(r: Receiver, peer: string, contact: Option<string>, req: FileRequest, env: Env)
    requires WellFormedReceiver(r) && req.NewTransfer?
    requires Respond(r, peer, contact, req, env).response == AcceptNewTransfer
    ensures var r' := Respond(r, peer, contact, req, env).receiver;
            && env.epochMillis.Some?
            && var stamp := env.epochMillis.value;
            && r'.db.received ==
               r.db.received[req.transfer := Record(peer, contact, req.filerequest, req.fileName, req.size, stamp, Receiving, 0)]
            && peer in r'.receiving && r'.receiving[peer].touched == env.later
            && var m := r'.receiving[peer].value;
            && m == Manager(EMPTY_SLOTS, 0, req.size, 0, m.file, req.fileName, req.transfer, req.filerequest, contact, stamp)
            && var name := NameOf(Tag(stamp, req.transfer, peer, contact));
               name in r'.disk.parts && r'.disk.parts[name] == m.file
  {
  }

  /** A transfer that was not accepted is neither recorded nor in memory, and no file changes;
      but its part file is there if it could be opened. */
  lemma RefusedNewLeavesNothing(r: Receiver, peer: string, contact: Option<string>, req: FileRequest, env: Env)
    requires WellFormedReceiver(r) && req.NewTransfer?
    requires Respond(r, peer, contact, req, env).response != AcceptNewTransfer
    ensures var Reply(r', response) := Respond(r, peer, contact, req, env);
            && r'.db == r.db && (peer in r'.receiving ==> peer in r.receiving && r'.receiving[peer] == r.receiving[peer])
            && r'.disk.finals == r.disk.finals && r.disk.files <= r'.disk.files
            && (if response == RejectNewTransfer || env.epochMillis.None? || !env.opens then r'.disk == r.disk
                else
                  var name := NameOf(Tag(env.epochMillis.value, req.transfer, peer, contact));
                  name in r'.disk.parts && r'.disk.parts - {name} == r.disk.parts - {name})
  {
  }

  // ----- Resumes -----

  /** The peer asks to go on with its running transfer. */
  predicate AsksForRunning(r: Receiver, peer: string, contact: Option<string>, req: FileRequest, now: nat)
    requires req.ContinueTransfer?
  {
    && Running(r, peer, now)
    && var m := r.receiving[peer].value;
       m.transfer == req.transfer && m.filerequest == req.filerequest && m.contact == contact
  }

  /** How much of a transfer is in its part file, if there is one. */
  function PartLength(disk: Disk, tag: Tag): nat
    requires forall n :: n in disk.parts ==> disk.parts[n] < |disk.files|
  {
    if NameOf(tag) in disk.parts then |disk.files[disk.parts[NameOf(tag)]].content| else 0
  }

  /** A resume continues the running transfer if that is the one asked for; otherwise it is
      continued from its part file exactly if the filerequest invites the contact, the record is
      of the same peer and contact, and the file can be opened and measured. */
  lemma ContinueIsAcceptedIff(r: Receiver, peer: string, contact: Option<string>, req: FileRequest, env: Env)
    requires WellFormedReceiver(r) && req.ContinueTransfer? && InOrder(env)
    ensures var response := Respond(r, peer, contact, req, env).response;
            var inMemory := AsksForRunning(r, peer, contact, req, env.later);
            var entitled := Invites(r.db, req.filerequest, contact) && RecordedFor(r.db, req.transfer, peer, contact);
            && (inMemory ==> response == AcceptContinueTransfer(r.receiving[peer].value.progress))
            && (!inMemory && !(entitled && env.opens) <==> response == RestartContinueTransfer)
            && (!inMemory && entitled && env.opens ==>
                  response == if env.sizes
                              then AcceptContinueTransfer(PartLength(r.disk, Tag(r.db.received[req.transfer].startedAt, req.transfer, peer, contact)))
                              else InternalError)
  {
    assert Running(r, peer, env.later) ==> LookUp(r, peer, env.now) == r;
  }

  /** A resume that cannot open the part file marks the transfer as failed. */
  lemma UnopenedPartFails(r: Receiver, peer: string, contact: Option<string>, req: FileRequest, env: Env)
    requires WellFormedReceiver(r) && req.ContinueTransfer? && InOrder(env) && !env.opens
    requires !AsksForRunning(r, peer, contact, req, env.later)
    requires Invites(r.db, req.filerequest, contact) && RecordedFor(r.db, req.transfer, peer, contact)
    ensures var r' := Respond(r, peer, contact, req, env).receiver;
            && r'.disk == r.disk
            && r'.db == r.db.(received := r.db.received[req.transfer := r.db.received[req.transfer].(status := Failed, progress := 0)])
  {
  }

  /** A resume that is not accepted leaves the running transfer of the peer as it is. */
  lemma RefusedContinueKeepsRunning(r: Receiver, peer: string, contact: Option<string>, req: FileRequest, env: Env)
    requires WellFormedReceiver(r) && req.ContinueTransfer? && InOrder(env) && Running(r, peer, env.later)
    requires !Respond(r, peer, contact, req, env).response.AcceptContinueTransfer?
    ensures var r' := Respond(r, peer, contact, req, env).receiver;
            peer in r'.receiving && r'.receiving[peer].value == r.receiving[peer].value && r'.receiving[peer].touched == env.later
  {
    assert LookUp(r, peer, env.now) == r;
  }

  // ----- Aborts -----

  /** The peer names its transfer, or none. */
  predicate NamesIt(m: Manager, req: FileRequest)
    requires req.AbortTransfer?
  {
    req.maybeTransfer == None || req.maybeTransfer == Some(m.transfer)
  }

  /** An abort is confirmed exactly if the peer has a running transfer, which it does not
      misname, and the part file could be removed; without such a transfer it is a violation.
      Whatever is answered, the peer has no transfer afterwards. */
  lemma AbortIsConfirmedIff(r: Receiver, peer: string, contact: Option<string>, req: FileRequest, env: Env)
    requires WellFormedReceiver(r) && req.AbortTransfer? && InOrder(env)
    ensures var reply := Respond(r, peer, contact, req, env);
            var mayAbort := Running(r, peer, env.later) && NamesIt(r.receiving[peer].value, req);
            && peer !in reply.receiver.receiving
            && (reply.response == ConfirmAbort <==> mayAbort && env.removes)
            && (reply.response == InternalError <==> mayAbort && !env.removes)
            && (reply.response == Violation <==> !mayAbort)
  {
    assert Running(r, peer, env.later) ==> LookUp(r, peer, env.now) == r;
  }

  /** To a peer that asks under the contact of its transfer, nothing but an abort is confirmed
      as one. */
  lemma OnlyAbortsAreConfirmed(r: Receiver, peer: string, contact: Option<string>, req: FileRequest, env: Env)
    requires WellFormedReceiver(r) && InOrder(env) && peer in r.receiving && r.receiving[peer].value.contact == contact
    requires Respond(r, peer, contact, req, env).response == ConfirmAbort
    ensures req.AbortTransfer?
  {
  }

  /** A confirmed abort has removed the part file of the transfer, and no other, and the record
      says that it failed. */
  lemma ConfirmedAbortRemovesPart(r: Receiver, peer: string, contact: Option<string>, req: FileRequest, env: Env)
    requires WellFormedReceiver(r) && req.AbortTransfer? && InOrder(env)
    requires Respond(r, peer, contact, req, env).response == ConfirmAbort
    ensures var r' := Respond(r, peer, contact, req, env).receiver;
            && peer in r.receiving
            && var m := r.receiving[peer].value;
               var name := NameOf(Tag(m.startedAt, m.transfer, peer, contact));
            && name !in r'.disk.parts
            && (forall n :: n != name ==> (n in r'.disk.parts <==> n in r.disk.parts))
            && (forall n :: n in r'.disk.parts ==> r'.disk.parts[n] == r.disk.parts[n])
            && r'.disk.files == r.disk.files && r'.disk.finals == r.disk.finals
            && (m.transfer in r.db.received ==>
                  r'.db.received == r.db.received[m.transfer := r.db.received[m.transfer].(status := Failed, progress := m.progress)])
  {
  }

  /** An abort that is not confirmed leaves disk and database as they were. */
  lemma UnconfirmedAbortChangesNothing(r: Receiver, peer: string, contact: Option<string>, req: FileRequest, env: Env)
    requires WellFormedReceiver(r) && req.AbortTransfer? && Respond(r, peer, contact, req, env).response != ConfirmAbort
    ensures var r' := Respond(r, peer, contact, req, env).receiver; r'.disk == r.disk && r'.db == r.db
  {
  }

  // ----- Chunks -----

  /** The chunk is for the running transfer of the peer, under its contact. */
  predicate Fits(r: Receiver, peer: string, contact: Option<string>, chunk: Chunk, now: nat) {
    && Running(r, peer, now)
    && r.receiving[peer].value.transfer == chunk.transferId && r.receiving[peer].value.contact == contact
  }

  /** A chunk that does not fit ends the transfer it was meant for and writes nothing. */
  lemma MisfitChunkEndsTransfer(r: Receiver, peer: string, contact: Option<string>, req: FileRequest, env: Env)
    requires WellFormedReceiver(r) && req.ChunkOf? && InOrder(env) && !Fits(r, peer, contact, req.chunk, env.later)
    ensures var reply := Respond(r, peer, contact, req, env);
            && !Running(reply.receiver, peer, env.later)
            && reply.receiver.disk == r.disk && reply.receiver.db == r.db
            && (!Running(r, peer, env.later) || r.receiving[peer].value.transfer != req.chunk.transferId ==> reply.response == Violation)
  {
    assert Running(r, peer, env.later) ==> LookUp(r, peer, env.now) == r;
  }

  /** What the record says after a chunk that fits: how far the transfer is, or that it failed.
      A chunk that was not confirmed ends the transfer. */
  lemma ChunkIsRecorded(r: Receiver, peer: string, contact: Option<string>, req: FileRequest, env: Env)
    requires WellFormedReceiver(r) && req.ChunkOf? && InOrder(env) && Fits(r, peer, contact, req.chunk, env.later)
    requires req.chunk.transferId in r.db.received
    ensures var reply := Respond(r, peer, contact, req, env);
            var t := req.chunk.transferId;
            match reply.response
            case ConfirmChunk =>
              && peer in reply.receiver.receiving && reply.receiver.receiving[peer].touched == env.later
              && reply.receiver.db.received ==
                 r.db.received[t := r.db.received[t].(status := Receiving, progress := reply.receiver.receiving[peer].value.progress)]
            case Violation => peer !in reply.receiver.receiving && reply.receiver.db == r.db
            case InternalError =>
              && peer !in reply.receiver.receiving
              && reply.receiver.db.received.Keys == r.db.received.Keys && reply.receiver.db.received[t].status == Failed
            case _ => false
  {
    assert LookUp(r, peer, env.now) == r;
  }

  /** A chunk that fits writes to the file of its transfer what the ring of the transfer
      appends, also if it then meets a violation or a full disk, and to no other file. */
  lemma ChunkIsStored(r: Receiver, peer: string, contact: Option<string>, req: FileRequest, env: Env)
    requires WellFormedReceiver(r) && req.ChunkOf? && InOrder(env) && Fits(r, peer, contact, req.chunk, env.later)
    ensures var Reply(r', response) := Respond(r, peer, contact, req, env);
            var m := r.receiving[peer].value;
            var stored := Store(RingOf(m, r.disk), req.chunk, env.room);
            && (response == ConfirmChunk <==> stored.result == Received)
            && (response == Violation <==> stored.result == ProtocolViolation)
            && (response == InternalError <==> stored.result == IoError)
            && |r'.disk.files| == |r.disk.files| && r'.disk.files[m.file].content == stored.ring.file
            && (forall f: nat :: f < |r.disk.files| && f != m.file ==> r'.disk.files[f] == r.disk.files[f])
            && r'.disk.parts == r.disk.parts && r'.disk.finals == r.disk.finals
  {
    assert LookUp(r, peer, env.now) == r;
  }

  // ----- Ends -----

  /** The end of a transfer is confirmed exactly if it is the running transfer of the peer, is
      complete, has a part file for the contact that asks, and nothing fails. */
  lemma DoneIsConfirmedIff(r: Receiver, peer: string, contact: Option<string>, req: FileRequest, env: Env)
    requires WellFormedReceiver(r) && req.Done? && InOrder(env)
    ensures Respond(r, peer, contact, req, env).response == ConfirmDone <==>
            && Running(r, peer, env.last)
            && var m := r.receiving[peer].value;
            && m.transfer == req.transfer && m.progress == m.declared
            && NameOf(Tag(m.startedAt, m.transfer, peer, contact)) in r.disk.parts
            && env.finalizes && env.epochMillis.Some? && env.completes && m.transfer in r.db.received
  {
    assert Running(r, peer, env.last) ==> LookUp(LookUp(r, peer, env.now), peer, env.later) == r;
  }

  /** A confirmed end has given the part file its final name, and the record says that the
      transfer is complete. */
  lemma ConfirmedDoneCompletes(r: Receiver, peer: string, contact: Option<string>, req: FileRequest, env: Env)
    requires WellFormedReceiver(r) && req.Done? && InOrder(env)
    requires Respond(r, peer, contact, req, env).response == ConfirmDone
    ensures var r' := Respond(r, peer, contact, req, env).receiver;
            && peer in r.receiving && req.transfer in r.db.received
            && var m := r.receiving[peer].value;
               var name := NameOf(Tag(m.startedAt, req.transfer, peer, contact));
            && name in r.disk.parts && r'.disk.parts == r.disk.parts - {name} && r'.disk.files == r.disk.files
            && r'.disk.finals == r.disk.finals + [Final(peer, req.transfer, m.fileName, r.disk.parts[name])]
            && r'.db.received == r.db.received[req.transfer := r.db.received[req.transfer].(status := Completed)]
  {
    DoneIsConfirmedIff(r, peer, contact, req, env);
    assert LookUp(LookUp(r, peer, env.now), peer, env.later) == r;
  }

  /** An incomplete transfer goes on after a request to end it; one that is misnamed does not. */
  lemma EarlyDoneKeepsTransfer(r: Receiver, peer: string, contact: Option<string>, req: FileRequest, env: Env)
    requires WellFormedReceiver(r) && req.Done? && InOrder(env) && Running(r, peer, env.last)
    requires var m := r.receiving[peer].value; m.transfer != req.transfer || m.progress != m.declared
    ensures var reply := Respond(r, peer, contact, req, env);
            && reply.response == Violation && reply.receiver.disk == r.disk && reply.receiver.db == r.db
            && (peer in reply.receiver.receiving <==> r.receiving[peer].value.transfer == req.transfer)
            && (peer in reply.receiver.receiving ==> reply.receiver.receiving[peer].value == r.receiving[peer].value)
  {
    assert LookUp(LookUp(r, peer, env.now), peer, env.later) == r;
  }

  /** Without a running transfer an end is a violation; one that idles out while the request is
      handled is an error of the receiver. Nothing is finalised or recorded. */
  lemma DoneWithoutTransfer(r: Receiver, peer: string, contact: Option<string>, req: FileRequest, env: Env)
    requires WellFormedReceiver(r) && req.Done? && InOrder(env) && !Running(r, peer, env.last)
    ensures var Reply(r', response) := Respond(r, peer, contact, req, env);
            && response == (if Running(r, peer, env.later) then InternalError else Violation)
            && r'.disk == r.disk && r'.db == r.db && !Running(r', peer, env.last)
  {
    assert Running(r, peer, env.later) ==> LookUp(LookUp(r, peer, env.now), peer, env.later) == r;
  }

  // ----- Reports of violations -----

  /** A peer that reports a violation has no transfer afterwards; nothing else changes. */
  lemma ReportEndsTransfer(r: Receiver, peer: string, contact: Option<string>, env: Env)
    requires WellFormedReceiver(r)
    ensures var Reply(r', response) := Respond(r, peer, contact, ViolationReport, env);
            && response == AcknowledgeProtocolViolation
            && peer !in r'.receiving && r'.disk == r.disk && r'.db == r.db
  {
  }
}
