/** What the answers of the receiver mean, over every run: of the sender that is observed and of
    every other peer. */
module TransferAnswers {
  import opened Common
  import opened ChunkRing
  import opened PartFile
  import opened Receiver
  import opened ReceiverAnswers
  import opened ReceiverInvariant
  import opened Transfer
  import opened TransferSafety
  import opened TransferTheorems

  function Answer(sys: Sys, ev: Event): FileResponse
    requires ev.Request? && WellFormedReceiver(sys.receiver)
  {
    Respond(sys.receiver, ev.peer, ev.contact, ev.req, ev.env).response
  }

  /** Whatever guards are dropped, files and transfers stay sound. */
  lemma {:induction false} RunKeepsSound(sc: Scene, states: seq<Sys>, events: seq<Event>, dropped: set<Guard>, i: nat)
    requires IsRunBut(sc, states, events, dropped) && i < |states|
    ensures Sound(states[i].receiver) && RecordsInRange(states[i].receiver.db)
  {
    if i > 0 {
      RunKeepsSound(sc, states, events, dropped, i - 1);
      var sys, ev := states[i - 1], events[i - 1];
      assert states[i - 1 + 1] == Step(sc, sys, ev);
      match ev {
        case Request(peer, contact, req, env) =>
          RespondKeepsSound(sys.receiver, peer, contact, req, env);
          RespondKeepsRecordsInRange(sys.receiver, peer, contact, req, env);
        case OwnerEdits(_, _) => ExtendedDbKeepsSound(sys.receiver, states[i - 1 + 1].receiver.db);
        case _ =>
      }
    }
  }

  // ----- Aborts -----

  /** Over every run: when a request under the contact of the peer's transfer is confirmed as an
      abort, the part file of the transfer is gone and every other one is still there, the peer
      has no transfer, and the record says that it failed. */
  lemma ConfirmedAbortErases(sc: Scene, states: seq<Sys>, events: seq<Event>, dropped: set<Guard>, i: nat)
    requires IsRunBut(sc, states, events, dropped) && i < |events| && events[i].Request?
    requires events[i].peer in states[i].receiver.receiving
    requires states[i].receiver.receiving[events[i].peer].value.contact == events[i].contact
    requires Answer(states[i], events[i]) == ConfirmAbort
    ensures var peer := events[i].peer;
            var r, r' := states[i].receiver, states[i + 1].receiver;
            var m := r.receiving[peer].value;
            var name := NameOf(Tag(m.startedAt, m.transfer, peer, m.contact));
            && name !in r'.disk.parts
            && (forall n :: n != name ==> (n in r'.disk.parts <==> n in r.disk.parts))
            && (forall n :: n in r'.disk.parts ==> r'.disk.parts[n] == r.disk.parts[n])
            && r'.disk.files == r.disk.files && r'.disk.finals == r.disk.finals
            && peer !in r'.receiving
            && m.transfer in r'.db.received && r'.db.received[m.transfer].status == Failed
  {
    var ev, r := events[i], states[i].receiver;
    RunKeepsSound(sc, states, events, dropped, i);
    assert states[i + 1] == Step(sc, states[i], ev);
    OnlyAbortsAreConfirmed(r, ev.peer, ev.contact, ev.req, ev.env);
    AbortIsConfirmedIff(r, ev.peer, ev.contact, ev.req, ev.env);
    ConfirmedAbortRemovesPart(r, ev.peer, ev.contact, ev.req, ev.env);
    assert ManagerSound(r.db, r.disk, ev.peer, r.receiving[ev.peer].value);
  }

  /** Over every run: an aborted transfer that is resumed next starts over at byte 0, if it is
      still admitted and its part file can be opened and measured. */
  lemma AbortedTransferStartsOver(sc: Scene, states: seq<Sys>, events: seq<Event>, dropped: set<Guard>, i: nat)
    requires IsRunBut(sc, states, events, dropped) && i + 1 < |events| && events[i].Request? && events[i + 1].Request?
    requires events[i].peer in states[i].receiver.receiving
    requires states[i].receiver.receiving[events[i].peer].value.contact == events[i].contact
    requires Answer(states[i], events[i]) == ConfirmAbort
    requires var ev, db := events[i + 1], states[i + 1].receiver.db;
             && ev.peer == events[i].peer && ev.contact == events[i].contact && ev.req.ContinueTransfer?
             && ev.req.transfer == states[i].receiver.receiving[ev.peer].value.transfer
             && Invites(db, ev.req.filerequest, ev.contact) && ev.env.opens && ev.env.sizes
    ensures Answer(states[i + 1], events[i + 1]) == AcceptContinueTransfer(0)
  {
    var ev, r, r' := events[i + 1], states[i].receiver, states[i + 1].receiver;
    ConfirmedAbortErases(sc, states, events, dropped, i);
    RunKeepsSound(sc, states, events, dropped, i);
    assert ManagerSound(r.db, r.disk, ev.peer, r.receiving[ev.peer].value);
    AbortKeepsRecord(sc, states[i], events[i], ev.req.transfer);
    ContinueIsAcceptedIff(r', ev.peer, ev.contact, ev.req, ev.env);
  }

  lemma AbortKeepsRecord(sc: Scene, sys: Sys, ev: Event, transfer: string)
    requires WellFormedReceiver(sys.receiver) && ev.Request? && Possible(sc, sys, ev) && InOrder(ev.env)
    requires ev.peer in sys.receiver.receiving && sys.receiver.receiving[ev.peer].value.contact == ev.contact
    requires Answer(sys, ev) == ConfirmAbort
    requires transfer == sys.receiver.receiving[ev.peer].value.transfer && transfer in sys.receiver.db.received
    ensures var db' := Step(sc, sys, ev).receiver.db;
            transfer in db'.received &&
            db'.received[transfer].(status := Failed, progress := 0) == sys.receiver.db.received[transfer].(status := Failed, progress := 0)
  {
    OnlyAbortsAreConfirmed(sys.receiver, ev.peer, ev.contact, ev.req, ev.env);
    ConfirmedAbortRemovesPart(sys.receiver, ev.peer, ev.contact, ev.req, ev.env);
  }

  // ----- Resumes -----

  /** Over every run: a resume is accepted at exactly the length of the file that the transfer
      goes on writing to, which is the one named after the transfer, peer and contact, and it
      expects chunk 0 next. */
  lemma AcceptedOffsetIsFileLength(sc: Scene, states: seq<Sys>, events: seq<Event>, dropped: set<Guard>, i: nat)
    requires IsRunBut(sc, states, events, dropped) && i < |events| && events[i].Request? && events[i].req.ContinueTransfer?
    requires Answer(states[i], events[i]).AcceptContinueTransfer?
    ensures var ev, r' := events[i], states[i + 1].receiver;
            && ev.peer in r'.receiving
            && var m := r'.receiving[ev.peer].value;
            && m.transfer == ev.req.transfer && m.contact == ev.contact && m.filerequest == ev.req.filerequest
            && m.slots == EMPTY_SLOTS && m.earliest == 0
            && m.file < |r'.disk.files|
            && r'.disk.files[m.file].tag == Tag(m.startedAt, m.transfer, ev.peer, m.contact)
            && |r'.disk.files[m.file].content| == m.progress == Answer(states[i], ev).offset <= m.declared
  {
    var ev := events[i];
    RunKeepsSound(sc, states, events, dropped, i + 1);
    assert states[i + 1] == Step(sc, states[i], ev);
    var r' := states[i + 1].receiver;
    AcceptedContinueKeeps(states[i].receiver, ev.peer, ev.contact, ev.req, ev.env);
    assert ManagerSound(r'.db, r'.disk, ev.peer, r'.receiving[ev.peer].value);
  }

  lemma AcceptedContinueKeeps(r: Receiver, peer: string, contact: Option<string>, req: FileRequest, env: Env)
    requires WellFormedReceiver(r) && req.ContinueTransfer?
    requires Respond(r, peer, contact, req, env).response.AcceptContinueTransfer?
    ensures var reply := Respond(r, peer, contact, req, env);
            && peer in reply.receiver.receiving
            && var m := reply.receiver.receiving[peer].value;
            && m.transfer == req.transfer && m.contact == contact && m.filerequest == req.filerequest
            && m.slots == EMPTY_SLOTS && m.earliest == 0 && m.progress == reply.response.offset
  {
  }

  /** Over every run: when a resume of the observed transfer is accepted at an offset, its file
      holds exactly the source up to that offset. */
  lemma AcceptedOffsetIsReceived(sc: Scene, states: seq<Sys>, events: seq<Event>, i: nat)
    requires IsRun(sc, states, events) && i < |events| && events[i].Request? && events[i].peer == sc.peer
    requires events[i].req.ContinueTransfer? && events[i].req.transfer == sc.transfer
    requires Answer(states[i], events[i]).AcceptContinueTransfer?
    ensures var r' := states[i + 1].receiver;
            var offset := Answer(states[i], events[i]).offset;
            && sc.peer in r'.receiving && r'.receiving[sc.peer].value.file < |r'.disk.files|
            && offset <= |sc.source| && r'.disk.files[r'.receiving[sc.peer].value.file].content == sc.source[..offset]
  {
    AcceptedOffsetIsFileLength(sc, states, events, {}, i);
    var r' := states[i + 1].receiver;
    PartFileIsPrefixOfSource(sc, states, events, i + 1, r'.receiving[sc.peer].value.file);
  }

  // ----- Chunks -----

  /** Over every run: when a chunk under the contact of the peer's transfer is confirmed, the
      record says how many bytes the file of the transfer holds. */
  lemma ConfirmedChunkIsOnRecord(sc: Scene, states: seq<Sys>, events: seq<Event>, dropped: set<Guard>, i: nat)
    requires IsRunBut(sc, states, events, dropped) && i < |events| && events[i].Request? && events[i].req.ChunkOf?
    requires Fits(states[i].receiver, events[i].peer, events[i].contact, events[i].req.chunk, events[i].env.later)
    requires Answer(states[i], events[i]) == ConfirmChunk
    ensures var peer, r' := events[i].peer, states[i + 1].receiver;
            && peer in r'.receiving
            && var m := r'.receiving[peer].value;
            && m.transfer == events[i].req.chunk.transferId && m.transfer in r'.db.received && m.file < |r'.disk.files|
            && r'.db.received[m.transfer].status == Receiving
            && r'.db.received[m.transfer].progress == |r'.disk.files[m.file].content|
  {
    var ev, r := events[i], states[i].receiver;
    RunKeepsSound(sc, states, events, dropped, i);
    RunKeepsSound(sc, states, events, dropped, i + 1);
    assert states[i + 1] == Step(sc, states[i], ev);
    assert ManagerSound(r.db, r.disk, ev.peer, r.receiving[ev.peer].value);
    ChunkIsRecorded(r, ev.peer, ev.contact, ev.req, ev.env);
    ConfirmedChunkKeepsTransfer(r, ev.peer, ev.contact, ev.req, ev.env);
    var r' := states[i + 1].receiver;
    assert ManagerSound(r'.db, r'.disk, ev.peer, r'.receiving[ev.peer].value);
  }

  lemma ConfirmedChunkKeepsTransfer(r: Receiver, peer: string, contact: Option<string>, req: FileRequest, env: Env)
    requires WellFormedReceiver(r) && req.ChunkOf? && InOrder(env) && Fits(r, peer, contact, req.chunk, env.later)
    requires Respond(r, peer, contact, req, env).response == ConfirmChunk
    ensures var r' := Respond(r, peer, contact, req, env).receiver;
            peer in r'.receiving && r'.receiving[peer].value.transfer == req.chunk.transferId
  {
  }
}
