/** What holds of every run of the receiver with an honest sender among its peers. */
module TransferTheorems {
  import opened Common
  import opened LeastAbsent
  import opened ChunkRing
  import opened PartFile
  import opened Receiver
  import opened ReceiverAnswers
  import opened ReceiverInvariant
  import opened Transfer
  import opened TransferSafety
  import FileReader

  // ----- Every step keeps the invariant -----

  lemma StatusKeepsRange(db: Db, transfer: string, status: Status, progress: nat)
    requires RecordsInRange(db)
    ensures RecordsInRange(SetStatus(db, transfer, status, progress))
  {
  }

  lemma RecordKeepsRange(db: Db, transfer: string, record: Record)
    requires RecordsInRange(db) && I64_MIN <= record.startedAt <= I64_MAX
    ensures RecordsInRange(db.(received := db.received[transfer := record]))
  {
  }

  /** The records after a request: with a new one, with another status, or as before. */
  lemma RespondRecords(r: Receiver, peer: string, contact: Option<string>, req: FileRequest, env: Env)
      returns (transfer: string, status: Status, progress: nat)
    requires WellFormedReceiver(r) && !req.NewTransfer?
    ensures var db := Respond(r, peer, contact, req, env).receiver.db; db == r.db || db == SetStatus(r.db, transfer, status, progress)
  {
    transfer, status, progress := "", Receiving, 0;
    match req {
      case ContinueTransfer(_, t) => transfer, status := t, Failed;
      case AbortTransfer(_) =>
        var m := Find(LookUp(r, peer, env.now), peer, env.later);
        if m.Some? { transfer, status, progress := m.value.transfer, Failed, m.value.progress; }
      case ChunkOf(chunk) =>
        var m := Find(LookUp(r, peer, env.now), peer, env.later);
        if m.Some? {
          var stored := Store(RingOf(m.value, r.disk), chunk, env.room);
          transfer, status, progress := m.value.transfer, if stored.result.IoError? then Failed else Receiving, stored.ring.progress;
        }
      case Done(t) =>
        transfer, status, progress := t, Completed, if t in r.db.received then r.db.received[t].progress else 0;
      case _ =>
    }
  }

  lemma RespondKeepsRecordsInRange(r: Receiver, peer: string, contact: Option<string>, req: FileRequest, env: Env)
    requires WellFormedReceiver(r) && RecordsInRange(r.db)
    requires env.epochMillis.Some? ==> I64_MIN <= env.epochMillis.value <= I64_MAX
    ensures RecordsInRange(Respond(r, peer, contact, req, env).receiver.db)
  {
    if req.NewTransfer? {
      if env.epochMillis.Some? {
        RecordKeepsRange(r.db, req.transfer, Record(peer, contact, req.filerequest, req.fileName, req.size, env.epochMillis.value, Receiving, 0));
      }
    } else {
      var transfer, status, progress := RespondRecords(r, peer, contact, req, env);
      StatusKeepsRange(r.db, transfer, status, progress);
    }
  }

  lemma RequestKeepsInv(sc: Scene, sys: Sys, ev: Event)
    requires Inv(sc, sys) && WellFormedReceiver(sys.receiver) && ev.Request? && Allowed(sc, sys, ev)
    ensures Inv(sc, Step(sc, sys, ev))
  {
    RespondKeepsSound(sys.receiver, ev.peer, ev.contact, ev.req, ev.env);
    RespondKeepsRecordsInRange(sys.receiver, ev.peer, ev.contact, ev.req, ev.env);
    RequestKeepsHonest(sc, sys, ev);
  }

  lemma RequestKeepsHonest(sc: Scene, sys: Sys, ev: Event)
    requires Inv(sc, sys) && WellFormedReceiver(sys.receiver) && ev.Request? && Allowed(sc, sys, ev)
    ensures HonestAfter(sc, sys, ev, Respond(sys.receiver, ev.peer, ev.contact, ev.req, ev.env))
  {
    var r := sys.receiver;
    var r' := Respond(r, ev.peer, ev.contact, ev.req, ev.env).receiver;
    match ev.req {
      case NewTransfer(_, _, _, _) => NewKeepsHonest(sc, sys, ev);
      case ContinueTransfer(_, _) => ContinueKeepsHonest(sc, sys, ev);
      case AbortTransfer(_) =>
        AbortFrames(sc, sys, ev);
        FrameKeepsHonest(sc, r, sys.clock, r', ev.env.last, sys.start);
      case ChunkOf(_) => ChunkKeepsHonest(sc, sys, ev);
      case Done(_) => DoneKeepsHonest(sc, sys, ev);
      case ViolationReport =>
        LookUpFrames(sc, r, ev.peer, ev.env.now, sys.clock, ev.env.last);
        FrameKeepsHonest(sc, r, sys.clock, r', ev.env.last, sys.start);
    }
  }

  lemma SenderReadsKeepsInv(sc: Scene, sys: Sys, ev: Event)
    requires Inv(sc, sys) && WellFormedReceiver(sys.receiver) && ev.SenderReads? && Allowed(sc, sys, ev)
    ensures Inv(sc, Step(sc, sys, ev))
  {
  }

  lemma AckKeepsInv(sc: Scene, sys: Sys, ev: Event)
    requires Inv(sc, sys) && WellFormedReceiver(sys.receiver) && ev.AckArrives? && Allowed(sc, sys, ev)
    ensures Inv(sc, Step(sc, sys, ev))
  {
  }

  lemma StepKeepsInv(sc: Scene, sys: Sys, ev: Event)
    requires Inv(sc, sys) && WellFormedReceiver(sys.receiver) && Allowed(sc, sys, ev)
    ensures Inv(sc, Step(sc, sys, ev))
  {
    var r, r' := sys.receiver, Step(sc, sys, ev).receiver;
    match ev {
      case Request(_, _, _, _) => RequestKeepsInv(sc, sys, ev);
      case SenderReads(_) => SenderReadsKeepsInv(sc, sys, ev);
      case AckArrives(_) => AckKeepsInv(sc, sys, ev);
      case ReceiverRestarts =>
        SameFilesHonest(sc, r, r');
      case OwnerEdits(_, _) =>
        ExtendedDbKeepsSound(r, r'.db);
        DbFrames(sc, r, r'.db, sys.clock, sys.clock);
        FrameKeepsHonest(sc, r, sys.clock, r', sys.clock, sys.start);
    }
  }

  // ----- Runs -----

  lemma InitialInv(sc: Scene, sys: Sys)
    requires Initial(sys)
    ensures Inv(sc, sys)
  {
  }

  lemma {:induction false} RunKeepsInv(sc: Scene, states: seq<Sys>, events: seq<Event>, i: nat)
    requires IsRun(sc, states, events) && i < |states|
    ensures Inv(sc, states[i])
  {
    if i == 0 {
      InitialInv(sc, states[0]);
    } else {
      RunKeepsInv(sc, states, events, i - 1);
      assert states[i - 1 + 1] == Step(sc, states[i - 1], events[i - 1]);
      StepKeepsInv(sc, states[i - 1], events[i - 1]);
    }
  }

  /** In every state of every run, every part file and final file of the transfer holds a
      prefix of the source, and no file holds more than was declared for its transfer. */
  lemma PartFileIsPrefixOfSource(sc: Scene, states: seq<Sys>, events: seq<Event>, i: nat, f: nat)
    requires IsRun(sc, states, events) && i < |states| && f < |states[i].receiver.disk.files|
    ensures var r := states[i].receiver;
            && (Mine(sc, r.disk.files[f].tag) ==> r.disk.files[f].content <= sc.source)
            && (r.disk.files[f].content != [] ==>
                  && r.disk.files[f].tag.transfer in r.db.received
                  && |r.disk.files[f].content| <= r.db.received[r.disk.files[f].tag.transfer].size)
  {
    RunKeepsInv(sc, states, events, i);
  }

  /** In every state of every run, every finalised file of the transfer is the source, if the
      size declared for it is the source's. */
  lemma FinalisedFileIsSource(sc: Scene, states: seq<Sys>, events: seq<Event>, i: nat, k: nat)
    requires IsRun(sc, states, events) && i < |states|
    requires k < |states[i].receiver.disk.finals| && MyFinal(sc, states[i].receiver.disk.finals[k])
    ensures var r := states[i].receiver;
            && Owned(sc, r.db) && r.disk.finals[k].file < |r.disk.files|
            && (r.db.received[sc.transfer].size == |sc.source| ==> r.disk.files[r.disk.finals[k].file].content == sc.source)
  {
    RunKeepsInv(sc, states, events, i);
    assert FinalHonest(sc, states[i].receiver, states[i].receiver.disk.finals[k].file);
  }

  /** When the end of the transfer is confirmed, its file has just been finalised, it is the
      source if the declared size is the source's, and the record says that it is complete. */
  lemma ConfirmedDoneFinalisesSource(sc: Scene, states: seq<Sys>, events: seq<Event>, i: nat)
    requires IsRun(sc, states, events) && i < |events|
    requires events[i].Request? && events[i].peer == sc.peer && events[i].req == Done(sc.transfer)
    requires Respond(states[i].receiver, sc.peer, events[i].contact, events[i].req, events[i].env).response.ConfirmDone?
    ensures var before, after := states[i].receiver.disk, states[i + 1].receiver.disk;
            && |after.finals| == |before.finals| + 1
            && var final := after.finals[|before.finals|];
               && MyFinal(sc, final) && final.file < |after.files| && Owned(sc, states[i + 1].receiver.db)
               && states[i + 1].receiver.db.received[sc.transfer].status == Completed
               && (states[i + 1].receiver.db.received[sc.transfer].size == |sc.source| ==>
                     after.files[final.file].content == sc.source)
  {
    assert states[i + 1] == Step(sc, states[i], events[i]);
    ConfirmedDoneCompletes(states[i].receiver, sc.peer, events[i].contact, events[i].req, events[i].env);
    FinalisedFileIsSource(sc, states, events, i + 1, |states[i].receiver.disk.finals|);
  }

  // ----- The honest sender is never turned away -----

  /** While the transfer is alive in memory, a chunk of its sender within the declared size is
      confirmed unless the disk is full: it is never a protocol violation. */
  lemma HonestChunkIsTaken(sc: Scene, states: seq<Sys>, events: seq<Event>, i: nat)
    requires IsRun(sc, states, events) && i < |events|
    requires events[i].Request? && events[i].peer == sc.peer && events[i].req.ChunkOf?
    requires events[i].req.chunk.transferId == sc.transfer
    requires Alive(sc, states[i].receiver, events[i].env.later)
    requires var m := states[i].receiver.receiving[sc.peer].value;
             m.contact == events[i].contact && |sc.source| <= m.declared
    ensures var response := Respond(states[i].receiver, sc.peer, events[i].contact, events[i].req, events[i].env).response;
            response.ConfirmChunk? || response.InternalError?
  {
    RunKeepsInv(sc, states, events, i);
    var sys, ev := states[i], events[i];
    var s, m := sys.start.value, sys.receiver.receiving[sc.peer].value;
    assert ManagerSound(sys.receiver.db, sys.receiver.disk, sc.peer, m);
    StoreTakesHonestChunk(sc, sys.receiver, sys.clock, s, ev.req.chunk, ev.env.room);
    ChunkReachesRing(sc, sys.receiver, ev.req.chunk, ev.env);
  }

  /** A chunk for a live transfer is answered as its ring takes it. */
  lemma ChunkReachesRing(sc: Scene, r: Receiver, chunk: Chunk, env: Env)
    requires WellFormedReceiver(r) && Alive(sc, r, env.later) && env.now <= env.later && chunk.transferId == sc.transfer
    ensures var m := r.receiving[sc.peer].value;
            Respond(r, sc.peer, m.contact, ChunkOf(chunk), env) ==
            AfterStore(r, sc.peer, m, Store(RingOf(m, r.disk), chunk, env.room), env.later)
  {
    assert LookUp(r, sc.peer, env.now) == r;
  }

  lemma StoreTakesHonestChunk(sc: Scene, r: Receiver, clock: nat, s: Start, chunk: Chunk, room: nat)
    requires Sound(r) && Alive(sc, r, clock) && TransferHonest(sc, r, Some(s), clock) && StartHonest(sc, s)
    requires chunk.idx < |s.plan| && chunk == Chunk(sc.transfer, s.plan[chunk.idx], chunk.idx)
    requires |sc.source| <= r.receiving[sc.peer].value.declared
    ensures !Store(RingOf(r.receiving[sc.peer].value, r.disk), chunk, room).result.ProtocolViolation?
  {
    var ring := RingOf(r.receiving[sc.peer].value, r.disk);
    var inbox := Inbox(sc.source[..s.offset], s.seen);
    ReassemblesIsLeast(ring, inbox);
    LeastGrows(s.acked, s.seen.Keys);
    StoreKeepsPrefix(sc, r, clock, s, chunk, room);
    StoreRefines(ring, inbox, chunk, room);
    FileIsPrefix(sc, Confirmed(s, chunk));
    assert Admit(inbox, chunk).seen == Confirmed(s, chunk).seen;
  }

  /** When the sender has read the whole source and every chunk is acknowledged, the receiver
      has it all: ending the transfer is confirmed unless disk or database fail, or the source
      was finalised before. */
  lemma CompletedTransferIsConfirmed(sc: Scene, states: seq<Sys>, events: seq<Event>, i: nat)
    requires IsRun(sc, states, events) && i < |events|
    requires events[i].Request? && events[i].peer == sc.peer && events[i].req == Done(sc.transfer)
    requires Alive(sc, states[i].receiver, events[i].env.last) && Succeeds(events[i].env)
    requires var m := states[i].receiver.receiving[sc.peer].value;
             m.contact == events[i].contact && m.declared == |sc.source|
    requires states[i].start.Some? &&
             var s := states[i].start.value;
             s.offset + |Concat(s.plan)| == |sc.source| && forall k: nat :: k < |s.plan| ==> k in s.acked
    ensures var r := states[i].receiver;
            || Respond(r, sc.peer, events[i].contact, events[i].req, events[i].env).response == ConfirmDone
            || exists k: nat :: k < |r.disk.finals| && MyFinal(sc, r.disk.finals[k])
                 && r.disk.finals[k].file < |r.disk.files| && r.disk.files[r.disk.finals[k].file].content == sc.source
  {
    RunKeepsInv(sc, states, events, i);
    var r, m := states[i].receiver, states[i].receiver.receiving[sc.peer].value;
    assert ManagerSound(r.db, r.disk, sc.peer, m);
    EverythingIsWritten(sc, r, states[i].clock, states[i].start.value);
    if NameOf(OwnTag(sc, m)) in r.disk.parts {
      DoneFinalisesPart(r, sc.peer, events[i].contact, m, events[i].env);
    } else {
      var k: nat :| k < |r.disk.finals| && MyFinal(sc, r.disk.finals[k]);
      FinalisedFileIsSource(sc, states, events, i, k);
    }
  }

  lemma EverythingIsWritten(sc: Scene, r: Receiver, clock: nat, s: Start)
    requires Sound(r) && Alive(sc, r, clock) && TransferHonest(sc, r, Some(s), clock) && StartHonest(sc, s)
    requires s.offset + |Concat(s.plan)| == |sc.source| && forall k: nat :: k < |s.plan| ==> k in s.acked
    ensures r.disk.files[r.receiving[sc.peer].value.file].content == sc.source
  {
    var m := r.receiving[sc.peer].value;
    var inbox := Inbox(sc.source[..s.offset], s.seen);
    ReassemblesIsLeast(RingOf(m, r.disk), inbox);
    var k := Least(s.seen.Keys);
    SeenIsPrefix(sc, s, k);
    assert k >= |s.plan|;
    assert s.plan[..k] == s.plan;
    FileReader.ChunkingComplete(sc.source, s.offset, s.plan);
  }

  // ----- Where bytes come from -----

  /** Every transfer in memory was admitted by the brain for its peer and contact. */
  ghost predicate Granted(sys: Sys) {
    forall p :: p in sys.receiver.receiving ==>
      Grant(p, sys.receiver.receiving[p].value.contact, sys.receiver.receiving[p].value.transfer) in sys.grants
  }

  /** A transfer in memory after a request was there before, or the request was admitted. */
  lemma TransfersComeFromAdmission(r: Receiver, peer: string, contact: Option<string>, req: FileRequest, env: Env, p: string)
    requires WellFormedReceiver(r) && p in Respond(r, peer, contact, req, env).receiver.receiving
    ensures var m := Respond(r, peer, contact, req, env).receiver.receiving[p].value;
            || (p in r.receiving && r.receiving[p].value.contact == m.contact && r.receiving[p].value.transfer == m.transfer)
            || (p == peer && Admitted(r, peer, contact, req) && m.contact == contact && m.transfer == req.transfer)
  {
    match req {
      case NewTransfer(_, _, _, _) => NewComesFromAdmission(r, peer, contact, req, env, p);
      case ContinueTransfer(_, _) => ContinueComesFromAdmission(r, peer, contact, req, env, p);
      case _ => OthersStartNothing(r, peer, contact, req, env, p);
    }
  }

  ghost predicate SameTransfer(r: Receiver, p: string, m: Manager) {
    p in r.receiving && r.receiving[p].value.contact == m.contact && r.receiving[p].value.transfer == m.transfer
  }

  lemma NewComesFromAdmission(r: Receiver, peer: string, contact: Option<string>, req: FileRequest, env: Env, p: string)
    requires WellFormedReceiver(r) && req.NewTransfer? && p in OnNew(r, peer, contact, req, env).receiver.receiving
    ensures var m := OnNew(r, peer, contact, req, env).receiver.receiving[p].value;
            SameTransfer(r, p, m) || (p == peer && Admitted(r, peer, contact, req) && m.contact == contact && m.transfer == req.transfer)
  {
  }

  lemma ContinueComesFromAdmission(r: Receiver, peer: string, contact: Option<string>, req: FileRequest, env: Env, p: string)
    requires WellFormedReceiver(r) && req.ContinueTransfer? && p in OnContinue(r, peer, contact, req, env).receiver.receiving
    ensures var m := OnContinue(r, peer, contact, req, env).receiver.receiving[p].value;
            SameTransfer(r, p, m) || (p == peer && Admitted(r, peer, contact, req) && m.contact == contact && m.transfer == req.transfer)
  {
  }

  lemma OthersStartNothing(r: Receiver, peer: string, contact: Option<string>, req: FileRequest, env: Env, p: string)
    requires WellFormedReceiver(r) && !req.NewTransfer? && !req.ContinueTransfer?
    requires p in Respond(r, peer, contact, req, env).receiver.receiving
    ensures SameTransfer(r, p, Respond(r, peer, contact, req, env).receiver.receiving[p].value)
  {
  }

  ghost predicate KeepsFiles(r: Receiver, r': Receiver) {
    |r.disk.files| <= |r'.disk.files| && forall f: nat :: f < |r.disk.files| ==> r'.disk.files[f] == r.disk.files[f]
  }

  lemma NewKeepsFiles(r: Receiver, peer: string, contact: Option<string>, req: FileRequest, env: Env)
    requires WellFormedReceiver(r) && req.NewTransfer?
    ensures KeepsFiles(r, OnNew(r, peer, contact, req, env).receiver)
  {
  }

  lemma ContinueKeepsFiles(r: Receiver, peer: string, contact: Option<string>, req: FileRequest, env: Env)
    requires WellFormedReceiver(r) && req.ContinueTransfer?
    ensures KeepsFiles(r, OnContinue(r, peer, contact, req, env).receiver)
  {
  }

  lemma EndingKeepsFiles(r: Receiver, peer: string, contact: Option<string>, req: FileRequest, env: Env)
    requires WellFormedReceiver(r) && (req.Done? || req.AbortTransfer? || req.ViolationReport?)
    ensures KeepsFiles(r, Respond(r, peer, contact, req, env).receiver)
  {
  }

  /** A request changes the content of a file only if it is a chunk for the transfer that
      writes to the file, from its peer and contact. */
  lemma ContentChangesByChunk(r: Receiver, peer: string, contact: Option<string>, req: FileRequest, env: Env, f: nat)
    requires WellFormedReceiver(r) && f < |r.disk.files|
    ensures var files := Respond(r, peer, contact, req, env).receiver.disk.files;
            && f < |files| && files[f].tag == r.disk.files[f].tag
            && (files[f].content != r.disk.files[f].content ==>
                  && req.ChunkOf? && peer in r.receiving
                  && r.receiving[peer].value.file == f
                  && r.receiving[peer].value.transfer == req.chunk.transferId
                  && r.receiving[peer].value.contact == contact)
  {
    match req {
      case NewTransfer(_, _, _, _) => NewKeepsFiles(r, peer, contact, req, env);
      case ContinueTransfer(_, _) => ContinueKeepsFiles(r, peer, contact, req, env);
      case ChunkOf(_) =>
      case _ => EndingKeepsFiles(r, peer, contact, req, env);
    }
  }

  lemma {:induction false} RunKeepsGranted(sc: Scene, states: seq<Sys>, events: seq<Event>, i: nat)
    requires IsRun(sc, states, events) && i < |states|
    ensures Granted(states[i])
  {
    if i > 0 {
      RunKeepsGranted(sc, states, events, i - 1);
      var sys, ev, next := states[i - 1], events[i - 1], states[i - 1 + 1];
      if ev.Request? {
        forall p | p in next.receiver.receiving
          ensures Grant(p, next.receiver.receiving[p].value.contact, next.receiver.receiving[p].value.transfer) in next.grants
        {
          TransfersComeFromAdmission(sys.receiver, ev.peer, ev.contact, ev.req, ev.env, p);
        }
      }
    }
  }

  /** The peer and contact of a grant asked for the transfer when they were entitled to it: a
      new one by invitation or as the owner, a continued one by invitation and on record. */
  ghost predicate AdmittedAt(states: seq<Sys>, events: seq<Event>, j: nat, g: Grant)
    requires j < |events| <= |states|
  {
    && events[j].Request? && events[j].peer == g.peer && events[j].contact == g.contact
    && var db := states[j].receiver.db;
       match events[j].req
       case NewTransfer(filerequest, _, _, transfer) =>
         transfer == g.transfer && (Invites(db, filerequest, g.contact) || IsOwn(db, filerequest, g.contact))
       case ContinueTransfer(filerequest, transfer) =>
         transfer == g.transfer && Invites(db, filerequest, g.contact) && RecordedFor(db, transfer, g.peer, g.contact)
       case _ => false
  }

  lemma {:induction false} GrantsComeFromAdmission(sc: Scene, states: seq<Sys>, events: seq<Event>, i: nat, g: Grant)
    requires IsRun(sc, states, events) && i < |states| && g in states[i].grants
    ensures exists j: nat :: j < i && AdmittedAt(states, events, j, g)
  {
    if i > 0 {
      assert states[i - 1 + 1] == Step(sc, states[i - 1], events[i - 1]);
      if g in states[i - 1].grants {
        GrantsComeFromAdmission(sc, states, events, i - 1, g);
      } else {
        assert AdmittedAt(states, events, i - 1, g);
      }
    }
  }

  /** Over every run, whenever a step changes what a file holds, it is a chunk from the peer
      and contact the file is named after, for the transfer it is named after, and an earlier
      request of theirs named an active filerequest that was open to them. */
  lemma BytesComeFromAdmittedTransfers(sc: Scene, states: seq<Sys>, events: seq<Event>, i: nat, f: nat) returns (j: nat)
    requires IsRun(sc, states, events) && i < |events|
    requires f < |states[i].receiver.disk.files| && f < |states[i + 1].receiver.disk.files|
    requires states[i].receiver.disk.files[f].content != states[i + 1].receiver.disk.files[f].content
    ensures var tag := states[i + 1].receiver.disk.files[f].tag;
            && events[i].Request? && events[i].req.ChunkOf?
            && tag.peer == events[i].peer && tag.contact == events[i].contact
            && tag.transfer == events[i].req.chunk.transferId
            && j < i && AdmittedAt(states, events, j, Grant(tag.peer, tag.contact, tag.transfer))
  {
    RunKeepsInv(sc, states, events, i);
    RunKeepsGranted(sc, states, events, i);
    var sys, ev := states[i], events[i];
    assert states[i + 1] == Step(sc, sys, ev);
    ContentChangesByChunk(sys.receiver, ev.peer, ev.contact, ev.req, ev.env, f);
    assert ManagerSound(sys.receiver.db, sys.receiver.disk, ev.peer, sys.receiver.receiving[ev.peer].value);
    var g := Grant(ev.peer, ev.contact, ev.req.chunk.transferId);
    GrantsComeFromAdmission(sc, states, events, i, g);
    j :| j < i && AdmittedAt(states, events, j, g);
  }
}
