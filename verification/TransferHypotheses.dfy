/** Why the sender has to heed each guard. A transfer stays in memory after its file was
    finalised, so whatever appears under its part name afterwards is finalised in its stead;
    and a transfer that survives the order to start over takes chunks that were counted from
    byte 0 for the continuation of what it has. */
module TransferHypotheses {
  import opened Common
  import opened ChunkRing
  import opened PartFile
  import opened Receiver
  import opened ReceiverInvariant
  import opened Transfer
  import opened TransferTheorems

  // ----- From every reachable state -----

  /** A request to end the transfer, in time. */
  function Ending(sc: Scene, contact: Option<string>, at: nat): Event {
    Request(sc.peer, contact, Done(sc.transfer), Calm(at, 0, 0))
  }

  /** An environment in which nothing fails and no time passes. */
  function Calm(at: nat, stamp: int, room: nat): Env {
    Env(at, at, at, room, Some(stamp), true, true, true, true, true, true, InternalError)
  }

  /** One more final file for the transfer, and it is empty although something was declared. */
  ghost predicate FinalisesEmptyFile(sc: Scene, r: Receiver, r': Receiver) {
    && |r'.disk.finals| == |r.disk.finals| + 1
    && var final := r'.disk.finals[|r.disk.finals|];
       && MyFinal(sc, final) && final.file < |r'.disk.files| && r'.disk.files[final.file].content == []
       && Owned(sc, r'.db) && 0 < r'.db.received[sc.transfer].size
  }

  lemma EmptyFinalIsWrong(sc: Scene, r: Receiver, r': Receiver)
    requires FinalisesEmptyFile(sc, r, r')
    ensures !FilesHonest(sc, r')
  {
    assert !FinalHonest(sc, r', r'.disk.finals[|r.disk.finals|].file);
  }

  lemma DoneRecords(r: Receiver, peer: string, contact: Option<string>, t: string, env: Env)
    requires WellFormedReceiver(r)
    ensures DbExtends(r.db, Respond(r, peer, contact, Done(t), env).receiver.db)
  {
  }

  /** An empty part file under the transfer's name is finalised by the next end. */
  lemma NewPartIsFinalised(sc: Scene, r: Receiver, at: nat)
    requires Sound(r) && Alive(sc, r, at)
    requires var m := r.receiving[sc.peer].value;
             && 0 < m.declared == m.progress && PlainIds(m.contact, sc.peer) && NameOf(OwnTag(sc, m)) !in r.disk.parts
    ensures var m := r.receiving[sc.peer].value;
            var r' := r.(disk := OpenPart(r.disk, OwnTag(sc, m)).0);
            && WellFormedReceiver(r')
            && var reply := Respond(r', sc.peer, m.contact, Done(sc.transfer), Calm(at, 0, 0));
               reply.response == ConfirmDone && FinalisesEmptyFile(sc, r, reply.receiver)
  {
    var m := r.receiving[sc.peer].value;
    assert ManagerSound(r.db, r.disk, sc.peer, m);
    OpenKeepsSound(r, OwnTag(sc, m));
    var r' := r.(disk := OpenPart(r.disk, OwnTag(sc, m)).0);
    SoundIsWellFormed(r');
    DoneFinalisesPart(r', sc.peer, m.contact, m, Calm(at, 0, 0));
    DoneRecords(r', sc.peer, m.contact, sc.transfer, Calm(at, 0, 0));
  }

  ghost predicate Unheeded(sc: Scene, sys: Sys, ev: Event, g: Guard) {
    && Inv(sc, sys) && WellFormedReceiver(sys.receiver)
    && AllowedBut(sc, sys, ev, {g}) && ev.Request? && ev.peer == sc.peer && !Heeds(sc, sys.receiver, ev.contact, ev.req, ev.env, g)
  }

  lemma EndingIsAllowed(sc: Scene, sys: Sys, at: nat, g: Guard)
    requires Alive(sc, sys.receiver, at) && sys.clock <= at && PlainIds(sys.receiver.receiving[sc.peer].value.contact, sc.peer)
    ensures AllowedBut(sc, sys, Ending(sc, sys.receiver.receiving[sc.peer].value.contact, at), {g})
  {
  }

  /** If a spent transfer is started again with its stamp and contact, the start is refused, and
      the next end is confirmed and finalises an empty file. */
  lemma RepeatedStampBreaks(sc: Scene, sys: Sys, ev: Event) returns (end: Event)
    requires Unheeded(sc, sys, ev, FreshStamp)
    ensures var sys' := Step(sc, sys, ev);
            && AllowedBut(sc, sys', end, {FreshStamp}) && end.Request? && end.peer == sc.peer && end.req == Done(sc.transfer)
            && Respond(sys'.receiver, sc.peer, end.contact, end.req, end.env).response == ConfirmDone
            && FinalisesEmptyFile(sc, sys.receiver, Step(sc, sys', end).receiver)
  {
    var r, at := sys.receiver, ev.env.last;
    var m := r.receiving[sc.peer].value;
    assert ManagerSound(r.db, r.disk, sc.peer, m);
    assert Respond(r, sc.peer, ev.contact, ev.req, ev.env).receiver == r.(disk := OpenPart(r.disk, OwnTag(sc, m)).0);
    NewPartIsFinalised(sc, r, at);
    end := Ending(sc, m.contact, at);
    EndingIsAllowed(sc, Step(sc, sys, ev), at, FreshStamp);
  }

  lemma UnreadResume(sc: Scene, sys: Sys, ev: Event)
    requires Unheeded(sc, sys, ev, ReadableSize)
    ensures var r, m := sys.receiver, sys.receiver.receiving[sc.peer].value;
            Respond(r, sc.peer, ev.contact, ev.req, ev.env).receiver ==
            Keep(r, sc.peer, m, ev.env.later).(disk := OpenPart(r.disk, OwnTag(sc, m)).0)
  {
    var r, m := sys.receiver, sys.receiver.receiving[sc.peer].value;
    assert ManagerSound(r.db, r.disk, sc.peer, m);
    assert LookUp(r, sc.peer, ev.env.now) == r;
  }

  /** If a spent transfer is resumed in another filerequest and the size of the part file cannot
      be read, the resume fails, and the next end is confirmed and finalises an empty file. */
  lemma UnreadSizeBreaks(sc: Scene, sys: Sys, ev: Event) returns (end: Event)
    requires Unheeded(sc, sys, ev, ReadableSize)
    ensures var sys' := Step(sc, sys, ev);
            && AllowedBut(sc, sys', end, {ReadableSize}) && end.Request? && end.peer == sc.peer && end.req == Done(sc.transfer)
            && Respond(sys'.receiver, sc.peer, end.contact, end.req, end.env).response == ConfirmDone
            && FinalisesEmptyFile(sc, sys.receiver, Step(sc, sys', end).receiver)
  {
    var r, at := sys.receiver, ev.env.last;
    var m := r.receiving[sc.peer].value;
    assert ManagerSound(r.db, r.disk, sc.peer, m);
    UnreadResume(sc, sys, ev);
    KeepKeepsSound(r, sc.peer, m, ev.env.later);
    NewPartIsFinalised(sc, Keep(r, sc.peer, m, ev.env.later), at);
    end := Ending(sc, m.contact, at);
    EndingIsAllowed(sc, Step(sc, sys, ev), at, ReadableSize);
  }

  /** Ending the complete transfer under another contact that has a part file finalises that
      file, which is empty. */
  lemma OtherContactBreaks(sc: Scene, sys: Sys, ev: Event)
    requires Unheeded(sc, sys, ev, OwnContact)
    ensures FinalisesEmptyFile(sc, sys.receiver, Step(sc, sys, ev).receiver)
  {
    var r, m := sys.receiver, sys.receiver.receiving[sc.peer].value;
    var tag := Tag(m.startedAt, sc.transfer, sc.peer, ev.contact);
    assert ManagerSound(r.db, r.disk, sc.peer, m);
    PartHasTag(r, tag);
    DoneEnds(r, sc.peer, ev.contact, m, ev.env);
    DoneRecords(r, sc.peer, ev.contact, sc.transfer, ev.env);
  }

  lemma RefusedResumeReply(sc: Scene, r: Receiver, contact: Option<string>, req: FileRequest, env: Env)
    requires WellFormedReceiver(r) && env.now <= env.later && req.ContinueTransfer?
    requires Alive(sc, r, env.later) && !Resumes(r.receiving[sc.peer].value, contact, req)
    requires !(AdmitsContinue(r.db, req.filerequest, contact, sc.peer, req.transfer) && env.opens)
    ensures var reply := Respond(r, sc.peer, contact, req, env);
            && reply.response == RestartContinueTransfer
            && reply.receiver.receiving == Keep(r, sc.peer, r.receiving[sc.peer].value, env.later).receiving
            && reply.receiver.disk == r.disk
  {
    assert LookUp(r, sc.peer, env.now) == r;
  }

  lemma RefusedResume(sc: Scene, sys: Sys, ev: Event)
    requires Unheeded(sc, sys, ev, NoSurvivor)
    ensures var r, reply := sys.receiver, Respond(sys.receiver, sc.peer, ev.contact, ev.req, ev.env);
            && reply.response == RestartContinueTransfer
            && reply.receiver.receiving == Keep(r, sc.peer, r.receiving[sc.peer].value, ev.env.later).receiving
            && reply.receiver.disk == r.disk
  {
    RefusedResumeReply(sc, sys.receiver, ev.contact, ev.req, ev.env);
  }

  /** A ring that was just emptied takes chunk 0 for what comes next. */
  lemma EmptyRingTakesFirst(r: Ring, chunk: Chunk)
    requires r.slots == EMPTY_SLOTS && r.earliest == 0 && chunk.idx == 0 && r.progress + |chunk.data| <= r.declared
    ensures var s := Store(r, chunk, |chunk.data|); s.result.Received? && s.ring.file == r.file + chunk.data
  {
    var filled := r.(slots := r.slots[0 := Some(chunk)]);
    assert Store(r, chunk, |chunk.data|) == Drain(filled, |chunk.data|) == Drain(Append(filled, chunk.data), 0);
    assert Append(filled, chunk.data).slots[1] == None;
  }

  /** If a resumed transfer survives the order to start over, the first piece of the source is
      appended to what the file holds; for a source that does not repeat itself there, the
      file is no longer a prefix of it. */
  lemma SurvivorBreaks(sc: Scene, sys: Sys, ev: Event) returns (read: Event, send: Event)
    requires Unheeded(sc, sys, ev, NoSurvivor)
    requires var m := sys.receiver.receiving[sc.peer].value;
             && m.slots == EMPTY_SLOTS && m.earliest == 0 && m.progress < m.declared && PlainIds(m.contact, sc.peer)
             && m.progress < |sc.source| && sc.source[m.progress] != sc.source[0]
    ensures var sys1 := Step(sc, sys, ev);
            && AllowedBut(sc, sys1, read, {NoSurvivor})
            && var sys2 := Step(sc, sys1, read);
            && AllowedBut(sc, sys2, send, {NoSurvivor}) && send.Request? && send.req.ChunkOf?
            && Respond(sys2.receiver, sc.peer, send.contact, send.req, send.env).response == ConfirmChunk
            && !FilesHonest(sc, Step(sc, sys2, send).receiver)
  {
    var r, m := sys.receiver, sys.receiver.receiving[sc.peer].value;
    assert ManagerSound(r.db, r.disk, sc.peer, m);
    RefusedResume(sc, sys, ev);
    read, send := FirstPieceBreaks(sc, Step(sc, sys, ev), {NoSurvivor});
  }

  /** A sender that starts over while the receiver holds part of the source. */
  lemma FirstPieceBreaks(sc: Scene, sys1: Sys, dropped: set<Guard>) returns (read: Event, send: Event)
    requires WellFormedReceiver(sys1.receiver) && Alive(sc, sys1.receiver, sys1.clock) && sys1.start == Some(FRESH)
    requires var m := sys1.receiver.receiving[sc.peer].value;
             && m.slots == EMPTY_SLOTS && m.earliest == 0 && m.progress < m.declared && PlainIds(m.contact, sc.peer)
             && m.progress < |sc.source| && sc.source[m.progress] != sc.source[0]
             && m.progress == |sys1.receiver.disk.files[m.file].content| && Mine(sc, sys1.receiver.disk.files[m.file].tag)
    ensures && AllowedBut(sc, sys1, read, dropped)
            && var sys2 := Step(sc, sys1, read);
            && AllowedBut(sc, sys2, send, dropped) && send.Request? && send.req.ChunkOf?
            && Respond(sys2.receiver, sc.peer, send.contact, send.req, send.env).response == ConfirmChunk
            && !FilesHonest(sc, Step(sc, sys2, send).receiver)
  {
    var r, m := sys1.receiver, sys1.receiver.receiving[sc.peer].value;
    read := SenderReads(1);
    var sys2 := Step(sc, sys1, read);
    assert sys2.start.value.plan == [sc.source[0..1]];
    var chunk := Chunk(sc.transfer, sc.source[0..1], 0);
    send := Request(sc.peer, m.contact, ChunkOf(chunk), Calm(sys1.clock, 0, 1));
    FirstChunkIsAppended(sc, r, chunk, sys1.clock);
    var r3 := Step(sc, sys2, send).receiver;
    assert r3.disk.files[m.file].content[m.progress] == sc.source[0];
    assert Mine(sc, r3.disk.files[m.file].tag);
  }

  lemma FirstChunkIsAppended(sc: Scene, r: Receiver, chunk: Chunk, at: nat)
    requires WellFormedReceiver(r) && Alive(sc, r, at) && chunk.transferId == sc.transfer && chunk.idx == 0 && |chunk.data| == 1
    requires var m := r.receiving[sc.peer].value; m.slots == EMPTY_SLOTS && m.earliest == 0 && m.progress < m.declared
    ensures var m := r.receiving[sc.peer].value;
            var reply := Respond(r, sc.peer, m.contact, ChunkOf(chunk), Calm(at, 0, 1));
            && reply.response == ConfirmChunk
            && |reply.receiver.disk.files| == |r.disk.files|
            && reply.receiver.disk.files[m.file] == r.disk.files[m.file].(content := r.disk.files[m.file].content + chunk.data)
  {
    var m := r.receiving[sc.peer].value;
    assert LookUp(r, sc.peer, at) == r;
    EmptyRingTakesFirst(RingOf(m, r.disk), chunk);
  }

  // ----- The guards are exact -----

  /** However the transfer is ended next, its finalised files are as long as was declared. */
  ghost predicate EndsWell(sc: Scene, sys: Sys, g: Guard) {
    forall contact: Option<string>, env: Env :: AllowedBut(sc, sys, Request(sc.peer, contact, Done(sc.transfer), env), {g}) ==>
      WellFormedReceiver(sys.receiver) && FilesHonest(sc, Step(sc, sys, Request(sc.peer, contact, Done(sc.transfer), env)).receiver)
  }

  lemma HeededIsAllowed(sc: Scene, sys: Sys, ev: Event, g: Guard)
    requires AllowedBut(sc, sys, ev, {g}) && ev.Request? && Heeds(sc, sys.receiver, ev.contact, ev.req, ev.env, g)
    ensures Allowed(sc, sys, ev)
  {
  }

  lemma HeededEndsWell(sc: Scene, sys: Sys, ev: Event, g: Guard)
    requires Inv(sc, sys) && WellFormedReceiver(sys.receiver) && AllowedBut(sc, sys, ev, {g}) && ev.Request? && g != OwnContact
    requires Heeds(sc, sys.receiver, ev.contact, ev.req, ev.env, g)
    ensures EndsWell(sc, Step(sc, sys, ev), g)
  {
    HeededIsAllowed(sc, sys, ev, g);
    StepKeepsInv(sc, sys, ev);
    var sys' := Step(sc, sys, ev);
    forall contact: Option<string>, env: Env | AllowedBut(sc, sys', Request(sc.peer, contact, Done(sc.transfer), env), {g})
      ensures FilesHonest(sc, Step(sc, sys', Request(sc.peer, contact, Done(sc.transfer), env)).receiver)
    {
      var end := Request(sc.peer, contact, Done(sc.transfer), env);
      HeededIsAllowed(sc, sys', end, g);
      StepKeepsInv(sc, sys', end);
    }
  }

  /** In every state that a run can reach, a request that heeds the other guards leads to a
      wrong final file by the next end exactly if it does not heed this one. */
  lemma FreshStampIsExact(sc: Scene, sys: Sys, ev: Event)
    requires Inv(sc, sys) && WellFormedReceiver(sys.receiver) && AllowedBut(sc, sys, ev, {FreshStamp})
    requires ev.Request? && ev.peer == sc.peer
    ensures Heeds(sc, sys.receiver, ev.contact, ev.req, ev.env, FreshStamp) <==> EndsWell(sc, Step(sc, sys, ev), FreshStamp)
  {
    if Heeds(sc, sys.receiver, ev.contact, ev.req, ev.env, FreshStamp) {
      HeededEndsWell(sc, sys, ev, FreshStamp);
    } else {
      var end := RepeatedStampBreaks(sc, sys, ev);
      EmptyFinalIsWrong(sc, sys.receiver, Step(sc, Step(sc, sys, ev), end).receiver);
    }
  }

  lemma ReadableSizeIsExact(sc: Scene, sys: Sys, ev: Event)
    requires Inv(sc, sys) && WellFormedReceiver(sys.receiver) && AllowedBut(sc, sys, ev, {ReadableSize})
    requires ev.Request? && ev.peer == sc.peer
    ensures Heeds(sc, sys.receiver, ev.contact, ev.req, ev.env, ReadableSize) <==> EndsWell(sc, Step(sc, sys, ev), ReadableSize)
  {
    if Heeds(sc, sys.receiver, ev.contact, ev.req, ev.env, ReadableSize) {
      HeededEndsWell(sc, sys, ev, ReadableSize);
    } else {
      var end := UnreadSizeBreaks(sc, sys, ev);
      EmptyFinalIsWrong(sc, sys.receiver, Step(sc, Step(sc, sys, ev), end).receiver);
    }
  }

  /** A request that heeds the other guards finalises a wrong file exactly if it does not heed
      this one. */
  lemma OwnContactIsExact(sc: Scene, sys: Sys, ev: Event)
    requires Inv(sc, sys) && WellFormedReceiver(sys.receiver) && AllowedBut(sc, sys, ev, {OwnContact})
    requires ev.Request? && ev.peer == sc.peer
    ensures Heeds(sc, sys.receiver, ev.contact, ev.req, ev.env, OwnContact) <==> FilesHonest(sc, Step(sc, sys, ev).receiver)
  {
    if Heeds(sc, sys.receiver, ev.contact, ev.req, ev.env, OwnContact) {
      HeededIsAllowed(sc, sys, ev, OwnContact);
      StepKeepsInv(sc, sys, ev);
    } else {
      OtherContactBreaks(sc, sys, ev);
      EmptyFinalIsWrong(sc, sys.receiver, Step(sc, sys, ev).receiver);
    }
  }

  lemma NothingSeenIsPristine(m: Manager, disk: Disk, inbox: Inbox)
    requires m.file < |disk.files| && inbox == Inbox([], map[]) && Reassembles(RingOf(m, disk), inbox)
    ensures Pristine(m)
  {
    assert m.earliest > 0 ==> 0 in inbox.seen;
    forall j | 0 <= j < PARALLEL_CHUNKS ensures m.slots[j] == None {
      var i := SlotHolder(0, j);
      assert m.slots[i % PARALLEL_CHUNKS] == None;
    }
  }

  lemma SurvivorDisagrees(sc: Scene, sys: Sys, ev: Event)
    requires Unheeded(sc, sys, ev, NoSurvivor)
    ensures var next := Step(sc, sys, ev); !TransferHonest(sc, next.receiver, next.start, next.clock)
  {
    RefusedResume(sc, sys, ev);
    var r, m, next := sys.receiver, sys.receiver.receiving[sc.peer].value, Step(sc, sys, ev);
    assert ManagerSound(r.db, r.disk, sc.peer, m);
    assert next.start == Some(FRESH) && next.receiver.receiving[sc.peer].value == m && Alive(sc, next.receiver, next.clock);
    if Reassembles(RingOf(m, r.disk), Inbox(sc.source[..0], map[])) {
      NothingSeenIsPristine(m, r.disk, Inbox(sc.source[..0], map[]));
    }
  }

  /** After a request that heeds the other guards, the receiver has reassembled what the sender
      has sent since it last started exactly if the request heeds this one. */
  lemma NoSurvivorIsExact(sc: Scene, sys: Sys, ev: Event)
    requires Inv(sc, sys) && WellFormedReceiver(sys.receiver) && AllowedBut(sc, sys, ev, {NoSurvivor})
    requires ev.Request? && ev.peer == sc.peer
    ensures var next := Step(sc, sys, ev);
            Heeds(sc, sys.receiver, ev.contact, ev.req, ev.env, NoSurvivor)
            <==> TransferHonest(sc, next.receiver, next.start, next.clock)
  {
    if Heeds(sc, sys.receiver, ev.contact, ev.req, ev.env, NoSurvivor) {
      HeededIsAllowed(sc, sys, ev, NoSurvivor);
      StepKeepsInv(sc, sys, ev);
    } else {
      SurvivorDisagrees(sc, sys, ev);
    }
  }
}
