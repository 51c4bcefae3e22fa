/** For every guard a run from the beginning in which the sender heeds all the others and a
    wrong file is finalised. */
module TransferBreaks {
  import opened Common
  import opened ChunkRing
  import opened PartFile
  import opened Receiver
  import opened ReceiverInvariant
  import opened Transfer
  import opened TransferTheorems
  import opened TransferHypotheses

  const STAMP: int := 5

  /** Two filerequests that anyone may use. */
  const FILEREQUESTS: map<string, Filerequest> := map["a" := Filerequest(true, Public), "b" := Filerequest(true, Public)]

  function Beginning(): Sys {
    Sys(Receiver(map[], Db(FILEREQUESTS, map[], None), Disk([], map[], [])), None, {}, 0)
  }

  /** A run that ends in a given state, heeding the guards that are not dropped. */
  ghost predicate Reaches(sc: Scene, states: seq<Sys>, events: seq<Event>, dropped: set<Guard>, sys: Sys) {
    IsRunBut(sc, states, events, dropped) && states[|events|] == sys
  }

  lemma Extend(sc: Scene, states: seq<Sys>, events: seq<Event>, dropped: set<Guard>, sys: Sys, ev: Event)
    requires Reaches(sc, states, events, dropped, sys) && WellFormedReceiver(sys.receiver) && AllowedBut(sc, sys, ev, dropped)
    ensures Reaches(sc, states + [Step(sc, sys, ev)], events + [ev], dropped, Step(sc, sys, ev))
  {
    var states', events' := states + [Step(sc, sys, ev)], events + [ev];
    forall i | 0 <= i < |events'|
      ensures WellFormedReceiver(states'[i].receiver) && AllowedBut(sc, states'[i], events'[i], dropped)
      ensures states'[i + 1] == Step(sc, states'[i], events'[i])
    {
      assert i < |events| ==> states'[i] == states[i] && states'[i + 1] == states[i + 1] && events'[i] == events[i];
      assert i == |events| ==> states'[i] == sys && events'[i] == ev;
    }
  }

  lemma DropGuard(sc: Scene, states: seq<Sys>, events: seq<Event>, sys: Sys, g: Guard)
    requires Reaches(sc, states, events, {}, sys)
    ensures Reaches(sc, states, events, {g}, sys)
  {
    forall i | 0 <= i < |events| ensures AllowedBut(sc, states[i], events[i], {g}) {
      assert AllowedBut(sc, states[i], events[i], {});
    }
  }

  /** The transfer in memory and on record, at time 0, with no chunk waiting. */
  ghost predicate Stage(sc: Scene, sys: Sys, contact: Option<string>, size: nat, progress: nat, earliest: nat) {
    && WellFormedReceiver(sys.receiver) && sys.clock == 0 && Alive(sc, sys.receiver, 0)
    && sys.receiver.db.filerequests == FILEREQUESTS && Owned(sc, sys.receiver.db)
    && sys.receiver.db.received[sc.transfer].contact == contact
    && sys.receiver.receiving[sc.peer].touched == 0
    && var m := sys.receiver.receiving[sc.peer].value;
       m == Manager(EMPTY_SLOTS, earliest, size, progress, m.file, "f", sc.transfer, "a", contact, STAMP)
  }

  function Asks(sc: Scene, contact: Option<string>, req: FileRequest, room: nat): Event {
    Request(sc.peer, contact, req, Calm(0, STAMP, room))
  }

  /** The transfer is accepted. */
  lemma Opens(sc: Scene, sys: Sys, contact: Option<string>, size: nat, dropped: set<Guard>) returns (ev: Event)
    requires WellFormedReceiver(sys.receiver) && sys.receiver.receiving == map[] && sys.receiver.db == Db(FILEREQUESTS, map[], None)
    requires sys.clock == 0 && PlainIds(contact, sc.peer)
    ensures AllowedBut(sc, sys, ev, dropped)
    ensures var sys' := Step(sc, sys, ev);
            && Stage(sc, sys', contact, size, 0, 0) && sys'.start == Some(FRESH)
            && NameOf(Tag(STAMP, sc.transfer, sc.peer, contact)) in sys'.receiver.disk.parts
            && (forall n :: n in sys.receiver.disk.parts ==> n in sys'.receiver.disk.parts)
  {
    ev := Asks(sc, contact, NewTransfer("a", "f", size, sc.transfer), 0);
  }

  lemma OneChunkEmptiesRing(r: Ring, chunk: Chunk)
    requires r.slots == EMPTY_SLOTS && r.earliest == 0 && chunk.idx == 0 && r.progress + |chunk.data| <= r.declared
    ensures Store(r, chunk, |chunk.data|) ==
            Stored(Ring(EMPTY_SLOTS, 1, r.declared, r.progress + |chunk.data|, r.file + chunk.data), Received)
  {
    var filled := r.(slots := r.slots[0 := Some(chunk)]);
    var next := Append(filled, chunk.data);
    assert next.slots == EMPTY_SLOTS;
    assert Drain(next, 0) == Stored(next, Received);
    assert Store(r, chunk, |chunk.data|) == Drain(filled, |chunk.data|) == Drain(next, 0);
  }

  lemma TakesChunk(sc: Scene, sys: Sys, contact: Option<string>, size: nat, progress: nat, chunk: Chunk)
    requires Stage(sc, sys, contact, size, progress, 0) && progress + |chunk.data| <= size
    requires chunk.idx == 0 && chunk.transferId == sc.transfer
    ensures var next := Step(sc, sys, Asks(sc, contact, ChunkOf(chunk), |chunk.data|));
            && Stage(sc, next, contact, size, progress + |chunk.data|, 1) && next.receiver.disk.parts == sys.receiver.disk.parts
            && var file := sys.receiver.receiving[sc.peer].value.file;
               && next.receiver.receiving[sc.peer].value.file == file
               && next.receiver.disk.files[file].content == sys.receiver.disk.files[file].content + chunk.data
  {
    var r, m := sys.receiver, sys.receiver.receiving[sc.peer].value;
    assert LookUp(r, sc.peer, 0) == r;
    OneChunkEmptiesRing(RingOf(m, r.disk), chunk);
  }

  /** The first n bytes are sent as one chunk, and taken. */
  lemma Sends(sc: Scene, sys: Sys, contact: Option<string>, size: nat, n: nat, dropped: set<Guard>) returns (read: Event, send: Event)
    requires Stage(sc, sys, contact, size, 0, 0) && sys.start == Some(FRESH) && 0 < n <= size && n <= |sc.source|
    requires PlainIds(contact, sc.peer)
    ensures AllowedBut(sc, sys, read, dropped)
    ensures var sys1 := Step(sc, sys, read);
            && WellFormedReceiver(sys1.receiver) && AllowedBut(sc, sys1, send, dropped)
            && var sys2 := Step(sc, sys1, send);
               Stage(sc, sys2, contact, size, n, 1) && sys2.receiver.disk.parts == sys.receiver.disk.parts
  {
    read := SenderReads(n);
    var sys1 := Step(sc, sys, read);
    var chunk := Chunk(sc.transfer, sc.source[0..n], 0);
    assert sys1.start.value.plan == [chunk.data];
    send := Asks(sc, contact, ChunkOf(chunk), n);
    TakesChunk(sc, sys1, contact, size, 0, chunk);
  }

  /** A run to a transfer of which the first n bytes have arrived. */
  lemma Begins(sc: Scene, states0: seq<Sys>, events0: seq<Event>, sys: Sys, contact: Option<string>, size: nat, n: nat)
      returns (states: seq<Sys>, events: seq<Event>, sys': Sys)
    requires Reaches(sc, states0, events0, {}, sys)
    requires WellFormedReceiver(sys.receiver) && sys.receiver.receiving == map[] && sys.receiver.db == Db(FILEREQUESTS, map[], None)
    requires sys.clock == 0 && PlainIds(contact, sc.peer) && 0 < n <= size && n <= |sc.source|
    ensures Reaches(sc, states, events, {}, sys') && Stage(sc, sys', contact, size, n, 1)
    ensures NameOf(Tag(STAMP, sc.transfer, sc.peer, contact)) in sys'.receiver.disk.parts
    ensures forall p :: p in sys.receiver.disk.parts ==> p in sys'.receiver.disk.parts
  {
    var ev := Opens(sc, sys, contact, size, {});
    Extend(sc, states0, events0, {}, sys, ev);
    var sys1 := Step(sc, sys, ev);
    var read, send := Sends(sc, sys1, contact, size, n, {});
    Extend(sc, states0 + [sys1], events0 + [ev], {}, sys1, read);
    var sys2 := Step(sc, sys1, read);
    Extend(sc, states0 + [sys1] + [sys2], events0 + [ev] + [read], {}, sys2, send);
    sys' := Step(sc, sys2, send);
    states, events := states0 + [sys1] + [sys2] + [sys'], events0 + [ev] + [read] + [send];
  }

  lemma NothingYet(sc: Scene)
    ensures Reaches(sc, [Beginning()], [], {}, Beginning()) && WellFormedReceiver(Beginning().receiver)
  {
  }

  /** The complete transfer is ended: it is finalised and stays in memory. */
  lemma Finishes(sc: Scene, sys: Sys, contact: Option<string>, size: nat, earliest: nat) returns (ev: Event)
    requires Stage(sc, sys, contact, size, size, earliest) && 0 < size && PlainIds(contact, sc.peer)
    requires NameOf(Tag(STAMP, sc.transfer, sc.peer, contact)) in sys.receiver.disk.parts
    ensures AllowedBut(sc, sys, ev, {})
    ensures var sys' := Step(sc, sys, ev); Stage(sc, sys', contact, size, size, earliest) && Spent(sc, sys'.receiver, 0)
  {
    ev := Asks(sc, contact, Done(sc.transfer), 0);
    DoneEnds(sys.receiver, sc.peer, contact, sys.receiver.receiving[sc.peer].value, ev.env);
  }

  /** A run to a transfer that was finalised and is still in memory. */
  lemma Delivers(sc: Scene, contact: Option<string>) returns (states: seq<Sys>, events: seq<Event>, sys: Sys)
    requires sc.source != [] && PlainIds(contact, sc.peer)
    ensures Reaches(sc, states, events, {}, sys) && Inv(sc, sys)
    ensures Stage(sc, sys, contact, |sc.source|, |sc.source|, 1) && Spent(sc, sys.receiver, 0)
  {
    NothingYet(sc);
    var states0, events0, sys0 := Begins(sc, [Beginning()], [], Beginning(), contact, |sc.source|, |sc.source|);
    var ev := Finishes(sc, sys0, contact, |sc.source|, 1);
    Extend(sc, states0, events0, {}, sys0, ev);
    sys := Step(sc, sys0, ev);
    states, events := states0 + [sys], events0 + [ev];
    RunKeepsInv(sc, states, events, |events|);
  }

  /** A request that ends the transfer and is confirmed, after which the file just finalised is
      not the source although its size was declared. */
  ghost predicate ConfirmsWrong(sc: Scene, sys: Sys, ev: Event) {
    && WellFormedReceiver(sys.receiver) && ev.Request? && ev.peer == sc.peer && ev.req == Done(sc.transfer)
    && Respond(sys.receiver, sc.peer, ev.contact, ev.req, ev.env).response == ConfirmDone
    && var r := Step(sc, sys, ev).receiver;
       && Owned(sc, r.db) && r.db.received[sc.transfer].size == |sc.source|
       && |r.disk.finals| > 0
       && var final := r.disk.finals[|r.disk.finals| - 1];
          && MyFinal(sc, final) && final.file < |r.disk.files| && r.disk.files[final.file].content != sc.source
  }

  /** The last step of a run finalises a wrong file. */
  ghost predicate EndsWrong(sc: Scene, states: seq<Sys>, events: seq<Event>) {
    |states| == |events| + 1 && 0 < |events| && ConfirmsWrong(sc, states[|events| - 1], events[|events| - 1])
  }

  lemma Concludes(sc: Scene, states0: seq<Sys>, events0: seq<Event>, dropped: set<Guard>, sys: Sys, end: Event)
      returns (states: seq<Sys>, events: seq<Event>)
    requires Reaches(sc, states0, events0, dropped, sys) && AllowedBut(sc, sys, end, dropped) && ConfirmsWrong(sc, sys, end)
    ensures IsRunBut(sc, states, events, dropped) && EndsWrong(sc, states, events)
  {
    Extend(sc, states0, events0, dropped, sys, end);
    states, events := states0 + [Step(sc, sys, end)], events0 + [end];
    assert states[|events| - 1] == sys;
  }

  /** The record keeps its size. */
  lemma StepKeepsSize(sc: Scene, sys: Sys, ev: Event)
    requires WellFormedReceiver(sys.receiver) && Possible(sc, sys, ev) && Owned(sc, sys.receiver.db)
    ensures var db := Step(sc, sys, ev).receiver.db;
            Owned(sc, db) && db.received[sc.transfer].size == sys.receiver.db.received[sc.transfer].size
  {
    if ev.Request? && !ev.req.NewTransfer? {
      var t, status, progress := RespondRecords(sys.receiver, ev.peer, ev.contact, ev.req, ev.env);
    }
  }

  lemma EmptyIsWrong(sc: Scene, sys: Sys, ev: Event, g: Guard, end: Event)
    requires Unheeded(sc, sys, ev, g) && sc.source != []
    requires Owned(sc, sys.receiver.db) && sys.receiver.db.received[sc.transfer].size == |sc.source|
    requires var sys' := Step(sc, sys, ev);
             && AllowedBut(sc, sys', end, {g}) && end.Request? && end.peer == sc.peer && end.req == Done(sc.transfer)
             && Respond(sys'.receiver, sc.peer, end.contact, end.req, end.env).response == ConfirmDone
             && FinalisesEmptyFile(sc, sys.receiver, Step(sc, sys', end).receiver)
    ensures ConfirmsWrong(sc, Step(sc, sys, ev), end)
  {
    StepKeepsSize(sc, sys, ev);
    StepKeepsSize(sc, Step(sc, sys, ev), end);
  }

  lemma SizeOnRecord(sc: Scene, sys: Sys, contact: Option<string>, size: nat, progress: nat, earliest: nat)
    requires Stage(sc, sys, contact, size, progress, earliest) && Sound(sys.receiver)
    ensures sys.receiver.db.received[sc.transfer].size == size
  {
    assert ManagerSound(sys.receiver.db, sys.receiver.disk, sc.peer, sys.receiver.receiving[sc.peer].value);
  }

  lemma AgainIsUnheeded(sc: Scene, sys: Sys, contact: Option<string>)
    requires Stage(sc, sys, contact, |sc.source|, |sc.source|, 1) && Spent(sc, sys.receiver, 0) && PlainIds(contact, sc.peer)
    ensures var ev := Asks(sc, contact, NewTransfer("a", "f", |sc.source|, sc.transfer), 0);
            AllowedBut(sc, sys, ev, {FreshStamp}) && !Heeds(sc, sys.receiver, contact, ev.req, ev.env, FreshStamp)
  {
  }

  lemma AskedAgain(sc: Scene, sys: Sys, contact: Option<string>) returns (ev: Event, end: Event)
    requires Stage(sc, sys, contact, |sc.source|, |sc.source|, 1) && Spent(sc, sys.receiver, 0) && Inv(sc, sys)
    requires PlainIds(contact, sc.peer)
    ensures AllowedBut(sc, sys, ev, {FreshStamp})
    ensures var sys' := Step(sc, sys, ev); AllowedBut(sc, sys', end, {FreshStamp}) && ConfirmsWrong(sc, sys', end)
  {
    SizeOnRecord(sc, sys, contact, |sc.source|, |sc.source|, 1);
    ev := Asks(sc, contact, NewTransfer("a", "f", |sc.source|, sc.transfer), 0);
    AgainIsUnheeded(sc, sys, contact);
    end := RepeatedStampBreaks(sc, sys, ev);
    EmptyIsWrong(sc, sys, ev, FreshStamp, end);
  }

  /** Guard FreshStamp cannot be dropped: for every source that is not empty there is a run. */
  lemma WithoutFreshStamp(sc: Scene, contact: Option<string>) returns (states: seq<Sys>, events: seq<Event>)
    requires sc.source != [] && PlainIds(contact, sc.peer)
    ensures IsRunBut(sc, states, events, {FreshStamp}) && EndsWrong(sc, states, events)
  {
    var states0, events0, sys := Delivers(sc, contact);
    DropGuard(sc, states0, events0, sys, FreshStamp);
    var ev, end := AskedAgain(sc, sys, contact);
    Extend(sc, states0, events0, {FreshStamp}, sys, ev);
    var sys' := Step(sc, sys, ev);
    states, events := Concludes(sc, states0 + [sys'], events0 + [ev], {FreshStamp}, sys', end);
  }

  lemma AskedElsewhere(sc: Scene, sys: Sys, contact: Option<string>) returns (ev: Event, end: Event)
    requires Stage(sc, sys, contact, |sc.source|, |sc.source|, 1) && Spent(sc, sys.receiver, 0) && Inv(sc, sys)
    requires PlainIds(contact, sc.peer)
    ensures AllowedBut(sc, sys, ev, {ReadableSize})
    ensures var sys' := Step(sc, sys, ev); AllowedBut(sc, sys', end, {ReadableSize}) && ConfirmsWrong(sc, sys', end)
  {
    SizeOnRecord(sc, sys, contact, |sc.source|, |sc.source|, 1);
    ev := Request(sc.peer, contact, ContinueTransfer("b", sc.transfer), Calm(0, STAMP, 0).(sizes := false));
    assert !Heeds(sc, sys.receiver, ev.contact, ev.req, ev.env, ReadableSize);
    end := UnreadSizeBreaks(sc, sys, ev);
    EmptyIsWrong(sc, sys, ev, ReadableSize, end);
  }

  /** Guard ReadableSize cannot be dropped: for every source that is not empty there is a run. */
  lemma WithoutReadableSize(sc: Scene, contact: Option<string>) returns (states: seq<Sys>, events: seq<Event>)
    requires sc.source != [] && PlainIds(contact, sc.peer)
    ensures IsRunBut(sc, states, events, {ReadableSize}) && EndsWrong(sc, states, events)
  {
    var states0, events0, sys := Delivers(sc, contact);
    DropGuard(sc, states0, events0, sys, ReadableSize);
    var ev, end := AskedElsewhere(sc, sys, contact);
    Extend(sc, states0, events0, {ReadableSize}, sys, ev);
    var sys' := Step(sc, sys, ev);
    states, events := Concludes(sc, states0 + [sys'], events0 + [ev], {ReadableSize}, sys', end);
  }

  /** A start that could not be recorded leaves its part file. */
  lemma FailsToStart(sc: Scene, other: Option<string>, size: nat) returns (ev: Event)
    requires PlainIds(other, sc.peer)
    ensures AllowedBut(sc, Beginning(), ev, {})
    ensures var sys := Step(sc, Beginning(), ev);
            && sys.receiver.receiving == map[] && sys.receiver.db == Db(FILEREQUESTS, map[], None) && sys.clock == 0
            && NameOf(Tag(STAMP, sc.transfer, sc.peer, other)) in sys.receiver.disk.parts
  {
    NothingYet(sc);
    ev := Request(sc.peer, other, NewTransfer("a", "f", size, sc.transfer), Calm(0, STAMP, 0).(persists := false));
  }

  lemma EndedUnderOther(sc: Scene, sys: Sys, contact: Option<string>, other: Option<string>) returns (end: Event)
    requires Stage(sc, sys, contact, |sc.source|, |sc.source|, 1) && Inv(sc, sys)
    requires sc.source != [] && PlainIds(other, sc.peer) && other != contact
    requires NameOf(Tag(STAMP, sc.transfer, sc.peer, other)) in sys.receiver.disk.parts
    ensures AllowedBut(sc, sys, end, {OwnContact}) && ConfirmsWrong(sc, sys, end)
  {
    SizeOnRecord(sc, sys, contact, |sc.source|, |sc.source|, 1);
    end := Asks(sc, other, Done(sc.transfer), 0);
    UnderOtherIsUnheeded(sc, sys, contact, other);
    OtherContactBreaks(sc, sys, end);
    DoneFinalisesPart(sys.receiver, sc.peer, other, sys.receiver.receiving[sc.peer].value, end.env);
    StepKeepsSize(sc, sys, end);
  }

  lemma UnderOtherIsUnheeded(sc: Scene, sys: Sys, contact: Option<string>, other: Option<string>)
    requires Stage(sc, sys, contact, |sc.source|, |sc.source|, 1) && sc.source != [] && PlainIds(other, sc.peer) && other != contact
    requires NameOf(Tag(STAMP, sc.transfer, sc.peer, other)) in sys.receiver.disk.parts
    ensures var end := Asks(sc, other, Done(sc.transfer), 0);
            AllowedBut(sc, sys, end, {OwnContact}) && !Heeds(sc, sys.receiver, other, end.req, end.env, OwnContact)
  {
  }

  /** Guard OwnContact cannot be dropped: for every source that is not empty there is a run. */
  lemma WithoutOwnContact(sc: Scene, contact: Option<string>, other: Option<string>) returns (states: seq<Sys>, events: seq<Event>)
    requires sc.source != [] && PlainIds(contact, sc.peer) && PlainIds(other, sc.peer) && other != contact
    ensures IsRunBut(sc, states, events, {OwnContact}) && EndsWrong(sc, states, events)
  {
    NothingYet(sc);
    var failed := FailsToStart(sc, other, |sc.source|);
    Extend(sc, [Beginning()], [], {}, Beginning(), failed);
    var sys0 := Step(sc, Beginning(), failed);
    var states1, events1, sys1 := Begins(sc, [Beginning()] + [sys0], [] + [failed], sys0, contact, |sc.source|, |sc.source|);
    RunKeepsInv(sc, states1, events1, |events1|);
    var end := EndedUnderOther(sc, sys1, contact, other);
    DropGuard(sc, states1, events1, sys1, OwnContact);
    states, events := Concludes(sc, states1, events1, {OwnContact}, sys1, end);
  }

  /** A resume from memory, at the end of what has arrived. */
  lemma ResumesInMemory(sc: Scene, sys: Sys, contact: Option<string>, size: nat, progress: nat, earliest: nat) returns (ev: Event)
    requires Stage(sc, sys, contact, size, progress, earliest) && PlainIds(contact, sc.peer)
    ensures AllowedBut(sc, sys, ev, {})
    ensures var sys' := Step(sc, sys, ev);
            Stage(sc, sys', contact, size, progress, 0) && sys'.receiver.disk == sys.receiver.disk
  {
    ev := Asks(sc, contact, ContinueTransfer("a", sc.transfer), 0);
    assert LookUp(sys.receiver, sc.peer, 0) == sys.receiver;
  }

  /** A run to a transfer that was resumed after its first n bytes. */
  lemma Resumed(sc: Scene, contact: Option<string>, n: nat) returns (states: seq<Sys>, events: seq<Event>, sys: Sys)
    requires 0 < n < |sc.source| && PlainIds(contact, sc.peer)
    ensures Reaches(sc, states, events, {}, sys) && Inv(sc, sys) && Stage(sc, sys, contact, |sc.source|, n, 0)
    ensures NameOf(Tag(STAMP, sc.transfer, sc.peer, contact)) in sys.receiver.disk.parts
  {
    NothingYet(sc);
    var states0, events0, sys0 := Begins(sc, [Beginning()], [], Beginning(), contact, |sc.source|, n);
    var ev := ResumesInMemory(sc, sys0, contact, |sc.source|, n, 1);
    Extend(sc, states0, events0, {}, sys0, ev);
    sys := Step(sc, sys0, ev);
    states, events := states0 + [sys], events0 + [ev];
    RunKeepsInv(sc, states, events, |events|);
  }

  lemma RefusedReply(sc: Scene, r: Receiver, other: Option<string>)
    requires WellFormedReceiver(r) && Alive(sc, r, 0) && r.receiving[sc.peer].touched == 0
    requires sc.transfer in r.db.received && r.db.received[sc.transfer].contact != other && r.receiving[sc.peer].value.contact != other
    ensures Respond(r, sc.peer, other, ContinueTransfer("a", sc.transfer), Calm(0, STAMP, 0)) == Reply(r, RestartContinueTransfer)
  {
    assert LookUp(r, sc.peer, 0) == r;
    assert Keep(r, sc.peer, r.receiving[sc.peer].value, 0).receiving == r.receiving;
  }

  /** A resume under another contact is refused, and the transfer stays. */
  lemma RefusesOther(sc: Scene, sys: Sys, contact: Option<string>, other: Option<string>, size: nat, n: nat) returns (ev: Event)
    requires Stage(sc, sys, contact, size, n, 0) && other != contact && PlainIds(other, sc.peer)
    ensures AllowedBut(sc, sys, ev, {NoSurvivor}) && ev.Request?
    ensures var sys' := Step(sc, sys, ev);
            && Stage(sc, sys', contact, size, n, 0) && sys'.start == Some(FRESH) && sys'.receiver == sys.receiver
  {
    ev := Asks(sc, other, ContinueTransfer("a", sc.transfer), 0);
    RefusedReply(sc, sys.receiver, other);
  }

  /** The sender starts over with the first byte, which completes the transfer that stayed. */
  lemma StartsOver(sc: Scene, sys: Sys, contact: Option<string>) returns (send: Event)
    requires 1 < |sc.source| && Stage(sc, sys, contact, |sc.source|, |sc.source| - 1, 0) && sys.start == Some(FRESH)
    requires PlainIds(contact, sc.peer)
    ensures AllowedBut(sc, sys, SenderReads(1), {NoSurvivor})
    ensures var sys1 := Step(sc, sys, SenderReads(1));
            && WellFormedReceiver(sys1.receiver) && AllowedBut(sc, sys1, send, {NoSurvivor})
            && var sys2, file := Step(sc, sys1, send), sys.receiver.receiving[sc.peer].value.file;
            && Stage(sc, sys2, contact, |sc.source|, |sc.source|, 1) && sys2.receiver.disk.parts == sys.receiver.disk.parts
            && sys2.receiver.receiving[sc.peer].value.file == file
            && sys2.receiver.disk.files[file].content == sys.receiver.disk.files[file].content + [sc.source[0]]
  {
    var sys1 := Step(sc, sys, SenderReads(1));
    var chunk := Chunk(sc.transfer, sc.source[0..1], 0);
    assert sys1.start.value.plan == [chunk.data];
    assert chunk.data == [sc.source[0]];
    send := Asks(sc, contact, ChunkOf(chunk), 1);
    TakesChunk(sc, sys1, contact, |sc.source|, |sc.source| - 1, chunk);
  }

  /** Ending it is confirmed, whatever the file holds. */
  lemma EndsComplete(sc: Scene, sys: Sys, contact: Option<string>) returns (end: Event)
    requires Stage(sc, sys, contact, |sc.source|, |sc.source|, 1) && Sound(sys.receiver) && PlainIds(contact, sc.peer)
    requires var m := sys.receiver.receiving[sc.peer].value;
             && NameOf(OwnTag(sc, m)) in sys.receiver.disk.parts && sys.receiver.disk.parts[NameOf(OwnTag(sc, m))] == m.file
             && sys.receiver.disk.files[m.file].content != sc.source
    ensures AllowedBut(sc, sys, end, {NoSurvivor})
    ensures ConfirmsWrong(sc, sys, end)
  {
    var m := sys.receiver.receiving[sc.peer].value;
    assert ManagerSound(sys.receiver.db, sys.receiver.disk, sc.peer, m);
    end := Asks(sc, contact, Done(sc.transfer), 0);
    DoneFinalisesPart(sys.receiver, sc.peer, contact, m, end.env);
    StepKeepsSize(sc, sys, end);
  }

  /** What the file holds after the survivor took the first byte for the last. */
  lemma FirstForLastIsWrong(sc: Scene, content: Bytes)
    requires 1 < |sc.source| && sc.source[|sc.source| - 1] != sc.source[0] && |content| == |sc.source| - 1
    ensures content + [sc.source[0]] != sc.source
  {
    assert (content + [sc.source[0]])[|content|] == sc.source[0];
  }

  /** A sender that starts over while its complete but for one byte transfer is in memory. */
  ghost predicate Surviving(sc: Scene, sys: Sys, contact: Option<string>) {
    && 1 < |sc.source| && Stage(sc, sys, contact, |sc.source|, |sc.source| - 1, 0) && sys.start == Some(FRESH)
    && Linked(sc, sys, contact)
    && |sys.receiver.disk.files[sys.receiver.receiving[sc.peer].value.file].content| == |sc.source| - 1
  }

  /** The part name leads to the file of the transfer in memory. */
  ghost predicate Linked(sc: Scene, sys: Sys, contact: Option<string>) {
    && Sound(sys.receiver) && RecordsInRange(sys.receiver.db) && Engaged(sc, sys.receiver)
    && var name := NameOf(Tag(STAMP, sc.transfer, sc.peer, contact));
       name in sys.receiver.disk.parts && sys.receiver.disk.parts[name] == sys.receiver.receiving[sc.peer].value.file
  }

  lemma RefusalKeepsLink(sc: Scene, sys: Sys, contact: Option<string>, other: Option<string>) returns (ev: Event)
    requires 1 < |sc.source| && Stage(sc, sys, contact, |sc.source|, |sc.source| - 1, 0) && Inv(sc, sys)
    requires NameOf(Tag(STAMP, sc.transfer, sc.peer, contact)) in sys.receiver.disk.parts
    requires other != contact && PlainIds(other, sc.peer)
    ensures AllowedBut(sc, sys, ev, {NoSurvivor}) && Surviving(sc, Step(sc, sys, ev), contact)
  {
    ev := RefusesOther(sc, sys, contact, other, |sc.source|, |sc.source| - 1);
    assert ManagerSound(sys.receiver.db, sys.receiver.disk, sc.peer, sys.receiver.receiving[sc.peer].value);
  }

  lemma Survives(sc: Scene, contact: Option<string>, other: Option<string>) returns (states: seq<Sys>, events: seq<Event>, sys: Sys)
    requires 1 < |sc.source| && PlainIds(contact, sc.peer) && PlainIds(other, sc.peer) && other != contact
    ensures Reaches(sc, states, events, {NoSurvivor}, sys) && Surviving(sc, sys, contact)
  {
    var states0, events0, sys0 := Resumed(sc, contact, |sc.source| - 1);
    DropGuard(sc, states0, events0, sys0, NoSurvivor);
    var ev := RefusalKeepsLink(sc, sys0, contact, other);
    Extend(sc, states0, events0, {NoSurvivor}, sys0, ev);
    sys := Step(sc, sys0, ev);
    states, events := states0 + [sys], events0 + [ev];
  }

  lemma CompletesWrong(sc: Scene, states0: seq<Sys>, events0: seq<Event>, sys: Sys, contact: Option<string>)
      returns (states: seq<Sys>, events: seq<Event>, sys': Sys)
    requires Reaches(sc, states0, events0, {NoSurvivor}, sys) && Surviving(sc, sys, contact) && PlainIds(contact, sc.peer)
    requires sc.source[|sc.source| - 1] != sc.source[0]
    ensures Reaches(sc, states, events, {NoSurvivor}, sys')
    ensures Stage(sc, sys', contact, |sc.source|, |sc.source|, 1) && Linked(sc, sys', contact)
    ensures sys'.receiver.disk.files[sys'.receiver.receiving[sc.peer].value.file].content != sc.source
  {
    var send := StartsOver(sc, sys, contact);
    Extend(sc, states0, events0, {NoSurvivor}, sys, SenderReads(1));
    var sys1 := Step(sc, sys, SenderReads(1));
    Extend(sc, states0 + [sys1], events0 + [SenderReads(1)], {NoSurvivor}, sys1, send);
    sys' := Step(sc, sys1, send);
    RespondKeepsSound(sys1.receiver, send.peer, send.contact, send.req, send.env);
    RespondKeepsRecordsInRange(sys1.receiver, send.peer, send.contact, send.req, send.env);
    FirstForLastIsWrong(sc, sys.receiver.disk.files[sys.receiver.receiving[sc.peer].value.file].content);
    states, events := states0 + [sys1] + [sys'], events0 + [SenderReads(1)] + [send];
  }

  /** Guard NoSurvivor cannot be dropped: for every source whose last byte is not its first
      there is a run. */
  lemma WithoutNoSurvivor(sc: Scene, contact: Option<string>, other: Option<string>) returns (states: seq<Sys>, events: seq<Event>)
    requires 1 < |sc.source| && sc.source[|sc.source| - 1] != sc.source[0]
    requires PlainIds(contact, sc.peer) && PlainIds(other, sc.peer) && other != contact
    ensures IsRunBut(sc, states, events, {NoSurvivor}) && EndsWrong(sc, states, events)
  {
    var states0, events0, sys0 := Survives(sc, contact, other);
    var states1, events1, sys1 := CompletesWrong(sc, states0, events0, sys0, contact);
    var end := EndsComplete(sc, sys1, contact);
    states, events := Concludes(sc, states1, events1, {NoSurvivor}, sys1, end);
  }
}
