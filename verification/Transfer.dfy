/** Runs of a whole transfer: an honest sender and the receiver, with interruptions, resumes
    from memory and from disk, failing writes, and any behaviour of other peers. */
module Transfer {
  import opened Common
  import opened LeastAbsent
  import opened ChunkRing
  import opened PartFile
  import opened Receiver
  import opened ReceiverInvariant
  import FileReader
  import Idle = IdleExpiryMap

  /** The transfer under observation: its id, the sending peer and the file it sends. */
  datatype Scene = Scene(transfer: string, peer: string, source: Bytes)

  /** The sender since the last answer that made it start: where it started, the chunks it has
      read and sent, and what was confirmed; `seen` are the chunks the receiver has taken. */
  datatype Start = Start(offset: nat, plan: seq<Bytes>, seen: map<nat, Chunk>, confirmed: set<nat>, acked: set<nat>)

  datatype Grant = Grant(peer: string, contact: Option<string>, transfer: string)

  datatype Sys = Sys(receiver: Receiver, start: Option<Start>, grants: set<Grant>, clock: nat)

  datatype Event =
    | Request(peer: string, contact: Option<string>, req: FileRequest, env: Env)
    | SenderReads(count: nat)
    | AckArrives(idx: nat)
    | ReceiverRestarts
    | OwnerEdits(filerequests: map<string, Filerequest>, self: Option<string>)

  // ----- The transfer at the receiver -----

  predicate Mine(sc: Scene, tag: Tag) {
    tag.transfer == sc.transfer && tag.peer == sc.peer
  }

  predicate MyFinal(sc: Scene, final: Final) {
    final.transfer == sc.transfer && final.peer == sc.peer
  }

  /** The record under the transfer's id is one of its sender. */
  predicate Owned(sc: Scene, db: Db) {
    sc.transfer in db.received && db.received[sc.transfer].peer == sc.peer
  }

  predicate Engaged(sc: Scene, r: Receiver) {
    sc.peer in r.receiving && r.receiving[sc.peer].value.transfer == sc.transfer
  }

  /** The transfer is in memory and has not idled out. */
  predicate Alive(sc: Scene, r: Receiver, now: nat) {
    Engaged(sc, r) && Idle.Live(r.receiving, IDLE_TTL, sc.peer, now)
  }

  function OwnTag(sc: Scene, m: Manager): Tag {
    Tag(m.startedAt, sc.transfer, sc.peer, m.contact)
  }

  ghost predicate Finalised(sc: Scene, r: Receiver) {
    exists k: nat :: k < |r.disk.finals| && MyFinal(sc, r.disk.finals[k])
  }

  /** The transfer is still in memory although its part file is gone. */
  predicate Spent(sc: Scene, r: Receiver, now: nat) {
    && Alive(sc, r, now)
    && var m := r.receiving[sc.peer].value;
       0 < m.declared && NameOf(OwnTag(sc, m)) !in r.disk.parts
  }

  /** Nothing was received or written yet. */
  predicate Pristine(m: Manager) {
    m.slots == EMPTY_SLOTS && m.earliest == 0 && m.progress == 0
  }

  // ----- What may happen -----

  /** What the sender's requests have to avoid for the file to arrive intact. */
  datatype Guard = FreshStamp | ReadableSize | OwnContact | NoSurvivor

  /** A request of the sender heeds a guard unless:
      FreshStamp - it starts a spent transfer again, with the same stamp and contact, so that
      an empty part file takes the place of the one that was finalised;
      ReadableSize - it resumes a spent transfer in another filerequest, and the size of the
      new part file cannot be read;
      OwnContact - it ends the complete transfer under another contact that has a part file;
      NoSurvivor - its resume is answered with a restart although the transfer stays in memory
      with something received. */
  predicate Heeds(sc: Scene, r: Receiver, contact: Option<string>, req: FileRequest, env: Env, g: Guard) {
    match g
    case FreshStamp =>
      !(&& req.NewTransfer? && req.transfer == sc.transfer && Spent(sc, r, env.last)
        && AdmitsDrop(r.db, req.filerequest, contact) && env.opens
        && env.epochMillis == Some(r.receiving[sc.peer].value.startedAt) && contact == r.receiving[sc.peer].value.contact)
    case ReadableSize =>
      !(&& req.ContinueTransfer? && req.transfer == sc.transfer && Spent(sc, r, env.later)
        && env.last < env.later + IDLE_TTL && req.filerequest != r.receiving[sc.peer].value.filerequest
        && AdmitsContinue(r.db, req.filerequest, contact, sc.peer, req.transfer) && env.opens && !env.sizes)
    case OwnContact =>
      !(&& req.Done? && req.transfer == sc.transfer && Alive(sc, r, env.last) && env.finalizes
        && var m := r.receiving[sc.peer].value;
           && contact != m.contact && 0 < m.declared == m.progress
           && NameOf(Tag(m.startedAt, sc.transfer, sc.peer, contact)) in r.disk.parts)
    case NoSurvivor =>
      !(&& req.ContinueTransfer? && req.transfer == sc.transfer && Alive(sc, r, env.later) && env.last < env.later + IDLE_TTL
        && !Resumes(r.receiving[sc.peer].value, contact, req) && !Pristine(r.receiving[sc.peer].value)
        && !(AdmitsContinue(r.db, req.filerequest, contact, sc.peer, req.transfer) && env.opens))
  }

  /** The honest sender sends as chunk i the i-th piece read since its last start, keeps to its
      window, and heeds the guards that are not dropped. Everyone else does as they please. */
  ghost predicate AllowedBut(sc: Scene, sys: Sys, ev: Event, dropped: set<Guard>) {
    match ev
    case Request(peer, contact, req, env) =>
      && PlainIds(contact, peer)
      && (env.epochMillis.Some? ==> I64_MIN <= env.epochMillis.value <= I64_MAX)
      && sys.clock <= env.now <= env.later <= env.last
      && (peer == sc.peer && req.ChunkOf? && req.chunk.transferId == sc.transfer ==>
            sys.start.Some? && req.chunk.idx < |sys.start.value.plan| && req.chunk.data == sys.start.value.plan[req.chunk.idx])
      && (peer == sc.peer ==> forall g: Guard :: g !in dropped ==> Heeds(sc, sys.receiver, contact, req, env, g))
    case SenderReads(count) =>
      && sys.start.Some?
      && var s := sys.start.value;
         && 0 < count && s.offset + |Concat(s.plan)| + count <= |sc.source|
         && |s.plan| < Least(s.acked) + PARALLEL_CHUNKS
    case AckArrives(idx) => sys.start.Some? && idx in sys.start.value.confirmed
    case ReceiverRestarts => true
    case OwnerEdits(_, _) => true
  }

  ghost predicate Allowed(sc: Scene, sys: Sys, ev: Event) {
    AllowedBut(sc, sys, ev, {})
  }

  // ----- Steps -----

  predicate Admitted(r: Receiver, peer: string, contact: Option<string>, req: FileRequest) {
    match req
    case NewTransfer(fr, _, _, _) => AdmitsDrop(r.db, fr, contact)
    case ContinueTransfer(fr, t) => AdmitsContinue(r.db, fr, contact, peer, t)
    case _ => false
  }

  function GrantsAfter(sys: Sys, peer: string, contact: Option<string>, req: FileRequest): set<Grant> {
    sys.grants + if Admitted(sys.receiver, peer, contact, req) then {Grant(peer, contact, req.transfer)} else {}
  }

  const FRESH: Start := Start(0, [], map[], {}, {})

  /** The sender starts at byte 0 after an accepted start and after an answer to start over,
      and at the offset after an accepted resume. */
  ghost function StartAfter(sc: Scene, start: Option<Start>, peer: string, req: FileRequest, response: FileResponse): Option<Start> {
    if peer != sc.peer then start
    else match req
      case NewTransfer(_, _, _, t) =>
        if t == sc.transfer && response.AcceptNewTransfer? then Some(FRESH) else start
      case ContinueTransfer(_, t) =>
        if t == sc.transfer && response.AcceptContinueTransfer? then Some(FRESH.(offset := response.offset))
        else if t == sc.transfer && response.RestartContinueTransfer? then Some(FRESH)
        else start
      case ChunkOf(c) =>
        if c.transferId == sc.transfer && response.ConfirmChunk? && start.Some? then Some(Confirmed(start.value, c)) else start
      case _ => start
  }

  ghost function Confirmed(s: Start, c: Chunk): Start {
    s.(seen := Admit(Inbox([], s.seen), c).seen, confirmed := s.confirmed + {c.idx})
  }

  /** A step of the receiver or of the sender, whatever was allowed. */
  ghost function Step(sc: Scene, sys: Sys, ev: Event): (next: Sys)
    requires WellFormedReceiver(sys.receiver) && Possible(sc, sys, ev)
    ensures WellFormedReceiver(next.receiver)
  {
    match ev
    case Request(peer, contact, req, env) =>
      var reply := Respond(sys.receiver, peer, contact, req, env);
      Sys(reply.receiver, StartAfter(sc, sys.start, peer, req, reply.response),
          GrantsAfter(sys, peer, contact, req), env.last)
    case SenderReads(count) =>
      var s := sys.start.value;
      var at := s.offset + |Concat(s.plan)|;
      sys.(start := Some(s.(plan := s.plan + [sc.source[at..at + count]])))
    case AckArrives(idx) =>
      var s := sys.start.value;
      sys.(start := Some(s.(acked := s.acked + {idx})))
    case ReceiverRestarts => sys.(receiver := sys.receiver.(receiving := map[]))
    case OwnerEdits(filerequests, self) =>
      sys.(receiver := sys.receiver.(db := sys.receiver.db.(filerequests := filerequests, self := self)))
  }

  /** The sender reads and is acknowledged only after a start, and only what there is. */
  ghost predicate Possible(sc: Scene, sys: Sys, ev: Event) {
    match ev
    case SenderReads(count) =>
      sys.start.Some? && sys.start.value.offset + |Concat(sys.start.value.plan)| + count <= |sc.source|
    case AckArrives(_) => sys.start.Some?
    case _ => true
  }

  // ----- Runs -----

  ghost predicate Initial(sys: Sys) {
    && sys.receiver.receiving == map[] && sys.receiver.db.received == map[]
    && sys.receiver.disk == Disk([], map[], [])
    && sys.start == None && sys.grants == {}
  }

  /** A run in which the sender need not heed some guards: states from an initial one, each
      following from the one before by an event. */
  ghost predicate IsRunBut(sc: Scene, states: seq<Sys>, events: seq<Event>, dropped: set<Guard>) {
    && |states| == |events| + 1
    && Initial(states[0])
    && (forall i :: 0 <= i < |events| ==>
          && WellFormedReceiver(states[i].receiver) && AllowedBut(sc, states[i], events[i], dropped)
          && states[i + 1] == Step(sc, states[i], events[i]))
  }

  ghost predicate IsRun(sc: Scene, states: seq<Sys>, events: seq<Event>) {
    IsRunBut(sc, states, events, {})
  }

  // ----- The invariant -----

  ghost predicate RecordsInRange(db: Db) {
    forall t :: t in db.received ==> I64_MIN <= db.received[t].startedAt <= I64_MAX
  }

  /** Every file of the observed transfer holds a prefix of the source, and a finalised one
      is as long as was declared. */
  ghost predicate FilesHonest(sc: Scene, r: Receiver) {
    && (forall f: nat :: f < |r.disk.files| && Mine(sc, r.disk.files[f].tag) ==> r.disk.files[f].content <= sc.source)
    && (forall i: nat :: i < |r.disk.finals| && MyFinal(sc, r.disk.finals[i]) ==> FinalHonest(sc, r, r.disk.finals[i].file))
  }

  ghost predicate FinalHonest(sc: Scene, r: Receiver, file: nat) {
    && file < |r.disk.files|
    && Mine(sc, r.disk.files[file].tag)
    && Owned(sc, r.db)
    && |r.disk.files[file].content| == r.db.received[sc.transfer].size
  }

  /** The sender's pieces are the source from the offset on, within its window. */
  ghost predicate StartHonest(sc: Scene, s: Start) {
    && s.offset <= |sc.source|
    && FileReader.IsChunking(sc.source, s.offset, s.plan)
    && s.acked <= s.confirmed
    && |s.plan| <= Least(s.acked) + PARALLEL_CHUNKS
    && (forall i :: i in s.seen ==> i < |s.plan| && s.seen[i] == Chunk(sc.transfer, s.plan[i], i))
  }

  /** While the transfer is alive, the receiver's ring has reassembled exactly the chunks seen
      since the sender's last start, and whatever was confirmed was seen. */
  ghost predicate TransferHonest(sc: Scene, r: Receiver, start: Option<Start>, clock: nat) {
    Alive(sc, r, clock) ==>
      var m := r.receiving[sc.peer].value;
      && start.Some? && start.value.offset <= |sc.source|
      && m.file < |r.disk.files|
      && Reassembles(RingOf(m, r.disk), Inbox(sc.source[..start.value.offset], start.value.seen))
      && start.value.confirmed <= start.value.seen.Keys
  }

  /** While the transfer is alive, its part name leads to the file it writes, or it is complete
      and was finalised. */
  ghost predicate NameHonest(sc: Scene, r: Receiver, clock: nat) {
    Alive(sc, r, clock) ==>
      var m := r.receiving[sc.peer].value;
      var name := NameOf(OwnTag(sc, m));
      if name in r.disk.parts then 0 < m.declared ==> r.disk.parts[name] == m.file
      else m.progress == m.declared && Finalised(sc, r)
  }

  ghost predicate Honest(sc: Scene, r: Receiver, start: Option<Start>, clock: nat) {
    FilesHonest(sc, r) && TransferHonest(sc, r, start, clock) && NameHonest(sc, r, clock)
  }

  ghost predicate Inv(sc: Scene, sys: Sys) {
    && Sound(sys.receiver)
    && RecordsInRange(sys.receiver.db)
    && Honest(sc, sys.receiver, sys.start, sys.clock)
    && (sys.start.Some? ==> StartHonest(sc, sys.start.value))
  }
}
