/** The receiving side of file transfers: admission by the brain, one transfer per peer,
    part files on disk, and the answers to the requests of peers. */
module Receiver {
  import opened Common
  import opened ChunkRing
  import opened PartFile
  import Idle = IdleExpiryMap

  // ----- Admission -----

  datatype Access = Public | Audience(contacts: set<string>)

  datatype Filerequest = Filerequest(active: bool, access: Access)

  datatype Status = Receiving | Completed | Failed

  /** The persisted record of a received file. */
  datatype Record = Record(
    peer: string, contact: Option<string>, filerequest: string, fileName: string,
    size: nat, startedAt: int, status: Status, progress: nat)

  /** Records are unique per transfer id. */
  datatype Db = Db(filerequests: map<string, Filerequest>, received: map<string, Record>, self: Option<string>)

  predicate Accessible(access: Access, contact: Option<string>) {
    match access
    case Public => true
    case Audience(contacts) => contact.Some? && contact.value in contacts
  }

  /** A new transfer needs an active filerequest that the contact may use; the own contact
      always may. */
  predicate AdmitsDrop(db: Db, filerequest: string, contact: Option<string>) {
    && filerequest in db.filerequests
    && db.filerequests[filerequest].active
    && (Accessible(db.filerequests[filerequest].access, contact) || (contact.Some? && contact == db.self))
  }

  /** A continued transfer needs an active, accessible filerequest and a record of the same
      peer and contact. */
  predicate AdmitsContinue(db: Db, filerequest: string, contact: Option<string>, peer: string, transfer: string) {
    && filerequest in db.filerequests
    && transfer in db.received
    && db.filerequests[filerequest].active
    && Accessible(db.filerequests[filerequest].access, contact)
    && db.received[transfer].peer == peer
    && db.received[transfer].contact == contact
  }

  function SetStatus(db: Db, transfer: string, status: Status, progress: nat): (after: Db) {
    if transfer in db.received then
      db.(received := db.received[transfer := db.received[transfer].(status := status, progress := progress)])
    else db
  }

  // ----- Disk -----

  /** What a part file is named after. */
  datatype Tag = Tag(startedAt: int, transfer: string, peer: string, contact: Option<string>)

  function NameOf(tag: Tag): string {
    PartFileName(tag.startedAt, tag.transfer, tag.peer, tag.contact)
  }

  /** A file, with the tag it was created under; it stays the same file when renamed. */
  datatype File = File(tag: Tag, content: Bytes)

  datatype Final = Final(peer: string, transfer: string, name: string, file: nat)

  datatype Disk = Disk(files: seq<File>, parts: map<string, nat>, finals: seq<Final>)

  /** Opens a part file for appending, creating it if there is none of that name. */
  function OpenPart(disk: Disk, tag: Tag): (opening: (Disk, nat)) {
    var name := NameOf(tag);
    if name in disk.parts then (disk, disk.parts[name])
    else (Disk(disk.files + [File(tag, [])], disk.parts[name := |disk.files|], disk.finals), |disk.files|)
  }

  // ----- Transfers -----

  datatype Manager = Manager(
    slots: seq<Option<Chunk>>, earliest: nat, declared: nat, progress: nat, file: nat,
    fileName: string, transfer: string, filerequest: string, contact: Option<string>, startedAt: int)

  datatype FileRequest =
    | NewTransfer(filerequest: string, fileName: string, size: nat, transfer: string)
    | ContinueTransfer(filerequest: string, transfer: string)
    | AbortTransfer(maybeTransfer: Option<string>)
    | ChunkOf(chunk: Chunk)
    | Done(transfer: string)
    | ViolationReport

  datatype FileResponse =
    | AcceptNewTransfer
    | RejectNewTransfer
    | AcceptContinueTransfer(offset: nat)
    | RestartContinueTransfer
    | RejectContinueTransfer
    | ConfirmChunk
    | RejectChunk
    | ConfirmAbort
    | ConfirmDone
    | RejectDone
    | AcknowledgeProtocolViolation
    | Violation
    | InternalError

  /** The choices of the environment during one request: clock readings, room on the disk,
      and which operations fail. */
  datatype Env = Env(
    now: nat, later: nat, last: nat, room: nat, epochMillis: Option<int>, opens: bool, persists: bool,
    sizes: bool, removes: bool, finalizes: bool, completes: bool, anything: FileResponse)

  datatype Receiver = Receiver(receiving: map<string, Idle.Timed<Manager>>, db: Db, disk: Disk)

  datatype Reply = Reply(receiver: Receiver, response: FileResponse)

  const IDLE_TTL: nat := 30_000

  /** The transfer of a peer, unless it idled out. */
  function Find(r: Receiver, peer: string, now: nat): (m: Option<Manager>) {
    if Idle.Live(r.receiving, IDLE_TTL, peer, now) then Some(r.receiving[peer].value) else None
  }

  function Keep(r: Receiver, peer: string, m: Manager, now: nat): Receiver {
    r.(receiving := r.receiving[peer := Idle.Timed(m, now)])
  }

  function Forget(r: Receiver, peer: string): Receiver {
    r.(receiving := r.receiving - {peer})
  }

  /** Looking up the entry of a peer evicts it if it idled out. */
  function LookUp(r: Receiver, peer: string, now: nat): Receiver {
    if Find(r, peer, now).Some? then r else Forget(r, peer)
  }

  function RingOf(m: Manager, disk: Disk): (ring: Ring)
    requires m.file < |disk.files|
  {
    Ring(m.slots, m.earliest, m.declared, m.progress, disk.files[m.file].content)
  }

  function WithRing(m: Manager, ring: Ring): Manager {
    m.(slots := ring.slots, earliest := ring.earliest, progress := ring.progress)
  }

  function WriteTo(disk: Disk, file: nat, content: Bytes): Disk
    requires file < |disk.files|
  {
    disk.(files := disk.files[file := disk.files[file].(content := content)])
  }

  predicate WellFormedReceiver(r: Receiver) {
    && (forall p :: p in r.receiving ==>
          r.receiving[p].value.file < |r.disk.files| && |r.receiving[p].value.slots| == PARALLEL_CHUNKS)
    && (forall n :: n in r.disk.parts ==> r.disk.parts[n] < |r.disk.files|)
  }

  function OnNew(r: Receiver, peer: string, contact: Option<string>, req: FileRequest, env: Env): (reply: Reply)
    requires req.NewTransfer? && WellFormedReceiver(r)
    ensures WellFormedReceiver(reply.receiver)
  {
    var r1 := LookUp(r, peer, env.now);
    if !AdmitsDrop(r1.db, req.filerequest, contact) then Reply(r1, RejectNewTransfer)
    else if env.epochMillis.None? || !env.opens then Reply(r1, InternalError)
    else
      var startedAt := env.epochMillis.value;
      var (disk, file) := OpenPart(r1.disk, Tag(startedAt, req.transfer, peer, contact));
      var r2 := r1.(disk := disk);
      if !env.persists || req.transfer in r2.db.received then Reply(r2, InternalError)
      else
        var record := Record(peer, contact, req.filerequest, req.fileName, req.size, startedAt, Receiving, 0);
        var r3 := r2.(db := r2.db.(received := r2.db.received[req.transfer := record]));
        var m := Manager(EMPTY_SLOTS, 0, req.size, 0, file, req.fileName, req.transfer, req.filerequest, contact, startedAt);
        Reply(Keep(r3, peer, m, env.later), AcceptNewTransfer)
  }

  predicate Resumes(m: Manager, contact: Option<string>, req: FileRequest)
    requires req.ContinueTransfer?
  {
    m.transfer == req.transfer && m.filerequest == req.filerequest && m.contact == contact
  }

  function OnContinue(r: Receiver, peer: string, contact: Option<string>, req: FileRequest, env: Env): (reply: Reply)
    requires req.ContinueTransfer? && WellFormedReceiver(r)
    ensures WellFormedReceiver(reply.receiver)
  {
    var r1 := LookUp(r, peer, env.now);
    match Find(r1, peer, env.later)
    case Some(m) =>
      if Resumes(m, contact, req) then
        Reply(Keep(r1, peer, m.(slots := EMPTY_SLOTS, earliest := 0), env.later), AcceptContinueTransfer(m.progress))
      else
        FromDisk(Keep(r1, peer, m, env.later), peer, contact, req, env)
    case None => FromDisk(r1, peer, contact, req, env)
  }

  function FromDisk(r: Receiver, peer: string, contact: Option<string>, req: FileRequest, env: Env): (reply: Reply)
    requires req.ContinueTransfer? && WellFormedReceiver(r)
    ensures WellFormedReceiver(reply.receiver)
  {
    if !AdmitsContinue(r.db, req.filerequest, contact, peer, req.transfer) then Reply(r, RestartContinueTransfer)
    else if !env.opens then
      Reply(r.(db := SetStatus(r.db, req.transfer, Failed, 0)), RestartContinueTransfer)
    else
      var record := r.db.received[req.transfer];
      var (disk, file) := OpenPart(r.disk, Tag(record.startedAt, req.transfer, peer, contact));
      var r2 := r.(disk := disk);
      if !env.sizes then Reply(r2, InternalError)
      else
        var offset := |disk.files[file].content|;
        var m := Manager(EMPTY_SLOTS, 0, record.size, offset, file, record.fileName, req.transfer, req.filerequest,
                         contact, record.startedAt);
        Reply(Keep(r2, peer, m, env.later), AcceptContinueTransfer(offset))
  }

  function OnAbort(r: Receiver, peer: string, contact: Option<string>, req: FileRequest, env: Env): (reply: Reply)
    requires req.AbortTransfer? && WellFormedReceiver(r)
    ensures WellFormedReceiver(reply.receiver)
  {
    var r1 := LookUp(r, peer, env.now);
    var r2 := Forget(r1, peer);
    match Find(r1, peer, env.later)
    case None => Reply(r2, Violation)
    case Some(m) =>
      if req.maybeTransfer.Some? && req.maybeTransfer.value != m.transfer then Reply(r2, Violation)
      else if !env.removes then Reply(r2, InternalError)
      else
        var name := NameOf(Tag(m.startedAt, m.transfer, peer, contact));
        Reply(r2.(disk := r2.disk.(parts := r2.disk.parts - {name}),
                  db := SetStatus(r2.db, m.transfer, Failed, m.progress)), ConfirmAbort)
  }

  function OnChunk(r: Receiver, peer: string, contact: Option<string>, req: FileRequest, env: Env): (reply: Reply)
    requires req.ChunkOf? && WellFormedReceiver(r)
    ensures WellFormedReceiver(reply.receiver)
  {
    var r1 := LookUp(r, peer, env.now);
    match Find(r1, peer, env.later)
    case None => Reply(r1, Violation)
    case Some(m) =>
      if req.chunk.transferId != m.transfer then Reply(Forget(r1, peer), Violation)
      else if contact != m.contact then Reply(Forget(r1, peer), env.anything)
      else
        AfterStore(r1, peer, m, Store(RingOf(m, r1.disk), req.chunk, env.room), env.later)
  }

  /** What becomes of the transfer after its ring took a chunk, or failed to. */
  function AfterStore(r: Receiver, peer: string, m: Manager, stored: Stored, later: nat): (reply: Reply)
    requires m.file < |r.disk.files|
    ensures WellFormedReceiver(r) && WellFormed(stored.ring) ==> WellFormedReceiver(reply.receiver)
  {
    var r2 := r.(disk := WriteTo(r.disk, m.file, stored.ring.file));
    match stored.result
    case Received =>
      Reply(Keep(r2.(db := SetStatus(r2.db, m.transfer, Receiving, stored.ring.progress)), peer,
                 WithRing(m, stored.ring), later), ConfirmChunk)
    case ProtocolViolation => Reply(Forget(r2, peer), Violation)
    case IoError =>
      Reply(Forget(r2.(db := SetStatus(r2.db, m.transfer, Failed, stored.ring.progress)), peer), InternalError)
  }

  function OnDone(r: Receiver, peer: string, contact: Option<string>, req: FileRequest, env: Env): (reply: Reply)
    requires req.Done? && WellFormedReceiver(r)
    ensures WellFormedReceiver(reply.receiver)
  {
    var r1 := LookUp(LookUp(r, peer, env.now), peer, env.later);
    if peer !in r1.receiving then Reply(r1, Violation)
    else match Find(r1, peer, env.last)
    case None => Reply(r1, InternalError)
    case Some(m) => End(r1, peer, contact, m, req, env)
  }

  /** Ends the transfer of a peer: its part file gets its final name if it is complete. */
  function End(r: Receiver, peer: string, contact: Option<string>, m: Manager, req: FileRequest, env: Env): (reply: Reply)
    requires req.Done?
    ensures WellFormedReceiver(r) && Find(r, peer, env.last) == Some(m) ==> WellFormedReceiver(reply.receiver)
  {
    var r2 := Keep(r, peer, m, env.last);
    if m.transfer != req.transfer then Reply(Forget(r2, peer), Violation)
    else if m.progress != m.declared then Reply(r2, Violation)
    else
      var name := NameOf(Tag(m.startedAt, req.transfer, peer, contact));
      if !env.finalizes || name !in r2.disk.parts then Reply(r2, InternalError)
      else
        var final := Final(peer, m.transfer, m.fileName, r2.disk.parts[name]);
        var r3 := r2.(disk := r2.disk.(parts := r2.disk.parts - {name}, finals := r2.disk.finals + [final]));
        if env.epochMillis.None? || !env.completes || m.transfer !in r3.db.received then Reply(r3, InternalError)
        else
          Reply(r3.(db := SetStatus(r3.db, m.transfer, Completed, r3.db.received[m.transfer].progress)), ConfirmDone)
  }

  /** The answer to one request of a peer, and the state after it. */
  function Respond(r: Receiver, peer: string, contact: Option<string>, req: FileRequest, env: Env): (reply: Reply)
    requires WellFormedReceiver(r)
    ensures WellFormedReceiver(reply.receiver)
  {
    match req
    case NewTransfer(_, _, _, _) => OnNew(r, peer, contact, req, env)
    case ContinueTransfer(_, _) => OnContinue(r, peer, contact, req, env)
    case AbortTransfer(_) => OnAbort(r, peer, contact, req, env)
    case ChunkOf(_) => OnChunk(r, peer, contact, req, env)
    case Done(_) => OnDone(r, peer, contact, req, env)
    case ViolationReport => Reply(Forget(r, peer), AcknowledgeProtocolViolation)
  }
}
