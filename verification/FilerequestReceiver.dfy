/** The receiving side in place: a map of receive managers, each with its slots and its open
    part file, next to the database and the disk. */
module FilerequestReceiver {
  import opened Common
  import opened ChunkRing
  import opened PartFile
  import opened Receiver
  import opened ReceiverInvariant
  import Idle = IdleExpiryMap

  /** What a manager stands for. */
  ghost function View(m: ReceiveManager): Manager
    reads m, m.chunksInFlight
  {
    Manager(m.chunksInFlight[..], m.earliestNotReceived, m.declaredFileSizeBytes, m.byteProgress, m.file.place,
            m.details.fileName, m.details.transfer, m.details.filerequest, m.details.contact, m.details.startedAt)
  }

  lemma KeepTwice(r: Receiver, peer: string, m: Manager, first: nat, now: nat)
    ensures Keep(Keep(r, peer, m, first), peer, m, now) == Keep(r, peer, m, now)
  {
  }

  /** The answer to a chunk that the peer's manager has just taken, or failed to. */
  ghost function Concluded(w: Receiver, peer: string, result: StoreResult, later: nat): Reply
    requires peer in w.receiving
  {
    var m := w.receiving[peer].value;
    match result
    case Received => Reply(Keep(w.(db := SetStatus(w.db, m.transfer, Receiving, m.progress)), peer, m, later), ConfirmChunk)
    case ProtocolViolation => Reply(Forget(w, peer), Violation)
    case IoError => Reply(Forget(w, peer).(db := SetStatus(w.db, m.transfer, Failed, m.progress)), InternalError)
  }

  lemma AfterStoreIsConcluded(r: Receiver, peer: string, m: Manager, stored: Stored, touched: nat, later: nat)
    requires m.file < |r.disk.files|
    ensures AfterStore(r, peer, m, stored, later) ==
            Concluded(Keep(r.(disk := WriteTo(r.disk, m.file, stored.ring.file)), peer, WithRing(m, stored.ring), touched),
                      peer, stored.result, later)
  {
    var r2 := r.(disk := WriteTo(r.disk, m.file, stored.ring.file));
    assert Forget(Keep(r2, peer, WithRing(m, stored.ring), touched), peer).receiving == Forget(r2, peer).receiving;
    KeepTwice(r2, peer, WithRing(m, stored.ring), touched, later);
  }

  /** Every file is at its place on the disk, and part names lead to files. */
  ghost predicate Placed(files: seq<ChunkRing.PartFile>, parts: map<string, nat>) {
    && (forall i :: 0 <= i < |files| ==> files[i].place == i)
    && (forall n :: n in parts ==> parts[n] < |files|)
  }

  ghost predicate HasPlace(m: ReceiveManager, files: seq<ChunkRing.PartFile>) {
    m.Valid() && m.file.place < |files| && m.file == files[m.file.place]
  }

  ghost predicate Placeable(receiving: map<string, Idle.Timed<ReceiveManager>>, files: seq<ChunkRing.PartFile>) {
    forall p :: p in receiving ==> HasPlace(receiving[p].value, files)
  }

  /** Managers share nothing but files. */
  ghost predicate Apart(receiving: map<string, Idle.Timed<ReceiveManager>>) {
    forall p, q :: p in receiving && q in receiving && p != q ==>
      receiving[p].value != receiving[q].value && receiving[p].value.chunksInFlight != receiving[q].value.chunksInFlight
  }

  lemma FewerAreApart(receiving: map<string, Idle.Timed<ReceiveManager>>, files: seq<ChunkRing.PartFile>, peer: string)
    requires Placeable(receiving, files) && Apart(receiving)
    ensures Placeable(receiving - {peer}, files) && Apart(receiving - {peer})
  {
  }

  lemma ReplacedAreApart(receiving: map<string, Idle.Timed<ReceiveManager>>, files: seq<ChunkRing.PartFile>, peer: string,
                         m: ReceiveManager, now: nat)
    requires Placeable(receiving, files) && Apart(receiving) && HasPlace(m, files)
    requires forall p :: p in receiving && p != peer ==>
               receiving[p].value != m && receiving[p].value.chunksInFlight != m.chunksInFlight
    ensures Placeable(receiving[peer := Idle.Timed(m, now)], files) && Apart(receiving[peer := Idle.Timed(m, now)])
  {
  }

  lemma MoreFilesHavePlace(receiving: map<string, Idle.Timed<ReceiveManager>>, files: seq<ChunkRing.PartFile>,
                           parts: map<string, nat>, file: ChunkRing.PartFile, name: string)
    requires Placeable(receiving, files) && Placed(files, parts) && file.place == |files|
    ensures Placeable(receiving, files + [file]) && Placed(files + [file], parts[name := |files|])
  {
  }

  class FilerequestReceiver {
    var receiving: map<string, Idle.Timed<ReceiveManager>>
    var db: Db
    var files: seq<ChunkRing.PartFile>
    var tags: seq<Tag>
    var parts: map<string, nat>
    var finals: seq<Final>

    /** What the managers stand for, and what the files hold. */
    ghost var views: map<string, Idle.Timed<Manager>>
    ghost var contents: seq<File>

    ghost predicate Valid()
      reads this, files
      reads set p | p in receiving :: receiving[p].value
      reads set p | p in receiving :: receiving[p].value.chunksInFlight
    {
      && Shape() && Held()
      && (forall p :: p in receiving ==> views[p] == Idle.Timed(View(receiving[p].value), receiving[p].touched))
    }

    ghost predicate Shape()
      reads this
    {
      && |files| == |tags| == |contents| && Placed(files, parts) && Placeable(receiving, files) && Apart(receiving)
      && views.Keys == receiving.Keys
    }

    ghost predicate Held()
      requires |files| == |tags| == |contents|
      reads this, files
    {
      forall i :: 0 <= i < |files| ==> contents[i] == File(tags[i], files[i].content)
    }

    /** Brings the view of one manager up to date. */
    ghost method Review(peer: string, view: Manager)
      requires Shape() && Held() && peer in receiving && view == View(receiving[peer].value)
      requires forall p :: p in receiving && p != peer ==> views[p] == Idle.Timed(View(receiving[p].value), receiving[p].touched)
      modifies this`views
      ensures Valid() && views == old(views)[peer := Idle.Timed(view, receiving[peer].touched)]
    {
      views := views[peer := Idle.Timed(view, receiving[peer].touched)];
    }

    ghost function Snapshot(): (r: Receiver)
      reads this
    {
      Receiver(views, db, Disk(contents, parts, finals))
    }

    constructor (db: Db)
      ensures Valid() && Snapshot() == Receiver(map[], db, Disk([], map[], []))
    {
      receiving, this.db, files, tags, parts, finals := map[], db, [], [], map[], [];
      views, contents := map[], [];
    }

    /** Evicts the peer's transfer if it idled out. */
    method Evict(peer: string, now: nat)
      requires Valid()
      modifies this`receiving, this`views
      ensures Valid() && Snapshot() == LookUp(old(Snapshot()), peer, now)
      ensures receiving == if Idle.Live(old(receiving), IDLE_TTL, peer, now) then old(receiving) else old(receiving) - {peer}
    {
      if !Idle.Live(receiving, IDLE_TTL, peer, now) {
        Drop(peer);
      }
    }

    method Drop(peer: string)
      requires Valid()
      modifies this`receiving, this`views
      ensures Valid() && receiving == old(receiving) - {peer}
      ensures Snapshot() == Forget(old(Snapshot()), peer)
    {
      FewerAreApart(receiving, files, peer);
      receiving, views := receiving - {peer}, views - {peer};
    }

    /** Opens a part file for appending, creating it if there is none of that name. */
    method Open(tag: Tag) returns (file: ChunkRing.PartFile)
      requires Valid()
      modifies this`files, this`tags, this`parts, this`contents
      ensures Valid() && file in files
      ensures var (disk, place) := OpenPart(old(Snapshot()).disk, tag);
              Snapshot() == old(Snapshot()).(disk := disk) && file.place == place
    {
      var name := NameOf(tag);
      if name in parts {
        file := files[parts[name]];
      } else {
        file := new ChunkRing.PartFile(|files|);
        MoreFilesHavePlace(receiving, files, parts, file, name);
        parts := parts[name := |files|];
        files, tags, contents := files + [file], tags + [tag], contents + [File(tag, [])];
      }
    }

    /** Makes a manager the peer's transfer. */
    method Replace(peer: string, m: ReceiveManager, now: nat)
      requires Valid() && HasPlace(m, files)
      requires forall p :: p in receiving && p != peer ==>
                 receiving[p].value != m && receiving[p].value.chunksInFlight != m.chunksInFlight
      modifies this`receiving, this`views
      ensures Valid() && receiving == old(receiving)[peer := Idle.Timed(m, now)]
      ensures Snapshot() == Keep(old(Snapshot()), peer, View(m), now)
    {
      ReplacedAreApart(receiving, files, peer, m, now);
      receiving, views := receiving[peer := Idle.Timed(m, now)], views[peer := Idle.Timed(View(m), now)];
    }

    /** Creates a manager for a part file and makes it the peer's transfer. */
    method Begin(peer: string, file: ChunkRing.PartFile, size: nat, progress: nat, details: Details, now: nat)
      requires Valid() && file in files
      modifies this`receiving, this`views
      ensures Valid()
      ensures Snapshot() == Keep(old(Snapshot()), peer,
                                 Manager(EMPTY_SLOTS, 0, size, progress, file.place, details.fileName, details.transfer,
                                         details.filerequest, details.contact, details.startedAt), now)
    {
      var m := new ReceiveManager(file, size, progress, details);
      assert m.State().slots == EMPTY_SLOTS;
      assert Snapshot() == old(Snapshot());
      Replace(peer, m, now);
    }

    method HandleNew(peer: string, contact: Option<string>, req: FileRequest, env: Env) returns (response: FileResponse)
      requires req.NewTransfer? && Valid() && WellFormedReceiver(Snapshot())
      modifies this
      ensures Valid() && Reply(Snapshot(), response) == OnNew(old(Snapshot()), peer, contact, req, env)
    {
      Evict(peer, env.now);
      if !AdmitsDrop(db, req.filerequest, contact) {
        return RejectNewTransfer;
      }
      if env.epochMillis.None? || !env.opens {
        return InternalError;
      }
      var startedAt := env.epochMillis.value;
      var file := Open(Tag(startedAt, req.transfer, peer, contact));
      if !env.persists || req.transfer in db.received {
        return InternalError;
      }
      Enter(req.transfer, Record(peer, contact, req.filerequest, req.fileName, req.size, startedAt, Receiving, 0));
      Begin(peer, file, req.size, 0, Details(req.fileName, req.transfer, req.filerequest, contact, startedAt), env.later);
      response := AcceptNewTransfer;
    }

    method Mark(transfer: string, status: Status, progress: nat)
      requires Valid()
      modifies this`db
      ensures Valid() && Snapshot() == old(Snapshot()).(db := SetStatus(old(db), transfer, status, progress))
    {
      db := SetStatus(db, transfer, status, progress);
    }

    /** Touches the peer's transfer. */
    method Touch(peer: string, now: nat)
      requires Valid() && peer in receiving
      modifies this`receiving, this`views
      ensures Valid() && receiving == old(receiving)[peer := Idle.Timed(old(receiving)[peer].value, now)]
      ensures Snapshot() == Keep(old(Snapshot()), peer, old(Snapshot()).receiving[peer].value, now)
    {
      Replace(peer, receiving[peer].value, now);
    }

    /** Resumes the peer's transfer: its slots are emptied in place. */
    method Resume(peer: string, now: nat) returns (offset: nat)
      requires Valid() && peer in receiving
      modifies this`receiving, this`views, receiving[peer].value, receiving[peer].value.chunksInFlight
      ensures Valid()
      ensures var m := old(Snapshot()).receiving[peer].value;
              && offset == m.progress
              && Snapshot() == Keep(old(Snapshot()), peer, m.(slots := EMPTY_SLOTS, earliest := 0), now)
    {
      var m := receiving[peer].value;
      offset := m.byteProgress;
      ghost var before := Snapshot();
      ghost var resumed := before.receiving[peer].value.(slots := EMPTY_SLOTS, earliest := 0);
      ghost var touched := receiving[peer].touched;
      Empty(peer);
      assert Snapshot() == Keep(before, peer, resumed, touched);
      Touch(peer, now);
      KeepTwice(before, peer, resumed, touched, now);
    }

    method Empty(peer: string)
      requires Valid() && peer in receiving
      modifies this`views, receiving[peer].value, receiving[peer].value.chunksInFlight
      ensures Valid()
      ensures var m := old(Snapshot()).receiving[peer].value;
              Snapshot() == Keep(old(Snapshot()), peer, m.(slots := EMPTY_SLOTS, earliest := 0), receiving[peer].touched)
    {
      var m := receiving[peer].value;
      m.ResetSlots();
      assert forall q :: q in receiving && q != peer ==> View(receiving[q].value) == old(View(receiving[q].value));
      assert View(m) == old(View(m)).(slots := m.State().slots, earliest := m.State().earliest);
      Review(peer, View(m));
    }

    method HandleContinue(peer: string, contact: Option<string>, req: FileRequest, env: Env) returns (response: FileResponse)
      requires req.ContinueTransfer? && Valid() && WellFormedReceiver(Snapshot())
      modifies this
      modifies if peer in receiving then {receiving[peer].value, receiving[peer].value.chunksInFlight} else {}
      ensures Valid() && Reply(Snapshot(), response) == OnContinue(old(Snapshot()), peer, contact, req, env)
    {
      Evict(peer, env.now);
      if Idle.Live(receiving, IDLE_TTL, peer, env.later) {
        var d := receiving[peer].value.details;
        if d.transfer == req.transfer && d.filerequest == req.filerequest && d.contact == contact {
          var offset := Resume(peer, env.later);
          return AcceptContinueTransfer(offset);
        }
        Touch(peer, env.later);
      }
      response := HandleFromDisk(peer, contact, req, env);
    }

    method HandleFromDisk(peer: string, contact: Option<string>, req: FileRequest, env: Env) returns (response: FileResponse)
      requires req.ContinueTransfer? && Valid() && WellFormedReceiver(Snapshot())
      modifies this
      ensures Valid() && Reply(Snapshot(), response) == FromDisk(old(Snapshot()), peer, contact, req, env)
    {
      if !AdmitsContinue(db, req.filerequest, contact, peer, req.transfer) {
        return RestartContinueTransfer;
      }
      if !env.opens {
        Mark(req.transfer, Failed, 0);
        return RestartContinueTransfer;
      }
      var record := db.received[req.transfer];
      var file := Open(Tag(record.startedAt, req.transfer, peer, contact));
      if !env.sizes {
        return InternalError;
      }
      var offset := |file.content|;
      Begin(peer, file, record.size, offset, Details(record.fileName, req.transfer, req.filerequest, contact, record.startedAt), env.later);
      response := AcceptContinueTransfer(offset);
    }

    /** Removes a part name; what it led to becomes a final file if one is given. */
    method Unlink(name: string, final: Option<Final>)
      requires Valid()
      modifies this`parts, this`finals
      ensures Valid()
      ensures Snapshot() == old(Snapshot()).(disk := old(Snapshot()).disk.(
                parts := old(parts) - {name}, finals := if final.Some? then old(finals) + [final.value] else old(finals)))
    {
      parts := parts - {name};
      if final.Some? {
        finals := finals + [final.value];
      }
    }

    method HandleAbort(peer: string, contact: Option<string>, req: FileRequest, env: Env) returns (response: FileResponse)
      requires req.AbortTransfer? && Valid() && WellFormedReceiver(Snapshot())
      modifies this
      ensures Valid() && Reply(Snapshot(), response) == OnAbort(old(Snapshot()), peer, contact, req, env)
    {
      Evict(peer, env.now);
      if !Idle.Live(receiving, IDLE_TTL, peer, env.later) {
        Drop(peer);
        return Violation;
      }
      var d, progress := receiving[peer].value.details, receiving[peer].value.byteProgress;
      Drop(peer);
      if req.maybeTransfer.Some? && req.maybeTransfer.value != d.transfer {
        return Violation;
      }
      if !env.removes {
        return InternalError;
      }
      Discard(Tag(d.startedAt, d.transfer, peer, contact), progress);
      response := ConfirmAbort;
    }

    /** Removes a part file and records that its transfer failed. */
    method Discard(tag: Tag, progress: nat)
      requires Valid()
      modifies this
      ensures Valid()
      ensures Snapshot() == old(Snapshot()).(disk := old(Snapshot()).disk.(parts := old(parts) - {NameOf(tag)}),
                                             db := SetStatus(old(db), tag.transfer, Failed, progress))
    {
      Unlink(NameOf(tag), None);
      Mark(tag.transfer, Failed, progress);
    }

    method HandleDone(peer: string, contact: Option<string>, req: FileRequest, env: Env) returns (response: FileResponse)
      requires req.Done? && Valid() && WellFormedReceiver(Snapshot())
      modifies this
      ensures Valid() && Reply(Snapshot(), response) == OnDone(old(Snapshot()), peer, contact, req, env)
    {
      Evict(peer, env.now);
      Evict(peer, env.later);
      if peer !in receiving {
        return Violation;
      }
      if !Idle.Live(receiving, IDLE_TTL, peer, env.last) {
        return InternalError;
      }
      response := EndTransfer(peer, contact, req, env);
    }

    method EndTransfer(peer: string, contact: Option<string>, req: FileRequest, env: Env) returns (response: FileResponse)
      requires req.Done? && Valid() && WellFormedReceiver(Snapshot()) && Idle.Live(receiving, IDLE_TTL, peer, env.last)
      modifies this
      ensures Valid()
      ensures Reply(Snapshot(), response) ==
              End(old(Snapshot()), peer, contact, old(Snapshot()).receiving[peer].value, req, env)
    {
      var m := receiving[peer].value;
      Touch(peer, env.last);
      if m.details.transfer != req.transfer {
        Drop(peer);
        return Violation;
      }
      if m.byteProgress != m.declaredFileSizeBytes {
        return Violation;
      }
      var name := NameOf(Tag(m.details.startedAt, req.transfer, peer, contact));
      if !env.finalizes || name !in parts {
        return InternalError;
      }
      Unlink(name, Some(Final(peer, m.details.transfer, m.details.fileName, parts[name])));
      if env.epochMillis.None? || !env.completes || m.details.transfer !in db.received {
        return InternalError;
      }
      Mark(m.details.transfer, Completed, db.received[m.details.transfer].progress);
      response := ConfirmDone;
    }

    /** Brings the view of one manager and of its file up to date. */
    ghost method ReviewFile(peer: string)
      requires Shape() && peer in receiving
      requires forall p :: p in receiving && p != peer ==> views[p] == Idle.Timed(View(receiving[p].value), receiving[p].touched)
      requires forall i :: 0 <= i < |files| && i != receiving[peer].value.file.place ==> contents[i] == File(tags[i], files[i].content)
      modifies this`views, this`contents
      ensures Valid()
      ensures views == old(views)[peer := Idle.Timed(View(receiving[peer].value), receiving[peer].touched)]
      ensures var file := receiving[peer].value.file;
              file.place < |old(contents)| && contents == old(contents)[file.place := File(tags[file.place], file.content)]
    {
      var file := receiving[peer].value.file;
      assert HasPlace(receiving[peer].value, files);
      contents := contents[file.place := File(tags[file.place], file.content)];
      Review(peer, View(receiving[peer].value));
    }

    static method StoreIn(m: ReceiveManager, chunk: Chunk, room: nat) returns (result: StoreResult)
      requires m.Valid() && m.earliestNotReceived + PARALLEL_CHUNKS <= U32_MAX
      modifies m, m.chunksInFlight, m.file
      ensures var stored := Store(old(m.State()), chunk, room);
              && result == stored.result && View(m) == WithRing(old(View(m)), stored.ring)
              && m.file.content == stored.ring.file && m.byteProgress == stored.ring.progress
    {
      m.file.room := room;
      result := m.StoreChunk(chunk);
    }

    /** Hands a chunk to the peer's manager, which writes to its file in place. */
    method StoreInto(peer: string, chunk: Chunk, room: nat) returns (result: StoreResult)
      requires Valid() && peer in receiving
      requires receiving[peer].value.earliestNotReceived + PARALLEL_CHUNKS <= U32_MAX
      modifies this`views, this`contents
      modifies receiving[peer].value, receiving[peer].value.chunksInFlight, receiving[peer].value.file
      ensures Valid()
      ensures var m, disk := old(Snapshot()).receiving[peer].value, old(Snapshot()).disk;
              && m.file < |disk.files| && |m.slots| == PARALLEL_CHUNKS
              && var stored := Store(RingOf(m, disk), chunk, room);
              && result == stored.result && receiving[peer].value.byteProgress == stored.ring.progress
              && views == old(views)[peer := Idle.Timed(WithRing(m, stored.ring), receiving[peer].touched)]
              && contents == WriteTo(disk, m.file, stored.ring.file).files
    {
      var m := receiving[peer].value;
      assert m.State() == RingOf(View(m), Snapshot().disk);
      result := StoreIn(m, chunk, room);
      assert forall q :: q in receiving && q != peer ==> View(receiving[q].value) == old(View(receiving[q].value));
      ReviewFile(peer);
    }

    method HandleChunk(peer: string, contact: Option<string>, req: FileRequest, env: Env) returns (response: FileResponse)
      requires req.ChunkOf? && Valid() && WellFormedReceiver(Snapshot())
      requires peer in receiving ==> receiving[peer].value.earliestNotReceived + PARALLEL_CHUNKS <= U32_MAX
      modifies this
      modifies if peer in receiving
               then {receiving[peer].value, receiving[peer].value.chunksInFlight, receiving[peer].value.file} else {}
      ensures Valid() && Reply(Snapshot(), response) == OnChunk(old(Snapshot()), peer, contact, req, env)
    {
      Evict(peer, env.now);
      if !Idle.Live(receiving, IDLE_TTL, peer, env.later) {
        return Violation;
      }
      var m := receiving[peer].value;
      if req.chunk.transferId != m.details.transfer {
        Drop(peer);
        return Violation;
      }
      if contact != m.details.contact {
        Drop(peer);
        return env.anything;
      }
      response := TakeChunk(peer, req.chunk, env);
    }

    method TakeChunk(peer: string, chunk: Chunk, env: Env) returns (response: FileResponse)
      requires Valid() && peer in receiving
      requires receiving[peer].value.earliestNotReceived + PARALLEL_CHUNKS <= U32_MAX
      modifies this, receiving[peer].value, receiving[peer].value.chunksInFlight, receiving[peer].value.file
      ensures Valid()
      ensures var m, disk := old(Snapshot()).receiving[peer].value, old(Snapshot()).disk;
              && m.file < |disk.files| && |m.slots| == PARALLEL_CHUNKS
              && Reply(Snapshot(), response) ==
                 AfterStore(old(Snapshot()), peer, m, Store(RingOf(m, disk), chunk, env.room), env.later)
    {
      ghost var before, touched := Snapshot(), receiving[peer].touched;
      var result := StoreInto(peer, chunk, env.room);
      ghost var view := before.receiving[peer].value;
      AfterStoreIsConcluded(before, peer, view, Store(RingOf(view, before.disk), chunk, env.room), touched, env.later);
      response := Conclude(peer, result, env.later);
    }

    method Conclude(peer: string, result: StoreResult, later: nat) returns (response: FileResponse)
      requires Valid() && peer in receiving
      modifies this
      ensures Valid() && Reply(Snapshot(), response) == Concluded(old(Snapshot()), peer, result, later)
    {
      var m := receiving[peer].value;
      match result {
        case Received =>
          Mark(m.details.transfer, Receiving, m.byteProgress);
          Touch(peer, later);
          response := ConfirmChunk;
        case ProtocolViolation =>
          Drop(peer);
          response := Violation;
        case IoError =>
          Drop(peer);
          Mark(m.details.transfer, Failed, m.byteProgress);
          response := InternalError;
      }
    }

    /** What a request must bring for the receiver to stay sound: plain ids and a stamp in range. */
    ghost predicate InOrder(peer: string, contact: Option<string>, env: Env)
      reads this
    {
      && Sound(Snapshot()) && PlainIds(contact, peer)
      && (env.epochMillis.Some? ==> I64_MIN <= env.epochMillis.value <= I64_MAX)
      && (forall t :: t in db.received ==> I64_MIN <= db.received[t].startedAt <= I64_MAX)
    }

    /** One request of a peer, in place: the step of the specification, which keeps managers,
        files and records in agreement. */
    method RespondTo(peer: string, contact: Option<string>, req: FileRequest, env: Env) returns (response: FileResponse)
      requires Valid() && WellFormedReceiver(Snapshot())
      requires peer in receiving ==> receiving[peer].value.earliestNotReceived + PARALLEL_CHUNKS <= U32_MAX
      modifies this
      modifies if peer in receiving
               then {receiving[peer].value, receiving[peer].value.chunksInFlight, receiving[peer].value.file} else {}
      ensures Valid() && WellFormedReceiver(Snapshot())
      ensures Reply(Snapshot(), response) == Respond(old(Snapshot()), peer, contact, req, env)
      ensures old(InOrder(peer, contact, env)) ==> Sound(Snapshot())
    {
      if InOrder(peer, contact, env) {
        RespondKeepsSound(Snapshot(), peer, contact, req, env);
      }
      match req {
        case NewTransfer(_, _, _, _) => response := HandleNew(peer, contact, req, env);
        case ContinueTransfer(_, _) => response := HandleContinue(peer, contact, req, env);
        case AbortTransfer(_) => response := HandleAbort(peer, contact, req, env);
        case ChunkOf(_) => response := HandleChunk(peer, contact, req, env);
        case Done(_) => response := HandleDone(peer, contact, req, env);
        case ViolationReport =>
          Drop(peer);
          response := AcknowledgeProtocolViolation;
      }
    }

    method Enter(transfer: string, record: Record)
      requires Valid()
      modifies this`db
      ensures Valid()
      ensures Snapshot() == old(Snapshot()).(db := old(db).(received := old(db).received[transfer := record]))
    {
      db := db.(received := db.received[transfer := record]);
    }
  }
}
