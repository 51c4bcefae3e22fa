/** What every request keeps on the receiving side, whoever sends it. */
module ReceiverInvariant {
  import opened Common
  import opened ChunkRing
  import opened PartFile
  import opened Receiver

  ghost predicate TagOk(tag: Tag) {
    PlainIds(tag.contact, tag.peer) && I64_MIN <= tag.startedAt <= I64_MAX
  }

  /** A tag belongs to the transfer that is on record under its id. */
  ghost predicate OnRecord(db: Db, tag: Tag) {
    && tag.transfer in db.received
    && db.received[tag.transfer].startedAt == tag.startedAt
    && db.received[tag.transfer].peer == tag.peer
    && db.received[tag.transfer].contact == tag.contact
  }

  /** Part names lead to the file created under that name; only files of recorded transfers
      have content, and never more than was declared. */
  ghost predicate FilesSound(db: Db, disk: Disk) {
    && (forall n :: n in disk.parts ==> disk.parts[n] < |disk.files| && NameOf(disk.files[disk.parts[n]].tag) == n)
    && (forall f: nat :: f < |disk.files| ==>
          && TagOk(disk.files[f].tag)
          && (disk.files[f].content != [] ==>
                && OnRecord(db, disk.files[f].tag)
                && |disk.files[f].content| <= db.received[disk.files[f].tag.transfer].size))
  }

  /** A transfer in memory writes to its own part file, is on record with its declared size,
      and has counted exactly the bytes in the file. */
  ghost predicate ManagerSound(db: Db, disk: Disk, peer: string, m: Manager) {
    && m.file < |disk.files|
    && |m.slots| == PARALLEL_CHUNKS
    && disk.files[m.file].tag == Tag(m.startedAt, m.transfer, peer, m.contact)
    && OnRecord(db, disk.files[m.file].tag)
    && m.declared == db.received[m.transfer].size
    && m.progress == |disk.files[m.file].content| <= m.declared
    && (forall i :: 0 <= i < |m.slots| && m.slots[i].Some? ==> m.slots[i].value.transferId == m.transfer)
  }

  ghost predicate Sound(r: Receiver) {
    && FilesSound(r.db, r.disk)
    && (forall p :: p in r.receiving ==> ManagerSound(r.db, r.disk, p, r.receiving[p].value))
  }

  lemma SoundIsWellFormed(r: Receiver)
    requires Sound(r)
    ensures WellFormedReceiver(r)
  {
  }

  /** Transfers of different peers write to different files. */
  lemma PeersWriteApart(r: Receiver, p: string, q: string)
    requires Sound(r) && p in r.receiving && q in r.receiving && p != q
    ensures r.receiving[p].value.file != r.receiving[q].value.file
  {
  }

  /** Later records agree with earlier ones on everything but status and progress. */
  ghost predicate DbExtends(db: Db, db': Db) {
    forall t :: t in db.received ==>
      && t in db'.received
      && db'.received[t].(status := Receiving, progress := 0) == db.received[t].(status := Receiving, progress := 0)
  }

  lemma ExtendedDbKeepsSound(r: Receiver, db': Db)
    requires Sound(r) && DbExtends(r.db, db')
    ensures Sound(r.(db := db'))
  {
  }

  lemma ForgetKeepsSound(r: Receiver, peer: string)
    requires Sound(r)
    ensures Sound(Forget(r, peer))
  {
  }

  lemma LookUpKeepsSound(r: Receiver, peer: string, now: nat)
    requires Sound(r)
    ensures Sound(LookUp(r, peer, now))
  {
  }

  lemma KeepKeepsSound(r: Receiver, peer: string, m: Manager, now: nat)
    requires Sound(r) && ManagerSound(r.db, r.disk, peer, m)
    ensures Sound(Keep(r, peer, m, now))
  {
  }

  lemma UnlinkKeepsSound(r: Receiver, name: string, finals: seq<Final>)
    requires Sound(r)
    ensures Sound(r.(disk := r.disk.(parts := r.disk.parts - {name}, finals := finals)))
  {
  }

  /** A part name leads to a file with exactly its tag. */
  lemma PartHasTag(r: Receiver, tag: Tag)
    requires Sound(r) && TagOk(tag) && NameOf(tag) in r.disk.parts
    ensures r.disk.parts[NameOf(tag)] < |r.disk.files| && r.disk.files[r.disk.parts[NameOf(tag)]].tag == tag
  {
    var found := r.disk.files[r.disk.parts[NameOf(tag)]].tag;
    NameDeterminesTransfer(tag.startedAt, tag.transfer, tag.peer, tag.contact,
                           found.startedAt, found.transfer, found.peer, found.contact);
  }

  lemma CreatingKeepsSound(r: Receiver, tag: Tag)
    requires Sound(r) && TagOk(tag) && NameOf(tag) !in r.disk.parts
    ensures Sound(r.(disk := OpenPart(r.disk, tag).0))
  {
    var disk := OpenPart(r.disk, tag).0;
    forall p | p in r.receiving ensures ManagerSound(r.db, disk, p, r.receiving[p].value) {
      assert ManagerSound(r.db, r.disk, p, r.receiving[p].value);
    }
  }

  /** Opening a part file finds the file of exactly that tag, or makes an empty one; no other
      file is touched. */
  lemma OpenKeepsSound(r: Receiver, tag: Tag)
    requires Sound(r) && TagOk(tag)
    ensures var (disk, file) := OpenPart(r.disk, tag);
            && Sound(r.(disk := disk))
            && file < |disk.files| && disk.files[file].tag == tag
            && NameOf(tag) in disk.parts && disk.parts[NameOf(tag)] == file
            && |r.disk.files| <= |disk.files| && disk.files[..|r.disk.files|] == r.disk.files
            && (forall f: nat :: |r.disk.files| <= f < |disk.files| ==> disk.files[f] == File(tag, []))
            && disk.finals == r.disk.finals
            && (forall n :: n in disk.parts ==> n in r.disk.parts || n == NameOf(tag))
            && (forall n :: n in r.disk.parts ==> n in disk.parts && disk.parts[n] == r.disk.parts[n])
  {
    if NameOf(tag) in r.disk.parts {
      PartHasTag(r, tag);
    } else {
      CreatingKeepsSound(r, tag);
    }
  }

  /** A fresh manager on a file is sound if the file's transfer is on record. */
  lemma FreshManagerSound(db: Db, disk: Disk, peer: string, m: Manager)
    requires m.file < |disk.files| && m.slots == EMPTY_SLOTS
    requires disk.files[m.file].tag == Tag(m.startedAt, m.transfer, peer, m.contact)
    requires OnRecord(db, disk.files[m.file].tag) && m.declared == db.received[m.transfer].size
    requires m.progress == |disk.files[m.file].content| <= m.declared
    ensures ManagerSound(db, disk, peer, m)
  {
  }

  /** What a drain leaves of the ring: the file grows within the declared size, and as long
      as no write failed the count is the file's length; a write that failed is counted whole
      although only as much as the disk takes is in the file. */
  lemma {:induction false} DrainCounts(r: Ring, room: nat, transfer: string)
    requires WellFormed(r) && r.progress == |r.file| <= r.declared
    requires forall i :: 0 <= i < |r.slots| && r.slots[i].Some? ==> r.slots[i].value.transferId == transfer
    ensures var d := Drain(r, room);
            && r.file <= d.ring.file && |d.ring.file| <= r.declared
            && (!d.result.IoError? ==> d.ring.progress == |d.ring.file|)
            && (d.result.IoError? ==> |d.ring.file| == |r.file| + room < d.ring.progress <= r.declared)
            && (forall i :: 0 <= i < |d.ring.slots| && d.ring.slots[i].Some? ==> d.ring.slots[i].value.transferId == transfer)
    decreases Occupied(r.slots)
  {
    var slot := r.earliest % PARALLEL_CHUNKS;
    if r.slots[slot].Some? {
      var data := r.slots[slot].value.data;
      TakingSlotFreesOne(r.slots, slot);
      if |data| + r.progress <= r.declared && |data| <= room {
        DrainCounts(Append(r, data), room - |data|, transfer);
        assert r.file <= r.file + data;
      }
    }
  }

  lemma StoreCounts(r: Ring, chunk: Chunk, room: nat)
    requires WellFormed(r) && r.progress == |r.file| <= r.declared
    requires forall i :: 0 <= i < |r.slots| && r.slots[i].Some? ==> r.slots[i].value.transferId == chunk.transferId
    ensures var d := Store(r, chunk, room);
            && r.file <= d.ring.file && |d.ring.file| <= r.declared
            && (!d.result.IoError? ==> d.ring.progress == |d.ring.file|)
            && (d.result.IoError? ==> |d.ring.file| == |r.file| + room < d.ring.progress <= r.declared)
            && (forall i :: 0 <= i < |d.ring.slots| && d.ring.slots[i].Some? ==>
                  d.ring.slots[i].value.transferId == chunk.transferId)
  {
    if r.earliest <= chunk.idx < r.earliest + PARALLEL_CHUNKS {
      var slot := chunk.idx % PARALLEL_CHUNKS;
      DrainCounts(r.(slots := r.slots[slot := Some(chunk)]), room, chunk.transferId);
    }
  }

  /** Writing to the file of one peer's transfer leaves the others as they were. */
  lemma WriteKeepsOthers(r: Receiver, peer: string, content: Bytes)
    requires Sound(r) && peer in r.receiving
    requires |content| <= r.receiving[peer].value.declared
    ensures Sound(Forget(r.(disk := WriteTo(r.disk, r.receiving[peer].value.file, content)), peer))
  {
    var file := r.receiving[peer].value.file;
    var r' := Forget(r.(disk := WriteTo(r.disk, file, content)), peer);
    assert ManagerSound(r.db, r.disk, peer, r.receiving[peer].value);
    forall p | p in r'.receiving ensures ManagerSound(r'.db, r'.disk, p, r'.receiving[p].value) {
      assert ManagerSound(r.db, r.disk, p, r.receiving[p].value);
      PeersWriteApart(r, p, peer);
    }
  }

  lemma StatusExtends(db: Db, transfer: string, status: Status, progress: nat)
    ensures DbExtends(db, SetStatus(db, transfer, status, progress))
  {
  }

  // ----- The requests -----

  lemma StartKeepsSound(r: Receiver, peer: string, contact: Option<string>, req: FileRequest, startedAt: int, later: nat)
    requires Sound(r) && req.NewTransfer? && req.transfer !in r.db.received
    requires TagOk(Tag(startedAt, req.transfer, peer, contact))
    ensures var (disk, file) := OpenPart(r.disk, Tag(startedAt, req.transfer, peer, contact));
            var record := Record(peer, contact, req.filerequest, req.fileName, req.size, startedAt, Receiving, 0);
            var r3 := r.(disk := disk, db := r.db.(received := r.db.received[req.transfer := record]));
            Sound(Keep(r3, peer, Manager(EMPTY_SLOTS, 0, req.size, 0, file, req.fileName, req.transfer, req.filerequest,
                                         contact, startedAt), later))
  {
    var tag := Tag(startedAt, req.transfer, peer, contact);
    OpenKeepsSound(r, tag);
    var (disk, file) := OpenPart(r.disk, tag);
    var record := Record(peer, contact, req.filerequest, req.fileName, req.size, startedAt, Receiving, 0);
    var db := r.db.(received := r.db.received[req.transfer := record]);
    ExtendedDbKeepsSound(r.(disk := disk), db);
    assert disk.files[file].content == [];
    var m := Manager(EMPTY_SLOTS, 0, req.size, 0, file, req.fileName, req.transfer, req.filerequest, contact, startedAt);
    FreshManagerSound(db, disk, peer, m);
    KeepKeepsSound(r.(disk := disk, db := db), peer, m, later);
  }

  lemma NewKeepsSound(r: Receiver, peer: string, contact: Option<string>, req: FileRequest, env: Env)
    requires Sound(r) && WellFormedReceiver(r) && req.NewTransfer? && PlainIds(contact, peer)
    requires env.epochMillis.Some? ==> I64_MIN <= env.epochMillis.value <= I64_MAX
    ensures Sound(OnNew(r, peer, contact, req, env).receiver)
  {
    var r1 := LookUp(r, peer, env.now);
    LookUpKeepsSound(r, peer, env.now);
    if env.epochMillis.Some? {
      OpenKeepsSound(r1, Tag(env.epochMillis.value, req.transfer, peer, contact));
      if req.transfer !in r1.db.received {
        StartKeepsSound(r1, peer, contact, req, env.epochMillis.value, env.later);
      }
    }
  }

  lemma FromDiskKeepsSound(r: Receiver, peer: string, contact: Option<string>, req: FileRequest, env: Env)
    requires Sound(r) && WellFormedReceiver(r) && req.ContinueTransfer? && PlainIds(contact, peer)
    requires forall t :: t in r.db.received ==> I64_MIN <= r.db.received[t].startedAt <= I64_MAX
    ensures Sound(FromDisk(r, peer, contact, req, env).receiver)
  {
    if AdmitsContinue(r.db, req.filerequest, contact, peer, req.transfer) {
      StatusExtends(r.db, req.transfer, Failed, 0);
      ExtendedDbKeepsSound(r, SetStatus(r.db, req.transfer, Failed, 0));
      if env.opens {
        var record := r.db.received[req.transfer];
        var tag := Tag(record.startedAt, req.transfer, peer, contact);
        OpenKeepsSound(r, tag);
        var (disk, file) := OpenPart(r.disk, tag);
        var m := Manager(EMPTY_SLOTS, 0, record.size, |disk.files[file].content|, file, record.fileName, req.transfer,
                         req.filerequest, contact, record.startedAt);
        FreshManagerSound(r.db, disk, peer, m);
        KeepKeepsSound(r.(disk := disk), peer, m, env.later);
      }
    }
  }

  lemma ContinueKeepsSound(r: Receiver, peer: string, contact: Option<string>, req: FileRequest, env: Env)
    requires Sound(r) && WellFormedReceiver(r) && req.ContinueTransfer? && PlainIds(contact, peer)
    requires forall t :: t in r.db.received ==> I64_MIN <= r.db.received[t].startedAt <= I64_MAX
    ensures Sound(OnContinue(r, peer, contact, req, env).receiver)
  {
    var r1 := LookUp(r, peer, env.now);
    LookUpKeepsSound(r, peer, env.now);
    match Find(r1, peer, env.later) {
      case None => FromDiskKeepsSound(r1, peer, contact, req, env);
      case Some(m) =>
        assert ManagerSound(r1.db, r1.disk, peer, m);
        if Resumes(m, contact, req) {
          var m' := m.(slots := EMPTY_SLOTS, earliest := 0);
          FreshManagerSound(r1.db, r1.disk, peer, m');
          KeepKeepsSound(r1, peer, m', env.later);
        } else {
          KeepKeepsSound(r1, peer, m, env.later);
          FromDiskKeepsSound(Keep(r1, peer, m, env.later), peer, contact, req, env);
        }
    }
  }

  lemma AbortKeepsSound(r: Receiver, peer: string, contact: Option<string>, req: FileRequest, env: Env)
    requires Sound(r) && WellFormedReceiver(r) && req.AbortTransfer?
    ensures Sound(OnAbort(r, peer, contact, req, env).receiver)
  {
    var r1 := LookUp(r, peer, env.now);
    LookUpKeepsSound(r, peer, env.now);
    var r2 := Forget(r1, peer);
    ForgetKeepsSound(r1, peer);
    match Find(r1, peer, env.later) {
      case None =>
      case Some(m) =>
        var name := NameOf(Tag(m.startedAt, m.transfer, peer, contact));
        UnlinkKeepsSound(r2, name, r2.disk.finals);
        var r3 := r2.(disk := r2.disk.(parts := r2.disk.parts - {name}, finals := r2.disk.finals));
        StatusExtends(r3.db, m.transfer, Failed, m.progress);
        ExtendedDbKeepsSound(r3, SetStatus(r3.db, m.transfer, Failed, m.progress));
    }
  }

  lemma ChunkKeepsSound(r: Receiver, peer: string, contact: Option<string>, req: FileRequest, env: Env)
    requires Sound(r) && WellFormedReceiver(r) && req.ChunkOf?
    ensures Sound(OnChunk(r, peer, contact, req, env).receiver)
  {
    var r1 := LookUp(r, peer, env.now);
    LookUpKeepsSound(r, peer, env.now);
    ForgetKeepsSound(r1, peer);
    match Find(r1, peer, env.later) {
      case None =>
      case Some(m) =>
        if req.chunk.transferId == m.transfer && contact == m.contact {
          assert ManagerSound(r1.db, r1.disk, peer, m);
          var stored := Store(RingOf(m, r1.disk), req.chunk, env.room);
          StoreCounts(RingOf(m, r1.disk), req.chunk, env.room);
          WriteKeepsOthers(r1, peer, stored.ring.file);
          FailedStoreKeepsSound(r1, peer, stored);
          if stored.result.Received? {
            StoredKeepsSound(r1, peer, stored, env.later);
          }
        }
    }
  }

  lemma FailedStoreKeepsSound(r: Receiver, peer: string, stored: Stored)
    requires Sound(r) && peer in r.receiving && |stored.ring.file| <= r.receiving[peer].value.declared
    ensures var m := r.receiving[peer].value;
            var r2 := r.(disk := WriteTo(r.disk, m.file, stored.ring.file));
            Sound(Forget(r2.(db := SetStatus(r2.db, m.transfer, Failed, stored.ring.progress)), peer))
  {
    var m := r.receiving[peer].value;
    WriteKeepsOthers(r, peer, stored.ring.file);
    StatusExtends(r.db, m.transfer, Failed, stored.ring.progress);
    ExtendedDbKeepsSound(Forget(r.(disk := WriteTo(r.disk, m.file, stored.ring.file)), peer),
                         SetStatus(r.db, m.transfer, Failed, stored.ring.progress));
  }

  lemma ManagerSoundAfterStore(db: Db, disk: Disk, peer: string, m: Manager, ring: Ring)
    requires ManagerSound(db, disk, peer, m)
    requires |ring.slots| == PARALLEL_CHUNKS && ring.progress == |ring.file| <= m.declared
    requires forall i :: 0 <= i < |ring.slots| && ring.slots[i].Some? ==> ring.slots[i].value.transferId == m.transfer
    ensures ManagerSound(SetStatus(db, m.transfer, Receiving, ring.progress), WriteTo(disk, m.file, ring.file), peer,
                         WithRing(m, ring))
  {
  }

  lemma StoredKeepsSound(r: Receiver, peer: string, stored: Stored, later: nat)
    requires Sound(r) && peer in r.receiving
    requires |stored.ring.slots| == PARALLEL_CHUNKS
    requires stored.ring.progress == |stored.ring.file| <= r.receiving[peer].value.declared
    requires forall i :: 0 <= i < |stored.ring.slots| && stored.ring.slots[i].Some? ==>
               stored.ring.slots[i].value.transferId == r.receiving[peer].value.transfer
    ensures var m := r.receiving[peer].value;
            var r2 := r.(disk := WriteTo(r.disk, m.file, stored.ring.file));
            Sound(Keep(r2.(db := SetStatus(r2.db, m.transfer, Receiving, stored.ring.progress)), peer,
                       WithRing(m, stored.ring), later))
  {
    var m := r.receiving[peer].value;
    WriteKeepsOthers(r, peer, stored.ring.file);
    var r2 := r.(disk := WriteTo(r.disk, m.file, stored.ring.file));
    var db := SetStatus(r.db, m.transfer, Receiving, stored.ring.progress);
    StatusExtends(r.db, m.transfer, Receiving, stored.ring.progress);
    ExtendedDbKeepsSound(Forget(r2, peer), db);
    ManagerSoundAfterStore(r.db, r.disk, peer, m, stored.ring);
    KeepKeepsSound(Forget(r2.(db := db), peer), peer, WithRing(m, stored.ring), later);
    KeepAfterForget(r2.(db := db), peer, WithRing(m, stored.ring), later);
  }

  lemma KeepAfterForget(r: Receiver, peer: string, m: Manager, now: nat)
    ensures Keep(Forget(r, peer), peer, m, now) == Keep(r, peer, m, now)
  {
  }

  lemma FinalizeKeepsSound(r: Receiver, name: string, final: Final)
    requires Sound(r) && final.transfer in r.db.received
    ensures var r3 := r.(disk := r.disk.(parts := r.disk.parts - {name}, finals := r.disk.finals + [final]));
            && Sound(r3)
            && Sound(r3.(db := SetStatus(r3.db, final.transfer, Completed, r3.db.received[final.transfer].progress)))
  {
    UnlinkKeepsSound(r, name, r.disk.finals + [final]);
    var r3 := r.(disk := r.disk.(parts := r.disk.parts - {name}, finals := r.disk.finals + [final]));
    StatusExtends(r3.db, final.transfer, Completed, r3.db.received[final.transfer].progress);
    ExtendedDbKeepsSound(r3, SetStatus(r3.db, final.transfer, Completed, r3.db.received[final.transfer].progress));
  }

  lemma EndKeepsSound(r: Receiver, peer: string, contact: Option<string>, req: FileRequest, env: Env)
    requires Sound(r) && req.Done? && Find(r, peer, env.last).Some?
    ensures Sound(End(r, peer, contact, Find(r, peer, env.last).value, req, env).receiver)
  {
    var m := Find(r, peer, env.last).value;
    assert ManagerSound(r.db, r.disk, peer, m);
    KeepKeepsSound(r, peer, m, env.last);
    var r2 := Keep(r, peer, m, env.last);
    ForgetKeepsSound(r2, peer);
    var name := NameOf(Tag(m.startedAt, req.transfer, peer, contact));
    if name in r2.disk.parts {
      FinalizeKeepsSound(r2, name, Final(peer, m.transfer, m.fileName, r2.disk.parts[name]));
    }
  }

  lemma DoneKeepsSound(r: Receiver, peer: string, contact: Option<string>, req: FileRequest, env: Env)
    requires Sound(r) && WellFormedReceiver(r) && req.Done?
    ensures Sound(OnDone(r, peer, contact, req, env).receiver)
  {
    LookUpKeepsSound(r, peer, env.now);
    LookUpKeepsSound(LookUp(r, peer, env.now), peer, env.later);
    var r1 := LookUp(LookUp(r, peer, env.now), peer, env.later);
    if Find(r1, peer, env.last).Some? {
      EndKeepsSound(r1, peer, contact, req, env);
    }
  }

  /** Every request of every peer keeps the receiver sound. */
  lemma RespondKeepsSound(r: Receiver, peer: string, contact: Option<string>, req: FileRequest, env: Env)
    requires Sound(r) && WellFormedReceiver(r) && PlainIds(contact, peer)
    requires env.epochMillis.Some? ==> I64_MIN <= env.epochMillis.value <= I64_MAX
    requires forall t :: t in r.db.received ==> I64_MIN <= r.db.received[t].startedAt <= I64_MAX
    ensures Sound(Respond(r, peer, contact, req, env).receiver)
  {
    match req {
      case NewTransfer(_, _, _, _) => NewKeepsSound(r, peer, contact, req, env);
      case ContinueTransfer(_, _) => ContinueKeepsSound(r, peer, contact, req, env);
      case AbortTransfer(_) => AbortKeepsSound(r, peer, contact, req, env);
      case ChunkOf(_) => ChunkKeepsSound(r, peer, contact, req, env);
      case Done(_) => DoneKeepsSound(r, peer, contact, req, env);
      case ViolationReport => ForgetKeepsSound(r, peer);
    }
  }

  // ----- Ending a complete transfer -----

  /** A complete transfer, alive in memory, that a request to end it finds. */
  ghost predicate Complete(r: Receiver, peer: string, m: Manager) {
    && Sound(r) && peer in r.receiving && r.receiving[peer].value == m && m.progress == m.declared
  }

  ghost predicate InTime(r: Receiver, peer: string, env: Env) {
    && env.now <= env.later <= env.last
    && Find(r, peer, env.last).Some?
  }

  ghost predicate Succeeds(env: Env) {
    env.finalizes && env.completes && env.epochMillis.Some?
  }

  lemma EndFinalisesPart(r: Receiver, peer: string, contact: Option<string>, m: Manager, env: Env)
    requires m.progress == m.declared && m.transfer in r.db.received && Succeeds(env)
    requires NameOf(Tag(m.startedAt, m.transfer, peer, contact)) in r.disk.parts
    ensures var reply := End(r, peer, contact, m, Done(m.transfer), env);
            && reply.response == ConfirmDone
            && reply.receiver.disk.files == r.disk.files
            && reply.receiver.disk.finals ==
               r.disk.finals + [Final(peer, m.transfer, m.fileName, r.disk.parts[NameOf(Tag(m.startedAt, m.transfer, peer, contact))])]
  {
  }

  lemma DoneEnds(r: Receiver, peer: string, contact: Option<string>, m: Manager, env: Env)
    requires peer in r.receiving && r.receiving[peer].value == m && InTime(r, peer, env) && WellFormedReceiver(r)
    ensures Respond(r, peer, contact, Done(m.transfer), env) == End(r, peer, contact, m, Done(m.transfer), env)
  {
  }

  /** Ending a complete transfer finalises what its part name leads to, for the contact that
      asks. */
  lemma DoneFinalisesPart(r: Receiver, peer: string, contact: Option<string>, m: Manager, env: Env)
    requires Complete(r, peer, m) && WellFormedReceiver(r) && InTime(r, peer, env) && Succeeds(env)
    requires NameOf(Tag(m.startedAt, m.transfer, peer, contact)) in r.disk.parts
    ensures var reply := Respond(r, peer, contact, Done(m.transfer), env);
            && reply.response == ConfirmDone
            && reply.receiver.disk.files == r.disk.files
            && reply.receiver.disk.finals ==
               r.disk.finals + [Final(peer, m.transfer, m.fileName, r.disk.parts[NameOf(Tag(m.startedAt, m.transfer, peer, contact))])]
  {
    assert ManagerSound(r.db, r.disk, peer, m);
    DoneEnds(r, peer, contact, m, env);
    EndFinalisesPart(r, peer, contact, m, env);
  }
}
