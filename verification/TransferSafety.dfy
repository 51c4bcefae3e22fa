/** The proof that every run of a transfer keeps the part file a prefix of the source and
    finalises nothing but the source. */
module TransferSafety {
  import opened Common
  import opened LeastAbsent
  import opened ChunkRing
  import opened PartFile
  import opened Receiver
  import opened ReceiverInvariant
  import opened Transfer

  // ----- Steps that do not concern the transfer -----

  /** Nothing of the observed transfer changes on disk and on record. */
  ghost predicate FilesFrame(sc: Scene, r: Receiver, r': Receiver) {
    && |r.disk.files| <= |r'.disk.files|
    && (forall f: nat :: f < |r.disk.files| ==>
          && r'.disk.files[f].tag == r.disk.files[f].tag
          && (Mine(sc, r.disk.files[f].tag) ==> r'.disk.files[f] == r.disk.files[f]))
    && (forall f: nat :: |r.disk.files| <= f < |r'.disk.files| && Mine(sc, r'.disk.files[f].tag) ==>
          r'.disk.files[f].content == [])
    && |r.disk.finals| <= |r'.disk.finals|
    && (forall i: nat :: i < |r.disk.finals| ==> r'.disk.finals[i] == r.disk.finals[i])
    && (forall i: nat :: |r.disk.finals| <= i < |r'.disk.finals| ==> !MyFinal(sc, r'.disk.finals[i]))
    && DbExtends(r.db, r'.db)
    && (Owned(sc, r'.db) ==> Owned(sc, r.db))
  }

  /** In memory it may be touched while alive, or forgotten, and its part name leads where it
      did. */
  ghost predicate AliveFrame(sc: Scene, r: Receiver, clock: nat, r': Receiver, clock': nat) {
    Alive(sc, r', clock') ==>
      && Alive(sc, r, clock) && r'.receiving[sc.peer].value == r.receiving[sc.peer].value
      && var m := r.receiving[sc.peer].value;
         var name := NameOf(OwnTag(sc, m));
         && (name in r'.disk.parts && 0 < m.declared ==> name in r.disk.parts && r'.disk.parts[name] == r.disk.parts[name])
         && (name !in r'.disk.parts ==> name !in r.disk.parts)
  }

  ghost predicate Frame(sc: Scene, r: Receiver, clock: nat, r': Receiver, clock': nat) {
    FilesFrame(sc, r, r') && AliveFrame(sc, r, clock, r', clock')
  }

  lemma Then(sc: Scene, r1: Receiver, c1: nat, r2: Receiver, c2: nat, r3: Receiver, c3: nat)
    requires Frame(sc, r1, c1, r2, c2) && Frame(sc, r2, c2, r3, c3)
    ensures Frame(sc, r1, c1, r3, c3)
  {
  }

  lemma FrameKeepsFiles(sc: Scene, r: Receiver, r': Receiver)
    requires FilesHonest(sc, r) && FilesFrame(sc, r, r')
    ensures FilesHonest(sc, r') && (Finalised(sc, r) ==> Finalised(sc, r'))
  {
    if Owned(sc, r.db) {
      SameRecord(r.db, r'.db, sc.transfer);
    }
    forall i: nat | i < |r'.disk.finals| && MyFinal(sc, r'.disk.finals[i])
      ensures FinalHonest(sc, r', r'.disk.finals[i].file)
    {
      assert FinalHonest(sc, r, r.disk.finals[i].file);
    }
    if Finalised(sc, r) {
      var k: nat :| k < |r.disk.finals| && MyFinal(sc, r.disk.finals[k]);
      assert MyFinal(sc, r'.disk.finals[k]);
    }
  }

  /** What is in memory and the status of records do not matter for files. */
  lemma SameDiskKeepsFiles(sc: Scene, r: Receiver, r': Receiver)
    requires FilesHonest(sc, r) && r'.disk == r.disk && DbExtends(r.db, r'.db)
    ensures FilesHonest(sc, r') && (Finalised(sc, r) ==> Finalised(sc, r'))
  {
    forall i: nat | i < |r'.disk.finals| && MyFinal(sc, r'.disk.finals[i])
      ensures FinalHonest(sc, r', r'.disk.finals[i].file)
    {
      assert FinalHonest(sc, r, r.disk.finals[i].file);
      SameRecord(r.db, r'.db, sc.transfer);
    }
  }

  lemma SameRecord(db: Db, db': Db, t: string)
    requires DbExtends(db, db') && t in db.received
    ensures t in db'.received
    ensures db'.received[t].size == db.received[t].size && db'.received[t].peer == db.received[t].peer
  {
    var a, b := db.received[t].(status := Receiving, progress := 0), db'.received[t].(status := Receiving, progress := 0);
    assert a.size == b.size && a.peer == b.peer;
  }

  lemma FrameKeepsHonest(sc: Scene, r: Receiver, clock: nat, r': Receiver, clock': nat, start: Option<Start>)
    requires Sound(r) && Honest(sc, r, start, clock) && Frame(sc, r, clock, r', clock')
    ensures Honest(sc, r', start, clock')
  {
    FrameKeepsFiles(sc, r, r');
    if Alive(sc, r', clock') {
      var m := r.receiving[sc.peer].value;
      assert ManagerSound(r.db, r.disk, sc.peer, m);
      assert RingOf(m, r'.disk) == RingOf(m, r.disk);
    }
  }

  /** A change of memory alone. */
  ghost predicate MemoryFrame(sc: Scene, r: Receiver, clock: nat, r': Receiver, clock': nat) {
    && r'.disk == r.disk && r'.db == r.db
    && (Alive(sc, r', clock') ==> Alive(sc, r, clock) && r'.receiving[sc.peer].value == r.receiving[sc.peer].value)
  }

  lemma MemoryFrameFrames(sc: Scene, r: Receiver, clock: nat, r': Receiver, clock': nat)
    requires MemoryFrame(sc, r, clock, r', clock')
    ensures Frame(sc, r, clock, r', clock')
  {
  }

  lemma LookUpFrames(sc: Scene, r: Receiver, peer: string, now: nat, clock: nat, clock': nat)
    requires clock <= clock'
    ensures Frame(sc, r, clock, LookUp(r, peer, now), clock')
    ensures Frame(sc, r, clock, Forget(r, peer), clock')
    ensures Frame(sc, r, clock, r, clock')
  {
    MemoryFrameFrames(sc, r, clock, LookUp(r, peer, now), clock');
    MemoryFrameFrames(sc, r, clock, Forget(r, peer), clock');
    MemoryFrameFrames(sc, r, clock, r, clock');
  }

  lemma TouchFrames(sc: Scene, r: Receiver, peer: string, now: nat, clock: nat, clock': nat)
    requires clock <= now && clock <= clock' && Find(r, peer, now).Some?
    ensures Frame(sc, r, clock, Keep(r, peer, Find(r, peer, now).value, now), clock')
  {
    MemoryFrameFrames(sc, r, clock, Keep(r, peer, Find(r, peer, now).value, now), clock');
  }

  lemma ReplaceFrames(sc: Scene, r: Receiver, peer: string, m: Manager, now: nat, clock: nat, clock': nat)
    requires (peer != sc.peer || m.transfer != sc.transfer) && clock <= clock'
    ensures Frame(sc, r, clock, Keep(r, peer, m, now), clock')
  {
    MemoryFrameFrames(sc, r, clock, Keep(r, peer, m, now), clock');
  }

  lemma DbFrames(sc: Scene, r: Receiver, db: Db, clock: nat, clock': nat)
    requires DbExtends(r.db, db) && (Owned(sc, db) ==> Owned(sc, r.db)) && clock <= clock'
    ensures Frame(sc, r, clock, r.(db := db), clock')
  {
  }

  lemma StatusFrames(sc: Scene, r: Receiver, transfer: string, status: Status, progress: nat, clock: nat, clock': nat)
    requires clock <= clock'
    ensures Frame(sc, r, clock, r.(db := SetStatus(r.db, transfer, status, progress)), clock')
  {
    StatusExtends(r.db, transfer, status, progress);
    DbFrames(sc, r, SetStatus(r.db, transfer, status, progress), clock, clock');
  }

  /** Names tell the tag of the transfer from every other. */
  lemma OtherName(sc: Scene, r: Receiver, tag: Tag)
    requires Sound(r) && TagOk(tag) && Engaged(sc, r) && tag != OwnTag(sc, r.receiving[sc.peer].value)
    ensures NameOf(tag) != NameOf(OwnTag(sc, r.receiving[sc.peer].value))
  {
    var m := r.receiving[sc.peer].value;
    assert ManagerSound(r.db, r.disk, sc.peer, m);
    var own := OwnTag(sc, m);
    assert own == r.disk.files[m.file].tag;
    if NameOf(own) == NameOf(tag) {
      NameDeterminesTransfer(tag.startedAt, tag.transfer, tag.peer, tag.contact,
                             own.startedAt, own.transfer, own.peer, own.contact);
    }
  }

  lemma OpenFramesFiles(sc: Scene, r: Receiver, tag: Tag)
    ensures FilesFrame(sc, r, r.(disk := OpenPart(r.disk, tag).0))
  {
  }

  /** Opening a part file, unless it takes the place of one that was finalised. */
  lemma OpenFrames(sc: Scene, r: Receiver, tag: Tag, clock: nat, clock': nat)
    requires Sound(r) && TagOk(tag) && clock <= clock'
    requires !(Spent(sc, r, clock') && tag == OwnTag(sc, r.receiving[sc.peer].value))
    ensures Frame(sc, r, clock, r.(disk := OpenPart(r.disk, tag).0), clock')
  {
    OpenFramesFiles(sc, r, tag);
    if Alive(sc, r, clock') && tag != OwnTag(sc, r.receiving[sc.peer].value) {
      OtherName(sc, r, tag);
    }
  }

  /** Removing a part name that is not the transfer's, with or without a final file. */
  lemma UnlinkFrames(sc: Scene, r: Receiver, tag: Tag, finals: seq<Final>, clock: nat)
    requires Sound(r) && TagOk(tag) && r.disk.finals <= finals
    requires Engaged(sc, r) ==> tag != OwnTag(sc, r.receiving[sc.peer].value)
    requires forall i: nat :: |r.disk.finals| <= i < |finals| ==> !MyFinal(sc, finals[i])
    ensures Frame(sc, r, clock, r.(disk := r.disk.(parts := r.disk.parts - {NameOf(tag)}, finals := finals)), clock)
  {
    if Engaged(sc, r) {
      OtherName(sc, r, tag);
    }
  }

  // ----- New transfers -----

  lemma NewFrames(sc: Scene, sys: Sys, ev: Event)
    requires Inv(sc, sys) && WellFormedReceiver(sys.receiver) && ev.Request? && ev.req.NewTransfer? && Allowed(sc, sys, ev)
    requires var response := OnNew(sys.receiver, ev.peer, ev.contact, ev.req, ev.env).response;
             !(ev.peer == sc.peer && ev.req.transfer == sc.transfer && response.AcceptNewTransfer?)
    ensures Frame(sc, sys.receiver, sys.clock, OnNew(sys.receiver, ev.peer, ev.contact, ev.req, ev.env).receiver, ev.env.last)
  {
    var r, env, req := sys.receiver, ev.env, ev.req;
    var r1 := LookUp(r, ev.peer, env.now);
    LookUpKeepsSound(r, ev.peer, env.now);
    LookUpFrames(sc, r, ev.peer, env.now, sys.clock, env.last);
    if AdmitsDrop(r1.db, req.filerequest, ev.contact) && env.epochMillis.Some? && env.opens {
      var tag := Tag(env.epochMillis.value, req.transfer, ev.peer, ev.contact);
      assert ev.peer == sc.peer ==> Heeds(sc, r, ev.contact, req, env, FreshStamp);
      OpenFrames(sc, r1, tag, env.last, env.last);
      var (disk, file) := OpenPart(r1.disk, tag);
      var r2 := r1.(disk := disk);
      Then(sc, r, sys.clock, r1, env.last, r2, env.last);
      if env.persists && req.transfer !in r2.db.received {
        NewRecordFrames(sc, r2, ev, file);
        Then(sc, r, sys.clock, r2, env.last, OnNew(r, ev.peer, ev.contact, req, env).receiver, env.last);
      }
    }
  }

  lemma NewRecordFrames(sc: Scene, r2: Receiver, ev: Event, file: nat)
    requires ev.Request? && ev.req.NewTransfer? && ev.env.epochMillis.Some? && ev.req.transfer !in r2.db.received
    requires ev.peer != sc.peer || ev.req.transfer != sc.transfer
    ensures var req, startedAt := ev.req, ev.env.epochMillis.value;
            var record := Record(ev.peer, ev.contact, req.filerequest, req.fileName, req.size, startedAt, Receiving, 0);
            var m := Manager(EMPTY_SLOTS, 0, req.size, 0, file, req.fileName, req.transfer, req.filerequest, ev.contact, startedAt);
            var r3 := r2.(db := r2.db.(received := r2.db.received[req.transfer := record]));
            Frame(sc, r2, ev.env.last, Keep(r3, ev.peer, m, ev.env.later), ev.env.last)
  {
    var req, startedAt := ev.req, ev.env.epochMillis.value;
    var record := Record(ev.peer, ev.contact, req.filerequest, req.fileName, req.size, startedAt, Receiving, 0);
    var m := Manager(EMPTY_SLOTS, 0, req.size, 0, file, req.fileName, req.transfer, req.filerequest, ev.contact, startedAt);
    var r3 := r2.(db := r2.db.(received := r2.db.received[req.transfer := record]));
    DbFrames(sc, r2, r3.db, ev.env.last, ev.env.last);
    ReplaceFrames(sc, r3, ev.peer, m, ev.env.later, ev.env.last, ev.env.last);
    Then(sc, r2, ev.env.last, r3, ev.env.last, Keep(r3, ev.peer, m, ev.env.later), ev.env.last);
  }

  // ----- Aborts -----

  lemma AbortFrames(sc: Scene, sys: Sys, ev: Event)
    requires Inv(sc, sys) && WellFormedReceiver(sys.receiver) && ev.Request? && ev.req.AbortTransfer? && Allowed(sc, sys, ev)
    ensures Frame(sc, sys.receiver, sys.clock, OnAbort(sys.receiver, ev.peer, ev.contact, ev.req, ev.env).receiver, ev.env.last)
  {
    var r, env := sys.receiver, ev.env;
    var r2 := Forget(r, ev.peer);
    assert Forget(LookUp(r, ev.peer, env.now), ev.peer) == r2;
    ForgetKeepsSound(r, ev.peer);
    LookUpFrames(sc, r, ev.peer, env.now, sys.clock, env.last);
    var m := Find(LookUp(r, ev.peer, env.now), ev.peer, env.later);
    if m.Some? {
      assert ManagerSound(r.db, r.disk, ev.peer, m.value);
      DeleteFrames(sc, r2, Tag(m.value.startedAt, m.value.transfer, ev.peer, ev.contact), m.value.progress, env.last);
      var name := NameOf(Tag(m.value.startedAt, m.value.transfer, ev.peer, ev.contact));
      Then(sc, r, sys.clock, r2, env.last,
           r2.(disk := r2.disk.(parts := r2.disk.parts - {name}), db := SetStatus(r2.db, m.value.transfer, Failed, m.value.progress)),
           env.last);
    }
  }

  lemma DeleteFrames(sc: Scene, r: Receiver, tag: Tag, progress: nat, clock: nat)
    requires Sound(r) && TagOk(tag) && tag.peer !in r.receiving
    ensures Frame(sc, r, clock, r.(disk := r.disk.(parts := r.disk.parts - {NameOf(tag)}),
                                   db := SetStatus(r.db, tag.transfer, Failed, progress)), clock)
  {
    UnlinkFrames(sc, r, tag, r.disk.finals, clock);
    var r3 := r.(disk := r.disk.(parts := r.disk.parts - {NameOf(tag)}, finals := r.disk.finals));
    StatusFrames(sc, r3, tag.transfer, Failed, progress, clock, clock);
    Then(sc, r, clock, r3, clock, r3.(db := SetStatus(r.db, tag.transfer, Failed, progress)), clock);
  }

  // ----- Ending transfers -----

  lemma FinalizeOtherFrames(sc: Scene, r: Receiver, tag: Tag, final: Final, clock: nat)
    requires Sound(r) && TagOk(tag) && !Mine(sc, tag) && !MyFinal(sc, final) && final.transfer in r.db.received
    ensures var r3 := r.(disk := r.disk.(parts := r.disk.parts - {NameOf(tag)}, finals := r.disk.finals + [final]));
            && Frame(sc, r, clock, r3, clock)
            && Frame(sc, r, clock, r3.(db := SetStatus(r3.db, final.transfer, Completed, r3.db.received[final.transfer].progress)), clock)
  {
    UnlinkFrames(sc, r, tag, r.disk.finals + [final], clock);
    var r3 := r.(disk := r.disk.(parts := r.disk.parts - {NameOf(tag)}, finals := r.disk.finals + [final]));
    StatusFrames(sc, r3, final.transfer, Completed, r3.db.received[final.transfer].progress, clock, clock);
    Then(sc, r, clock, r3, clock,
         r3.(db := SetStatus(r3.db, final.transfer, Completed, r3.db.received[final.transfer].progress)), clock);
  }

  /** The request gives the part file of a complete transfer its final name. */
  ghost predicate Finalizes(r: Receiver, peer: string, contact: Option<string>, m: Manager, req: FileRequest, env: Env) {
    && req.Done? && m.transfer == req.transfer && m.progress == m.declared
    && env.finalizes && NameOf(Tag(m.startedAt, req.transfer, peer, contact)) in r.disk.parts
  }

  lemma EndOtherFrames(sc: Scene, r1: Receiver, clock: nat, peer: string, contact: Option<string>, req: FileRequest, env: Env)
    requires Sound(r1) && clock <= env.last && req.Done? && Find(r1, peer, env.last).Some? && PlainIds(contact, peer)
    requires Finalizes(r1, peer, contact, Find(r1, peer, env.last).value, req, env)
    requires peer != sc.peer || req.transfer != sc.transfer
    ensures Frame(sc, r1, clock, End(r1, peer, contact, Find(r1, peer, env.last).value, req, env).receiver, env.last)
  {
    var m := Find(r1, peer, env.last).value;
    assert ManagerSound(r1.db, r1.disk, peer, m);
    var r2 := Keep(r1, peer, m, env.last);
    KeepKeepsSound(r1, peer, m, env.last);
    TouchFrames(sc, r1, peer, env.last, clock, env.last);
    var tag := Tag(m.startedAt, req.transfer, peer, contact);
    FinalizeOtherFrames(sc, r2, tag, Final(peer, m.transfer, m.fileName, r2.disk.parts[NameOf(tag)]), env.last);
    Then(sc, r1, clock, r2, env.last, End(r1, peer, contact, m, req, env).receiver, env.last);
  }

  lemma EndFrames(sc: Scene, r1: Receiver, clock: nat, peer: string, contact: Option<string>, req: FileRequest, env: Env)
    requires Sound(r1) && clock <= env.last && req.Done? && Find(r1, peer, env.last).Some? && PlainIds(contact, peer)
    requires !(peer == sc.peer && req.transfer == sc.transfer && Finalizes(r1, peer, contact, Find(r1, peer, env.last).value, req, env))
    ensures Frame(sc, r1, clock, End(r1, peer, contact, Find(r1, peer, env.last).value, req, env).receiver, env.last)
  {
    var m := Find(r1, peer, env.last).value;
    if m.transfer != req.transfer {
      assert Forget(Keep(r1, peer, m, env.last), peer).receiving == Forget(r1, peer).receiving;
      LookUpFrames(sc, r1, peer, env.last, clock, env.last);
    } else if Finalizes(r1, peer, contact, m, req, env) {
      EndOtherFrames(sc, r1, clock, peer, contact, req, env);
    } else {
      TouchFrames(sc, r1, peer, env.last, clock, env.last);
    }
  }

  /** The file that gets the final name has the declared length. */
  lemma FinalisedHasDeclaredSize(sc: Scene, r1: Receiver, contact: Option<string>, m: Manager)
    requires Sound(r1) && Engaged(sc, r1) && r1.receiving[sc.peer].value == m && m.progress == m.declared && PlainIds(contact, sc.peer)
    requires var name := NameOf(Tag(m.startedAt, sc.transfer, sc.peer, contact));
             name in r1.disk.parts && (0 < m.declared ==> contact == m.contact && r1.disk.parts[name] == m.file)
    ensures FinalHonest(sc, r1, r1.disk.parts[NameOf(Tag(m.startedAt, sc.transfer, sc.peer, contact))])
  {
    assert ManagerSound(r1.db, r1.disk, sc.peer, m);
    var tag := Tag(m.startedAt, sc.transfer, sc.peer, contact);
    PartHasTag(r1, tag);
  }

  /** What finalising leaves: the same files, one more final, one part name less. */
  lemma EndFinalises(r1: Receiver, peer: string, contact: Option<string>, m: Manager, req: FileRequest, env: Env)
    requires Finalizes(r1, peer, contact, m, req, env)
    ensures var r', name := End(r1, peer, contact, m, req, env).receiver, NameOf(Tag(m.startedAt, req.transfer, peer, contact));
            && r'.disk == Disk(r1.disk.files, r1.disk.parts - {name},
                               r1.disk.finals + [Final(peer, m.transfer, m.fileName, r1.disk.parts[name])])
            && DbExtends(r1.db, r'.db) && peer in r'.receiving && r'.receiving[peer].value == m
  {
  }

  lemma FinalKeepsHonest(sc: Scene, r1: Receiver, r': Receiver, name: string, start: Option<Start>, now: nat)
    requires Honest(sc, r1, start, now) && Alive(sc, r1, now) && name in r1.disk.parts && DbExtends(r1.db, r'.db)
    requires Engaged(sc, r') && r'.receiving[sc.peer].value == r1.receiving[sc.peer].value
    requires var m := r1.receiving[sc.peer].value;
             && m.progress == m.declared && FinalHonest(sc, r1, r1.disk.parts[name])
             && r'.disk == Disk(r1.disk.files, r1.disk.parts - {name},
                                r1.disk.finals + [Final(sc.peer, sc.transfer, m.fileName, r1.disk.parts[name])])
    ensures Honest(sc, r', start, now)
  {
    var m := r1.receiving[sc.peer].value;
    AppendFinal(sc, r1, r', Final(sc.peer, sc.transfer, m.fileName, r1.disk.parts[name]));
    assert RingOf(m, r'.disk) == RingOf(m, r1.disk);
  }

  lemma FinalizeKeepsHonest(sc: Scene, r1: Receiver, start: Option<Start>, ev: Event)
    requires ev.Request? && Sound(r1) && Honest(sc, r1, start, ev.env.last)
    requires ev.req.Done? && ev.req.transfer == sc.transfer && ev.peer == sc.peer && Find(r1, sc.peer, ev.env.last).Some?
    requires PlainIds(ev.contact, ev.peer) && Heeds(sc, r1, ev.contact, ev.req, ev.env, OwnContact)
    requires Finalizes(r1, ev.peer, ev.contact, Find(r1, ev.peer, ev.env.last).value, ev.req, ev.env)
    ensures Honest(sc, End(r1, ev.peer, ev.contact, Find(r1, ev.peer, ev.env.last).value, ev.req, ev.env).receiver, start, ev.env.last)
  {
    var m := Find(r1, ev.peer, ev.env.last).value;
    FinalisedHasDeclaredSize(sc, r1, ev.contact, m);
    EndFinalises(r1, ev.peer, ev.contact, m, ev.req, ev.env);
    FinalKeepsHonest(sc, r1, End(r1, ev.peer, ev.contact, m, ev.req, ev.env).receiver,
                     NameOf(Tag(m.startedAt, sc.transfer, sc.peer, ev.contact)), start, ev.env.last);
  }

  lemma AppendFinal(sc: Scene, r: Receiver, r': Receiver, final: Final)
    requires FilesHonest(sc, r) && MyFinal(sc, final) && FinalHonest(sc, r, final.file) && DbExtends(r.db, r'.db)
    requires r'.disk.files == r.disk.files && r'.disk.finals == r.disk.finals + [final]
    ensures FilesHonest(sc, r') && Finalised(sc, r')
  {
    SameRecord(r.db, r'.db, sc.transfer);
    forall i: nat | i < |r'.disk.finals| && MyFinal(sc, r'.disk.finals[i])
      ensures FinalHonest(sc, r', r'.disk.finals[i].file)
    {
      if i < |r.disk.finals| {
        assert FinalHonest(sc, r, r.disk.finals[i].file);
      }
    }
    assert MyFinal(sc, r'.disk.finals[|r.disk.finals|]);
  }

  lemma LookUpKeepsHonest(sc: Scene, r: Receiver, clock: nat, start: Option<Start>, peer: string, now: nat, clock': nat)
    requires Sound(r) && Honest(sc, r, start, clock) && clock <= clock'
    ensures var r' := LookUp(r, peer, now); Sound(r') && Honest(sc, r', start, clock') && r'.db == r.db && r'.disk == r.disk
  {
    LookUpKeepsSound(r, peer, now);
    LookUpFrames(sc, r, peer, now, clock, clock');
    FrameKeepsHonest(sc, r, clock, LookUp(r, peer, now), clock', start);
  }

  lemma DoneKeepsHonest(sc: Scene, sys: Sys, ev: Event)
    requires Inv(sc, sys) && WellFormedReceiver(sys.receiver) && ev.Request? && ev.req.Done? && Allowed(sc, sys, ev)
    ensures Honest(sc, OnDone(sys.receiver, ev.peer, ev.contact, ev.req, ev.env).receiver, sys.start, ev.env.last)
  {
    var r, env := sys.receiver, ev.env;
    var ra := LookUp(r, ev.peer, env.now);
    LookUpKeepsHonest(sc, r, sys.clock, sys.start, ev.peer, env.now, env.later);
    var r1 := LookUp(ra, ev.peer, env.later);
    LookUpKeepsHonest(sc, ra, env.later, sys.start, ev.peer, env.later, env.last);
    if Find(r1, ev.peer, env.last).Some? {
      assert ev.peer == sc.peer ==> Heeds(sc, r, ev.contact, ev.req, env, OwnContact);
      EndKeepsHonest(sc, r1, sys.start, ev);
    }
  }

  lemma EndKeepsHonest(sc: Scene, r1: Receiver, start: Option<Start>, ev: Event)
    requires ev.Request? && Sound(r1) && Honest(sc, r1, start, ev.env.last)
    requires ev.req.Done? && Find(r1, ev.peer, ev.env.last).Some? && PlainIds(ev.contact, ev.peer)
    requires ev.peer == sc.peer ==> Heeds(sc, r1, ev.contact, ev.req, ev.env, OwnContact)
    ensures Honest(sc, End(r1, ev.peer, ev.contact, Find(r1, ev.peer, ev.env.last).value, ev.req, ev.env).receiver, start, ev.env.last)
  {
    var m := Find(r1, ev.peer, ev.env.last).value;
    if ev.peer == sc.peer && ev.req.transfer == sc.transfer && Finalizes(r1, ev.peer, ev.contact, m, ev.req, ev.env) {
      FinalizeKeepsHonest(sc, r1, start, ev);
    } else {
      EndFrames(sc, r1, ev.env.last, ev.peer, ev.contact, ev.req, ev.env);
      FrameKeepsHonest(sc, r1, ev.env.last, End(r1, ev.peer, ev.contact, m, ev.req, ev.env).receiver, ev.env.last, start);
    }
  }

  // ----- Chunks -----

  /** What was seen of the sender's pieces joins up to a prefix of the source. */
  lemma {:induction false} SeenIsPrefix(sc: Scene, s: Start, k: nat)
    requires StartHonest(sc, s) && forall i: nat :: i < k ==> i in s.seen
    ensures k <= |s.plan| && Joined(s.seen, k) == Concat(s.plan[..k])
    ensures sc.source[..s.offset] + Joined(s.seen, k) <= sc.source
  {
    if k > 0 {
      SeenIsPrefix(sc, s, k - 1);
      assert k - 1 in s.seen;
      assert s.plan[..k][..k - 1] == s.plan[..k - 1];
    }
    ConcatPrefix(s.plan, k);
    assert sc.source == sc.source[..s.offset] + sc.source[s.offset..];
  }

  lemma FileIsPrefix(sc: Scene, s: Start)
    requires StartHonest(sc, s)
    ensures FileOf(Inbox(sc.source[..s.offset], s.seen)) <= sc.source
  {
    SeenIsPrefix(sc, s, Least(s.seen.Keys));
  }

  /** Writing to the file of another transfer. */
  lemma WriteOtherFrames(sc: Scene, r: Receiver, peer: string, content: Bytes, clock: nat, clock': nat)
    requires Sound(r) && peer in r.receiving && clock <= clock'
    requires peer != sc.peer || r.receiving[peer].value.transfer != sc.transfer
    ensures Frame(sc, r, clock, r.(disk := WriteTo(r.disk, r.receiving[peer].value.file, content)), clock')
  {
    assert ManagerSound(r.db, r.disk, peer, r.receiving[peer].value);
  }

  lemma StoreOtherFrames(sc: Scene, r: Receiver, peer: string, stored: Stored, later: nat, clock: nat, clock': nat)
    requires Sound(r) && peer in r.receiving && clock <= clock'
    requires peer != sc.peer || r.receiving[peer].value.transfer != sc.transfer
    ensures Frame(sc, r, clock, AfterStore(r, peer, r.receiving[peer].value, stored, later).receiver, clock')
  {
    var m := r.receiving[peer].value;
    WriteOtherFrames(sc, r, peer, stored.ring.file, clock, clock');
    var r2 := r.(disk := WriteTo(r.disk, m.file, stored.ring.file));
    var status := if stored.result.IoError? then Failed else Receiving;
    StatusFrames(sc, r2, m.transfer, status, stored.ring.progress, clock', clock');
    var r3 := if stored.result.ProtocolViolation? then r2 else r2.(db := SetStatus(r2.db, m.transfer, status, stored.ring.progress));
    LookUpFrames(sc, r2, peer, later, clock', clock');
    Then(sc, r, clock, r2, clock', r3, clock');
    ReplaceFrames(sc, r3, peer, WithRing(m, stored.ring), later, clock', clock');
    LookUpFrames(sc, r3, peer, later, clock', clock');
    Then(sc, r, clock, r3, clock', AfterStore(r, peer, m, stored, later).receiver, clock');
  }

  /** A chunk of the observed transfer: the file grows to a longer prefix of the source. */
  lemma StoreKeepsPrefix(sc: Scene, r: Receiver, clock: nat, s: Start, chunk: Chunk, room: nat)
    requires Sound(r) && Alive(sc, r, clock) && TransferHonest(sc, r, Some(s), clock) && StartHonest(sc, s)
    requires chunk.idx < |s.plan| && chunk == Chunk(sc.transfer, s.plan[chunk.idx], chunk.idx)
    ensures var m := r.receiving[sc.peer].value;
            var stored := Store(RingOf(m, r.disk), chunk, room);
            && r.disk.files[m.file].content <= stored.ring.file <= sc.source
            && |stored.ring.file| <= m.declared == stored.ring.declared
            && StartHonest(sc, Confirmed(s, chunk))
            && Confirmed(s, chunk).confirmed <= Confirmed(s, chunk).seen.Keys
            && (stored.result.Received? ==> Reassembles(stored.ring, Inbox(sc.source[..s.offset], Confirmed(s, chunk).seen)))
  {
    var m := r.receiving[sc.peer].value;
    var inbox := Inbox(sc.source[..s.offset], s.seen);
    StoreRefines(RingOf(m, r.disk), inbox, chunk, room);
    ReassemblesIsLeast(RingOf(m, r.disk), inbox);
    assert Admit(inbox, chunk).seen == Confirmed(s, chunk).seen;
    FileIsPrefix(sc, s);
    FileIsPrefix(sc, Confirmed(s, chunk));
  }

  lemma WriteKeepsFilesHonest(sc: Scene, r: Receiver, content: Bytes)
    requires Sound(r) && FilesHonest(sc, r) && Engaged(sc, r)
    requires var m := r.receiving[sc.peer].value;
             m.file < |r.disk.files| && r.disk.files[m.file].content <= content <= sc.source && |content| <= m.declared
    ensures FilesHonest(sc, r.(disk := WriteTo(r.disk, r.receiving[sc.peer].value.file, content)))
  {
    var m := r.receiving[sc.peer].value;
    var r' := r.(disk := WriteTo(r.disk, m.file, content));
    assert ManagerSound(r.db, r.disk, sc.peer, m);
    forall i: nat | i < |r'.disk.finals| && MyFinal(sc, r'.disk.finals[i])
      ensures FinalHonest(sc, r', r'.disk.finals[i].file)
    {
      assert FinalHonest(sc, r, r.disk.finals[i].file);
    }
  }

  /** What the answer to a chunk leaves on disk and on record. */
  lemma StoreKeepsFilesHonest(sc: Scene, r: Receiver, stored: Stored, later: nat)
    requires Sound(r) && FilesHonest(sc, r) && Engaged(sc, r)
    requires var m := r.receiving[sc.peer].value;
             && m.file < |r.disk.files| && r.disk.files[m.file].content <= stored.ring.file <= sc.source
             && |stored.ring.file| <= m.declared
    ensures var r' := AfterStore(r, sc.peer, r.receiving[sc.peer].value, stored, later).receiver;
            FilesHonest(sc, r') && (Finalised(sc, r) ==> Finalised(sc, r'))
  {
    var m := r.receiving[sc.peer].value;
    WriteKeepsFilesHonest(sc, r, stored.ring.file);
    var r2 := r.(disk := WriteTo(r.disk, m.file, stored.ring.file));
    var r' := AfterStore(r, sc.peer, m, stored, later).receiver;
    StatusExtends(r2.db, m.transfer, if stored.result.IoError? then Failed else Receiving, stored.ring.progress);
    SameDiskKeepsFiles(sc, r2, r');
  }

  /** A name stays honest when the file grows: it leads to the same file, or the file is final
      and can grow no more. */
  lemma StoreKeepsNameHonest(sc: Scene, r: Receiver, stored: Stored, clock: nat, later: nat, last: nat)
    requires Sound(r) && Alive(sc, r, clock) && NameHonest(sc, r, clock) && stored.result.Received?
    requires var m := r.receiving[sc.peer].value;
             && m.file < |r.disk.files| && r.disk.files[m.file].content <= stored.ring.file
             && stored.ring.progress == |stored.ring.file| <= m.declared
    ensures NameHonest(sc, AfterStore(r, sc.peer, r.receiving[sc.peer].value, stored, later).receiver, last)
  {
    var m := r.receiving[sc.peer].value;
    assert ManagerSound(r.db, r.disk, sc.peer, m);
    var r' := AfterStore(r, sc.peer, m, stored, later).receiver;
    assert r'.receiving[sc.peer].value == WithRing(m, stored.ring);
    assert r'.disk.finals == r.disk.finals && r'.disk.parts == r.disk.parts;
  }

  lemma StoredIsHonest(sc: Scene, r: Receiver, s: Start, clock: nat, s': Start, stored: Stored, later: nat, last: nat)
    requires Sound(r) && Alive(sc, r, clock) && TransferHonest(sc, r, Some(s), clock) && stored.result.Received?
    requires s'.offset == s.offset && s'.confirmed <= s'.seen.Keys
    requires stored.ring.declared == r.receiving[sc.peer].value.declared
    requires Reassembles(stored.ring, Inbox(sc.source[..s.offset], s'.seen))
    ensures TransferHonest(sc, AfterStore(r, sc.peer, r.receiving[sc.peer].value, stored, later).receiver, Some(s'), last)
  {
    var m := r.receiving[sc.peer].value;
    var r' := AfterStore(r, sc.peer, m, stored, later).receiver;
    var m' := WithRing(m, stored.ring);
    assert r'.receiving[sc.peer].value == m';
    assert RingOf(m', r'.disk) == stored.ring;
  }

  lemma StoreKeepsHonest(sc: Scene, r: Receiver, s: Start, chunk: Chunk, env: Env)
    requires Sound(r) && Honest(sc, r, Some(s), env.later) && StartHonest(sc, s) && Alive(sc, r, env.later) && env.later <= env.last
    requires chunk.idx < |s.plan| && chunk == Chunk(sc.transfer, s.plan[chunk.idx], chunk.idx)
    requires var m := r.receiving[sc.peer].value; m.file < |r.disk.files| && |m.slots| == PARALLEL_CHUNKS
    ensures var m := r.receiving[sc.peer].value;
            var reply := AfterStore(r, sc.peer, m, Store(RingOf(m, r.disk), chunk, env.room), env.later);
            && StartHonest(sc, Confirmed(s, chunk))
            && Honest(sc, reply.receiver, Some(if reply.response.ConfirmChunk? then Confirmed(s, chunk) else s), env.last)
  {
    var m := r.receiving[sc.peer].value;
    var stored := Store(RingOf(m, r.disk), chunk, env.room);
    StoreKeepsPrefix(sc, r, env.later, s, chunk, env.room);
    StoreKeepsFilesHonest(sc, r, stored, env.later);
    if stored.result.Received? {
      StoredIsHonest(sc, r, s, env.later, Confirmed(s, chunk), stored, env.later, env.last);
      StoreKeepsNameHonest(sc, r, stored, env.later, env.later, env.last);
    }
  }

  /** What a request leaves is honest, for the sender's state after the answer. */
  ghost predicate HonestAfter(sc: Scene, sys: Sys, ev: Event, reply: Reply)
    requires ev.Request?
  {
    var start := StartAfter(sc, sys.start, ev.peer, ev.req, reply.response);
    Honest(sc, reply.receiver, start, ev.env.last) && (start.Some? ==> StartHonest(sc, start.value))
  }

  /** Whatever is answered to a chunk, the sender's own side stays consistent. */
  lemma ConfirmedIsHonest(sc: Scene, sys: Sys, ev: Event, response: FileResponse)
    requires Inv(sc, sys) && ev.Request? && ev.req.ChunkOf? && Allowed(sc, sys, ev)
    ensures var start := StartAfter(sc, sys.start, ev.peer, ev.req, response);
            start.Some? ==> StartHonest(sc, start.value)
  {
  }

  lemma RefusedChunkKeepsHonest(sc: Scene, sys: Sys, ev: Event, r1: Receiver, response: FileResponse)
    requires Inv(sc, sys) && ev.Request? && ev.req.ChunkOf? && Allowed(sc, sys, ev)
    requires Sound(r1) && Honest(sc, r1, sys.start, ev.env.later)
    ensures HonestAfter(sc, sys, ev, Reply(Forget(r1, ev.peer), response))
    ensures response.Violation? ==> HonestAfter(sc, sys, ev, Reply(r1, response))
  {
    ConfirmedIsHonest(sc, sys, ev, response);
    ForgottenIsHonest(sc, sys.start, StartAfter(sc, sys.start, ev.peer, ev.req, response), ev, r1);
  }

  /** The peer of a refused chunk is forgotten, so that its sender's state no longer matters. */
  lemma ForgottenIsHonest(sc: Scene, start: Option<Start>, start': Option<Start>, ev: Event, r1: Receiver)
    requires ev.Request? && ev.env.later <= ev.env.last && Sound(r1) && Honest(sc, r1, start, ev.env.later)
    requires ev.peer != sc.peer ==> start' == start
    ensures Honest(sc, Forget(r1, ev.peer), start', ev.env.last) && Honest(sc, r1, start, ev.env.last)
  {
    LookUpFrames(sc, r1, ev.peer, ev.env.later, ev.env.later, ev.env.last);
    FrameKeepsHonest(sc, r1, ev.env.later, Forget(r1, ev.peer), ev.env.last, start);
    FrameKeepsHonest(sc, r1, ev.env.later, r1, ev.env.last, start);
  }

  /** What the manager of the peer makes of a chunk. */
  function ReplyToChunk(r1: Receiver, ev: Event): Reply
    requires ev.Request? && ev.req.ChunkOf? && ev.peer in r1.receiving
    requires var m := r1.receiving[ev.peer].value; m.file < |r1.disk.files| && |m.slots| == PARALLEL_CHUNKS
  {
    var m := r1.receiving[ev.peer].value;
    AfterStore(r1, ev.peer, m, Store(RingOf(m, r1.disk), ev.req.chunk, ev.env.room), ev.env.later)
  }

  lemma OtherChunkKeepsHonest(sc: Scene, start: Option<Start>, ev: Event, r1: Receiver)
    requires ev.Request? && ev.req.ChunkOf? && ev.env.later <= ev.env.last && ev.peer in r1.receiving
    requires Sound(r1) && Honest(sc, r1, start, ev.env.later)
    requires ev.peer != sc.peer || ev.req.chunk.transferId != sc.transfer
    requires ev.req.chunk.transferId == r1.receiving[ev.peer].value.transfer
    requires var m := r1.receiving[ev.peer].value; m.file < |r1.disk.files| && |m.slots| == PARALLEL_CHUNKS
    ensures Honest(sc, ReplyToChunk(r1, ev).receiver, start, ev.env.last)
    ensures StartAfter(sc, start, ev.peer, ev.req, ReplyToChunk(r1, ev).response) == start
  {
    var m := r1.receiving[ev.peer].value;
    StoreOtherFrames(sc, r1, ev.peer, Store(RingOf(m, r1.disk), ev.req.chunk, ev.env.room), ev.env.later, ev.env.later, ev.env.last);
    FrameKeepsHonest(sc, r1, ev.env.later, ReplyToChunk(r1, ev).receiver, ev.env.last, start);
  }

  lemma OwnChunkKeepsHonest(sc: Scene, s: Start, ev: Event, r1: Receiver)
    requires ev.Request? && ev.req.ChunkOf? && ev.env.later <= ev.env.last && Alive(sc, r1, ev.env.later)
    requires Sound(r1) && Honest(sc, r1, Some(s), ev.env.later) && StartHonest(sc, s)
    requires ev.peer == sc.peer && ev.req.chunk.transferId == sc.transfer
    requires ev.req.chunk.idx < |s.plan| && ev.req.chunk.data == s.plan[ev.req.chunk.idx]
    requires var m := r1.receiving[ev.peer].value; m.file < |r1.disk.files| && |m.slots| == PARALLEL_CHUNKS
    ensures var start := StartAfter(sc, Some(s), ev.peer, ev.req, ReplyToChunk(r1, ev).response);
            && Honest(sc, ReplyToChunk(r1, ev).receiver, start, ev.env.last)
            && start.Some? && StartHonest(sc, start.value)
  {
    StoreKeepsHonest(sc, r1, s, ev.req.chunk, ev.env);
    OwnChunkStart(sc, s, ev, ReplyToChunk(r1, ev).response);
  }

  lemma OwnChunkStart(sc: Scene, s: Start, ev: Event, response: FileResponse)
    requires ev.Request? && ev.req.ChunkOf? && ev.peer == sc.peer && ev.req.chunk.transferId == sc.transfer
    ensures StartAfter(sc, Some(s), ev.peer, ev.req, response) ==
            Some(if response.ConfirmChunk? then Confirmed(s, ev.req.chunk) else s)
  {
  }

  lemma TakenChunkKeepsHonest(sc: Scene, sys: Sys, ev: Event, r1: Receiver)
    requires Inv(sc, sys) && ev.Request? && ev.req.ChunkOf? && Allowed(sc, sys, ev)
    requires Sound(r1) && Honest(sc, r1, sys.start, ev.env.later)
    requires Find(r1, ev.peer, ev.env.later).Some? && ev.req.chunk.transferId == r1.receiving[ev.peer].value.transfer
    requires var m := r1.receiving[ev.peer].value; m.file < |r1.disk.files| && |m.slots| == PARALLEL_CHUNKS
    ensures HonestAfter(sc, sys, ev, ReplyToChunk(r1, ev))
  {
    if ev.req.chunk.transferId == sc.transfer && ev.peer == sc.peer {
      OwnChunkKeepsHonest(sc, sys.start.value, ev, r1);
    } else {
      OtherChunkKeepsHonest(sc, sys.start, ev, r1);
    }
  }

  lemma ChunkKeepsHonest(sc: Scene, sys: Sys, ev: Event)
    requires Inv(sc, sys) && WellFormedReceiver(sys.receiver) && ev.Request? && ev.req.ChunkOf? && Allowed(sc, sys, ev)
    ensures HonestAfter(sc, sys, ev, OnChunk(sys.receiver, ev.peer, ev.contact, ev.req, ev.env))
  {
    var r1 := LookUp(sys.receiver, ev.peer, ev.env.now);
    LookUpKeepsHonest(sc, sys.receiver, sys.clock, sys.start, ev.peer, ev.env.now, ev.env.later);
    SoundIsWellFormed(r1);
    var reply := OnChunk(sys.receiver, ev.peer, ev.contact, ev.req, ev.env);
    if Find(r1, ev.peer, ev.env.later).Some? && ev.req.chunk.transferId == r1.receiving[ev.peer].value.transfer
       && ev.contact == r1.receiving[ev.peer].value.contact {
      TakenChunkKeepsHonest(sc, sys, ev, r1);
    } else {
      RefusedChunkKeepsHonest(sc, sys, ev, r1, reply.response);
    }
  }

  // ----- Starts -----

  lemma FreshIsHonest(sc: Scene, offset: nat)
    requires offset <= |sc.source|
    ensures StartHonest(sc, FRESH.(offset := offset))
  {
  }

  /** A start at the end of what the file holds: the sender will continue exactly there. */
  lemma FreshStartIsHonest(sc: Scene, r: Receiver, m: Manager, now: nat, last: nat)
    requires m.file < |r.disk.files| && m.slots == EMPTY_SLOTS && m.earliest == 0
    requires m.progress == |r.disk.files[m.file].content| <= m.declared && r.disk.files[m.file].content <= sc.source
    ensures TransferHonest(sc, Keep(r, sc.peer, m, now), Some(FRESH.(offset := m.progress)), last)
  {
    assert sc.source[..m.progress] == r.disk.files[m.file].content;
    StartReassembles(RingOf(m, r.disk));
    assert Reset(RingOf(m, r.disk)) == RingOf(m, r.disk);
  }

  lemma OpenKeepsFilesHonest(sc: Scene, r: Receiver, tag: Tag)
    requires Sound(r) && FilesHonest(sc, r) && TagOk(tag)
    ensures var (disk, file) := OpenPart(r.disk, tag);
            && FilesHonest(sc, r.(disk := disk))
            && file < |disk.files| && (Mine(sc, tag) ==> disk.files[file].content <= sc.source)
  {
    OpenKeepsSound(r, tag);
    OpenFramesFiles(sc, r, tag);
    FrameKeepsFiles(sc, r, r.(disk := OpenPart(r.disk, tag).0));
  }

  /** Recording the observed transfer for the first time. */
  lemma FirstRecordKeepsFilesHonest(sc: Scene, r: Receiver, record: Record)
    requires FilesHonest(sc, r) && sc.transfer !in r.db.received
    ensures FilesHonest(sc, r.(db := r.db.(received := r.db.received[sc.transfer := record])))
  {
    forall i: nat | i < |r.disk.finals| ensures !MyFinal(sc, r.disk.finals[i]) {
      assert MyFinal(sc, r.disk.finals[i]) ==> FinalHonest(sc, r, r.disk.finals[i].file);
    }
  }

  lemma SameFilesHonest(sc: Scene, r: Receiver, r': Receiver)
    requires FilesHonest(sc, r) && r'.disk == r.disk && r'.db == r.db
    ensures FilesHonest(sc, r')
  {
    SameDiskKeepsFiles(sc, r, r');
  }

  lemma NewKeepsHonest(sc: Scene, sys: Sys, ev: Event)
    requires Inv(sc, sys) && WellFormedReceiver(sys.receiver) && ev.Request? && ev.req.NewTransfer? && Allowed(sc, sys, ev)
    ensures HonestAfter(sc, sys, ev, OnNew(sys.receiver, ev.peer, ev.contact, ev.req, ev.env))
  {
    var r, env, req := sys.receiver, ev.env, ev.req;
    var reply := OnNew(r, ev.peer, ev.contact, req, env);
    if ev.peer == sc.peer && req.transfer == sc.transfer && reply.response.AcceptNewTransfer? {
      var r1 := LookUp(r, ev.peer, env.now);
      LookUpKeepsHonest(sc, r, sys.clock, sys.start, ev.peer, env.now, env.later);
      NewStartsHonest(sc, r1, ev);
    } else {
      NewFrames(sc, sys, ev);
      FrameKeepsHonest(sc, r, sys.clock, reply.receiver, env.last, sys.start);
    }
  }

  lemma NewStartsHonest(sc: Scene, r1: Receiver, ev: Event)
    requires Sound(r1) && FilesHonest(sc, r1) && ev.Request? && ev.req.NewTransfer? && ev.req.transfer == sc.transfer
    requires ev.peer == sc.peer && sc.transfer !in r1.db.received && ev.env.epochMillis.Some?
    requires TagOk(Tag(ev.env.epochMillis.value, sc.transfer, ev.peer, ev.contact))
    ensures var (disk, file) := OpenPart(r1.disk, Tag(ev.env.epochMillis.value, sc.transfer, ev.peer, ev.contact));
            var record := Record(ev.peer, ev.contact, ev.req.filerequest, ev.req.fileName, ev.req.size,
                                 ev.env.epochMillis.value, Receiving, 0);
            var r3 := r1.(disk := disk, db := r1.db.(received := r1.db.received[sc.transfer := record]));
            var m := Manager(EMPTY_SLOTS, 0, ev.req.size, 0, file, ev.req.fileName, sc.transfer, ev.req.filerequest,
                             ev.contact, ev.env.epochMillis.value);
            Honest(sc, Keep(r3, ev.peer, m, ev.env.later), Some(FRESH), ev.env.last) && StartHonest(sc, FRESH)
  {
    var tag := Tag(ev.env.epochMillis.value, sc.transfer, ev.peer, ev.contact);
    var (disk, file) := OpenPart(r1.disk, tag);
    OpenKeepsSound(r1, tag);
    OpenKeepsFilesHonest(sc, r1, tag);
    assert disk.files[file].content == [];
    var record := Record(ev.peer, ev.contact, ev.req.filerequest, ev.req.fileName, ev.req.size, tag.startedAt, Receiving, 0);
    var r2 := r1.(disk := disk);
    FirstRecordKeepsFilesHonest(sc, r2, record);
    var r3 := r2.(db := r2.db.(received := r2.db.received[sc.transfer := record]));
    var m := Manager(EMPTY_SLOTS, 0, ev.req.size, 0, file, ev.req.fileName, sc.transfer, ev.req.filerequest, ev.contact, tag.startedAt);
    FreshStartIsHonest(sc, r3, m, ev.env.later, ev.env.last);
    FreshIsHonest(sc, 0);
    SameFilesHonest(sc, r3, Keep(r3, ev.peer, m, ev.env.later));
  }

  // ----- Resumes -----

  predicate IsMine(sc: Scene, ev: Event) {
    ev.Request? && ev.peer == sc.peer && ev.req.ContinueTransfer? && ev.req.transfer == sc.transfer
  }

  lemma FromDiskStartsHonest(sc: Scene, r: Receiver, ev: Event)
    requires Sound(r) && WellFormedReceiver(r) && FilesHonest(sc, r) && RecordsInRange(r.db) && IsMine(sc, ev)
    requires PlainIds(ev.contact, ev.peer)
    requires FromDisk(r, ev.peer, ev.contact, ev.req, ev.env).response.AcceptContinueTransfer?
    ensures var reply := FromDisk(r, ev.peer, ev.contact, ev.req, ev.env);
            var start := FRESH.(offset := reply.response.offset);
            Honest(sc, reply.receiver, Some(start), ev.env.last) && StartHonest(sc, start)
  {
    var env, record := ev.env, r.db.received[sc.transfer];
    var tag := Tag(record.startedAt, sc.transfer, ev.peer, ev.contact);
    var (disk, file) := OpenPart(r.disk, tag);
    OpenKeepsSound(r, tag);
    OpenKeepsFilesHonest(sc, r, tag);
    var r2 := r.(disk := disk);
    var m := Manager(EMPTY_SLOTS, 0, record.size, |disk.files[file].content|, file, record.fileName, sc.transfer,
                     ev.req.filerequest, ev.contact, record.startedAt);
    FreshStartIsHonest(sc, r2, m, env.later, env.last);
    FreshIsHonest(sc, m.progress);
    SameFilesHonest(sc, r2, Keep(r2, ev.peer, m, env.later));
  }

  /** Resuming in memory: the ring is emptied and counting restarts where the file ends. */
  lemma ResumeStartsHonest(sc: Scene, r1: Receiver, start: Option<Start>, ev: Event)
    requires ev.Request? && Sound(r1) && Honest(sc, r1, start, ev.env.later) && Alive(sc, r1, ev.env.later)
    ensures var m := r1.receiving[sc.peer].value;
            var r' := Keep(r1, sc.peer, m.(slots := EMPTY_SLOTS, earliest := 0), ev.env.later);
            var start' := FRESH.(offset := m.progress);
            Honest(sc, r', Some(start'), ev.env.last) && StartHonest(sc, start')
  {
    var m := r1.receiving[sc.peer].value;
    assert ManagerSound(r1.db, r1.disk, sc.peer, m);
    var r' := Keep(r1, sc.peer, m.(slots := EMPTY_SLOTS, earliest := 0), ev.env.later);
    FreshStartIsHonest(sc, r1, m.(slots := EMPTY_SLOTS, earliest := 0), ev.env.later, ev.env.last);
    FreshIsHonest(sc, m.progress);
    SameDiskKeepsFiles(sc, r1, r');
  }

  /** Starting over: whatever of the transfer stays alive has received nothing yet. */
  lemma RestartIsHonest(sc: Scene, r: Receiver, start: Option<Start>, last: nat)
    requires Sound(r) && Honest(sc, r, start, last)
    requires Alive(sc, r, last) ==> Pristine(r.receiving[sc.peer].value)
    ensures Honest(sc, r, Some(FRESH), last) && StartHonest(sc, FRESH)
  {
    FreshIsHonest(sc, 0);
    if Alive(sc, r, last) {
      var m := r.receiving[sc.peer].value;
      assert ManagerSound(r.db, r.disk, sc.peer, m);
      FreshStartIsHonest(sc, r, m, r.receiving[sc.peer].touched, last);
      assert Keep(r, sc.peer, m, r.receiving[sc.peer].touched).receiving == r.receiving;
    }
  }

  /** Resuming from disk, when the transfer in memory, if any, was not the one asked for: a
      refusal leaves it only if it is pristine, and no part file appears in the place of one
      that was finalised. */
  lemma FromDiskKeepsHonest(sc: Scene, r: Receiver, start: Option<Start>, ev: Event)
    requires Sound(r) && WellFormedReceiver(r) && RecordsInRange(r.db) && ev.Request? && ev.req.ContinueTransfer?
    requires PlainIds(ev.contact, ev.peer) && ev.env.later <= ev.env.last && Honest(sc, r, start, ev.env.later)
    requires start.Some? ==> StartHonest(sc, start.value)
    requires IsMine(sc, ev) && Alive(sc, r, ev.env.last) ==>
               if AdmitsContinue(r.db, ev.req.filerequest, ev.contact, sc.peer, sc.transfer) && ev.env.opens
               then ev.env.sizes || !Spent(sc, r, ev.env.last)
               else Pristine(r.receiving[sc.peer].value)
    ensures var reply := FromDisk(r, ev.peer, ev.contact, ev.req, ev.env);
            var start' := StartAfter(sc, start, ev.peer, ev.req, reply.response);
            Honest(sc, reply.receiver, start', ev.env.last) && (start'.Some? ==> StartHonest(sc, start'.value))
  {
    var env, req := ev.env, ev.req;
    if IsMine(sc, ev) && FromDisk(r, ev.peer, ev.contact, req, env).response.AcceptContinueTransfer? {
      FromDiskStartsHonest(sc, r, ev);
    } else if !AdmitsContinue(r.db, req.filerequest, ev.contact, ev.peer, req.transfer) || !env.opens {
      RefusedResumeKeepsHonest(sc, r, start, ev);
    } else {
      FromDiskFrames(sc, r, ev);
      FrameKeepsHonest(sc, r, env.later, FromDisk(r, ev.peer, ev.contact, req, env).receiver, env.last, start);
    }
  }

  lemma RefusedResumeKeepsHonest(sc: Scene, r: Receiver, start: Option<Start>, ev: Event)
    requires Sound(r) && WellFormedReceiver(r) && ev.Request? && ev.req.ContinueTransfer?
    requires ev.env.later <= ev.env.last && Honest(sc, r, start, ev.env.later) && (start.Some? ==> StartHonest(sc, start.value))
    requires !(AdmitsContinue(r.db, ev.req.filerequest, ev.contact, ev.peer, ev.req.transfer) && ev.env.opens)
    requires IsMine(sc, ev) && Alive(sc, r, ev.env.last) ==> Pristine(r.receiving[sc.peer].value)
    ensures var reply := FromDisk(r, ev.peer, ev.contact, ev.req, ev.env);
            var start' := StartAfter(sc, start, ev.peer, ev.req, reply.response);
            Honest(sc, reply.receiver, start', ev.env.last) && (start'.Some? ==> StartHonest(sc, start'.value))
  {
    var r' := FromDisk(r, ev.peer, ev.contact, ev.req, ev.env).receiver;
    RefusedResumeFrames(sc, r, ev);
    FrameKeepsHonest(sc, r, ev.env.later, r', ev.env.last, start);
    if IsMine(sc, ev) {
      RestartIsHonest(sc, r', start, ev.env.last);
    }
  }

  lemma RefusedResumeFrames(sc: Scene, r: Receiver, ev: Event)
    requires Sound(r) && WellFormedReceiver(r) && ev.Request? && ev.req.ContinueTransfer? && ev.env.later <= ev.env.last
    requires !(AdmitsContinue(r.db, ev.req.filerequest, ev.contact, ev.peer, ev.req.transfer) && ev.env.opens)
    ensures var reply := FromDisk(r, ev.peer, ev.contact, ev.req, ev.env);
            && reply.response == RestartContinueTransfer && reply.receiver.receiving == r.receiving && Sound(reply.receiver)
            && Frame(sc, r, ev.env.later, reply.receiver, ev.env.last)
  {
    LookUpFrames(sc, r, ev.peer, ev.env.later, ev.env.later, ev.env.last);
    StatusFrames(sc, r, ev.req.transfer, Failed, 0, ev.env.later, ev.env.last);
    StatusExtends(r.db, ev.req.transfer, Failed, 0);
    ExtendedDbKeepsSound(r, SetStatus(r.db, ev.req.transfer, Failed, 0));
  }

  lemma FromDiskFrames(sc: Scene, r: Receiver, ev: Event)
    requires Sound(r) && WellFormedReceiver(r) && RecordsInRange(r.db) && ev.Request? && ev.req.ContinueTransfer?
    requires PlainIds(ev.contact, ev.peer) && ev.env.later <= ev.env.last
    requires AdmitsContinue(r.db, ev.req.filerequest, ev.contact, ev.peer, ev.req.transfer) && ev.env.opens
    requires IsMine(sc, ev) ==> !ev.env.sizes && !Spent(sc, r, ev.env.last)
    ensures Frame(sc, r, ev.env.later, FromDisk(r, ev.peer, ev.contact, ev.req, ev.env).receiver, ev.env.last)
  {
    var env, req := ev.env, ev.req;
    var record := r.db.received[req.transfer];
    var tag := Tag(record.startedAt, req.transfer, ev.peer, ev.contact);
    OpenFrames(sc, r, tag, env.later, env.last);
    var (disk, file) := OpenPart(r.disk, tag);
    var r2 := r.(disk := disk);
    if env.sizes {
      var m := Manager(EMPTY_SLOTS, 0, record.size, |disk.files[file].content|, file, record.fileName, req.transfer,
                       req.filerequest, ev.contact, record.startedAt);
      ReplaceFrames(sc, r2, ev.peer, m, env.later, env.last, env.last);
      Then(sc, r, env.later, r2, env.last, Keep(r2, ev.peer, m, env.later), env.last);
    }
  }

  lemma ContinueKeepsHonest(sc: Scene, sys: Sys, ev: Event)
    requires Inv(sc, sys) && WellFormedReceiver(sys.receiver) && ev.Request? && ev.req.ContinueTransfer? && Allowed(sc, sys, ev)
    ensures HonestAfter(sc, sys, ev, OnContinue(sys.receiver, ev.peer, ev.contact, ev.req, ev.env))
  {
    var r, env := sys.receiver, ev.env;
    var r1 := LookUp(r, ev.peer, env.now);
    LookUpKeepsHonest(sc, r, sys.clock, sys.start, ev.peer, env.now, env.later);
    SoundIsWellFormed(r1);
    match Find(r1, ev.peer, env.later) {
      case None => FromDiskKeepsHonest(sc, r1, sys.start, ev);
      case Some(m) =>
        if Resumes(m, ev.contact, ev.req) {
          ResumedKeepsHonest(sc, sys.start, ev, r1);
        } else {
          assert ev.peer == sc.peer ==>
              && Heeds(sc, r, ev.contact, ev.req, env, NoSurvivor)
              && Heeds(sc, r, ev.contact, ev.req, env, ReadableSize);
          OtherResumeKeepsHonest(sc, sys.start, ev, r1);
        }
    }
  }

  lemma ResumedKeepsHonest(sc: Scene, start: Option<Start>, ev: Event, r1: Receiver)
    requires ev.Request? && ev.req.ContinueTransfer? && ev.env.later <= ev.env.last && (start.Some? ==> StartHonest(sc, start.value))
    requires Sound(r1) && Honest(sc, r1, start, ev.env.later) && Find(r1, ev.peer, ev.env.later).Some?
    requires Resumes(Find(r1, ev.peer, ev.env.later).value, ev.contact, ev.req)
    ensures var m := Find(r1, ev.peer, ev.env.later).value;
            var start' := StartAfter(sc, start, ev.peer, ev.req, AcceptContinueTransfer(m.progress));
            && Honest(sc, Keep(r1, ev.peer, m.(slots := EMPTY_SLOTS, earliest := 0), ev.env.later), start', ev.env.last)
            && (start'.Some? ==> StartHonest(sc, start'.value))
  {
    var m := Find(r1, ev.peer, ev.env.later).value;
    if IsMine(sc, ev) {
      ResumeStartsHonest(sc, r1, start, ev);
    } else {
      var r' := Keep(r1, ev.peer, m.(slots := EMPTY_SLOTS, earliest := 0), ev.env.later);
      ReplaceFrames(sc, r1, ev.peer, m.(slots := EMPTY_SLOTS, earliest := 0), ev.env.later, ev.env.later, ev.env.last);
      FrameKeepsHonest(sc, r1, ev.env.later, r', ev.env.last, start);
    }
  }

  lemma OtherResumeKeepsHonest(sc: Scene, start: Option<Start>, ev: Event, r1: Receiver)
    requires ev.Request? && ev.req.ContinueTransfer? && ev.env.later <= ev.env.last && PlainIds(ev.contact, ev.peer)
    requires Sound(r1) && WellFormedReceiver(r1) && Honest(sc, r1, start, ev.env.later) && RecordsInRange(r1.db)
    requires start.Some? ==> StartHonest(sc, start.value)
    requires Find(r1, ev.peer, ev.env.later).Some? && !Resumes(Find(r1, ev.peer, ev.env.later).value, ev.contact, ev.req)
    requires ev.peer == sc.peer ==>
               && Heeds(sc, r1, ev.contact, ev.req, ev.env, NoSurvivor)
               && Heeds(sc, r1, ev.contact, ev.req, ev.env, ReadableSize)
    ensures var r2 := Keep(r1, ev.peer, Find(r1, ev.peer, ev.env.later).value, ev.env.later);
            && WellFormedReceiver(r2)
            && var reply := FromDisk(r2, ev.peer, ev.contact, ev.req, ev.env);
               var start' := StartAfter(sc, start, ev.peer, ev.req, reply.response);
               Honest(sc, reply.receiver, start', ev.env.last) && (start'.Some? ==> StartHonest(sc, start'.value))
  {
    var env, m := ev.env, Find(r1, ev.peer, ev.env.later).value;
    assert ManagerSound(r1.db, r1.disk, ev.peer, m);
    var r2 := Keep(r1, ev.peer, m, env.later);
    KeepKeepsSound(r1, ev.peer, m, env.later);
    SoundIsWellFormed(r2);
    TouchFrames(sc, r1, ev.peer, env.later, env.later, env.later);
    FrameKeepsHonest(sc, r1, env.later, r2, env.later, start);
    FromDiskKeepsHonest(sc, r2, start, ev);
  }
}
