/** The receiver's chunk ring: eight slots that put the chunks of a transfer back in order
    and append them to the part file. */
module ChunkRing {
  import opened Common
  import opened LeastAbsent

  datatype Chunk = Chunk(transferId: string, data: Bytes, idx: nat)

  datatype StoreResult = Received | ProtocolViolation | IoError

  /** The moving part of a receive manager, with the contents of its part file. */
  datatype Ring = Ring(slots: seq<Option<Chunk>>, earliest: nat, declared: nat, progress: nat, file: Bytes)

  datatype Stored = Stored(ring: Ring, result: StoreResult)

  const EMPTY_SLOTS: seq<Option<Chunk>> := [None, None, None, None, None, None, None, None]

  predicate WellFormed(r: Ring) {
    |r.slots| == PARALLEL_CHUNKS
  }

  function Occupied(slots: seq<Option<Chunk>>): nat {
    if slots == [] then 0
    else Occupied(slots[..|slots| - 1]) + if slots[|slots| - 1].Some? then 1 else 0
  }

  lemma {:induction false} TakingSlotFreesOne(slots: seq<Option<Chunk>>, i: nat)
    requires i < |slots| && slots[i].Some?
    ensures Occupied(slots[i := None]) < Occupied(slots)
  {
    var k := |slots| - 1;
    if i < k {
      assert slots[i := None][..k] == slots[..k][i := None];
      TakingSlotFreesOne(slots[..k], i);
    } else {
      assert slots[i := None][..k] == slots[..k];
    }
  }

  /** The ring after its next chunk was taken and written. */
  function Append(r: Ring, data: Bytes): (next: Ring)
    requires WellFormed(r)
    ensures WellFormed(next)
  {
    Ring(r.slots[r.earliest % PARALLEL_CHUNKS := None], r.earliest + 1, r.declared, r.progress + |data|, r.file + data)
  }

  /** Appends the chunks that are next in order. The disk takes `room` more bytes; a write
      that does not fit leaves the part of it that did. */
  function Drain(r: Ring, room: nat): (s: Stored)
    requires WellFormed(r)
    ensures WellFormed(s.ring)
    decreases Occupied(r.slots)
  {
    var slot := r.earliest % PARALLEL_CHUNKS;
    match r.slots[slot]
    case None => Stored(r, Received)
    case Some(chunk) =>
      TakingSlotFreesOne(r.slots, slot);
      if |chunk.data| + r.progress > r.declared then
        Stored(r.(slots := r.slots[slot := None]), ProtocolViolation)
      else if |chunk.data| > room then
        Stored(r.(slots := r.slots[slot := None], progress := r.progress + |chunk.data|,
                  file := r.file + chunk.data[..room]), IoError)
      else
        Drain(Append(r, chunk.data), room - |chunk.data|)
  }

  function Store(r: Ring, chunk: Chunk, room: nat): (s: Stored)
    requires WellFormed(r)
    ensures WellFormed(s.ring)
  {
    if chunk.idx >= r.earliest + PARALLEL_CHUNKS then Stored(r, ProtocolViolation)
    else if chunk.idx < r.earliest then Stored(r, Received)
    else
      var slot := chunk.idx % PARALLEL_CHUNKS;
      var filled := r.(slots := r.slots[slot := Some(chunk)]);
      if slot == r.earliest % PARALLEL_CHUNKS then Drain(filled, room) else Stored(filled, Received)
  }

  function Reset(r: Ring): (s: Ring) {
    r.(slots := EMPTY_SLOTS, earliest := 0)
  }

  // ----- The reassembler with unlimited memory -----

  /** Everything received since the transfer was started at `base`. */
  datatype Inbox = Inbox(base: Bytes, seen: map<nat, Chunk>)

  ghost function Joined(seen: map<nat, Chunk>, k: nat): Bytes
    requires forall i: nat :: i < k ==> i in seen
  {
    if k == 0 then [] else Joined(seen, k - 1) + seen[k - 1].data
  }

  /** The file: the chunks 0 .. k-1 in order, k being the least index not received. */
  ghost function FileOf(inbox: Inbox): Bytes {
    inbox.base + Joined(inbox.seen, Least(inbox.seen.Keys))
  }

  ghost function Admit(inbox: Inbox, chunk: Chunk): Inbox {
    if chunk.idx < Least(inbox.seen.Keys) then inbox
    else inbox.(seen := inbox.seen[chunk.idx := chunk])
  }

  /** The slots hold exactly the received chunks among the next eight, and nothing beyond
      them was received. */
  ghost predicate Holds(slots: seq<Option<Chunk>>, seen: map<nat, Chunk>, earliest: nat) {
    && |slots| == PARALLEL_CHUNKS
    && (forall i :: i in seen ==> i < earliest + PARALLEL_CHUNKS)
    && (forall i: nat :: earliest <= i < earliest + PARALLEL_CHUNKS ==>
          slots[i % PARALLEL_CHUNKS] == if i in seen then Some(seen[i]) else None)
  }

  /** A ring that has appended the first `earliest` chunks of an inbox. */
  ghost predicate Draining(r: Ring, inbox: Inbox) {
    && Holds(r.slots, inbox.seen, r.earliest)
    && (forall i: nat :: i < r.earliest ==> i in inbox.seen)
    && r.file == inbox.base + Joined(inbox.seen, r.earliest)
    && r.progress == |r.file| <= r.declared
  }

  /** A ring that has appended all it can. */
  ghost predicate Reassembles(r: Ring, inbox: Inbox) {
    && Draining(r, inbox)
    && r.earliest !in inbox.seen
  }

  lemma ReassemblesIsLeast(r: Ring, inbox: Inbox)
    requires Reassembles(r, inbox)
    ensures r.earliest == Least(inbox.seen.Keys)
    ensures r.file == FileOf(inbox)
  {
    LeastAbsentIsUnique(inbox.seen.Keys, r.earliest, Least(inbox.seen.Keys));
  }

  lemma {:induction false} JoinedPrefix(seen: map<nat, Chunk>, j: nat, k: nat)
    requires j <= k && forall i: nat :: i < k ==> i in seen
    ensures Joined(seen, j) <= Joined(seen, k)
  {
    if j < k {
      JoinedPrefix(seen, j, k - 1);
    }
  }

  lemma {:induction false} JoinedAgree(seen: map<nat, Chunk>, other: map<nat, Chunk>, k: nat)
    requires forall i: nat :: i < k ==> i in seen && i in other && seen[i] == other[i]
    ensures Joined(seen, k) == Joined(other, k)
  {
    if k > 0 {
      JoinedAgree(seen, other, k - 1);
    }
  }

  lemma HoldsLess(slots: seq<Option<Chunk>>, seen: map<nat, Chunk>, earliest: nat)
    requires Holds(slots, seen, earliest) && earliest in seen
    ensures slots[earliest % PARALLEL_CHUNKS] == Some(seen[earliest])
    ensures Holds(slots[earliest % PARALLEL_CHUNKS := None], seen, earliest + 1)
  {
    forall i: nat | earliest < i < earliest + PARALLEL_CHUNKS
      ensures i % PARALLEL_CHUNKS != earliest % PARALLEL_CHUNKS
    {
    }
  }

  lemma DrainsOne(r: Ring, inbox: Inbox)
    requires Draining(r, inbox) && r.earliest in inbox.seen
    requires |inbox.seen[r.earliest].data| + r.progress <= r.declared
    ensures Draining(Append(r, inbox.seen[r.earliest].data), inbox)
  {
    var data := inbox.seen[r.earliest].data;
    HoldsLess(r.slots, inbox.seen, r.earliest);
    assert r.file + data == inbox.base + Joined(inbox.seen, r.earliest + 1);
  }

  /** How far a drain got: all the way, or stopped by the declared size or by the disk. */
  ghost predicate DrainOutcome(r: Ring, d: Stored, whole: Bytes, room: nat) {
    && r.file <= d.ring.file <= whole
    && |d.ring.file| <= d.ring.declared == r.declared
    && match d.result
       case Received => |whole| <= r.declared && |whole| - |r.file| <= room
       case ProtocolViolation => |whole| > r.declared
       case IoError => |whole| - |r.file| > room
  }

  /** Appending in order either reaches the whole available prefix or stops at the declared
      size or at the disk's limit, always leaving a prefix. */
  lemma {:induction false} DrainRefines(r: Ring, inbox: Inbox, room: nat)
    requires Draining(r, inbox)
    ensures DrainOutcome(r, Drain(r, room), FileOf(inbox), room)
    ensures Drain(r, room).result.Received? ==> Reassembles(Drain(r, room).ring, inbox)
    decreases Occupied(r.slots)
  {
    if r.earliest !in inbox.seen {
      ReassemblesIsLeast(r, inbox);
    } else {
      var data := inbox.seen[r.earliest].data;
      if |data| + r.progress > r.declared || |data| > room {
        DrainStops(r, inbox, room);
      } else {
        var next := Append(r, data);
        DrainsOne(r, inbox);
        HoldsLess(r.slots, inbox.seen, r.earliest);
        TakingSlotFreesOne(r.slots, r.earliest % PARALLEL_CHUNKS);
        DrainRefines(next, inbox, room - |data|);
        OutcomeOfNext(r, next, Drain(r, room), FileOf(inbox), data, room);
      }
    }
  }

  lemma DrainStops(r: Ring, inbox: Inbox, room: nat)
    requires Draining(r, inbox) && r.earliest in inbox.seen
    requires |inbox.seen[r.earliest].data| + r.progress > r.declared || |inbox.seen[r.earliest].data| > room
    ensures DrainOutcome(r, Drain(r, room), FileOf(inbox), room)
    ensures !Drain(r, room).result.Received?
  {
    NextIsInFile(r, inbox);
    var data := inbox.seen[r.earliest].data;
    var whole := FileOf(inbox);
    assert |r.file| + |data| <= |whole|;
    if |data| + r.progress <= r.declared {
      assert Drain(r, room).ring.file == r.file + data[..room];
      assert (r.file + data)[..|r.file| + room] == r.file + data[..room];
    }
  }

  lemma OutcomeOfNext(r: Ring, next: Ring, d: Stored, whole: Bytes, data: Bytes, room: nat)
    requires |data| <= room && next.file == r.file + data && next.declared == r.declared
    requires DrainOutcome(next, d, whole, room - |data|)
    ensures DrainOutcome(r, d, whole, room)
  {
    assert r.file <= next.file;
  }

  lemma NextIsInFile(r: Ring, inbox: Inbox)
    requires Draining(r, inbox) && r.earliest in inbox.seen
    ensures r.file + inbox.seen[r.earliest].data <= FileOf(inbox)
    ensures r.slots[r.earliest % PARALLEL_CHUNKS] == Some(inbox.seen[r.earliest])
  {
    var k := Least(inbox.seen.Keys);
    assert r.earliest + 1 <= k;
    JoinedPrefix(inbox.seen, r.earliest + 1, k);
    assert r.file + inbox.seen[r.earliest].data == inbox.base + Joined(inbox.seen, r.earliest + 1);
  }

  lemma HoldsMore(slots: seq<Option<Chunk>>, seen: map<nat, Chunk>, earliest: nat, chunk: Chunk)
    requires Holds(slots, seen, earliest) && earliest <= chunk.idx < earliest + PARALLEL_CHUNKS
    ensures Holds(slots[chunk.idx % PARALLEL_CHUNKS := Some(chunk)], seen[chunk.idx := chunk], earliest)
  {
    var slot := chunk.idx % PARALLEL_CHUNKS;
    forall i: nat | earliest <= i < earliest + PARALLEL_CHUNKS && i != chunk.idx
      ensures i % PARALLEL_CHUNKS != slot
    {
    }
  }

  lemma AdmitFills(r: Ring, inbox: Inbox, chunk: Chunk)
    requires Reassembles(r, inbox) && r.earliest <= chunk.idx < r.earliest + PARALLEL_CHUNKS
    ensures Draining(r.(slots := r.slots[chunk.idx % PARALLEL_CHUNKS := Some(chunk)]), Admit(inbox, chunk))
    ensures chunk.idx % PARALLEL_CHUNKS == r.earliest % PARALLEL_CHUNKS <==> chunk.idx == r.earliest
  {
    ReassemblesIsLeast(r, inbox);
    HoldsMore(r.slots, inbox.seen, r.earliest, chunk);
    JoinedAgree(inbox.seen, Admit(inbox, chunk).seen, r.earliest);
  }

  /** The ring refines the unlimited reassembler: it answers and writes as if it had kept
      every chunk, as long as the chunk is within eight of the next one. */
  lemma StoreRefines(r: Ring, inbox: Inbox, chunk: Chunk, room: nat)
    requires Reassembles(r, inbox)
    ensures var s, next := Store(r, chunk, room), Admit(inbox, chunk);
            && (chunk.idx >= r.earliest + PARALLEL_CHUNKS ==> s == Stored(r, ProtocolViolation))
            && (chunk.idx < r.earliest ==> s == Stored(r, Received) && next == inbox)
            && (chunk.idx < r.earliest + PARALLEL_CHUNKS ==>
                && (s.result.Received? <==> |FileOf(next)| <= r.declared && |FileOf(next)| - |r.file| <= room)
                && (s.result.Received? ==> Reassembles(s.ring, next))
                && (s.result.ProtocolViolation? ==> |FileOf(next)| > r.declared)
                && (s.result.IoError? ==> |FileOf(next)| - |r.file| > room)
                && s.ring.file <= FileOf(next))
            && r.file <= s.ring.file
            && |s.ring.file| <= s.ring.declared == r.declared
  {
    ReassemblesIsLeast(r, inbox);
    if r.earliest <= chunk.idx < r.earliest + PARALLEL_CHUNKS {
      AdmitFills(r, inbox, chunk);
      var filled := r.(slots := r.slots[chunk.idx % PARALLEL_CHUNKS := Some(chunk)]);
      if chunk.idx == r.earliest {
        DrainRefines(filled, Admit(inbox, chunk), room);
      } else {
        ReassemblesIsLeast(filled, Admit(inbox, chunk));
      }
    }
  }

  /** A chunk that was received before changes nothing, whether it is written or waiting. */
  lemma DuplicateChangesNothing(r: Ring, inbox: Inbox, chunk: Chunk, room: nat)
    requires Reassembles(r, inbox)
    requires chunk.idx in inbox.seen && inbox.seen[chunk.idx] == chunk
    ensures Store(r, chunk, room) == Stored(r, Received)
  {
    ReassemblesIsLeast(r, inbox);
    if r.earliest <= chunk.idx {
      AdmitFills(r, inbox, chunk);
      assert r.slots[chunk.idx % PARALLEL_CHUNKS := Some(chunk)] == r.slots;
    }
  }

  // ----- Runs of arrivals -----

  datatype Arrival = Arrival(chunk: Chunk, room: nat)

  /** The ring after a run in which every chunk was received. */
  function StoreAll(r: Ring, arrivals: seq<Arrival>): (end: Option<Ring>)
    requires WellFormed(r)
    ensures end.Some? ==> WellFormed(end.value)
  {
    if arrivals == [] then Some(r)
    else
      var k := |arrivals| - 1;
      match StoreAll(r, arrivals[..k])
      case None => None
      case Some(before) =>
        var s := Store(before, arrivals[k].chunk, arrivals[k].room);
        if s.result.Received? then Some(s.ring) else None
  }

  /** Every index carries one chunk, however often it arrives. */
  ghost predicate Consistent(arrivals: seq<Arrival>) {
    forall i, j :: 0 <= i < j < |arrivals| && arrivals[i].chunk.idx == arrivals[j].chunk.idx ==>
      arrivals[i].chunk == arrivals[j].chunk
  }

  ghost function ChunksOf(arrivals: seq<Arrival>): set<Chunk> {
    set a | a in arrivals :: a.chunk
  }

  ghost predicate IsSeen(seen: map<nat, Chunk>, chunks: set<Chunk>) {
    && (forall c :: c in chunks ==> c.idx in seen && seen[c.idx] == c)
    && (forall i :: i in seen ==> seen[i] in chunks && seen[i].idx == i)
  }

  lemma ChunksOfSnoc(arrivals: seq<Arrival>)
    requires arrivals != []
    ensures ChunksOf(arrivals) == ChunksOf(arrivals[..|arrivals| - 1]) + {arrivals[|arrivals| - 1].chunk}
  {
    var k := |arrivals| - 1;
    assert arrivals == arrivals[..k] + [arrivals[k]];
  }

  lemma {:induction false} StoreAllSeesArrivals(r: Ring, base: Bytes, arrivals: seq<Arrival>) returns (seen: map<nat, Chunk>)
    requires Reassembles(r, Inbox(base, map[])) && Consistent(arrivals)
    requires StoreAll(r, arrivals).Some?
    ensures Reassembles(StoreAll(r, arrivals).value, Inbox(base, seen))
    ensures IsSeen(seen, ChunksOf(arrivals))
    ensures StoreAll(r, arrivals).value.declared == r.declared
  {
    if arrivals == [] {
      seen := map[];
    } else {
      var k := |arrivals| - 1;
      var before, last := StoreAll(r, arrivals[..k]).value, arrivals[k];
      var prior := StoreAllSeesArrivals(r, base, arrivals[..k]);
      var inbox := Inbox(base, prior);
      StoreRefines(before, inbox, last.chunk, last.room);
      ReassemblesIsLeast(before, inbox);
      seen := Admit(inbox, last.chunk).seen;
      ChunksOfSnoc(arrivals);
      if last.chunk.idx in prior {
        var a :| a in arrivals[..k] && a.chunk == prior[last.chunk.idx];
        var i :| 0 <= i < k && arrivals[i] == a;
        assert prior[last.chunk.idx] == last.chunk;
      }
    }
  }

  /** Two arrival orders of the same chunks, with any duplicates, leave the same ring and
      the same file. */
  lemma ArrivalOrderIsIrrelevant(r: Ring, base: Bytes, a: seq<Arrival>, b: seq<Arrival>)
    requires Reassembles(r, Inbox(base, map[]))
    requires Consistent(a) && Consistent(b) && ChunksOf(a) == ChunksOf(b)
    requires StoreAll(r, a).Some? && StoreAll(r, b).Some?
    ensures StoreAll(r, a) == StoreAll(r, b)
  {
    var p := StoreAllSeesArrivals(r, base, a);
    var q := StoreAllSeesArrivals(r, base, b);
    assert p == q;
    RingIsDetermined(StoreAll(r, a).value, StoreAll(r, b).value, Inbox(base, p));
  }

  lemma RingIsDetermined(x: Ring, y: Ring, inbox: Inbox)
    requires Reassembles(x, inbox) && Reassembles(y, inbox) && x.declared == y.declared
    ensures x == y
  {
    ReassemblesIsLeast(x, inbox);
    ReassemblesIsLeast(y, inbox);
    forall j: nat | j < PARALLEL_CHUNKS ensures x.slots[j] == y.slots[j] {
      var i := SlotHolder(x.earliest, j);
    }
    assert x.slots == y.slots;
  }

  /** A manager that was just created or reset has seen nothing. */
  lemma StartReassembles(r: Ring)
    requires r.progress == |r.file| <= r.declared
    ensures Reassembles(Reset(r), Inbox(r.file, map[]))
  {
  }

  // ----- The manager and its file -----

  /** An open part file on a disk that takes a limited number of further bytes. */
  class PartFile {
    const place: nat
    var content: Bytes
    var room: nat

    constructor (place: nat)
      ensures this.place == place && content == []
    {
      this.place := place;
      content, room := [], 0;
    }

    /** Appends all bytes, or fails after appending some of them. */
    method WriteAll(data: Bytes) returns (ok: bool)
      modifies this
      ensures ok == (|data| <= old(room))
      ensures ok ==> content == old(content) + data && room == old(room) - |data|
      ensures !ok ==> content == old(content) + data[..old(room)] && room == 0
    {
      ok := |data| <= room;
      if ok {
        content := content + data;
        room := room - |data|;
      } else {
        content := content + data[..room];
        room := 0;
      }
    }
  }

  /** What a transfer is about. */
  datatype Details = Details(fileName: string, transfer: string, filerequest: string, contact: Option<string>, startedAt: int)

  class ReceiveManager {
    const chunksInFlight: array<Option<Chunk>>
    var earliestNotReceived: nat
    var byteProgress: nat
    const declaredFileSizeBytes: nat
    const file: PartFile
    const details: Details

    ghost predicate Valid() {
      chunksInFlight.Length == PARALLEL_CHUNKS
    }

    function State(): (r: Ring)
      reads this, chunksInFlight, file
    {
      Ring(chunksInFlight[..], earliestNotReceived, declaredFileSizeBytes, byteProgress, file.content)
    }

    constructor (file: PartFile, targetFileSize: nat, progress: nat, details: Details)
      ensures Valid() && fresh(chunksInFlight)
      ensures this.file == file && this.details == details
      ensures State() == Ring(EMPTY_SLOTS, 0, targetFileSize, progress, file.content)
    {
      chunksInFlight := new Option<Chunk>[PARALLEL_CHUNKS](_ => None);
      earliestNotReceived := 0;
      declaredFileSizeBytes := targetFileSize;
      byteProgress := progress;
      this.file, this.details := file, details;
      new;
      assert chunksInFlight[..] == EMPTY_SLOTS;
    }

    method ResetSlots()
      requires Valid()
      modifies this`earliestNotReceived, chunksInFlight
      ensures Valid() && State() == Reset(old(State()))
    {
      for i := 0 to chunksInFlight.Length
        invariant forall j :: 0 <= j < i ==> chunksInFlight[j] == None
      {
        chunksInFlight[i] := None;
      }
      earliestNotReceived := 0;
      assert chunksInFlight[..] == EMPTY_SLOTS;
    }

    method StoreChunk(chunk: Chunk) returns (result: StoreResult)
      requires Valid() && earliestNotReceived + PARALLEL_CHUNKS <= U32_MAX
      modifies this`earliestNotReceived, this`byteProgress, chunksInFlight, file
      ensures Valid()
      ensures Stored(State(), result) == Store(old(State()), chunk, old(file.room))
    {
      if chunk.idx >= earliestNotReceived + PARALLEL_CHUNKS {
        return ProtocolViolation;
      }
      if chunk.idx < earliestNotReceived {
        return Received;
      }
      var realIndex := chunk.idx % PARALLEL_CHUNKS;
      chunksInFlight[realIndex] := Some(chunk);
      assert chunksInFlight[..] == old(chunksInFlight[..])[realIndex := Some(chunk)];
      if realIndex == earliestNotReceived % PARALLEL_CHUNKS {
        result := DrainSlots();
        return;
      }
      result := Received;
    }

    /** Appends the chunks that are next in order, one write after another. */
    method DrainSlots() returns (result: StoreResult)
      requires Valid()
      modifies this`earliestNotReceived, this`byteProgress, chunksInFlight, file
      ensures Valid()
      ensures Stored(State(), result) == Drain(old(State()), old(file.room))
    {
      ghost var goal := Drain(State(), file.room);
      while chunksInFlight[earliestNotReceived % PARALLEL_CHUNKS].Some?
        invariant Drain(State(), file.room) == goal
        decreases Occupied(chunksInFlight[..])
      {
        var slot := earliestNotReceived % PARALLEL_CHUNKS;
        var next := chunksInFlight[slot].value;
        ghost var before := State();
        TakingSlotFreesOne(before.slots, slot);
        chunksInFlight[slot] := None;
        assert chunksInFlight[..] == before.slots[slot := None];
        if |next.data| + byteProgress > declaredFileSizeBytes {
          return ProtocolViolation;
        }
        byteProgress := byteProgress + |next.data|;
        var ok := file.WriteAll(next.data);
        if !ok {
          return IoError;
        }
        earliestNotReceived := earliestNotReceived + 1;
        assert State() == Append(before, next.data);
      }
      result := Received;
    }
  }
}
