/** The sender's window: at most eight chunks in flight, progress counted in order. */
module SendWindow {
  import opened Common
  import opened LeastAbsent

  datatype Slot = Empty | Pending(bytes: nat) | Acknowledged(bytes: nat)

  function Sum(sizes: seq<nat>): nat {
    if sizes == [] then 0 else Sum(sizes[..|sizes| - 1]) + sizes[|sizes| - 1]
  }

  /** The slot that chunk i should be in, given all chunks sent and acknowledged so far. */
  ghost function SlotOf(sizes: seq<nat>, acked: set<nat>, i: nat): Slot {
    if i >= |sizes| then Empty
    else if i in acked then Acknowledged(sizes[i])
    else Pending(sizes[i])
  }

  /** The slots tell of every chunk in [low, low + 8) where it stands. */
  ghost predicate Tracks(slots: seq<Slot>, sizes: seq<nat>, acked: set<nat>, low: nat) {
    && |slots| == PARALLEL_CHUNKS
    && |sizes| <= low + PARALLEL_CHUNKS
    && (forall i: nat :: low <= i < low + PARALLEL_CHUNKS ==>
          slots[i % PARALLEL_CHUNKS] == SlotOf(sizes, acked, i))
  }

  lemma TracksSend(slots: seq<Slot>, sizes: seq<nat>, acked: set<nat>, low: nat, bytes: nat)
    requires Tracks(slots, sizes, acked, low) && low <= |sizes| < low + PARALLEL_CHUNKS && |sizes| !in acked
    ensures Tracks(slots[|sizes| % PARALLEL_CHUNKS := Pending(bytes)], sizes + [bytes], acked, low)
  {
  }

  lemma TracksAck(slots: seq<Slot>, sizes: seq<nat>, acked: set<nat>, low: nat, idx: nat)
    requires Tracks(slots, sizes, acked, low) && low <= idx < |sizes|
    ensures Tracks(slots[idx % PARALLEL_CHUNKS := Acknowledged(sizes[idx])], sizes, acked + {idx}, low)
  {
  }

  lemma TracksRoll(slots: seq<Slot>, sizes: seq<nat>, acked: set<nat>, low: nat)
    requires Tracks(slots, sizes, acked, low)
    ensures Tracks(slots[low % PARALLEL_CHUNKS := Empty], sizes, acked, low + 1)
  {
  }

  class SendManager<Id(==)> {
    var chunkToIndex: map<Id, nat>
    var chunksInFlight: array<Slot>
    var earliestNotSent: nat
    var nextSlot: nat
    var progressBytes: nat
    ghost const offset: nat
    ghost var sizes: seq<nat>
    ghost var acked: set<nat>

    ghost predicate Valid()
      reads this, chunksInFlight
    {
      && nextSlot == |sizes|
      && IsLeastAbsent(acked, earliestNotSent)
      && (forall i :: i in acked ==> i < nextSlot)
      && Tracks(chunksInFlight[..], sizes, acked, earliestNotSent)
      && earliestNotSent <= nextSlot
      && progressBytes == offset + Sum(sizes[..earliestNotSent])
      && (forall id :: id in chunkToIndex ==> chunkToIndex[id] < nextSlot && chunkToIndex[id] !in acked)
      && (forall a, b :: a in chunkToIndex && b in chunkToIndex && a != b ==> chunkToIndex[a] != chunkToIndex[b])
    }

    constructor (offset: nat)
      ensures Valid() && fresh(chunksInFlight)
      ensures sizes == [] && acked == {} && this.offset == offset && chunkToIndex == map[]
    {
      chunkToIndex := map[];
      chunksInFlight := new Slot[PARALLEL_CHUNKS](_ => Empty);
      earliestNotSent, nextSlot, progressBytes := 0, 0, offset;
      this.offset, sizes, acked := offset, [], {};
    }

    /** A further chunk may be sent while fewer than eight are unacknowledged, counted from
        the first unacknowledged one. */
    method IsReady() returns (ready: bool)
      requires Valid()
      ensures ready <==> |sizes| < Least(acked) + PARALLEL_CHUNKS
    {
      LeastAbsentIsUnique(acked, earliestNotSent, Least(acked));
      ready := nextSlot - earliestNotSent < PARALLEL_CHUNKS;
    }

    /** Records that the next chunk was sent under a request id. */
    method Sent(id: Id, bytes: nat)
      requires Valid() && id !in chunkToIndex
      requires |sizes| < Least(acked) + PARALLEL_CHUNKS && nextSlot < U32_MAX
      modifies this`chunkToIndex, this`nextSlot, this`sizes, chunksInFlight
      ensures Valid()
      ensures sizes == old(sizes) + [bytes] && chunkToIndex == old(chunkToIndex)[id := |old(sizes)|]
    {
      LeastAbsentIsUnique(acked, earliestNotSent, Least(acked));
      TracksSend(chunksInFlight[..], sizes, acked, earliestNotSent, bytes);
      ghost var before := chunksInFlight[..];
      chunkToIndex := chunkToIndex[id := nextSlot];
      chunksInFlight[nextSlot % PARALLEL_CHUNKS] := Pending(bytes);
      assert chunksInFlight[..] == before[nextSlot % PARALLEL_CHUNKS := Pending(bytes)];
      nextSlot := nextSlot + 1;
      sizes := sizes + [bytes];
      assert sizes[..earliestNotSent] == old(sizes)[..earliestNotSent];
    }

    /** Acknowledges a chunk; progress then covers exactly the chunks before the first
        unacknowledged one. */
    method ReceiveAck(id: Id)
      requires Valid() && id in chunkToIndex
      modifies this, chunksInFlight
      ensures Valid() && chunksInFlight == old(chunksInFlight)
      ensures acked == old(acked) + {old(chunkToIndex)[id]} && sizes == old(sizes)
      ensures chunkToIndex == old(chunkToIndex) - {id}
      ensures progressBytes == offset + Sum(sizes[..Least(acked)])
    {
      var idx := chunkToIndex[id];
      chunkToIndex := chunkToIndex - {id};
      var realIndex := idx % PARALLEL_CHUNKS;
      ghost var before := chunksInFlight[..];
      assert earliestNotSent <= idx;
      assert before[realIndex] == SlotOf(sizes, acked, idx);
      TracksAck(before, sizes, acked, earliestNotSent, idx);
      chunksInFlight[realIndex] := Acknowledged(chunksInFlight[realIndex].bytes);
      assert chunksInFlight[..] == before[realIndex := Acknowledged(sizes[idx])];
      acked := acked + {idx};
      if idx == earliestNotSent {
        Advance();
      }
      LeastAbsentIsUnique(acked, earliestNotSent, Least(acked));
    }

    /** Counts and frees the acknowledged chunks at the front of the window. */
    method Advance()
      requires nextSlot == |sizes| && earliestNotSent <= nextSlot
      requires forall i: nat :: i < earliestNotSent ==> i in acked
      requires forall i :: i in acked ==> i < nextSlot
      requires Tracks(chunksInFlight[..], sizes, acked, earliestNotSent)
      requires progressBytes == offset + Sum(sizes[..earliestNotSent])
      modifies this`earliestNotSent, this`progressBytes, chunksInFlight
      ensures IsLeastAbsent(acked, earliestNotSent) && earliestNotSent <= nextSlot
      ensures Tracks(chunksInFlight[..], sizes, acked, earliestNotSent)
      ensures progressBytes == offset + Sum(sizes[..earliestNotSent])
    {
      while chunksInFlight[earliestNotSent % PARALLEL_CHUNKS].Acknowledged? && earliestNotSent < nextSlot
        invariant earliestNotSent <= nextSlot
        invariant forall i: nat :: i < earliestNotSent ==> i in acked
        invariant Tracks(chunksInFlight[..], sizes, acked, earliestNotSent)
        invariant progressBytes == offset + Sum(sizes[..earliestNotSent])
        decreases nextSlot - earliestNotSent
      {
        var slot := earliestNotSent % PARALLEL_CHUNKS;
        ghost var before := chunksInFlight[..];
        assert before[slot] == SlotOf(sizes, acked, earliestNotSent);
        assert sizes[..earliestNotSent + 1][..earliestNotSent] == sizes[..earliestNotSent];
        TracksRoll(before, sizes, acked, earliestNotSent);
        progressBytes := progressBytes + chunksInFlight[slot].bytes;
        chunksInFlight[slot] := Empty;
        assert chunksInFlight[..] == before[slot := Empty];
        earliestNotSent := earliestNotSent + 1;
      }
      assert chunksInFlight[..][earliestNotSent % PARALLEL_CHUNKS] == SlotOf(sizes, acked, earliestNotSent);
    }

    /** The sender is done when the window is empty: then everything sent is acknowledged. */
    method AllAcknowledged() returns (done: bool)
      requires Valid()
      ensures done <==> forall i: nat :: i < |sizes| ==> i in acked
      ensures done ==> progressBytes == offset + Sum(sizes)
    {
      done := earliestNotSent == nextSlot;
      for k := 0 to chunksInFlight.Length
        invariant done <==> earliestNotSent == nextSlot
      {
        if done {
          NothingPending(chunksInFlight[..], sizes, acked, earliestNotSent, k);
        }
        done := done && !chunksInFlight[k].Pending?;
      }
      assert done ==> sizes[..earliestNotSent] == sizes;
      assert earliestNotSent < nextSlot ==> earliestNotSent !in acked;
    }
  }

  lemma NothingPending(slots: seq<Slot>, sizes: seq<nat>, acked: set<nat>, low: nat, k: nat)
    requires Tracks(slots, sizes, acked, low) && |sizes| == low && k < PARALLEL_CHUNKS
    ensures slots[k] == Empty
  {
    var i := SlotHolder(low, k);
    assert slots[i % PARALLEL_CHUNKS] == SlotOf(sizes, acked, i);
  }
}
