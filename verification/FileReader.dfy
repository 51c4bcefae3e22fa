/** The sender's source: a file read one chunk ahead into a second buffer, with seek. */
module FileReader {
  import opened Common

  const CHUNK_SIZE: nat := 512 * 1024

  /** What the operating system makes of a read: an error, or up to 1 + `more` bytes. */
  datatype Io = Fails | Short(more: nat)

  datatype ReadResult = Ok(count: nat) | Err

  /** A read that was started ahead of time, with the file position after it. */
  datatype PendingRead = PendingRead(buffer: array<Byte>, position: nat, result: ReadResult)

  datatype Handed = Data(count: nat, buffer: array<Byte>) | Failed

  /** The chunks are successive, non-empty pieces of the content from an offset on. */
  ghost predicate IsChunking(content: Bytes, offset: nat, chunks: seq<Bytes>) {
    && (forall c :: c in chunks ==> c != [])
    && (chunks == [] || offset <= |content|)
    && (offset <= |content| ==> Concat(chunks) <= content[offset..])
  }

  lemma NextPieceExtends(content: Bytes, offset: nat, done: Bytes, count: nat)
    requires offset <= |content| && done <= content[offset..] && offset + |done| + count <= |content|
    ensures done + content[offset + |done|..offset + |done| + count] <= content[offset..]
  {
    var rest := content[offset..];
    assert content[offset + |done|..offset + |done| + count] == rest[|done|..|done| + count];
    assert done == rest[..|done|];
    assert rest[..|done| + count] == rest[..|done|] + rest[|done|..|done| + count];
  }

  /** Reading the next piece continues a chunking. */
  lemma ChunkingExtends(content: Bytes, offset: nat, chunks: seq<Bytes>, count: nat)
    requires IsChunking(content, offset, chunks)
    requires 0 < count && offset + |Concat(chunks)| + count <= |content|
    ensures var at := offset + |Concat(chunks)|;
            && IsChunking(content, offset, chunks + [content[at..at + count]])
            && |Concat(chunks + [content[at..at + count]])| == |Concat(chunks)| + count
  {
    var at := offset + |Concat(chunks)|;
    var next := content[at..at + count];
    assert (chunks + [next])[..|chunks|] == chunks;
    assert Concat(chunks + [next]) == Concat(chunks) + next;
    NextPieceExtends(content, offset, Concat(chunks), count);
  }

  /** A chunking that leaves nothing to read is the whole rest of the file. */
  lemma ChunkingComplete(content: Bytes, offset: nat, chunks: seq<Bytes>)
    requires IsChunking(content, offset, chunks) && offset <= |content|
    requires offset + |Concat(chunks)| >= |content|
    ensures content[..offset] + Concat(chunks) == content
  {
    assert content == content[..offset] + content[offset..];
  }

  /** How many bytes a read at a position yields. */
  function ReadCount(size: nat, position: nat, more: nat): (count: nat)
    ensures count <= CHUNK_SIZE
    ensures count == 0 <==> position >= size
    ensures position < size ==> position + count <= size
  {
    if position >= size then 0
    else
      var wanted := if 1 + more <= CHUNK_SIZE then 1 + more else CHUNK_SIZE;
      if position + wanted <= size then wanted else size - position
  }

  class Reader {
    const content: Bytes
    var lazyBuffer: array<Byte>
    var pending: Option<PendingRead>
    ghost var origin: nat
    ghost var chunks: seq<Bytes>

    ghost function Buffers(): set<object>
      reads this
    {
      {lazyBuffer} + if pending.Some? then {pending.value.buffer} else {}
    }

    /** The position of the next byte to hand out. */
    ghost function Cursor(): nat
      reads this
    {
      origin + |Concat(chunks)|
    }

    ghost predicate Fetched(p: PendingRead, cursor: nat)
      reads p.buffer
    {
      p.result.Ok? ==>
        var n := p.result.count;
        && n <= p.buffer.Length
        && p.position == cursor + n
        && (n == 0 <==> cursor >= |content|)
        && (n > 0 ==> cursor + n <= |content| && p.buffer[..n] == content[cursor..cursor + n])
    }

    ghost predicate Valid()
      reads this, Buffers()
    {
      && IsChunking(content, origin, chunks)
      && lazyBuffer.Length == CHUNK_SIZE
      && match pending
         case None => true
         case Some(p) =>
           p.buffer != lazyBuffer && p.buffer.Length == CHUNK_SIZE && Fetched(p, Cursor())
    }

    constructor (content: Bytes, io: Io)
      ensures Valid() && fresh(Buffers())
      ensures this.content == content && origin == 0 && chunks == [] && pending.Some?
    {
      this.content := content;
      lazyBuffer := new Byte[CHUNK_SIZE](_ => 0);
      pending := None;
      origin, chunks := 0, [];
      new;
      var busy := new Byte[CHUNK_SIZE](_ => 0);
      Prefetch(busy, 0, io);
    }

    /** Starts reading ahead into a buffer that nobody else uses. */
    method Prefetch(buffer: array<Byte>, position: nat, io: Io)
      requires buffer != lazyBuffer && buffer.Length == CHUNK_SIZE
      modifies this`pending, buffer
      ensures pending.Some? && pending.value.buffer == buffer
      ensures Fetched(pending.value, position)
    {
      match io {
        case Fails =>
          pending := Some(PendingRead(buffer, position, Err));
        case Short(more) =>
          var count := ReadCount(|content|, position, more);
          for i := 0 to count
            invariant forall j :: 0 <= j < i ==> buffer[j] == content[position + j]
          {
            buffer[i] := content[position + i];
          }
          pending := Some(PendingRead(buffer, position + count, Ok(count)));
      }
    }

    /** Hands out the prefetched piece and starts reading the next one into the other
        buffer. Ends with the file, or with an error. */
    method Read(io: Io) returns (handed: Option<Handed>)
      requires Valid()
      modifies this, Buffers()
      ensures Valid() && origin == old(origin)
      ensures Buffers() <= old(Buffers())
      ensures old(pending).None? ==> handed == None && chunks == old(chunks) && pending == None
      ensures handed.None? && old(pending).Some? ==> old(Cursor()) >= |content| && pending == None
      ensures handed == Some(Failed) <==> old(pending).Some? && old(pending.value.result).Err?
      ensures match handed
              case Some(Data(n, buffer)) =>
                && 0 < n <= buffer.Length
                && chunks == old(chunks) + [buffer[..n]]
                && pending.Some? && pending.value.buffer != buffer
              case _ => chunks == old(chunks) && pending == None
    {
      if pending.None? {
        return None;
      }
      var p := pending.value;
      pending := None;
      var buffer := lazyBuffer;
      lazyBuffer := p.buffer;
      match p.result {
        case Err =>
          return Some(Failed);
        case Ok(n) =>
          if n == 0 {
            return None;
          }
          ChunkingExtends(content, origin, chunks, n);
          chunks := chunks + [lazyBuffer[..n]];
          Prefetch(buffer, p.position, io);
          return Some(Data(n, lazyBuffer));
      }
    }

    /** Drops what was prefetched and reads from an offset instead. Does nothing once
        reading has ended; keeps reading where it was if the seek fails. */
    method SetProgress(offset: nat, seekWorks: bool, io: Io)
      requires Valid()
      modifies this, Buffers()
      ensures Valid() && lazyBuffer == old(lazyBuffer)
      ensures Buffers() == old(Buffers())
      ensures old(pending).None? ==> origin == old(origin) && chunks == old(chunks) && pending == None
      ensures old(pending).Some? ==>
                && pending.Some? && chunks == []
                && origin == if seekWorks then offset else old(pending.value.position)
    {
      if pending.Some? {
        var p := pending.value;
        pending := None;
        origin := if seekWorks then offset else p.position;
        chunks := [];
        Prefetch(p.buffer, if seekWorks then offset else p.position, io);
      }
    }
  }
}
