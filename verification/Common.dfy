/** Shared value types: options, bytes and the concatenation of chunk lists. */
module Common {

  datatype Option<+T> = None | Some(value: T)

  const PARALLEL_CHUNKS: nat := 8
  const U32_MAX: nat := 0xFFFF_FFFF
  const U64_MAX: nat := 0xFFFF_FFFF_FFFF_FFFF

  type Byte = bv8
  type Bytes = seq<Byte>

  /** Elapsed time; a clock that runs backwards counts as standing still. */
  function Since(now: nat, earlier: nat): nat {
    if now >= earlier then now - earlier else 0
  }

  /** The bytes of a list of chunks, in order. */
  function Concat(chunks: seq<Bytes>): Bytes {
    if chunks == [] then [] else Concat(chunks[..|chunks| - 1]) + chunks[|chunks| - 1]
  }

  /** Of eight consecutive indices one falls on a given slot. */
  lemma SlotHolder(low: nat, j: nat) returns (i: nat)
    requires j < PARALLEL_CHUNKS
    ensures low <= i < low + PARALLEL_CHUNKS && i % PARALLEL_CHUNKS == j
  {
    i := low + (j + PARALLEL_CHUNKS - low % PARALLEL_CHUNKS) % PARALLEL_CHUNKS;
  }

  lemma {:induction false} ConcatSplit(a: seq<Bytes>, b: seq<Bytes>)
    ensures Concat(a + b) == Concat(a) + Concat(b)
  {
    if b == [] {
      assert a + b == a;
    } else {
      var init := b[..|b| - 1];
      assert (a + b)[..|a + b| - 1] == a + init;
      ConcatSplit(a, init);
    }
  }

  /** A list of chunks whose prefix is taken yields a prefix of the bytes. */
  lemma {:induction false} ConcatPrefix(chunks: seq<Bytes>, k: nat)
    requires k <= |chunks|
    ensures Concat(chunks[..k]) <= Concat(chunks)
  {
    assert chunks == chunks[..k] + chunks[k..];
    ConcatSplit(chunks[..k], chunks[k..]);
  }
}

/** The least natural number that a finite set does not contain. */
module LeastAbsent {

  ghost function Below(b: nat): (below: set<nat>)
    ensures forall n: nat :: n in below <==> n < b
    ensures |below| == b
  {
    if b == 0 then {} else Below(b - 1) + {b - 1}
  }

  ghost predicate IsLeastAbsent(s: set<nat>, b: nat) {
    b !in s && forall n: nat :: n < b ==> n in s
  }

  lemma LeastAbsentIsUnique(s: set<nat>, a: nat, b: nat)
    requires IsLeastAbsent(s, a) && IsLeastAbsent(s, b)
    ensures a == b
  {
  }

  ghost function LeastAbsentFrom(s: set<nat>, b: nat): (least: nat)
    requires forall n: nat :: n < b ==> n in s
    ensures IsLeastAbsent(s, least)
    decreases s - Below(b)
  {
    if b !in s then b
    else
      assert b in s - Below(b);
      assert b !in s - Below(b + 1);
      LeastAbsentFrom(s, b + 1)
  }

  ghost function Least(s: set<nat>): (least: nat)
    ensures IsLeastAbsent(s, least)
  {
    LeastAbsentFrom(s, 0)
  }

  lemma LeastGrows(a: set<nat>, b: set<nat>)
    requires a <= b
    ensures Least(a) <= Least(b)
  {
  }

  lemma {:induction false} SubsetSize(a: set<nat>, b: set<nat>)
    requires a <= b
    ensures |a| <= |b|
  {
    if a != {} {
      var x :| x in a;
      SubsetSize(a - {x}, b - {x});
    }
  }
}
