/** The rolling nonce window: a ring of N flags that stands for the unbounded set of
    nonces already used on a session. */
module NonceWindow {
  import opened Common
  import opened LeastAbsent

  datatype BitStoreError =
    | OutOfBoundsAccess(tried: nat, min: nat, max: nat)
    | RepeatedAccess(nonce: nat)

  datatype Verdict = Accepted | Rejected(error: BitStoreError)

  // ----- The specification: a set of used nonces -----

  /** A window of n nonces starting at the least unused one decides what may be accepted. */
  ghost predicate Acceptable(used: set<nat>, size: nat, nonce: nat) {
    nonce !in used && Least(used) <= nonce < Least(used) + size
  }

  ghost function UsedAfter(used: set<nat>, size: nat, nonce: nat): (after: set<nat>) {
    if Acceptable(used, size, nonce) then used + {nonce} else used
  }

  ghost function UsedAfterAll(used: set<nat>, size: nat, arrivals: seq<nat>): (after: set<nat>) {
    if arrivals == [] then used
    else
      var k := |arrivals| - 1;
      UsedAfter(UsedAfterAll(used, size, arrivals[..k]), size, arrivals[k])
  }

  /** Whether the i-th arrival of a run is accepted. */
  ghost predicate AcceptedAt(size: nat, arrivals: seq<nat>, i: nat)
    requires i < |arrivals|
  {
    Acceptable(UsedAfterAll({}, size, arrivals[..i]), size, arrivals[i])
  }

  /** The lower bound never passes the number of accepted nonces, so it overflows only
      after as many acceptances. */
  lemma LeastUnusedIsAtMostCount(used: set<nat>)
    ensures Least(used) <= |used|
  {
    SubsetSize(Below(Least(used)), used);
  }

  /** A fresh nonce is accepted exactly when every nonce at least a window behind it is used. */
  lemma FreshAcceptedIffPredecessorsUsed(used: set<nat>, size: nat, nonce: nat)
    requires nonce !in used
    ensures Acceptable(used, size, nonce) <==> size > 0 && forall m: nat :: m + size <= nonce ==> m in used
  {
  }

  /** What a run has used is what it accepted, and it is what arrived. */
  lemma {:induction false} UsedAreArrivals(size: nat, arrivals: seq<nat>, n: nat)
    ensures n in UsedAfterAll({}, size, arrivals) <==>
            exists i :: 0 <= i < |arrivals| && arrivals[i] == n && AcceptedAt(size, arrivals, i)
  {
    if arrivals != [] {
      var k := |arrivals| - 1;
      var init := arrivals[..k];
      UsedAreArrivals(size, init, n);
      forall i | 0 <= i < k
        ensures init[i] == arrivals[i] && (AcceptedAt(size, init, i) <==> AcceptedAt(size, arrivals, i))
      {
        assert init[..i] == arrivals[..i];
      }
    }
  }

  /** Over every run, each nonce is accepted at most once. */
  lemma AcceptedAtMostOnce(size: nat, arrivals: seq<nat>, i: nat, j: nat)
    requires i < j < |arrivals| && arrivals[i] == arrivals[j]
    requires AcceptedAt(size, arrivals, i)
    ensures !AcceptedAt(size, arrivals, j)
  {
    var before := arrivals[..j];
    assert before[..i] == arrivals[..i];
    assert AcceptedAt(size, before, i);
    UsedAreArrivals(size, before, arrivals[i]);
  }

  /** No nonce arrives before one that is a whole window older. */
  ghost predicate DisplacedLessThan(size: nat, arrivals: seq<nat>) {
    forall i, m: nat :: 0 <= i < |arrivals| && m + size <= arrivals[i] ==> m in arrivals[..i]
  }

  /** Over every run whose reordering stays within the window, with any duplicates, the
      first arrival of every nonce is accepted and every later one is not. */
  lemma {:induction false} ReorderingWithinWindowLosesNothing(size: nat, arrivals: seq<nat>, i: nat)
    requires size > 0 && DisplacedLessThan(size, arrivals) && i < |arrivals|
    ensures AcceptedAt(size, arrivals, i) <==> arrivals[i] !in arrivals[..i]
    decreases i, 1
  {
    var before := arrivals[..i];
    var nonce := arrivals[i];
    forall n: nat ensures n in UsedAfterAll({}, size, before) <==> n in before {
      UsedAreArrivals(size, before, n);
      if n in before {
        FirstArrivalAccepted(size, arrivals, i, n);
      }
    }
    if nonce !in before {
      FreshAcceptedIffPredecessorsUsed(UsedAfterAll({}, size, before), size, nonce);
    }
  }

  lemma {:induction false} FirstArrivalAccepted(size: nat, arrivals: seq<nat>, i: nat, n: nat)
    requires size > 0 && DisplacedLessThan(size, arrivals) && i < |arrivals| && n in arrivals[..i]
    ensures exists j :: 0 <= j < i && arrivals[..i][j] == n && AcceptedAt(size, arrivals[..i], j)
    decreases i, 0
  {
    var before := arrivals[..i];
    var j := FirstIndex(before, n);
    assert before[..j] == arrivals[..j];
    ReorderingWithinWindowLosesNothing(size, arrivals, j);
    assert AcceptedAt(size, before, j);
  }

  ghost function FirstIndex(s: seq<nat>, n: nat): (j: nat)
    requires n in s
    ensures j < |s| && s[j] == n && n !in s[..j]
  {
    if s[0] == n then 0
    else
      var j := FirstIndex(s[1..], n);
      assert s[..j + 1] == [s[0]] + s[1..][..j];
      j + 1
  }

  // ----- The ring -----

  lemma ModInjective(n: nat, m: nat, size: nat)
    requires n < m < n + size
    ensures n % size != m % size
  {
    var q := m / size - n / size;
    assert m - n == size * q + (m % size - n % size);
    assert q >= 1 ==> size * q >= size;
    assert q <= 0 ==> size * q <= 0;
  }

  lemma ModShift(n: nat, size: nat)
    requires size > 0
    ensures (n + size) % size == n % size
  {
    var q, r := n / size, n % size;
    assert n + size == size * (q + 1) + r;
    DivModUnique(n + size, size, q + 1, r);
  }

  lemma DivModUnique(x: nat, size: nat, q: nat, r: nat)
    requires size > 0 && r < size && x == size * q + r
    ensures x % size == r
  {
    var d := x / size - q;
    assert x % size - r == -(size * d);
    assert d >= 1 ==> size * d >= size;
    assert d <= -1 ==> size * d <= -(size as int);
  }

  /** The flags of the ring answer for the nonces in [low, low + size). */
  ghost predicate Represents(flags: seq<bool>, used: set<nat>, low: nat) {
    |flags| > 0 ==> forall n: nat :: low <= n < low + |flags| ==> flags[n % |flags|] == (n !in used)
  }

  /** Setting the flag of the oldest nonce moves the represented range up by one. */
  lemma Rolls(flags: seq<bool>, used: set<nat>, low: nat)
    requires |flags| > 0 && Represents(flags, used, low)
    requires low + |flags| !in used
    ensures Represents(flags[low % |flags| := true], used, low + 1)
  {
    var size := |flags|;
    forall n: nat | low < n < low + size + 1
      ensures flags[low % size := true][n % size] == (n !in used)
    {
      if n < low + size {
        ModInjective(low, n, size);
      } else {
        ModShift(low, size);
      }
    }
  }

  lemma Unrolls(flags: seq<bool>, used: set<nat>, low: nat)
    requires |flags| > 0 && Represents(flags, used, low + 1)
    requires low !in used && flags[low % |flags|]
    ensures Represents(flags, used, low)
  {
  }

  /** Clearing the flag of a nonce in range records it as used. */
  lemma Clears(flags: seq<bool>, used: set<nat>, low: nat, nonce: nat)
    requires |flags| > 0 && Represents(flags, used, low) && low <= nonce < low + |flags|
    ensures Represents(flags[nonce % |flags| := false], used + {nonce}, low)
  {
    var size := |flags|;
    forall n: nat | low <= n < low + size
      ensures flags[nonce % size := false][n % size] == (n !in used + {nonce})
    {
      if n < nonce { ModInjective(n, nonce, size); }
      if nonce < n { ModInjective(nonce, n, size); }
    }
  }

  class RollingNonceWindow {
    var lowerBound: nat
    var window: array<bool>
    ghost var used: set<nat>

    ghost predicate Valid()
      reads this, window
    {
      && IsLeastAbsent(used, lowerBound)
      && (forall n :: n in used ==> n < lowerBound + window.Length)
      && Represents(window[..], used, lowerBound)
    }

    constructor (size: nat)
      ensures Valid() && fresh(window)
      ensures window.Length == size && used == {} && lowerBound == 0
    {
      lowerBound := 0;
      window := new bool[size](_ => true);
      used := {};
    }

    predicate IsInBounds(nonce: nat)
      reads this
    {
      lowerBound <= nonce < lowerBound + window.Length
    }

    /** Reads a flag and clears it. */
    method GetInvalidateAt(index: nat) returns (valid: bool)
      modifies window
      ensures index < window.Length ==>
                valid == old(window[index]) && window[..] == old(window[..])[index := false]
      ensures index >= window.Length ==> !valid && window[..] == old(window[..])
    {
      if index < window.Length {
        valid := window[index];
        window[index] := false;
      } else {
        valid := false;
      }
    }

    /** Sets a flag and tells whether it had to be changed. */
    method ValidateAt(index: nat) returns (changed: bool)
      modifies window
      ensures index < window.Length ==>
                changed == !old(window[index]) && window[..] == old(window[..])[index := true]
      ensures index >= window.Length ==> !changed && window[..] == old(window[..])
    {
      if index < window.Length && !window[index] {
        window[index] := true;
        changed := true;
      } else {
        changed := false;
      }
      assert index < window.Length ==> window[..] == old(window[..])[index := true];
    }

    /** Moves the lower bound past the nonces used so far, making their flags available
        again. Ends also when every flag of the ring was cleared. */
    method Advance()
      requires lowerBound in used && forall m: nat :: m < lowerBound ==> m in used
      requires forall n :: n in used ==> n < lowerBound + window.Length
      requires Represents(window[..], used, lowerBound)
      modifies this`lowerBound, window
      ensures Valid()
    {
      ghost var limit := lowerBound + window.Length;
      var n := lowerBound;
      Rolls(window[..], used, n);
      var changed := ValidateAt(n % window.Length);
      while changed
        invariant n <= limit
        invariant changed <==> n in used
        invariant forall m: nat :: m < n ==> m in used
        invariant Represents(window[..], used, n + 1)
        invariant window[n % window.Length]
        decreases limit - n
      {
        n := n + 1;
        Rolls(window[..], used, n);
        changed := ValidateAt(n % window.Length);
      }
      Unrolls(window[..], used, n);
      lowerBound := n;
    }

    /** Accepts a nonce exactly when the set of used nonces allows it, records it, and
        leaves the lower bound at the least unused nonce. The sums must fit in 64 bits. */
    method IsValid(nonce: nat) returns (verdict: Verdict)
      requires Valid()
      requires lowerBound + window.Length <= U64_MAX
      modifies this, window
      ensures Valid() && window == old(window)
      ensures verdict.Accepted? <==> Acceptable(old(used), window.Length, nonce)
      ensures used == UsedAfter(old(used), window.Length, nonce)
      ensures verdict.Rejected? ==>
                && lowerBound == old(lowerBound)
                && window[..] == old(window[..])
                && verdict.error ==
                   if nonce in old(used) && nonce >= lowerBound then RepeatedAccess(nonce)
                   else OutOfBoundsAccess(nonce, lowerBound, lowerBound + window.Length)
    {
      LeastAbsentIsUnique(used, lowerBound, Least(used));
      if !IsInBounds(nonce) {
        return Rejected(OutOfBoundsAccess(nonce, lowerBound, lowerBound + window.Length));
      }
      ghost var low := lowerBound;
      var size := window.Length;
      var isValid := GetInvalidateAt(nonce % size);
      if !isValid {
        assert window[..] == old(window[..]);
        return Rejected(RepeatedAccess(nonce));
      }
      Clears(old(window[..]), used, low, nonce);
      used := used + {nonce};
      if nonce == lowerBound {
        Advance();
      }
      verdict := Accepted;
    }
  }
}
