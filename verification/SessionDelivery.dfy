/** What a session delivers: the messages of an end, counted as it encrypted them, and which of
    their deliveries the other end decrypts. */
module SessionDelivery {
  import opened Common
  import opened LeastAbsent
  import opened NonceWindow
  import opened SessionCipher

  /** How often an end has encrypted, whether it worked or not. */
  ghost function Encryptions(events: seq<Event>, byInitiator: bool): (count: nat) {
    if events == [] then 0
    else
      var k := |events| - 1;
      Encryptions(events[..k], byInitiator) + if events[k].Encrypts? && events[k].byInitiator == byInitiator then 1 else 0
  }

  ghost predicate EncryptsAt(events: seq<Event>, j: nat, byInitiator: bool) {
    j < |events| && events[j].Encrypts? && events[j].byInitiator == byInitiator
  }

  /** The position of an encryption among those of its end. */
  ghost function Position(events: seq<Event>, j: nat): nat
    requires j < |events| && events[j].Encrypts?
  {
    Encryptions(events[..j], events[j].byInitiator)
  }

  /** Event i hands the message that event j has sent, unchanged, to the other end. */
  ghost predicate Delivers(states: seq<Sys>, events: seq<Event>, i: nat, j: nat)
    requires |states| == |events| + 1 && i < |events|
  {
    && j < i && events[j].Encrypts? && |states[j + 1].sent| == |states[j].sent| + 1
    && var message := states[j + 1].sent[|states[j].sent|];
       events[i] == Receives(!events[j].byInitiator, message.nonce, Sealed(NonceBytes(message.nonce), message.plain))
  }

  ghost predicate DeliveredEarlier(states: seq<Sys>, events: seq<Event>, i: nat, j: nat)
    requires |states| == |events| + 1 && i <= |events|
  {
    exists k: nat :: k < i && Delivers(states, events, k, j)
  }

  /** Up to event i, an end receives nothing but messages of the other end. */
  ghost predicate Unforged(states: seq<Sys>, events: seq<Event>, i: nat, byInitiator: bool)
    requires |states| == |events| + 1 && i <= |events|
  {
    forall k: nat :: k < i && events[k].Receives? && events[k].byInitiator == byInitiator ==>
      exists j: nat :: Delivers(states, events, k, j)
  }

  /** Up to event i, no message is delivered to an end before every one that was encrypted 100
      or more earlier. */
  ghost predicate Orderly(states: seq<Sys>, events: seq<Event>, i: nat, byInitiator: bool)
    requires |states| == |events| + 1 && i <= |events|
  {
    forall k: nat, j: nat, j': nat ::
      && k < i && Delivers(states, events, k, j) && events[j].byInitiator == !byInitiator
      && EncryptsAt(events, j', !byInitiator) && Position(events, j') + 100 <= Position(events, j) ==>
        DeliveredEarlier(states, events, k, j')
  }

  // ----- Positions -----

  lemma OneMoreEncryption(events: seq<Event>, j: nat, byInitiator: bool)
    requires j < |events|
    ensures Encryptions(events[..j + 1], byInitiator) ==
            Encryptions(events[..j], byInitiator) + if EncryptsAt(events, j, byInitiator) then 1 else 0
  {
    assert events[..j + 1][..j] == events[..j];
  }

  /** The send counter of an end is the number of its encryptions, until the nonces run out. */
  lemma {:induction false} CounterCountsEncryptions(states: seq<Sys>, events: seq<Event>, i: nat, byInitiator: bool)
    requires IsRun(states, events) && i <= |events|
    ensures var count := Encryptions(events[..i], byInitiator);
            EndOf(states[i], byInitiator).counter == if count < U64_HALF then count else U64_HALF
  {
    if i > 0 {
      CounterCountsEncryptions(states, events, i - 1, byInitiator);
      OneMoreEncryption(events, i - 1, byInitiator);
      assert states[i - 1 + 1] == Step(states[i - 1], events[i - 1]);
    }
  }

  /** The nonce of a message tells its position; the other end counts it as just that. */
  lemma NonceTellsPosition(states: seq<Sys>, events: seq<Event>, j: nat)
    requires IsRun(states, events) && j < |events| && events[j].Encrypts? && |states[j + 1].sent| == |states[j].sent| + 1
    ensures var message := states[j + 1].sent[|states[j].sent|];
            && message.plain == events[j].plain && message.nonce <= U64_MAX
            && message.nonce == Position(events, j) + (if events[j].byInitiator then 0 else U64_HALF)
            && Shifted(!events[j].byInitiator, message.nonce) == Position(events, j)
  {
    RunKeepsInv(states, events, j);
    CounterCountsEncryptions(states, events, j, events[j].byInitiator);
    assert states[j + 1] == Step(states[j], events[j]);
  }

  lemma {:induction false} EncryptionsGrow(events: seq<Event>, i: nat, j: nat, byInitiator: bool)
    requires i <= j <= |events|
    ensures Encryptions(events[..i], byInitiator) <= Encryptions(events[..j], byInitiator)
  {
    if i < j {
      EncryptionsGrow(events, i, j - 1, byInitiator);
      OneMoreEncryption(events, j - 1, byInitiator);
    }
  }

  /** An end has one encryption per position. */
  lemma PositionsAreUnique(events: seq<Event>, j: nat, j': nat, byInitiator: bool)
    requires EncryptsAt(events, j, byInitiator) && EncryptsAt(events, j', byInitiator)
    requires Position(events, j) == Position(events, j')
    ensures j == j'
  {
    var first, second := if j < j' then j else j', if j < j' then j' else j;
    if first < second {
      OneMoreEncryption(events, first, byInitiator);
      EncryptionsGrow(events, first + 1, second, byInitiator);
    }
  }

  lemma {:induction false} EveryPositionIsTaken(events: seq<Event>, i: nat, byInitiator: bool, n: nat) returns (j: nat)
    requires i <= |events| && n < Encryptions(events[..i], byInitiator)
    ensures j < i && EncryptsAt(events, j, byInitiator) && Position(events, j) == n
  {
    OneMoreEncryption(events, i - 1, byInitiator);
    if n < Encryptions(events[..i - 1], byInitiator) {
      j := EveryPositionIsTaken(events, i - 1, byInitiator, n);
    } else {
      j := i - 1;
    }
  }

  // ----- Deliveries -----

  /** A delivery arrives in the window of the other end as the position of its message. */
  lemma DeliveryArrives(states: seq<Sys>, events: seq<Event>, i: nat, j: nat)
    requires IsRun(states, events) && i < |events| && Delivers(states, events, i, j)
    ensures var byInitiator := !events[j].byInitiator;
            Arrivals(events[..i + 1], byInitiator) == Arrivals(events[..i], byInitiator) + [Position(events, j)]
  {
    NonceTellsPosition(states, events, j);
    assert events[..i + 1][..i] == events[..i];
  }

  lemma NothingArrives(events: seq<Event>, i: nat, byInitiator: bool)
    requires i < |events| && !(events[i].Receives? && events[i].byInitiator == byInitiator)
    ensures Arrivals(events[..i + 1], byInitiator) == Arrivals(events[..i], byInitiator)
  {
    assert events[..i + 1][..i] == events[..i];
  }

  /** An event delivers one message only. */
  lemma SameDelivery(states: seq<Sys>, events: seq<Event>, i: nat, j: nat, j': nat)
    requires IsRun(states, events) && i < |events| && Delivers(states, events, i, j) && Delivers(states, events, i, j')
    ensures j == j'
  {
    NonceTellsPosition(states, events, j);
    NonceTellsPosition(states, events, j');
    PositionsAreUnique(events, j, j', events[j].byInitiator);
  }

  lemma DeliveryIs(states: seq<Sys>, events: seq<Event>, i: nat, j: nat)
    requires IsRun(states, events) && i < |events| && Delivers(states, events, i, j)
    ensures events[i].nonce <= U64_MAX && events[i].byInitiator == !events[j].byInitiator
    ensures events[i].cipher == Sealed(NonceBytes(events[i].nonce), events[j].plain)
  {
    NonceTellsPosition(states, events, j);
  }

  lemma DeliveredNowOrEarlier(states: seq<Sys>, events: seq<Event>, i: nat, j: nat)
    requires |states| == |events| + 1 && i < |events|
    ensures DeliveredEarlier(states, events, i + 1, j) <==> DeliveredEarlier(states, events, i, j) || Delivers(states, events, i, j)
  {
  }

  /** What has arrived after a delivery is what had arrived before, and its message. */
  lemma ArrivedWithDelivery(states: seq<Sys>, events: seq<Event>, i: nat, j: nat, k: nat)
    requires IsRun(states, events) && i < |events| && Delivers(states, events, i, k)
    requires EncryptsAt(events, j, events[k].byInitiator)
    ensures var byInitiator := !events[k].byInitiator;
            Position(events, j) in Arrivals(events[..i + 1], byInitiator) <==>
            Position(events, j) in Arrivals(events[..i], byInitiator) || j == k
  {
    DeliveryArrives(states, events, i, k);
    if Position(events, k) == Position(events, j) {
      PositionsAreUnique(events, k, j, events[k].byInitiator);
    }
  }

  lemma UnforgedSoFar(states: seq<Sys>, events: seq<Event>, h: nat, i: nat, byInitiator: bool)
    requires |states| == |events| + 1 && h <= i <= |events| && Unforged(states, events, i, byInitiator)
    ensures Unforged(states, events, h, byInitiator)
  {
  }

  lemma MessageDelivered(states: seq<Sys>, events: seq<Event>, i: nat, byInitiator: bool) returns (j: nat)
    requires |states| == |events| + 1 && i < |events| && Unforged(states, events, i + 1, byInitiator)
    requires events[i].Receives? && events[i].byInitiator == byInitiator
    ensures Delivers(states, events, i, j)
  {
    j :| Delivers(states, events, i, j);
  }

  ghost predicate Arrived(events: seq<Event>, i: nat, j: nat)
    requires i <= |events| && j < |events| && events[j].Encrypts?
  {
    Position(events, j) in Arrivals(events[..i], !events[j].byInitiator)
  }

  /** A message arrives when it is delivered. */
  lemma ArrivesIffDelivered(states: seq<Sys>, events: seq<Event>, i: nat, j: nat)
    requires IsRun(states, events) && i < |events| && j < |events| && events[j].Encrypts?
    requires Unforged(states, events, i + 1, !events[j].byInitiator)
    ensures Arrived(events, i + 1, j) <==> Arrived(events, i, j) || Delivers(states, events, i, j)
  {
    if events[i].Receives? && events[i].byInitiator == !events[j].byInitiator {
      var k := MessageDelivered(states, events, i, !events[j].byInitiator);
      ArrivedWithDelivery(states, events, i, j, k);
      if Delivers(states, events, i, j) {
        SameDelivery(states, events, i, k, j);
      }
    } else {
      NothingArrives(events, i, !events[j].byInitiator);
    }
  }

  lemma {:induction false} ArrivedStepByStep(states: seq<Sys>, events: seq<Event>, i: nat, j: nat)
    requires |states| == |events| + 1 && i <= |events| && j < |events| && events[j].Encrypts?
    requires forall h: nat :: h < i ==> (Arrived(events, h + 1, j) <==> Arrived(events, h, j) || Delivers(states, events, h, j))
    ensures Arrived(events, i, j) <==> DeliveredEarlier(states, events, i, j)
  {
    if i > 0 {
      ArrivedStepByStep(states, events, i - 1, j);
      DeliveredNowOrEarlier(states, events, i - 1, j);
    }
  }

  /** Without forgeries, what has arrived are the messages delivered. */
  lemma ArrivedIffDeliveredEarlier(states: seq<Sys>, events: seq<Event>, i: nat, j: nat)
    requires IsRun(states, events) && i <= |events| && j < |events| && events[j].Encrypts?
    requires Unforged(states, events, i, !events[j].byInitiator)
    ensures Arrived(events, i, j) <==> DeliveredEarlier(states, events, i, j)
  {
    forall h: nat | h < i ensures Arrived(events, h + 1, j) <==> Arrived(events, h, j) || Delivers(states, events, h, j) {
      UnforgedSoFar(states, events, h + 1, i, !events[j].byInitiator);
      ArrivesIffDelivered(states, events, h, j);
    }
    ArrivedStepByStep(states, events, i, j);
  }

  /** At an orderly delivery, every position a window or more behind has arrived. */
  lemma PredecessorsHaveArrived(states: seq<Sys>, events: seq<Event>, i: nat, j: nat, m: nat)
    requires IsRun(states, events) && i < |events| && Delivers(states, events, i, j) && m + 100 <= Position(events, j)
    requires Unforged(states, events, i, !events[j].byInitiator) && Orderly(states, events, i + 1, !events[j].byInitiator)
    ensures m in Arrivals(events[..i], !events[j].byInitiator)
  {
    var j' := EveryPositionIsTaken(events, j, events[j].byInitiator, m);
    assert DeliveredEarlier(states, events, i, j');
    ArrivedIffDeliveredEarlier(states, events, i, j');
  }

  /** Orderly deliveries arrive displaced by less than the window. */
  lemma {:induction false} OrderlyIsDisplacedLess(states: seq<Sys>, events: seq<Event>, i: nat, byInitiator: bool)
    requires IsRun(states, events) && i <= |events|
    requires Unforged(states, events, i, byInitiator) && Orderly(states, events, i, byInitiator)
    ensures DisplacedLessThan(100, Arrivals(events[..i], byInitiator))
  {
    if i > 0 {
      var h := i - 1;
      OrderlyIsDisplacedLess(states, events, h, byInitiator);
      if events[h].Receives? && events[h].byInitiator == byInitiator {
        var j: nat :| Delivers(states, events, h, j);
        DeliveryArrives(states, events, h, j);
        var before := Arrivals(events[..h], byInitiator);
        forall m: nat | m + 100 <= Position(events, j) ensures m in before {
          PredecessorsHaveArrived(states, events, h, j, m);
        }
        DisplacedByOneMore(before, Position(events, j));
      } else {
        NothingArrives(events, h, byInitiator);
      }
    }
  }

  lemma DisplacedByOneMore(before: seq<nat>, n: nat)
    requires DisplacedLessThan(100, before) && forall m: nat :: m + 100 <= n ==> m in before
    ensures DisplacedLessThan(100, before + [n])
  {
    var all := before + [n];
    forall i, m: nat | 0 <= i < |all| && m + 100 <= all[i] ensures m in all[..i] {
      if i < |before| {
        assert all[i] == before[i] && all[..i] == before[..i];
      } else {
        assert all[..i] == before;
      }
    }
  }

  /** A delivery adds the message to what was decrypted, unless it was delivered earlier. */
  ghost predicate DecryptedOnce(states: seq<Sys>, events: seq<Event>, i: nat, j: nat)
    requires |states| == |events| + 1 && i < |events| && Delivers(states, events, i, j)
  {
    states[i + 1].got == states[i].got +
      if DeliveredEarlier(states, events, i, j) then []
      else [Got(!events[j].byInitiator, events[i].nonce, events[j].plain)]
  }

  /** Nothing with its nonce was delivered before exactly if the message was not. */
  lemma DeliveredBeforeIffEarlier(states: seq<Sys>, events: seq<Event>, i: nat, j: nat)
    requires IsRun(states, events) && i < |events| && Delivers(states, events, i, j)
    requires Unforged(states, events, i, !events[j].byInitiator)
    ensures DeliveredBefore(events, i, !events[j].byInitiator, events[i].nonce) <==> DeliveredEarlier(states, events, i, j)
  {
    NonceTellsPosition(states, events, j);
    ArrivedIffDeliveredEarlier(states, events, i, j);
    ArrivedIffDelivered(events, i, !events[j].byInitiator, events[i].nonce);
  }

  lemma DecryptedUnlessDelivered(states: seq<Sys>, events: seq<Event>, i: nat, j: nat)
    requires IsRun(states, events) && i < |events| && Delivers(states, events, i, j)
    requires DisplacedLessThan(100, Arrivals(events[..i + 1], !events[j].byInitiator))
    requires DeliveredBefore(events, i, !events[j].byInitiator, events[i].nonce) <==> DeliveredEarlier(states, events, i, j)
    ensures DecryptedOnce(states, events, i, j)
  {
    DeliveryIs(states, events, i, j);
    FirstDeliveriesAreDecrypted(states, events, i);
  }

  /** Over every run in which an end receives no forgeries and no message before every one that
      was encrypted 100 or more earlier: the message is decrypted at its first delivery, and
      never again. */
  lemma MessagesAreDecryptedOnFirstDelivery(states: seq<Sys>, events: seq<Event>, i: nat, j: nat)
    requires IsRun(states, events) && i < |events| && Delivers(states, events, i, j)
    requires Unforged(states, events, i + 1, !events[j].byInitiator)
    requires Orderly(states, events, i + 1, !events[j].byInitiator)
    ensures DecryptedOnce(states, events, i, j)
  {
    OrderlyIsDisplacedLess(states, events, i + 1, !events[j].byInitiator);
    UnforgedSoFar(states, events, i, i + 1, !events[j].byInitiator);
    DeliveredBeforeIffEarlier(states, events, i, j);
    DecryptedUnlessDelivered(states, events, i, j);
  }

  /** Over every run without forgeries, a message is not decrypted before every one that was
      encrypted 100 or more earlier has been delivered; so an encryption that failed, and is
      never delivered, ends the session 100 messages later. */
  lemma DecryptedOnlyAfterEarlierMessages(states: seq<Sys>, events: seq<Event>, i: nat, j: nat, j': nat)
    requires IsRun(states, events) && i < |events| && Delivers(states, events, i, j)
    requires Unforged(states, events, i, !events[j].byInitiator)
    requires EncryptsAt(events, j', events[j].byInitiator) && Position(events, j') + 100 <= Position(events, j)
    requires states[i + 1].got != states[i].got
    ensures events[j'].works && DeliveredEarlier(states, events, i, j')
  {
    var byInitiator := !events[j].byInitiator;
    var used := EndOf(states[i], byInitiator).used;
    NonceTellsPosition(states, events, j);
    assert states[i + 1] == Step(states[i], events[i]);
    RunKeepsInv(states, events, i);
    assert Acceptable(used, 100, Position(events, j));
    FreshAcceptedIffPredecessorsUsed(used, 100, Position(events, j));
    assert Position(events, j') in used;
    UsedIsFromArrivals(states, events, i, byInitiator);
    UsedAreArrivals(100, Arrivals(events[..i], byInitiator), Position(events, j'));
    ArrivedIffDeliveredEarlier(states, events, i, j');
    assert states[j' + 1] == Step(states[j'], events[j']);
  }
}
