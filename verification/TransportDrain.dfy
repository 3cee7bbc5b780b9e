/**
  Draining against a server that accepts everything (packages/sdk-browser/src/transport.ts:159-234):
  how many flushes it takes, in what order, and exactly when an unwritable key keeps it from ending.
 */
module TransportDrain {
  import opened Basics
  import opened EventQueues
  import opened QueueLists
  import opened QueueTabs
  import opened Transports

  /** Nothing under way and nothing holding a flush back. */
  predicate Idle(y: System, now: int) {
    !y.sender.stopped && !y.sender.inFlight && y.outstanding == [] && y.returning == 0 && y.sender.nextAttemptAt <= now as real
  }

  /** One whole flush: the request, its 202, its body, its return. */
  function Flush(y: System, now: int, access: Access): System {
    var asked := Begin(y, false, now, access, Fine);
    var answered := if asked.outstanding == [] then asked else Answer(asked, 0, Status(202, None), now, access, 0.0);
    if answered.returning > 0 then Return(answered) else answered
  }

  function Flushes(y: System, now: int, access: Access, k: nat): System
    decreases k
  {
    if k == 0 then y else Flushes(Flush(y, now, access), now, access, k - 1)
  }

  /** What the first `k` flushes send, in the order it goes out. */
  function Sent(y: System, now: int, access: Access, k: nat): seq<QueuedEvent>
    decreases k
  {
    if k == 0 then []
    else
      var asked := Begin(y, false, now, access, Fine);
      (if asked.outstanding == [] then [] else asked.outstanding[0]) + Sent(Flush(y, now, access), now, access, k - 1)
  }

  /** Storage holds nothing this tab does not: memory-only, disabled, or writable and up to date. */
  predicate Alone(y: System, access: Access) {
    !y.persist || access.Denied? || (access.Works? && y.content == Array(Items(y.events)))
  }

  // ---- One flush -------------------------------------------------------------------------------------------

  /** What the removal leaves when storage holds nothing else. */
  lemma RemovalAlone(y: System, now: int, access: Access)
    requires Settled(y.events, now) && Alone(y, access)
    ensures AfterRemove(Seen(y.persist, y.content, access), y.events, Ids(First(y.events)), now)
         == y.events[Min(BATCH_SIZE, |y.events|)..]
  {
    var n := Min(BATCH_SIZE, |y.events|);
    var stored := Seen(y.persist, y.content, access);
    NamedReadBack(y.events);
    MergedWithSelf(y.events);
    NothingStored(y.events);
    assert Merged(stored, y.events) == y.events;
    WithoutHead(y.events, n);
    SettledTail(y.events, n, now);
    SettledIsNotPruned(y.events[n..], now);
  }

  /** One accepted flush sends the first 20 and leaves the rest, ready for the next. */
  lemma FlushTakesTwenty(y: System, now: int, access: Access)
    requires Idle(y, now) && now >= 0 && Settled(y.events, now) && Alone(y, access)
    ensures var n := Min(20, |y.events|);
            var z := Flush(y, now, access);
            && z.events == y.events[n..] && Settled(z.events, now)
            && Idle(z, now) && Alone(z, access)
            && Sent(y, now, access, 1) == y.events[..n]
  {
    SettledIsNotPruned(y.events, now);
    RemovalAlone(y, now, access);
    SettledTail(y.events, Min(BATCH_SIZE, |y.events|), now);
    var asked := Begin(y, false, now, access, Fine);
    assert Sent(Flush(y, now, access), now, access, 0) == [];
    if y.events != [] { assert asked.outstanding == [First(y.events)]; }
  }

  // ---- The whole queue --------------------------------------------------------------------------------------

  /**
    Against a server that answers 202, `k` flushes send the first 20k events in order and leave the
    rest; so the queue is empty exactly from flush number n/20, rounded up.
   */
  lemma {:induction false} DrainsInOrder(y: System, now: int, access: Access, k: nat)
    requires Idle(y, now) && now >= 0 && Settled(y.events, now) && Alone(y, access)
    ensures var n := Min(20 * k, |y.events|);
            && Flushes(y, now, access, k).events == y.events[n..]
            && Sent(y, now, access, k) == y.events[..n]
    ensures Flushes(y, now, access, k).events == [] <==> (|y.events| + 19) / 20 <= k
    decreases k
  {
    hide Settled, Idle, Alone, Flush, Sent;
    if k == 0 {
      NothingSentYet(y, now, access);
    } else {
      var z := Flush(y, now, access);
      var n := Min(20, |y.events|);
      FlushTakesTwenty(y, now, access);
      DrainsInOrder(z, now, access, k - 1);
      SentSplits(y, now, access, k);
      TakeAndDrop(y.events, n, Min(20 * (k - 1), |z.events|));
    }
    RoundedUp(|y.events|, k);
  }

  lemma NothingSentYet(y: System, now: int, access: Access)
    ensures Sent(y, now, access, 0) == []
  {
  }

  lemma RoundedUp(n: nat, k: nat)
    ensures (n + 19) / 20 <= k <==> n <= 20 * k
  {
  }

  lemma SentSplits(y: System, now: int, access: Access, k: nat)
    requires k > 0
    ensures Sent(y, now, access, k) == Sent(y, now, access, 1) + Sent(Flush(y, now, access), now, access, k - 1)
  {
    assert Sent(Flush(y, now, access), now, access, 0) == [];
  }

  // ---- Storage that can be read but not written ----------------------------------------------------------------

  /** The key can be read, holds these settled events, and refuses every write. */
  ghost predicate Stuck(y: System, held: seq<QueuedEvent>, now: int) {
    y.persist && ReadStore(y.content, ReadOnly) == held && Settled(held, now)
  }

  lemma StuckFlushIs(y: System, held: seq<QueuedEvent>, now: int)
    requires Idle(y, now) && now >= 0 && Stuck(y, held, now)
    ensures var z := Flush(y, now, ReadOnly);
            var seen := Pruned(y.events, now);
            && z.events == (if seen == [] then [] else HandedBack(held, seen, now))
            && z.content == y.content && z.persist == y.persist && Idle(z, now)
  {
    hide Pruned, Merged, Without, Settled;
    var seen := Pruned(y.events, now);
    var asked := Begin(y, false, now, ReadOnly, Fine);
    if seen != [] { assert asked.outstanding == [First(seen)]; }
  }

  lemma StuckStays(y: System, held: seq<QueuedEvent>, now: int)
    requires Idle(y, now) && now >= 0 && Stuck(y, held, now)
    ensures var z := Flush(y, now, ReadOnly); Idle(z, now) && Stuck(z, held, now)
  {
    hide Idle, Flush, Settled, HandedBack;
    StuckFlushIs(y, held, now);
  }

  // ---- More in the key than one batch holds: never

  lemma {:induction false} StuckNeverEmpties(y: System, held: seq<QueuedEvent>, now: int, k: nat)
    requires Idle(y, now) && now >= 0 && Stuck(y, held, now) && |held| > BATCH_SIZE
    requires exists e :: e in y.events && InWindow(e, now)
    ensures Flushes(y, now, ReadOnly, k).events != []
    decreases k
  {
    hide Idle, Flush, HandedBack, Pruned, InWindow;
    if k > 0 {
      var e :| e in y.events && InWindow(e, now);
      PrunedIsNotEmpty(y.events, e, now);
      StuckFlushIs(y, held, now);
      HandedBackIsNotEmpty(held, Pruned(y.events, now), now);
      StuckStays(y, held, now);
      StuckNeverEmpties(Flush(y, now, ReadOnly), held, now, k - 1);
    }
  }

  // ---- At most one batch in the key: each flush swaps which of it the head holds

  lemma {:induction false} DrainsInTheEnd(y: System, held: seq<QueuedEvent>, now: int) returns (k: nat)
    requires Idle(y, now) && now >= 0 && Stuck(y, held, now) && Settled(y.events, now) && |held| <= BATCH_SIZE
    requires HasAll(First(y.events), held) || HasNone(First(y.events), held)
    ensures Flushes(y, now, ReadOnly, k).events == []
    decreases Own(held, y.events), HasAll(First(y.events), held) && !HasNone(First(y.events), held)
  {
    hide Idle, Flush, HandedBack, Pruned, InWindow, First, HasAll, HasNone, Own, Settled, ReadStore;
    k := 0;
    if y.events != [] {
      var z := Flush(y, now, ReadOnly);
      StuckIsSettled(y, held, now);
      SettledIsNotPruned(y.events, now);
      StuckFlushIs(y, held, now);
      StuckStays(y, held, now);
      HandedBackIs(held, y.events, now);
      FlushSwapsAll(held, y.events, now);
      OwnShrinks(held, y.events, now);
      var rest := DrainsInTheEnd(z, held, now);
      k := rest + 1;
    }
  }

  lemma {:induction false} HalfHeldNeverEmpties(y: System, held: seq<QueuedEvent>, now: int, k: nat)
    requires Idle(y, now) && now >= 0 && Stuck(y, held, now) && Settled(y.events, now) && |held| <= BATCH_SIZE
    requires !HasAll(First(y.events), held) && !HasNone(First(y.events), held)
    ensures Flushes(y, now, ReadOnly, k).events != []
    decreases k
  {
    hide Idle, Flush, HandedBack, Pruned, InWindow, First, HasAll, HasNone, Settled, ReadStore;
    HalfHeldIsSomething(y.events, held);
    if k > 0 {
      SettledIsNotPruned(y.events, now);
      StuckFlushIs(y, held, now);
      StuckStays(y, held, now);
      StuckIsSettled(y, held, now);
      HandedBackIs(held, y.events, now);
      FlushSwapsAll(held, y.events, now);
      HalfHeldNeverEmpties(Flush(y, now, ReadOnly), held, now, k - 1);
    }
  }

  lemma StuckIsSettled(y: System, held: seq<QueuedEvent>, now: int)
    requires Stuck(y, held, now)
    ensures Settled(held, now)
  {
  }

  // ---- The whole of it

  ghost predicate Drains(y: System, now: int, access: Access) { exists k: nat :: Flushes(y, now, access, k).events == [] }

  lemma DrainsFromSettled(y: System, held: seq<QueuedEvent>, now: int)
    requires Idle(y, now) && now >= 0 && Stuck(y, held, now) && Settled(y.events, now) && y.events != []
    ensures Drains(y, now, ReadOnly)
       <==> |held| <= BATCH_SIZE && (HasAll(First(y.events), held) || HasNone(First(y.events), held))
  {
    hide Idle, Flush, Stuck, First, HasAll, HasNone;
    if |held| > BATCH_SIZE {
      assert y.events[0] in y.events;
      forall k: nat ensures Flushes(y, now, ReadOnly, k).events != [] { StuckNeverEmpties(y, held, now, k); }
    } else if HasAll(First(y.events), held) || HasNone(First(y.events), held) {
      var k := DrainsInTheEnd(y, held, now);
    } else {
      forall k: nat ensures Flushes(y, now, ReadOnly, k).events != [] { HalfHeldNeverEmpties(y, held, now, k); }
    }
  }

  /** Pruning first changes nothing a flush would do. */
  lemma PruningFirst(y: System, held: seq<QueuedEvent>, now: int)
    requires Idle(y, now) && now >= 0 && Stuck(y, held, now) && Settled(Pruned(y.events, now), now) && y.events != []
    ensures Drains(y, now, ReadOnly) <==> Drains(y.(events := Pruned(y.events, now)), now, ReadOnly)
  {
    hide Pruned, Merged, Without, Settled;
    var z := y.(events := Pruned(y.events, now));
    SettledIsNotPruned(z.events, now);
    assert Flush(y, now, ReadOnly) == Flush(z, now, ReadOnly);
    if Drains(y, now, ReadOnly) {
      var k: nat :| Flushes(y, now, ReadOnly, k).events == [];
      assert Flushes(z, now, ReadOnly, k).events == [];
    }
    if Drains(z, now, ReadOnly) {
      var k: nat :| Flushes(z, now, ReadOnly, k).events == [];
      if k == 0 {
        StuckFlushIs(y, held, now);
        assert Flushes(y, now, ReadOnly, 1) == Flushes(Flush(y, now, ReadOnly), now, ReadOnly, 0);
      } else {
        assert Flushes(y, now, ReadOnly, k).events == [];
      }
    }
  }

  /**
    A key that can be read but not written hands delivered events back with every removal. Against a
    server accepting everything the queue drains exactly when the key holds at most one batch and
    the next batch carries all of the key or none of it; whatever else memory holds does not matter.
   */
  lemma ReadOnlyStorageDrainsIff(y: System, held: seq<QueuedEvent>, now: int)
    requires Idle(y, now) && now >= 0 && Stuck(y, held, now) && Settled(Pruned(y.events, now), now)
    ensures var batch := First(Pruned(y.events, now));
            Drains(y, now, ReadOnly) <==> batch == [] || (|held| <= BATCH_SIZE && (HasAll(batch, held) || HasNone(batch, held)))
  {
    hide Idle, Flush, Stuck, HasAll, HasNone, Pruned;
    var z := y.(events := Pruned(y.events, now));
    if y.events == [] {
      SettledIsNotPruned([], now);
      assert Flushes(y, now, ReadOnly, 0).events == [];
    } else {
      PruningFirst(y, held, now);
      SameStanding(y, held, now);
      if z.events == [] {
        assert Flushes(z, now, ReadOnly, 0).events == [];
      } else {
        DrainsFromSettled(z, held, now);
      }
    }
  }

  lemma SameStanding(y: System, held: seq<QueuedEvent>, now: int)
    requires Idle(y, now) && Stuck(y, held, now)
    ensures Idle(y.(events := Pruned(y.events, now)), now) && Stuck(y.(events := Pruned(y.events, now)), held, now)
  {
  }

  /** So with all of the key in memory, as every merge leaves it, only the key's size decides. */
  lemma WholeKeyDrainsIff(y: System, held: seq<QueuedEvent>, own: seq<QueuedEvent>, now: int)
    requires Idle(y, now) && now >= 0 && Stuck(y, held, now) && y.events == held + own && Settled(y.events, now) && y.events != []
    ensures Drains(y, now, ReadOnly) <==> |held| <= BATCH_SIZE
  {
    hide Idle, Stuck, Drains;
    DrainsFromSettled(y, held, now);
    if |held| <= BATCH_SIZE {
      var batch := First(y.events);
      forall e | e in held ensures Has(batch, e.id) {
        var i :| 0 <= i < |held| && held[i] == e;
        assert batch[i] == e;
      }
    }
  }

  /** Two stored events, one of them in memory: each flush swaps them, and no number of flushes ends it. */
  lemma TwoStoredOneInMemory(y: System, a: QueuedEvent, b: QueuedEvent, now: int)
    requires Idle(y, now) && now >= 0 && y.persist && y.content == Array(Items([a, b])) && y.events == [a]
    requires a.id != "" && b.id != "" && a.id != b.id && InWindow(a, now) && InWindow(b, now)
    ensures !Drains(y, now, ReadOnly)
  {
    hide Idle, Drains;
    NamedReadBack([a, b]);
    DrainsFromSettled(y, [a, b], now);
    assert First(y.events) == [a];
    assert b in [a, b] && !Has([a], b.id);
    assert a in [a, b] && [a][0].id == a.id;
  }
}
