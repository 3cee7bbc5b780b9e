/**
  Lists of queued events, and what one accepted flush does to them.

    - settled lists: in the window, at most 500, none twice; pruning leaves them alone
    - what filtering and joining keep of that
    - removing a head's ids leaves exactly the rest
    - counting ids: more events than names leaves one unnamed
    - what a flush hands back when the key cannot be written, and how it swaps the stored events the
      head of the queue holds for those it does not
    - the tab's own events, which such a flush never adds to
 */
module QueueLists {
  import opened Basics
  import opened EventQueues
  import opened QueueTabs
  import opened TransportRuns
  import opened Transports

  ghost predicate DistinctEvents(events: seq<QueuedEvent>) {
    forall i, j :: 0 <= i < j < |events| ==> events[i].id != events[j].id
  }

  /** Events that will all still be in the window, at most 500, none twice. */
  ghost predicate Settled(events: seq<QueuedEvent>, now: int) {
    DistinctEvents(events) && |events| <= MAX_QUEUE_EVENTS && forall e :: e in events ==> InWindow(e, now) && e.id != ""
  }

  lemma SettledIsNotPruned(events: seq<QueuedEvent>, now: int)
    requires Settled(events, now)
    ensures Pruned(events, now) == events
  {
    FilterAll(e => InWindow(e, now), events);
  }

  lemma {:induction false} FilterNone<T>(keep: T -> bool, s: seq<T>)
    requires forall x :: x in s ==> !keep(x)
    ensures Filter(keep, s) == []
  {
    if s != [] {
      assert s == [s[0]] + s[1..];
      FilterNone(keep, s[1..]);
    }
  }

  lemma MergedWithSelf(events: seq<QueuedEvent>)
    ensures Merged(events, events) == events
  {
    FilterNone((e: QueuedEvent) => !Has(events, e.id), events);
  }

  lemma HeadIsNamed(events: seq<QueuedEvent>, n: nat, x: QueuedEvent)
    requires n <= |events| && x in events[..n]
    ensures x.id in Ids(events[..n])
  {
    var i :| 0 <= i < n && events[..n][i] == x;
    assert Ids(events[..n])[i] == x.id;
  }

  lemma TailIsNotNamed(events: seq<QueuedEvent>, n: nat, x: QueuedEvent)
    requires DistinctEvents(events) && n <= |events| && x in events[n..]
    ensures x.id !in Ids(events[..n])
  {
    var j :| 0 <= j < |events| - n && events[n..][j] == x;
    assert events[n + j] == x;
    forall i | 0 <= i < n ensures Ids(events[..n])[i] != x.id {
      assert Ids(events[..n])[i] == events[i].id && events[i].id != events[n + j].id;
    }
  }

  /** Removing the head's ids leaves exactly the rest. */
  lemma WithoutHead(events: seq<QueuedEvent>, n: nat)
    requires DistinctEvents(events) && n <= |events|
    ensures Without(events, Ids(events[..n])) == events[n..]
  {
    hide Ids, DistinctEvents;
    var ids := Ids(events[..n]);
    var keep := (e: QueuedEvent) => e.id !in ids;
    assert events == events[..n] + events[n..];
    FilterConcat(keep, events[..n], events[n..]);
    forall x | x in events[..n] ensures !keep(x) { HeadIsNamed(events, n, x); }
    FilterNone(keep, events[..n]);
    forall x | x in events[n..] ensures keep(x) { TailIsNotNamed(events, n, x); }
    FilterAll(keep, events[n..]);
  }

  lemma SettledTail(events: seq<QueuedEvent>, n: nat, now: int)
    requires Settled(events, now) && n <= |events|
    ensures Settled(events[n..], now)
  {
    var rest := events[n..];
    forall i, j | 0 <= i < j < |rest| ensures rest[i].id != rest[j].id {
      assert rest[i] == events[n + i] && rest[j] == events[n + j];
    }
  }

  lemma {:induction false} IdSetOf(events: seq<QueuedEvent>)
    requires DistinctEvents(events)
    ensures |set i | 0 <= i < |events| :: events[i].id| == |events|
  {
    if events != [] {
      var init := events[..|events| - 1];
      var last := events[|events| - 1].id;
      IdSetOf(init);
      var before := set i | 0 <= i < |init| :: init[i].id;
      assert last !in before;
      assert (set i | 0 <= i < |events| :: events[i].id) == before + {last};
    }
  }

  lemma {:induction false} FewIds(ids: seq<string>)
    ensures |set id | id in ids| <= |ids|
  {
    if ids != [] {
      FewIds(ids[1..]);
      assert ids == [ids[0]] + ids[1..];
      assert (set id | id in ids) == {ids[0]} + set id | id in ids[1..];
    }
  }

  /** More distinct events than ids to name leaves one that is not named. */
  lemma OneIsNotNamed(events: seq<QueuedEvent>, ids: seq<string>) returns (e: QueuedEvent)
    requires DistinctEvents(events) && |events| > |ids|
    ensures e in events && e.id !in ids
  {
    var named := set id | id in ids;
    var all := set i | 0 <= i < |events| :: events[i].id;
    IdSetOf(events);
    FewIds(ids);
    if all <= named { SubsetSize(all, named); }
    assert !(all <= named);
    var id :| id in all && id !in named;
    var i :| 0 <= i < |events| && events[i].id == id;
    e := events[i];
  }

  lemma PrunedIsNotEmpty(events: seq<QueuedEvent>, e: QueuedEvent, now: int)
    requires e in events && InWindow(e, now)
    ensures exists x :: x in Pruned(events, now) && InWindow(x, now)
  {
    PrunedMembers(events, now);
    assert e in Fresh(events, now);
    var kept := Pruned(events, now);
    assert kept != [];
    assert kept[0] in kept;
  }

  lemma {:induction false} FilterIsNoLonger<T>(keep: T -> bool, s: seq<T>)
    ensures |Filter(keep, s)| <= |s|
  {
    if s != [] { FilterIsNoLonger(keep, s[1..]); }
  }

  lemma {:induction false} FilterIsSettled(keep: QueuedEvent -> bool, events: seq<QueuedEvent>, now: int)
    requires Settled(events, now)
    ensures Settled(Filter(keep, events), now)
    decreases |events|
  {
    FilterMembers(keep, events);
    FilterIsNoLonger(keep, events);
    if events != [] {
      SettledTail(events, 1, now);
      FilterIsSettled(keep, events[1..], now);
      FilterMembers(keep, events[1..]);
      forall x | x in events[1..] ensures x.id != events[0].id {
        var i :| 0 <= i < |events| - 1 && events[1..][i] == x;
        assert events[i + 1] == x;
      }
    }
  }

  lemma SettledTogether(a: seq<QueuedEvent>, b: seq<QueuedEvent>, now: int)
    requires Settled(a, now) && Settled(b, now) && |a| + |b| <= MAX_QUEUE_EVENTS
    requires forall x :: x in b ==> !Has(a, x.id)
    ensures Settled(a + b, now)
  {
    forall i, j | 0 <= i < j < |a + b| ensures (a + b)[i].id != (a + b)[j].id {
      if i < |a| <= j {
        assert b[j - |a|] in b;
        HasMember(a, a[i]);
      }
    }
  }

  /** Ids this list does not hold. */
  function NotIn(held: seq<QueuedEvent>): QueuedEvent -> bool { (e: QueuedEvent) => !Has(held, e.id) }

  lemma WithoutMerged(held: seq<QueuedEvent>, events: seq<QueuedEvent>, n: nat)
    requires DistinctEvents(events) && n <= |events|
    ensures Without(Merged(held, events), Ids(events[..n])) == Without(held, Ids(events[..n])) + Filter(NotIn(held), events[n..])
  {
    var ids := Ids(events[..n]);
    var unnamed := (e: QueuedEvent) => e.id !in ids;
    var both := (e: QueuedEvent) => !Has(held, e.id) && e.id !in ids;
    FilterConcat(unnamed, held, Filter(NotIn(held), events));
    FilterTwice(NotIn(held), unnamed, both, events);
    FilterTwice(unnamed, NotIn(held), both, events);
    FilterSame(NotIn(held), (e: QueuedEvent) => !Has(held, e.id), events);
    WithoutHead(events, n);
  }

  /** What one accepted flush of these events leaves, when the key still holds `held` afterwards. */
  function HandedBack(held: seq<QueuedEvent>, events: seq<QueuedEvent>, now: int): seq<QueuedEvent> {
    Pruned(Without(Merged(held, events), Ids(First(events))), now)
  }

  lemma HandedBackIsNotEmpty(held: seq<QueuedEvent>, events: seq<QueuedEvent>, now: int)
    requires Settled(held, now) && |held| > BATCH_SIZE
    ensures exists e :: e in HandedBack(held, events, now) && InWindow(e, now)
  {
    hide Pruned;
    var ids := Ids(First(events));
    var left := OneIsNotNamed(held, ids);
    assert left in Merged(held, events);
    FilterMembers((e: QueuedEvent) => e.id !in ids, Merged(held, events));
    PrunedIsNotEmpty(Without(Merged(held, events), ids), left, now);
  }

  /** What the flush hands back: what of `held` was not in the batch, then this tab's own, less the batch. */
  lemma HandedBackIs(held: seq<QueuedEvent>, events: seq<QueuedEvent>, now: int)
    requires Settled(held, now) && Settled(events, now) && |held| <= BATCH_SIZE
    ensures var n := Min(BATCH_SIZE, |events|);
            && HandedBack(held, events, now) == Without(held, Ids(First(events))) + Filter(NotIn(held), events[n..])
            && Settled(HandedBack(held, events, now), now)
  {
    hide Pruned;
    var n := Min(BATCH_SIZE, |events|);
    var kept, own := Without(held, Ids(First(events))), Filter(NotIn(held), events[n..]);
    WithoutMerged(held, events, n);
    FilterIsSettled((e: QueuedEvent) => e.id !in Ids(First(events)), held, now);
    SettledTail(events, n, now);
    FilterIsSettled(NotIn(held), events[n..], now);
    FilterIsNoLonger((e: QueuedEvent) => e.id !in Ids(First(events)), held);
    FilterIsNoLonger(NotIn(held), events[n..]);
    FilterMembers(NotIn(held), events[n..]);
    FilterMembers((e: QueuedEvent) => e.id !in Ids(First(events)), held);
    forall x | x in own ensures !Has(kept, x.id) {
      forall i | 0 <= i < |kept| ensures kept[i].id != x.id {
        assert kept[i] in held;
        HasMember(held, kept[i]);
      }
    }
    SettledTogether(kept, own, now);
    SettledIsNotPruned(kept + own, now);
  }

  /** The stored events the head of the queue lacks are the ones it has next, and the other way round. */
  lemma FlushSwaps(held: seq<QueuedEvent>, events: seq<QueuedEvent>, now: int, e: QueuedEvent)
    requires Settled(held, now) && Settled(events, now) && |held| <= BATCH_SIZE && e in held
    ensures Has(First(HandedBack(held, events, now)), e.id) <==> !Has(First(events), e.id)
  {
    hide HandedBack, Settled, InWindow;
    var n := Min(BATCH_SIZE, |events|);
    var ids := Ids(First(events));
    var kept, own := Without(held, ids), Filter(NotIn(held), events[n..]);
    var next := kept + own;
    HandedBackIs(held, events, now);
    FilterMembers((x: QueuedEvent) => x.id !in ids, held);
    FilterMembers(NotIn(held), events[n..]);
    FilterIsNoLonger((x: QueuedEvent) => x.id !in ids, held);
    IdsOf(First(events), e.id);
    if e.id !in ids {
      assert e in kept;
      var i :| 0 <= i < |kept| && kept[i] == e;
      assert First(next)[i] == e;
    } else {
      forall i | 0 <= i < |First(next)| ensures First(next)[i].id != e.id {
        if i < |kept| {
          assert kept[i] in kept;
        } else {
          assert own[i - |kept|] in own;
          HasMember(held, e);
        }
      }
    }
  }

  ghost predicate HasAll(events: seq<QueuedEvent>, held: seq<QueuedEvent>) { forall e :: e in held ==> Has(events, e.id) }

  ghost predicate HasNone(events: seq<QueuedEvent>, held: seq<QueuedEvent>) { forall e :: e in held ==> !Has(events, e.id) }

  /** How many queued events are this tab's alone. */
  function Own(held: seq<QueuedEvent>, events: seq<QueuedEvent>): nat { |Filter(NotIn(held), events)| }

  lemma FlushSwapsAll(held: seq<QueuedEvent>, events: seq<QueuedEvent>, now: int)
    requires Settled(held, now) && Settled(events, now) && |held| <= BATCH_SIZE
    ensures var next := HandedBack(held, events, now);
            (HasAll(First(events), held) <==> HasNone(First(next), held)) && (HasNone(First(events), held) <==> HasAll(First(next), held))
  {
    hide HandedBack, Settled, First;
    forall e | e in held ensures Has(First(HandedBack(held, events, now)), e.id) <==> !Has(First(events), e.id) {
      FlushSwaps(held, events, now, e);
    }
  }

  /** A flush never adds to this tab's own events, and takes some of them when its batch held nothing stored. */
  lemma OwnShrinks(held: seq<QueuedEvent>, events: seq<QueuedEvent>, now: int)
    requires Settled(held, now) && Settled(events, now) && |held| <= BATCH_SIZE && events != []
    ensures Own(held, HandedBack(held, events, now)) <= Own(held, events)
    ensures HasNone(First(events), held) ==> Own(held, HandedBack(held, events, now)) < Own(held, events)
  {
    hide HandedBack, Settled, InWindow;
    var n := Min(BATCH_SIZE, |events|);
    var ids := Ids(First(events));
    var kept, own := Without(held, ids), Filter(NotIn(held), events[n..]);
    HandedBackIs(held, events, now);
    FilterMembers((x: QueuedEvent) => x.id !in ids, held);
    forall x | x in kept ensures !NotIn(held)(x) { HasMember(held, x); }
    FilterConcat(NotIn(held), kept, own);
    FilterNone(NotIn(held), kept);
    FilterMembers(NotIn(held), events[n..]);
    FilterAll(NotIn(held), own);
    assert events == events[..n] + events[n..];
    FilterConcat(NotIn(held), events[..n], events[n..]);
    if HasNone(events[..n], held) {
      forall x | x in events[..n] ensures NotIn(held)(x) {
        HasMember(events[..n], x);
        forall i | 0 <= i < |held| ensures held[i].id != x.id { assert held[i] in held; }
      }
      FilterAll(NotIn(held), events[..n]);
    }
  }

  lemma TakeAndDrop(events: seq<QueuedEvent>, n: nat, m: nat)
    requires n + m <= |events|
    ensures events[..n] + events[n..][..m] == events[..n + m]
    ensures events[n..][m..] == events[n + m..]
  {
  }

  lemma HalfHeldIsSomething(events: seq<QueuedEvent>, held: seq<QueuedEvent>)
    requires !HasNone(First(events), held)
    ensures events != []
  {
  }
}
