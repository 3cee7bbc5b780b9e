/**
  The browser queue: one array in memory, mirrored to one storage key that other tabs share
  (packages/sdk-browser/src/queue.ts).
 */
module EventQueues {
  import opened Basics

  const MAX_QUEUE_EVENTS: nat := 500
  const MAX_EVENT_AGE_MS: int := 23 * 60 * 60 * 1000

  /** `at` is absent when the timestamp does not parse; `body` is everything a re-stamp keeps. */
  datatype QueuedEvent = QueuedEvent(id: string, at: Option<int>, anonymousId: string, userId: Option<string>, body: string)

  // ---- Storage -------------------------------------------------------------------------------------

  /** What a stored array may hold: events, and anything else JSON allows. */
  datatype Item = Junk | Stored(e: QueuedEvent)

  /** What the key holds: no array at all, or an array. */
  datatype Content = NoArray | Array(items: seq<Item>)

  /** Storage may be disabled outright, or refuse only writes: quota, private mode, an unserialisable event. */
  datatype Access = Works | ReadOnly | Denied

  predicate Shaped(i: Item) { i.Stored? && i.e.id != "" && i.e.at.Some? }

  function Events(items: seq<Item>): seq<QueuedEvent> {
    if items == [] then []
    else if Shaped(items[0]) then [items[0].e] + Events(items[1..])
    else Events(items[1..])
  }

  function ReadStore(content: Content, access: Access): seq<QueuedEvent> {
    if access.Denied? || content.NoArray? then [] else Events(content.items)
  }

  function Items(events: seq<QueuedEvent>): seq<Item> { seq(|events|, i requires 0 <= i < |events| => Stored(events[i])) }

  function WriteStore(content: Content, access: Access, events: seq<QueuedEvent>): Content {
    if access.Works? then Array(Items(events)) else content
  }

  // ---- What each operation leaves ---------------------------------------------------------------------

  predicate InWindow(e: QueuedEvent, now: int) {
    e.at.Some? && now - MAX_EVENT_AGE_MS <= e.at.value <= now + MAX_EVENT_AGE_MS
  }

  function Fresh(events: seq<QueuedEvent>, now: int): seq<QueuedEvent> { Filter(e => InWindow(e, now), events) }

  function Newest(events: seq<QueuedEvent>): seq<QueuedEvent> {
    if |events| > MAX_QUEUE_EVENTS then events[|events| - MAX_QUEUE_EVENTS..] else events
  }

  /** Age cap first, then size cap. */
  function Pruned(events: seq<QueuedEvent>, now: int): seq<QueuedEvent> { Newest(Fresh(events, now)) }

  predicate Has(events: seq<QueuedEvent>, id: string) { exists i :: 0 <= i < |events| && events[i].id == id }

  /** Stored events first, then this tab's own that storage does not hold. */
  function Merged(stored: seq<QueuedEvent>, own: seq<QueuedEvent>): seq<QueuedEvent> {
    stored + Filter((e: QueuedEvent) => !Has(stored, e.id), own)
  }

  function Without(events: seq<QueuedEvent>, ids: seq<string>): seq<QueuedEvent> { Filter((e: QueuedEvent) => e.id !in ids, events) }

  function AfterAdd(stored: seq<QueuedEvent>, own: seq<QueuedEvent>, e: QueuedEvent, now: int): seq<QueuedEvent> {
    Pruned(Merged(stored, own) + [e], now)
  }

  function AfterRemove(stored: seq<QueuedEvent>, own: seq<QueuedEvent>, ids: seq<string>, now: int): seq<QueuedEvent> {
    Pruned(Without(Merged(stored, own), ids), now)
  }

  /** What a tab sees of storage: nothing at all when it does not persist. */
  function Seen(persist: bool, content: Content, access: Access): seq<QueuedEvent> {
    if persist then ReadStore(content, access) else []
  }

  function Written(persist: bool, content: Content, access: Access, events: seq<QueuedEvent>): Content {
    if persist then WriteStore(content, access, events) else content
  }

  // ---- The queue as it runs ------------------------------------------------------------------------------

  /** The one storage key, shared by every tab of the origin. */
  class Storage {
    var content: Content
    var access: Access

    constructor (content: Content, access: Access)
      ensures this.content == content && this.access == access
    {
      this.content, this.access := content, access;
    }

    method Write(events: seq<QueuedEvent>)
      modifies this`content
      ensures content == WriteStore(old(content), access, events)
    {
      if access.Works? { content := Array(Items(events)); }
    }
  }

  function Unparsed(events: seq<QueuedEvent>): nat { |Filter((e: QueuedEvent) => e.at.None?, events)| }

  function Expired(events: seq<QueuedEvent>, now: int): nat {
    |Filter((e: QueuedEvent) => e.at.Some? && !InWindow(e, now), events)|
  }

  class EventQueue {
    const store: Storage
    const persist: bool
    var events: seq<QueuedEvent>
    var expired: nat
    var corrupt: nat

    constructor (store: Storage, persist: bool, now: int)
      ensures this.store == store && this.persist == persist
      ensures events == Pruned(Seen(persist, store.content, store.access), now)
      ensures expired == Expired(Seen(persist, store.content, store.access), now)
      ensures corrupt == Unparsed(Seen(persist, store.content, store.access))
    {
      this.store, this.persist := store, persist;
      events := if persist then ReadStore(store.content, store.access) else [];
      expired, corrupt := 0, 0;
      new;
      Prune(now);
    }

    /** Every dropped event is counted once, under the reason it was dropped for. */
    method Prune(now: int)
      modifies this`events, this`expired, this`corrupt
      ensures events == Pruned(old(events), now)
      ensures expired == old(expired) + Expired(old(events), now)
      ensures corrupt == old(corrupt) + Unparsed(old(events))
    {
      var kept: seq<QueuedEvent> := [];
      for i := 0 to |events|
        invariant events == old(events)
        invariant kept == Fresh(events[..i], now)
        invariant expired == old(expired) + Expired(events[..i], now)
        invariant corrupt == old(corrupt) + Unparsed(events[..i])
      {
        var e := events[i];
        assert events[..i + 1] == events[..i] + [e];
        FilterConcat(x => InWindow(x, now), events[..i], [e]);
        FilterConcat((x: QueuedEvent) => x.at.Some? && !InWindow(x, now), events[..i], [e]);
        FilterConcat((x: QueuedEvent) => x.at.None?, events[..i], [e]);
        if e.at.None? {
          corrupt := corrupt + 1;
        } else if e.at.value < now - MAX_EVENT_AGE_MS || e.at.value > now + MAX_EVENT_AGE_MS {
          expired := expired + 1;
        } else {
          kept := kept + [e];
        }
      }
      assert events[..|events|] == events;
      events := if |kept| > MAX_QUEUE_EVENTS then kept[|kept| - MAX_QUEUE_EVENTS..] else kept;
    }

    /** Folds in what another tab wrote, before every write of our own. */
    method MergeStored()
      modifies this`events
      ensures events == Merged(Seen(persist, store.content, store.access), old(events))
    {
      if !persist {
        NothingStored(events);
        return;
      }
      var stored := ReadStore(store.content, store.access);
      var merged := stored;
      for i := 0 to |events|
        invariant events == old(events)
        invariant merged == Merged(stored, events[..i])
      {
        assert events[..i + 1] == events[..i] + [events[i]];
        FilterConcat((e: QueuedEvent) => !Has(stored, e.id), events[..i], [events[i]]);
        if !Has(stored, events[i].id) { merged := merged + [events[i]]; }
      }
      assert events[..|events|] == events;
      events := merged;
    }

    method FlushStore()
      modifies store`content
      ensures store.content == Written(persist, old(store.content), store.access, events)
    {
      if persist { store.Write(events); }
    }

    method Add(e: QueuedEvent, now: int)
      modifies this`events, this`expired, this`corrupt, store`content
      ensures events == AfterAdd(old(Seen(persist, store.content, store.access)), old(events), e, now)
      ensures store.content == Written(persist, old(store.content), store.access, events)
    {
      MergeStored();
      events := events + [e];
      Prune(now);
      FlushStore();
    }

    /** Up to `n` events, oldest first, still in the queue until removed. */
    method Peek(n: nat, now: int) returns (batch: seq<QueuedEvent>)
      modifies this`events, this`expired, this`corrupt
      ensures events == Pruned(old(events), now)
      ensures batch == events[..Min(n, |events|)]
    {
      Prune(now);
      batch := events[..if n <= |events| then n else |events|];
    }

    method Remove(ids: seq<string>, now: int)
      modifies this`events, this`expired, this`corrupt, store`content
      ensures events == AfterRemove(old(Seen(persist, store.content, store.access)), old(events), ids, now)
      ensures store.content == Written(persist, old(store.content), store.access, events)
    {
      MergeStored();
      events := Without(events, ids);
      Prune(now);
      FlushStore();
    }

    method Size(now: int) returns (n: nat)
      modifies this`events, this`expired, this`corrupt
      ensures events == Pruned(old(events), now) && n == |events|
    {
      Prune(now);
      n := |events|;
    }
  }

  lemma NothingStored(own: seq<QueuedEvent>)
    ensures Merged([], own) == own
  {
    FilterAll((e: QueuedEvent) => !Has([], e.id), own);
  }
}
