/**
  Any number of tabs over one storage key, in any interleaving, with storage that may refuse a write
  or fail outright at any step (packages/sdk-browser/src/queue.ts:117-197).
 */
module QueueTabs {
  import opened Basics
  import opened EventQueues

  datatype Tab = Tab(persist: bool, events: seq<QueuedEvent>)

  /** The shared key and every tab's own array. */
  datatype World = World(content: Content, tabs: map<nat, Tab>)

  /** One synchronous call by one tab, at one instant, with storage as it happens to be then. */
  datatype Step =
    | Open(tab: nat, persist: bool, now: int, access: Access)
    | Add(tab: nat, e: QueuedEvent, now: int, access: Access)
    | Remove(tab: nat, ids: seq<string>, now: int, access: Access)
    | Look(tab: nat, now: int, access: Access)

  function Next(w: World, s: Step): World {
    if s.Open? then w.(tabs := w.tabs[s.tab := Tab(s.persist, Pruned(Seen(s.persist, w.content, s.access), s.now))])
    else if s.tab !in w.tabs then w
    else
      var t := w.tabs[s.tab];
      var stored := Seen(t.persist, w.content, s.access);
      var events := match s
        case Add(_, e, now, _) => AfterAdd(stored, t.events, e, now)
        case Remove(_, ids, now, _) => AfterRemove(stored, t.events, ids, now)
        case _ => Pruned(t.events, s.now);
      World(if s.Look? then w.content else Written(t.persist, w.content, s.access, events), w.tabs[s.tab := t.(events := events)])
  }

  /** What the tab would hold before the age and size caps. */
  function Candidates(w: World, s: Step): seq<QueuedEvent>
    requires (s.Add? || s.Remove?) && s.tab in w.tabs
  {
    var t := w.tabs[s.tab];
    var merged := Merged(Seen(t.persist, w.content, s.access), t.events);
    if s.Add? then merged + [s.e] else Without(merged, s.ids)
  }

  function Run(w: World, steps: seq<Step>): World {
    if steps == [] then w else Next(Run(w, steps[..|steps| - 1]), steps[|steps| - 1])
  }

  /** The events a working read of the key gives. */
  function Held(w: World): seq<QueuedEvent> { ReadStore(w.content, Works) }

  /** The step rewrites the key. */
  predicate Rewrites(w: World, s: Step) { (s.Add? || s.Remove?) && s.tab in w.tabs && w.tabs[s.tab].persist && s.access.Works? }

  /** The size cap dropped it: it stood before the newest 500 of what was kept. */
  predicate PushedOut(w: World, s: Step, x: QueuedEvent)
    requires Rewrites(w, s)
  {
    var kept := Fresh(Candidates(w, s), s.now);
    |kept| > MAX_QUEUE_EVENTS && x in kept[..|kept| - MAX_QUEUE_EVENTS]
  }

  /** The only three reasons a stored event may go. */
  predicate Excused(w: World, s: Step, x: QueuedEvent) {
    Rewrites(w, s) && ((s.Remove? && x.id in s.ids) || !InWindow(x, s.now) || PushedOut(w, s, x))
  }

  // ---- Lists ------------------------------------------------------------------------------------------

  lemma {:induction false} EventsMembers(items: seq<Item>)
    ensures forall x :: x in Events(items) <==> Stored(x) in items && Shaped(Stored(x))
  {
    if items != [] {
      assert items == [items[0]] + items[1..];
      EventsMembers(items[1..]);
    }
  }

  /** What is written is what is read back, for events with an id and a date. */
  lemma ReadsBack(events: seq<QueuedEvent>)
    ensures forall x :: x in Events(Items(events)) <==> x in events && Shaped(Stored(x))
  {
    EventsMembers(Items(events));
    forall x ensures Stored(x) in Items(events) <==> x in events {
      if x in events {
        var i :| 0 <= i < |events| && events[i] == x;
        assert Items(events)[i] == Stored(x);
      }
    }
  }

  /** Events storage can hold: each has an id and a date. */
  ghost predicate Named(events: seq<QueuedEvent>) { forall e :: e in events ==> e.id != "" && e.at.Some? }

  lemma {:induction false} NamedReadBack(events: seq<QueuedEvent>)
    requires Named(events)
    ensures Events(Items(events)) == events
  {
    if events != [] {
      assert Items(events)[1..] == Items(events[1..]);
      NamedReadBack(events[1..]);
    }
  }

  lemma {:induction false} EventsCount(items: seq<Item>)
    ensures |Events(items)| <= |items|
  {
    if items != [] { EventsCount(items[1..]); }
  }

  lemma PrunedMembers(events: seq<QueuedEvent>, now: int)
    ensures |Pruned(events, now)| <= MAX_QUEUE_EVENTS
    ensures forall x :: x in Pruned(events, now) ==> x in events && InWindow(x, now)
    ensures forall x :: x in Fresh(events, now) <==> x in events && InWindow(x, now)
  {
    FilterMembers(e => InWindow(e, now), events);
    var kept := Fresh(events, now);
    if |kept| > MAX_QUEUE_EVENTS {
      var cut := |kept| - MAX_QUEUE_EVENTS;
      assert kept == kept[..cut] + kept[cut..];
    }
    assert forall x :: x in Pruned(events, now) ==> x in kept;
  }

  /** The caps in numbers: an event stays if stamped within 23 hours either way of now, and of those the newest 500. */
  lemma CapsAre(events: seq<QueuedEvent>, now: int)
    ensures forall x :: x in Fresh(events, now) <==> x in events && x.at.Some? && -82_800_000 <= x.at.value - now <= 82_800_000
    ensures |Pruned(events, now)| == Min(500, |Fresh(events, now)|)
    ensures exists dropped :: Fresh(events, now) == dropped + Pruned(events, now)
  {
    PrunedMembers(events, now);
    var kept := Fresh(events, now);
    var cut := |kept| - |Pruned(events, now)|;
    assert kept == kept[..cut] + kept[cut..];
  }

  /** Of any events, each is kept by the age cap or counted once: expired, or with a date that does not parse. */
  lemma {:induction false} EachDropIsCounted(events: seq<QueuedEvent>, now: int)
    ensures |Fresh(events, now)| + Expired(events, now) + Unparsed(events) == |events|
  {
    if events != [] { EachDropIsCounted(events[1..], now); }
  }

  /** What a read of the key accepts: an event with an id and a date. */
  lemma ReadAccepts(content: Content, access: Access, x: QueuedEvent)
    ensures x in ReadStore(content, access) <==> !access.Denied? && content.Array? && Stored(x) in content.items && x.id != "" && x.at.Some?
  {
    if content.Array? { EventsMembers(content.items); }
  }

  lemma HasMember(events: seq<QueuedEvent>, x: QueuedEvent)
    requires x in events
    ensures Has(events, x.id)
  {
  }

  /** Merging loses no event: every id either side holds is held, and stored events are kept as they are. */
  lemma MergeKeepsEverything(stored: seq<QueuedEvent>, own: seq<QueuedEvent>, id: string)
    ensures stored <= Merged(stored, own)
    ensures Has(Merged(stored, own), id) <==> Has(stored, id) || Has(own, id)
  {
    var extra := Filter((e: QueuedEvent) => !Has(stored, e.id), own);
    var merged := Merged(stored, own);
    FilterMembers((e: QueuedEvent) => !Has(stored, e.id), own);
    if Has(stored, id) {
      var i :| 0 <= i < |stored| && stored[i].id == id;
      assert merged[i].id == id;
    } else if Has(own, id) {
      var i :| 0 <= i < |own| && own[i].id == id;
      assert own[i] in extra;
      var j :| 0 <= j < |extra| && extra[j] == own[i];
      assert merged[|stored| + j].id == id;
    }
    if Has(merged, id) && !Has(stored, id) {
      var i :| 0 <= i < |merged| && merged[i].id == id;
      assert i >= |stored| ==> merged[i] in extra && merged[i] in own;
    }
  }

  // ---- One step ------------------------------------------------------------------------------------------

  lemma RewrittenHolds(w: World, s: Step, x: QueuedEvent)
    requires Rewrites(w, s)
    ensures Next(w, s).tabs[s.tab].events == Pruned(Candidates(w, s), s.now)
    ensures x in Held(Next(w, s)) <==> x in Pruned(Candidates(w, s), s.now) && Shaped(Stored(x))
  {
    ReadsBack(Pruned(Candidates(w, s), s.now));
  }

  /**
    A stored event stays, exactly as it is, unless this step names its id for removal, finds it outside
    the window, or pushes it past the newest 500.
   */
  lemma StoredStays(w: World, s: Step, x: QueuedEvent)
    requires x in Held(w)
    ensures x in Held(Next(w, s)) || Excused(w, s, x)
  {
    if Rewrites(w, s) {
      if !(s.Remove? && x.id in s.ids) {
        CandidateStays(w, s, x);
        EventsMembers(w.content.items);
        RewrittenHolds(w, s, x);
        PrunedMembers(Candidates(w, s), s.now);
        var kept := Fresh(Candidates(w, s), s.now);
        if InWindow(x, s.now) && |kept| > MAX_QUEUE_EVENTS {
          var cut := |kept| - MAX_QUEUE_EVENTS;
          assert kept == kept[..cut] + kept[cut..];
        }
      }
    }
  }

  lemma CandidateStays(w: World, s: Step, x: QueuedEvent)
    requires Rewrites(w, s) && x in Held(w) && !(s.Remove? && x.id in s.ids)
    ensures x in Candidates(w, s)
  {
    var t := w.tabs[s.tab];
    MergeKeepsEverything(Held(w), t.events, x.id);
    if s.Remove? { FilterMembers((e: QueuedEvent) => e.id !in s.ids, Merged(Held(w), t.events)); }
  }

  /** After every successful write the key holds at most 500 events, all inside the window. */
  lemma StoreIsBounded(w: World, s: Step)
    requires Rewrites(w, s)
    ensures |Held(Next(w, s))| <= 500
    ensures forall x :: x in Held(Next(w, s)) ==> InWindow(x, s.now)
    ensures s.Remove? ==> forall x :: x in Held(Next(w, s)) ==> x.id !in s.ids
  {
    var kept := Pruned(Candidates(w, s), s.now);
    PrunedMembers(Candidates(w, s), s.now);
    EventsCount(Items(kept));
    ReadsBack(kept);
    if s.Remove? {
      var t := w.tabs[s.tab];
      FilterMembers((e: QueuedEvent) => e.id !in s.ids, Merged(Held(w), t.events));
    }
  }

  lemma NewestComesLast(events: seq<QueuedEvent>, e: QueuedEvent, now: int)
    requires InWindow(e, now)
    ensures var kept := Pruned(events + [e], now); kept != [] && kept[|kept| - 1] == e
  {
    FilterConcat(x => InWindow(x, now), events, [e]);
    assert Fresh(events + [e], now) == Fresh(events, now) + [e];
  }

  /** An event added inside the window is in the key once the write succeeds, whatever else was there. */
  lemma AddedIsStored(w: World, s: Step)
    requires Rewrites(w, s) && s.Add? && InWindow(s.e, s.now) && s.e.id != ""
    ensures s.e in Held(Next(w, s))
  {
    hide Pruned;
    NewestComesLast(Merged(Seen(w.tabs[s.tab].persist, w.content, s.access), w.tabs[s.tab].events), s.e, s.now);
    RewrittenHolds(w, s, s.e);
  }

  /** Nothing is invented: an id new to the key was added by this step, or comes from the stepping tab's own array. */
  lemma NewInStoreHasASource(w: World, s: Step, x: QueuedEvent)
    requires x in Held(Next(w, s)) && !Has(Held(w), x.id)
    ensures Rewrites(w, s) && ((s.Add? && x == s.e) || Has(w.tabs[s.tab].events, x.id))
  {
    if !Rewrites(w, s) {
      HasMember(Held(w), x);
      assert false;
    }
    var t := w.tabs[s.tab];
    RewrittenHolds(w, s, x);
    PrunedMembers(Candidates(w, s), s.now);
    var merged := Merged(Held(w), t.events);
    if s.Remove? { FilterMembers((e: QueuedEvent) => e.id !in s.ids, merged); }
    if !(s.Add? && x == s.e) {
      assert x in merged;
      HasMember(merged, x);
      MergeKeepsEverything(Held(w), t.events, x.id);
    }
  }

  // ---- Every run ---------------------------------------------------------------------------------------------

  predicate ExcusedAt(w: World, steps: seq<Step>, k: nat, x: QueuedEvent)
    requires k < |steps|
  {
    Excused(Run(w, steps[..k]), steps[k], x)
  }

  /**
    Over any run of any tabs, a stored event is still stored at the end unless some step on the way
    had one of the three reasons to drop it. No interference between tabs is a reason.
   */
  lemma {:induction false} NothingIsLost(w: World, steps: seq<Step>, x: QueuedEvent)
    requires x in Held(w)
    ensures x in Held(Run(w, steps)) || exists k :: 0 <= k < |steps| && ExcusedAt(w, steps, k, x)
  {
    if steps != [] {
      var last := |steps| - 1;
      var before := steps[..last];
      NothingIsLost(w, before, x);
      if x in Held(Run(w, before)) {
        StoredStays(Run(w, before), steps[last], x);
        if x !in Held(Run(w, steps)) { assert ExcusedAt(w, steps, last, x); }
      } else {
        var k :| 0 <= k < |before| && ExcusedAt(w, before, k, x);
        assert before[..k] == steps[..k];
        assert ExcusedAt(w, steps, k, x);
      }
    }
  }
}
