/**
  What a grant leaves at the end of the queue (packages/sdk-browser/src/index.ts:357-397,
  packages/sdk-browser/src/consent.ts:80-99, packages/sdk-browser/src/queue.ts:174-197).
 */
module SdkGrant {
  import opened Basics
  import opened Consenting
  import opened EventQueues
  import opened QueueLists
  import opened QueueTabs
  import opened Sdk
  import opened Transports

  /** The queue's last elements. */
  predicate EndsWith(events: seq<QueuedEvent>, tail: seq<QueuedEvent>) {
    |tail| <= |events| && events[|events| - |tail|..] == tail
  }

  /** Events the caps will keep: in the window, with an id, none twice. */
  ghost predicate Keepable(tail: seq<QueuedEvent>, now: int) {
    DistinctEvents(tail) && forall e :: e in tail ==> InWindow(e, now) && e.id != ""
  }

  ghost predicate NoneIn(tail: seq<QueuedEvent>, stored: seq<QueuedEvent>) { forall e :: e in tail ==> !Has(stored, e.id) }

  /** The queue ends with `tail`, and reading storage back can neither reorder nor replace it. */
  ghost predicate Tail(p: Page, tail: seq<QueuedEvent>, env: Env) {
    && p.queue.Some? && EndsWith(p.queue.value, tail) && Keepable(tail, env.now) && Named(p.queue.value)
    && ((env.access.Works? && ReadStore(p.content, env.access) == p.queue.value) || NoneIn(tail, ReadStore(p.content, env.access)))
  }

  // ---- Lists ----------------------------------------------------------------------------------------------

  /** The caps keep a keepable tail of at most 500 where it is. */
  lemma PruningKeepsTheTail(x: seq<QueuedEvent>, tail: seq<QueuedEvent>, now: int)
    requires Keepable(tail, now) && |tail| <= MAX_QUEUE_EVENTS
    ensures EndsWith(Pruned(x + tail, now), tail)
  {
    FilterConcat(e => InWindow(e, now), x, tail);
    FilterAll(e => InWindow(e, now), tail);
    var kept := Fresh(x + tail, now);
    assert kept == Fresh(x, now) + tail;
    if |kept| > MAX_QUEUE_EVENTS {
      var cut := |kept| - MAX_QUEUE_EVENTS;
      assert kept[cut..] == kept[cut..|kept| - |tail|] + tail;
    }
  }

  lemma StoredAreNamed(content: Content, access: Access)
    ensures Named(ReadStore(content, access))
  {
    if content.Array? { EventsMembers(content.items); }
  }

  lemma PrunedAreNamed(events: seq<QueuedEvent>, now: int)
    requires forall e :: e in events ==> e.id != ""
    ensures Named(Pruned(events, now))
  {
    PrunedMembers(events, now);
  }

  /** What merging leaves before the tail, whichever way storage stands. */
  lemma MergedEndsWithTail(p: Page, tail: seq<QueuedEvent>, env: Env) returns (x: seq<QueuedEvent>)
    requires Tail(p, tail, env)
    ensures Merged(ReadStore(p.content, env.access), p.queue.value) == x + tail
    ensures forall e :: e in x ==> e.id != ""
  {
    var stored := ReadStore(p.content, env.access);
    var own := p.queue.value;
    var front := own[..|own| - |tail|];
    assert own == front + tail;
    if env.access.Works? && stored == own {
      MergedWithSelf(own);
      x := front;
    } else {
      var keep := (e: QueuedEvent) => !Has(stored, e.id);
      FilterConcat(keep, front, tail);
      FilterAll(keep, tail);
      x := stored + Filter(keep, front);
      StoredAreNamed(p.content, env.access);
      FilterMembers(keep, front);
    }
  }

  /** After a rewrite, storage either says what the queue says or has not changed. */
  lemma WrittenOrUnchanged(content: Content, access: Access, events: seq<QueuedEvent>)
    requires Named(events)
    ensures var after := WriteStore(content, access, events);
            if access.Works? then ReadStore(after, access) == events else after == content
  {
    if access.Works? { NamedReadBack(events); }
  }

  lemma KeepableGrows(tail: seq<QueuedEvent>, e: QueuedEvent, now: int)
    requires Keepable(tail, now) && InWindow(e, now) && e.id != "" && !Has(tail, e.id)
    ensures Keepable(tail + [e], now)
  {
  }

  lemma KeepableShrinks(tail: seq<QueuedEvent>, now: int)
    requires Keepable(tail, now) && tail != []
    ensures Keepable(tail[1..], now) && !Has(tail[1..], tail[0].id)
  {
    var rest := tail[1..];
    forall i, j | 0 <= i < j < |rest| ensures rest[i].id != rest[j].id {
      assert rest[i] == tail[i + 1] && rest[j] == tail[j + 1];
    }
    forall i | 0 <= i < |rest| ensures rest[i].id != tail[0].id { assert rest[i] == tail[i + 1]; }
  }

  // ---- Adding and removing --------------------------------------------------------------------------------

  /** An event no one holds yet goes on the end. */
  lemma AddExtendsTheTail(p: Page, tail: seq<QueuedEvent>, e: QueuedEvent, env: Env)
    requires Tail(p, tail, env) && |tail| < MAX_QUEUE_EVENTS
    requires InWindow(e, env.now) && e.id != "" && !Has(tail, e.id)
    requires env.access.Works? || !Has(ReadStore(p.content, env.access), e.id)
    ensures Tail(AddTo(p, e, env), tail + [e], env)
    ensures !env.access.Works? ==> AddTo(p, e, env).content == p.content
  {
    var x := MergedEndsWithTail(p, tail, env);
    var merged := Merged(ReadStore(p.content, env.access), p.queue.value);
    var events := Pruned(merged + [e], env.now);
    assert merged + [e] == x + (tail + [e]);
    KeepableGrows(tail, e, env.now);
    PruningKeepsTheTail(x, tail + [e], env.now);
    PrunedAreNamed(merged + [e], env.now);
    WrittenOrUnchanged(p.content, env.access, events);
  }

  /** Taking out the first of the tail leaves the rest of it at the end. */
  lemma RemoveShortensTheTail(p: Page, tail: seq<QueuedEvent>, env: Env)
    requires Tail(p, tail, env) && tail != [] && |tail| <= MAX_QUEUE_EVENTS
    ensures Tail(RemoveFrom(p, [tail[0].id], env), tail[1..], env)
    ensures !env.access.Works? ==> RemoveFrom(p, [tail[0].id], env).content == p.content
  {
    var x := MergedEndsWithTail(p, tail, env);
    var merged := Merged(ReadStore(p.content, env.access), p.queue.value);
    var keep := (e: QueuedEvent) => e.id !in [tail[0].id];
    KeepableShrinks(tail, env.now);
    assert tail == [tail[0]] + tail[1..];
    FilterConcat(keep, x, tail);
    FilterConcat(keep, [tail[0]], tail[1..]);
    HasNoneRemoved(tail[1..], tail[0].id);
    assert Without(merged, [tail[0].id]) == Filter(keep, x) + tail[1..];
    PruningKeepsTheTail(Filter(keep, x), tail[1..], env.now);
    FilterMembers(keep, x);
    PrunedAreNamed(Without(merged, [tail[0].id]), env.now);
    WrittenOrUnchanged(p.content, env.access, Pruned(Without(merged, [tail[0].id]), env.now));
  }

  lemma HasNoneRemoved(events: seq<QueuedEvent>, id: string)
    requires !Has(events, id)
    ensures Filter((e: QueuedEvent) => e.id !in [id], events) == events
  {
    forall e | e in events ensures e.id !in [id] { HasMember(events, e); }
    FilterAll((e: QueuedEvent) => e.id !in [id], events);
  }

  /** What is still to come is disjoint from everything: the tail, itself, and storage when it is not writable. */
  ghost predicate Ready(p: Page, tail: seq<QueuedEvent>, more: seq<QueuedEvent>, env: Env) {
    && Keepable(tail + more, env.now)
    && (env.access.Works? || NoneIn(more, ReadStore(p.content, env.access)))
  }

  lemma NextIsNew(tail: seq<QueuedEvent>, more: seq<QueuedEvent>, now: int)
    requires Keepable(tail + more, now) && more != []
    ensures !Has(tail, more[0].id)
  {
    var all := tail + more;
    assert all[|tail|] == more[0];
    assert forall i :: 0 <= i < |tail| ==> all[i] == tail[i] && all[i].id != all[|tail|].id;
  }

  lemma {:induction false} AddAllExtendsTheTail(p: Page, tail: seq<QueuedEvent>, more: seq<QueuedEvent>, env: Env)
    requires Tail(p, tail, env) && |tail| + |more| <= MAX_QUEUE_EVENTS && Ready(p, tail, more, env)
    ensures Tail(AddAll(p, more, env), tail + more, env)
    ensures !env.access.Works? ==> AddAll(p, more, env).content == p.content
    decreases |more|
  {
    if more == [] {
      assert tail + more == tail;
    } else {
      var e := more[0];
      NextIsNew(tail, more, env.now);
      assert e in tail + more;
      AddExtendsTheTail(p, tail, e, env);
      assert (tail + [e]) + more[1..] == tail + more;
      AddAllExtendsTheTail(AddTo(p, e, env), tail + [e], more[1..], env);
    }
  }

  // ---- The rotation ------------------------------------------------------------------------------------------

  function RestampedAll(events: seq<QueuedEvent>, anonymousId: string): (r: seq<QueuedEvent>)
    ensures |r| == |events| && forall i :: 0 <= i < |r| ==> r[i] == Restamped(events[i], anonymousId)
  {
    seq(|events|, i requires 0 <= i < |events| => Restamped(events[i], anonymousId))
  }

  /** One turn of the loop moves the first event to the end, under its new id. */
  lemma TurnRotates(p: Page, tail: seq<QueuedEvent>, anonymousId: string, env: Env)
    requires Tail(p, tail, env) && tail != [] && |tail| <= MAX_QUEUE_EVENTS
    requires env.access.Works? || NoneIn(tail, ReadStore(p.content, env.access))
    ensures var q := AddTo(RemoveFrom(p, [tail[0].id], env), Restamped(tail[0], anonymousId), env);
            && Tail(q, tail[1..] + [Restamped(tail[0], anonymousId)], env)
            && (!env.access.Works? ==> q.content == p.content)
  {
    KeepableShrinks(tail, env.now);
    RemoveShortensTheTail(p, tail, env);
    assert tail[0] in tail;
    AddExtendsTheTail(RemoveFrom(p, [tail[0].id], env), tail[1..], Restamped(tail[0], anonymousId), env);
  }

  lemma TurnKeepsIds(tail: seq<QueuedEvent>, anonymousId: string, stored: seq<QueuedEvent>)
    requires tail != [] && NoneIn(tail, stored)
    ensures NoneIn(tail[1..] + [Restamped(tail[0], anonymousId)], stored)
  {
    assert tail[0] in tail;
  }

  lemma NothingRestamped(anonymousId: string)
    ensures RestampedAll([], anonymousId) == []
  {
  }

  lemma RestampedCons(events: seq<QueuedEvent>, anonymousId: string)
    requires events != []
    ensures RestampedAll(events, anonymousId) == [Restamped(events[0], anonymousId)] + RestampedAll(events[1..], anonymousId)
  {
  }

  /** How the two halves of the list move in one turn. */
  lemma TurnLists(rest: seq<QueuedEvent>, done: seq<QueuedEvent>, moved: QueuedEvent, more: seq<QueuedEvent>)
    requires rest != []
    ensures (rest + done)[1..] + [moved] == rest[1..] + (done + [moved])
    ensures (done + [moved]) + more == done + ([moved] + more)
  {
  }

  lemma {:induction false} RotationRestampsInPlace(p: Page, rest: seq<QueuedEvent>, done: seq<QueuedEvent>, anonymousId: string, env: Env)
    requires Tail(p, rest + done, env) && |rest + done| <= MAX_QUEUE_EVENTS
    requires env.access.Works? || NoneIn(rest + done, ReadStore(p.content, env.access))
    ensures Tail(Rotate(p, rest, anonymousId, env), done + RestampedAll(rest, anonymousId), env)
    decreases |rest|
  {
    assert p.queue.Some?;
    hide Tail, AfterAdd, AfterRemove, NoneIn, RestampedAll, ReadStore, WriteStore;
    if rest == [] {
      NothingRestamped(anonymousId);
      assert rest + done == done && done + RestampedAll(rest, anonymousId) == done;
    } else {
      var tail := rest + done;
      var moved := Restamped(rest[0], anonymousId);
      assert tail[0] == rest[0];
      TurnRotates(p, tail, anonymousId, env);
      RestampedCons(rest, anonymousId);
      TurnLists(rest, done, moved, RestampedAll(rest[1..], anonymousId));
      if !env.access.Works? { TurnKeepsIds(tail, anonymousId, ReadStore(p.content, env.access)); }
      RotationRestampsInPlace(AddTo(RemoveFrom(p, [rest[0].id], env), moved, env), rest[1..], done + [moved], anonymousId, env);
    }
  }

  // ---- The grant ---------------------------------------------------------------------------------------------

  /** The held events are fresh: no id twice, none empty, none aged out, none already queued or stored. */
  ghost predicate HeldAreFresh(p: Page, env: Env) {
    && Keepable(p.held, env.now) && |p.held| <= MAX_HELD_EVENTS
    && NoneIn(p.held, ReadStore(p.content, env.access))
    && (p.queue.Some? ==> Named(p.queue.value))
  }

  lemma OpenedQueueIsNamed(p: Page, env: Env)
    requires p.queue.Some? ==> Named(p.queue.value)
    ensures OpenQueue(p, env).queue.Some? && Named(OpenQueue(p, env).queue.value) && OpenQueue(p, env).content == p.content
    ensures Tail(OpenQueue(p, env), [], env)
  {
    StoredAreNamed(p.content, env.access);
    PrunedAreNamed(ReadStore(p.content, env.access), env.now);
  }

  lemma ActivateKeepsTheQueue(p: Page, env: Env)
    requires p.queue.Some?
    ensures var (q, ok) := Activate(p, env);
            && q.queue == p.queue && q.content == p.content
            && (ok <==> env.loaded.Some? && (p.pendingUserId.Some? ==> env.saves))
            && (ok ==> q.identity.anonymousId == env.loaded.value.anonymousId)
  {
  }

  /**
    A grant whose cookie calls succeed leaves at the end of the queue exactly the held events, in
    order, changed only in whose anonymous id they carry: with storage writable, read-only or denied.
   */
  lemma GrantReleasesTheHeldEvents(p: Page, env: Env)
    requires HeldAreFresh(p, env) && env.loaded.Some? && (p.pendingUserId.Some? ==> env.saves)
    ensures Grant(p, env).1 && Tail(Grant(p, env).0, RestampedAll(p.held, env.loaded.value.anonymousId), env)
  {
    hide Tail, Activate, AddAll, Rotate, Pruned, ReadStore;
    var base := OpenQueue(p.(gate := Granted, held := []), env);
    OpenedQueueIsNamed(p.(gate := Granted, held := []), env);
    assert [] + p.held == p.held;
    AddAllExtendsTheTail(base, [], p.held, env);
    var added := AddAll(base, p.held, env);
    AddedStaysOpen(base, p.held, env);
    ActivateKeepsTheQueue(added, env);
    var q := Activate(added, env).0;
    SameQueueSameTail(added, q, p.held, env);
    assert p.held + [] == p.held;
    var anonymousId := env.loaded.value.anonymousId;
    RotationRestampsInPlace(q, p.held, [], anonymousId, env);
    assert [] + RestampedAll(p.held, anonymousId) == RestampedAll(p.held, anonymousId);
  }

  /**
    A grant whose cookie calls fail loses nothing either: the held events are at the end of the queue
    as they were recorded, and there is still no sender, so the next track or flush tries again.
   */
  lemma FailedGrantKeepsTheEvents(p: Page, env: Env)
    requires HeldAreFresh(p, env) && (env.loaded.None? || (p.pendingUserId.Some? && !env.saves))
    ensures var (q, ok) := Grant(p, env);
            !ok && Tail(q, p.held, env) && q.gate.Granted? && q.held == [] && q.sender == p.sender && q.pendingUserId == p.pendingUserId
  {
    hide Tail, AddAll, Pruned, ReadStore;
    var base := OpenQueue(p.(gate := Granted, held := []), env);
    OpenedQueueIsNamed(p.(gate := Granted, held := []), env);
    assert [] + p.held == p.held;
    AddAllExtendsTheTail(base, [], p.held, env);
    var added := AddAll(base, p.held, env);
    AddedStaysOpen(base, p.held, env);
    AddAllKeepsTheRest(base, p.held, env);
    SameQueueSameTail(added, Activate(added, env).0, p.held, env);
  }

  lemma {:induction false} AddAllKeepsTheRest(p: Page, events: seq<QueuedEvent>, env: Env)
    requires p.queue.Some?
    ensures var q := AddAll(p, events, env); q.gate == p.gate && q.held == p.held && q.sender == p.sender && q.outstanding == p.outstanding
    decreases |events|
  {
    hide AfterAdd;
    if events != [] { AddAllKeepsTheRest(AddTo(p, events[0], env), events[1..], env); }
  }

  /** And the try that succeeds brings the sender up, as whom the cookies say. */
  lemma FlushRetriesActivation(p: Page, env: Env)
    requires p.gate.Granted? && p.sender.None? && env.loaded.Some? && (p.pendingUserId.Some? ==> env.saves)
    ensures var q := Sdk.Flush(p, env);
            && q.sender.Some? && q.sender.value.timer && q.queue.Some? && q.pendingUserId == None
            && q.identity.anonymousId == env.loaded.value.anonymousId
            && q.identity.userId == if p.pendingUserId.Some? then p.pendingUserId else env.loaded.value.userId
  {
    hide Pruned, AfterRemove, Unserialisable, ReadStore;
  }

  lemma {:induction false} AddedStaysOpen(p: Page, events: seq<QueuedEvent>, env: Env)
    requires p.queue.Some?
    ensures var q := AddAll(p, events, env); q.queue.Some? && q.pendingUserId == p.pendingUserId
    decreases |events|
  {
    hide AfterAdd;
    if events != [] { AddedStaysOpen(AddTo(p, events[0], env), events[1..], env); }
  }

  lemma SameQueueSameTail(p: Page, q: Page, tail: seq<QueuedEvent>, env: Env)
    requires Tail(p, tail, env) && q.queue == p.queue && q.content == p.content
    ensures Tail(q, tail, env)
  {
  }

  /** And the flush that ends the call leaves them there, waiting for its verdict. */
  lemma ConsentReleasesTheHeldEvents(p: Page, env: Env)
    requires HeldAreFresh(p, env) && env.loaded.Some? && (p.pendingUserId.Some? ==> env.saves) && env.json.Fine?
    ensures var q := Consent(p, true, env);
            q.queue.Some? && EndsWith(q.queue.value, RestampedAll(p.held, env.loaded.value.anonymousId))
  {
    hide Grant, RestampedAll;
    GrantReleasesTheHeldEvents(p, env);
    GrantIsActive(p, env);
    FlushKeepsTheTail(Grant(p, env).0, RestampedAll(p.held, env.loaded.value.anonymousId), env);
  }

  lemma GrantIsActive(p: Page, env: Env)
    requires Grant(p, env).1
    ensures Grant(p, env).0.sender.Some?
  {
    var base := OpenQueue(p.(gate := Granted, held := []), env);
    AddedStaysOpen(base, p.held, env);
    var added := AddAll(base, p.held, env);
    var q := Activate(added, env).0;
    RotateKeepsTheSender(q, p.held, q.identity.anonymousId, env);
  }

  lemma {:induction false} RotateKeepsTheSender(p: Page, events: seq<QueuedEvent>, anonymousId: string, env: Env)
    requires p.queue.Some?
    ensures Rotate(p, events, anonymousId, env).sender == p.sender
    decreases |events|
  {
    hide AfterAdd, AfterRemove;
    if events != [] {
      RotateKeepsTheSender(AddTo(RemoveFrom(p, [events[0].id], env), Restamped(events[0], anonymousId), env), events[1..], anonymousId, env);
    }
  }

  lemma FlushKeepsTheTail(p: Page, tail: seq<QueuedEvent>, env: Env)
    requires Tail(p, tail, env) && |tail| <= MAX_HELD_EVENTS && env.json.Fine? && p.sender.Some?
    ensures Sdk.Flush(p, env).queue.Some? && EndsWith(Sdk.Flush(p, env).queue.value, tail)
  {
    hide Pruned;
    var front := p.queue.value[..|p.queue.value| - |tail|];
    assert p.queue.value == front + tail;
    PruningKeepsTheTail(front, tail, env.now);
  }

  // ---- Before the grant --------------------------------------------------------------------------------------

  /** A call that leaves a pending gate pending: no decision, no restart. */
  predicate LeavesPending(c: Call) { !c.CallInit? && !c.CallConsent? }

  /** Who the visitor is after a call behind a pending gate: nothing but the throwaway record changes. */
  function NamedAfter(who: Identity, c: Call, env: Env): Identity {
    match c
    case CallIdentify(userId, _) => who.(userId := Some(userId))
    case CallReset => Identity.Identity(env.uuid, None)
    case _ => who
  }

  /** The event a call records, under the identity as it then is. */
  function Recorded(who: Identity, c: Call, env: Env): seq<QueuedEvent> {
    var named := NamedAfter(who, c, env);
    match c
    case CallTrack(body) => [QueuedEvent(env.eventId, Some(env.now), named.anonymousId, named.userId, body)]
    case CallIdentify(_, body) => [QueuedEvent(env.eventId, Some(env.now), named.anonymousId, named.userId, body)]
    case _ => []
  }

  function NamedAfterAll(who: Identity, calls: seq<(Call, Env)>): Identity {
    if calls == [] then who
    else
      var last := calls[|calls| - 1];
      NamedAfter(NamedAfterAll(who, calls[..|calls| - 1]), last.0, last.1)
  }

  /** Every event recorded by these calls, in order, each under the identity the calls before it left. */
  function RecordedAll(who: Identity, calls: seq<(Call, Env)>): seq<QueuedEvent> {
    if calls == [] then []
    else
      var before, last := calls[..|calls| - 1], calls[|calls| - 1];
      RecordedAll(who, before) + Recorded(NamedAfterAll(who, before), last.0, last.1)
  }

  lemma PendingCall(p: Page, c: Call, env: Env)
    requires p.gate.Pending? && |p.held| <= MAX_HELD_EVENTS && LeavesPending(c)
    ensures var q := Sdk.Next(p, c, env);
            && q.gate.Pending? && q.identity == NamedAfter(p.identity, c, env)
            && q.held == LastHeld(p.held + Recorded(p.identity, c, env))
  {
    hide Begin, Answer;
    assert p.held + [] == p.held;
  }

  /**
    Over every run from a pending gate that neither decides nor starts over, timers, responses, resets
    and other tabs included: what is held for a grant is the last hundred of all events recorded, in
    order, each under the identity of its moment.
   */
  lemma {:induction false} PendingEventsAreHeld(p: Page, calls: seq<(Call, Env)>)
    requires p.gate.Pending? && |p.held| <= MAX_HELD_EVENTS
    requires forall i :: 0 <= i < |calls| ==> LeavesPending(calls[i].0)
    ensures var q := Sdk.Run(p, calls);
            && q.gate.Pending? && q.identity == NamedAfterAll(p.identity, calls)
            && q.held == LastHeld(p.held + RecordedAll(p.identity, calls))
  {
    hide Sdk.Next, LastHeld, Recorded, NamedAfter;
    if calls == [] {
      assert p.held + [] == p.held;
      FewAreAllHeld(p.held);
    } else {
      var before, last := calls[..|calls| - 1], calls[|calls| - 1];
      var recorded := Recorded(NamedAfterAll(p.identity, before), last.0, last.1);
      PendingEventsAreHeld(p, before);
      LastHeldTwice(p.held + RecordedAll(p.identity, before), recorded);
      PendingCall(Sdk.Run(p, before), last.0, last.1);
      assert p.held + RecordedAll(p.identity, calls) == (p.held + RecordedAll(p.identity, before)) + recorded;
    }
  }

  lemma FewAreAllHeld(events: seq<QueuedEvent>)
    requires |events| <= MAX_HELD_EVENTS
    ensures LastHeld(events) == events
  {
  }
}
