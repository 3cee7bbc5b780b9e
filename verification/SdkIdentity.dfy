/**
  Whose events they are: what identify, reset, a grant and a refusal leave of the visitor's identity,
  and which identity each event carries (packages/sdk-browser/src/index.ts:122-142, 332-415).
 */
module SdkIdentity {
  import opened Basics
  import opened Consenting
  import opened EventQueues
  import opened QueueLists
  import opened QueueTabs
  import opened Sdk
  import opened SdkConsent
  import opened SdkGrant
  import opened SdkRestart
  import opened Transports

  /** Sending is up: the gate is open, and there is a queue and a sender. */
  predicate Active(p: Page) { p.gate.Granted? && p.queue.Some? && p.sender.Some? }

  // ---- One call behind an open gate ------------------------------------------------------------------------

  /** Who the visitor is after a call behind an open gate; a cookie call that throws changes nobody. */
  function NamedOpen(who: Identity, c: Call, env: Env): Identity {
    match c
    case CallIdentify(userId, _) => if env.saves then who.(userId := Some(userId)) else who
    case CallReset => if env.saves then Identity.Identity(env.uuid, None) else who
    case _ => who
  }

  /** The event a call queues behind an open gate, under the identity as it then is. */
  function QueuedBy(who: Identity, c: Call, env: Env): Option<QueuedEvent> {
    var named := NamedOpen(who, c, env);
    match c
    case CallTrack(body) => Some(QueuedEvent(env.eventId, Some(env.now), named.anonymousId, named.userId, body))
    case CallIdentify(_, body) =>
      if env.saves then Some(QueuedEvent(env.eventId, Some(env.now), named.anonymousId, named.userId, body)) else None
    case _ => None
  }

  lemma SendKeepsIdentity(p: Page, bypass: bool, env: Env)
    requires Active(p)
    ensures var q := Send(p, bypass, env); Active(q) && q.identity == p.identity && q.pendingUserId == p.pendingUserId
  {
    hide Begin;
  }

  lemma OpenCallNames(p: Page, c: Call, env: Env)
    requires Active(p) && LeavesPending(c)
    ensures Active(Sdk.Next(p, c, env)) && Sdk.Next(p, c, env).identity == NamedOpen(p.identity, c, env)
  {
    hide Begin, Answer, AfterAdd;
    SendKeepsIdentity(p, false, env);
    SendKeepsIdentity(p, true, env);
  }

  /** A stamped event goes on the end of the queue, and into the key when it can be written. */
  lemma AddedComesLast(p: Page, e: QueuedEvent, env: Env)
    requires p.queue.Some? && InWindow(e, env.now)
    ensures var q := AddTo(p, e, env).queue; q.Some? && q.value != [] && q.value[|q.value| - 1] == e
    ensures env.access.Works? && e.id != "" ==> e in ReadStore(AddTo(p, e, env).content, Works)
  {
    hide Pruned, Merged;
    var merged := Merged(ReadStore(p.content, env.access), p.queue.value);
    NewestComesLast(merged, e, env.now);
    ReadsBack(Pruned(merged + [e], env.now));
  }

  lemma OpenCallQueues(p: Page, c: Call, env: Env)
    requires Active(p) && LeavesPending(c) && QueuedBy(p.identity, c, env).Some?
    ensures var q := Sdk.Next(p, c, env); var e := QueuedBy(p.identity, c, env).value;
            && q.queue.Some? && q.queue.value != [] && q.queue.value[|q.queue.value| - 1] == e
            && (env.access.Works? && e.id != "" ==> e in ReadStore(q.content, Works))
  {
    hide AddTo, ReadStore;
    var e := QueuedBy(p.identity, c, env).value;
    var noted := Note(p, CookieWritten);
    var named := if c.CallIdentify? then noted.(identity := NamedOpen(p.identity, c, env)) else p;
    AddedComesLast(named, e, env);
  }

  // ---- Every run behind an open gate ----------------------------------------------------------------------------

  function NamedOpenAll(who: Identity, calls: seq<(Call, Env)>): Identity {
    if calls == [] then who
    else
      var last := calls[|calls| - 1];
      NamedOpen(NamedOpenAll(who, calls[..|calls| - 1]), last.0, last.1)
  }

  /** Over every run without a decision or a restart, the identity is the one the last successful identify or reset left. */
  lemma {:induction false} OpenRunNames(p: Page, calls: seq<(Call, Env)>)
    requires Active(p) && forall i :: 0 <= i < |calls| ==> LeavesPending(calls[i].0)
    ensures Active(Sdk.Run(p, calls)) && Sdk.Run(p, calls).identity == NamedOpenAll(p.identity, calls)
  {
    hide Active, Sdk.Next, NamedOpen;
    if calls != [] {
      var before, last := calls[..|calls| - 1], calls[|calls| - 1];
      OpenRunNames(p, before);
      OpenCallNames(Sdk.Run(p, before), last.0, last.1);
    }
  }

  /** And each event recorded on the way is queued carrying exactly the identity of its moment. */
  lemma OpenRunQueues(p: Page, calls: seq<(Call, Env)>, c: Call, env: Env)
    requires Active(p) && LeavesPending(c) && forall i :: 0 <= i < |calls| ==> LeavesPending(calls[i].0)
    requires QueuedBy(NamedOpenAll(p.identity, calls), c, env).Some?
    ensures var q := Sdk.Next(Sdk.Run(p, calls), c, env); var e := QueuedBy(NamedOpenAll(p.identity, calls), c, env).value;
            && q.queue.Some? && q.queue.value != [] && q.queue.value[|q.queue.value| - 1] == e
            && (env.access.Works? && e.id != "" ==> e in ReadStore(q.content, Works))
  {
    hide Active, Sdk.Next, QueuedBy;
    OpenRunNames(p, calls);
    OpenCallQueues(Sdk.Run(p, calls), c, env);
  }

  // ---- Reset ------------------------------------------------------------------------------------------------------

  /** Every event of `after` was one of these, as it is. */
  ghost predicate NoneNew(after: seq<QueuedEvent>, own: seq<QueuedEvent>, stored: seq<QueuedEvent>) {
    forall e :: e in after ==> e in own || e in stored
  }

  lemma MergedMembers(stored: seq<QueuedEvent>, own: seq<QueuedEvent>)
    ensures NoneNew(Merged(stored, own), own, stored)
  {
    FilterMembers((e: QueuedEvent) => !Has(stored, e.id), own);
  }

  lemma BeginMakesNothing(y: System, bypass: bool, now: int, access: Access, json: Serialised)
    ensures NoneNew(Begin(y, bypass, now, access, json).events, y.events, Seen(y.persist, y.content, access))
  {
    hide Merged, Pruned, Unserialisable, Seen;
    var seen, stored := Pruned(y.events, now), Seen(y.persist, y.content, access);
    PrunedMembers(y.events, now);
    if json.Throws? {
      var ids := Unserialisable(First(seen), json.bad);
      MergedMembers(stored, seen);
      FilterMembers((e: QueuedEvent) => e.id !in ids, Merged(stored, seen));
      PrunedMembers(Without(Merged(stored, seen), ids), now);
    }
  }

  /**
    A reset behind an open gate leaves a new visitor: the fresh anonymous id, no user id, and nothing
    waiting to be persisted. Whatever is still queued is what was queued or stored, stamped as it was.
   */
  lemma ResetForgets(p: Page, env: Env)
    requires Active(p)
    ensures var q := Reset(p, env);
            && q.pendingUserId == None
            && q.identity == (if env.saves then Identity.Identity(env.uuid, None) else p.identity)
            && q.queue.Some? && NoneNew(q.queue.value, p.queue.value, ReadStore(p.content, env.access))
            && q.gate == p.gate && q.queue == Sdk.Flush(p, env).queue && q.content == Sdk.Flush(p, env).content
  {
    hide Begin, NoneNew;
    BeginMakesNothing(SystemOf(p), false, env.now, env.access, env.json);
    SendKeepsIdentity(p, false, env);
  }

  /** What goes out of these events, when the sender is free: the first twenty that are not too old. */
  function Asked(s: Sender, events: seq<QueuedEvent>, env: Env): seq<Batch> {
    var seen := Pruned(events, env.now);
    if s.stopped || s.inFlight || env.now as real < s.nextAttemptAt || seen == [] then [] else [First(seen)]
  }

  /** Both a flush and a reset send: the reset before it forgets, so that nothing waits for the next visitor. */
  lemma FlushAndResetSend(p: Page, c: Call, env: Env)
    requires Active(p) && (c.CallFlush? || c.CallReset?) && env.json.Fine?
    ensures var q := Sdk.Next(p, c, env);
            && q.outstanding == p.outstanding + Asked(p.sender.value, p.queue.value, env)
            && q.content == p.content && q.queue.Some?
            && (q.queue.value == p.queue.value || q.queue.value == Pruned(p.queue.value, env.now))
  {
    hide Pruned;
    assert p.outstanding + [] == p.outstanding;
  }

  // ---- Grant ------------------------------------------------------------------------------------------------------

  function PendingWith(pending: Option<string>, c: Call): Option<string> {
    match c
    case CallIdentify(userId, _) => Some(userId)
    case CallReset => None
    case _ => pending
  }

  /** The user id waiting for a grant: the last identify's, unless a reset followed it. */
  function PendingAfter(pending: Option<string>, calls: seq<(Call, Env)>): Option<string> {
    if calls == [] then pending else PendingWith(PendingAfter(pending, calls[..|calls| - 1]), calls[|calls| - 1].0)
  }

  lemma PendingStep(p: Page, c: Call, env: Env)
    requires p.gate.Pending? && LeavesPending(c)
    ensures Sdk.Next(p, c, env).gate.Pending? && Sdk.Next(p, c, env).pendingUserId == PendingWith(p.pendingUserId, c)
  {
    hide Begin, Answer, HeldWith;
  }

  lemma {:induction false} PendingRun(p: Page, calls: seq<(Call, Env)>)
    requires p.gate.Pending? && forall i :: 0 <= i < |calls| ==> LeavesPending(calls[i].0)
    ensures Sdk.Run(p, calls).gate.Pending? && Sdk.Run(p, calls).pendingUserId == PendingAfter(p.pendingUserId, calls)
  {
    hide Sdk.Next, PendingWith;
    if calls != [] {
      var before, last := calls[..|calls| - 1], calls[|calls| - 1];
      PendingRun(p, before);
      PendingStep(Sdk.Run(p, before), last.0, last.1);
    }
  }

  lemma {:induction false} RotateKeepsIdentity(p: Page, events: seq<QueuedEvent>, anonymousId: string, env: Env)
    requires p.queue.Some?
    ensures var q := Rotate(p, events, anonymousId, env);
            && q.identity == p.identity && q.pendingUserId == p.pendingUserId && q.queue.Some? && q.sender == p.sender && q.gate == p.gate
            && q.outstanding == p.outstanding
    decreases |events|
  {
    hide AfterAdd, AfterRemove;
    if events != [] {
      RotateKeepsIdentity(AddTo(RemoveFrom(p, [events[0].id], env), Restamped(events[0], anonymousId), env), events[1..], anonymousId, env);
    }
  }

  lemma GrantNames(p: Page, env: Env)
    requires env.loaded.Some? && (p.pendingUserId.Some? ==> env.saves)
    ensures var q := Consent(p, true, env);
            && Active(q) && q.pendingUserId == None && q.identity.anonymousId == env.loaded.value.anonymousId
            && q.identity.userId == (if p.pendingUserId.Some? then p.pendingUserId else env.loaded.value.userId)
  {
    hide AddAll, Rotate, Begin, Pruned;
    var base := OpenQueue(p.(gate := Granted, held := []), env);
    AddedStaysOpen(base, p.held, env);
    var added := AddAll(base, p.held, env);
    AddAllKeepsTheRest(base, p.held, env);
    var q := Activate(added, env).0;
    RotateKeepsIdentity(q, p.held, q.identity.anonymousId, env);
    SendKeepsIdentity(Grant(p, env).0, false, env);
  }

  /**
    After any run behind a pending gate, a grant whose cookie calls succeed makes the visitor who the
    cookies say, as the user last identified since any reset, if there is one.
   */
  lemma GrantKeepsThePendingUser(p: Page, calls: seq<(Call, Env)>, env: Env)
    requires p.gate.Pending? && forall i :: 0 <= i < |calls| ==> LeavesPending(calls[i].0)
    requires env.loaded.Some? && env.saves
    ensures var q := Sdk.Next(Sdk.Run(p, calls), CallConsent(true), env); var user := PendingAfter(p.pendingUserId, calls);
            && Active(q) && q.pendingUserId == None && q.identity.anonymousId == env.loaded.value.anonymousId
            && q.identity.userId == if user.Some? then user else env.loaded.value.userId
  {
    hide Consent, Active;
    PendingRun(p, calls);
    GrantNames(Sdk.Run(p, calls), env);
  }

  /** And the call ends by sending: the queue the grant left, held events included, goes out from its head. */
  lemma GrantSends(p: Page, env: Env)
    requires HeldAreFresh(p, env) && p.held != [] && p.sender.None?
    requires env.loaded.Some? && (p.pendingUserId.Some? ==> env.saves) && env.json.Fine? && env.now >= 0
    ensures var q := Consent(p, true, env);
            q.queue.Some? && q.outstanding == p.outstanding + [First(q.queue.value)]
  {
    hide Grant, Pruned, First, RestampedAll, HeldAreFresh;
    GrantIsIdle(p, env);
    ConsentReleasesTheHeldEvents(p, env);
    RestampedLength(p.held, env.loaded.value.anonymousId);
    var q := Grant(p, env).0;
    assert Consent(p, true, env) == Sdk.Flush(q, env);
    FlushAndResetSend(q, CallFlush, env);
    PrunedTwice(q.queue.value, env.now);
  }

  lemma RestampedLength(events: seq<QueuedEvent>, anonymousId: string)
    ensures |RestampedAll(events, anonymousId)| == |events|
  {
  }

  /** What a grant leaves to its flush: a sender that has sent nothing, and every earlier request as it was. */
  lemma GrantIsIdle(p: Page, env: Env)
    requires p.sender.None? && env.loaded.Some? && (p.pendingUserId.Some? ==> env.saves)
    ensures var (q, ok) := Grant(p, env);
            ok && q.gate.Granted? && q.queue.Some? && q.sender == Some(Sender(false, false, 0, 0.0, true)) && q.outstanding == p.outstanding
  {
    hide AddAll, Rotate, Pruned, ReadStore;
    var base := OpenQueue(p.(gate := Granted, held := []), env);
    AddedStaysOpen(base, p.held, env);
    var added := AddAll(base, p.held, env);
    AddAllKeepsTheRest(base, p.held, env);
    var q := Activate(added, env).0;
    RotateKeepsIdentity(q, p.held, q.identity.anonymousId, env);
  }

  // ---- Refusal ----------------------------------------------------------------------------------------------------

  predicate Forgotten(p: Page) { p.gate.Refused? && p.held == [] && p.pendingUserId == None }

  /** A refusal forgets what was held and who was waiting, and nothing is gathered again until a grant or a restart. */
  lemma {:induction false} RefusalForgets(p: Page, env: Env, calls: seq<(Call, Env)>)
    requires forall i :: 0 <= i < |calls| ==> !Asks(calls[i].0)
    ensures Forgotten(Sdk.Run(Consent(p, false, env), calls))
  {
    hide Begin, Answer;
    if calls != [] { RefusalForgets(p, env, calls[..|calls| - 1]); }
  }

  /** Behind a refused gate recording a call does nothing at all. */
  lemma RefusedRecordsNothing(p: Page, c: Call, env: Env)
    requires p.gate.Refused? && (c.CallTrack? || c.CallIdentify? || c.CallFlush?)
    ensures Sdk.Next(p, c, env) == p
  {
  }

  /** Behind a pending one it touches neither storage nor anything that could send. */
  lemma PendingTouchesNothing(p: Page, c: Call, env: Env)
    requires p.gate.Pending? && (c.CallTrack? || c.CallIdentify? || c.CallFlush? || c.CallReset?)
    ensures Sdk.Next(p, c, env) == p.(held := Sdk.Next(p, c, env).held, identity := Sdk.Next(p, c, env).identity,
                                      pendingUserId := Sdk.Next(p, c, env).pendingUserId)
  {
  }

  // ---- Sending on its own ---------------------------------------------------------------------------------------------

  /**
    An armed sender sends of itself: at each tick once its wait is over, and when the page goes away
    whether it is over or not.
   */
  lemma WakeSends(p: Page, env: Env)
    requires Armed(p) && !p.sender.value.stopped && !p.sender.value.inFlight
    requires Pruned(p.queue.value, env.now) != [] && env.json.Fine?
    ensures var tick := Sdk.Next(p, TimerTick, env);
            tick.outstanding == if p.sender.value.nextAttemptAt <= env.now as real
                                then p.outstanding + [First(Pruned(p.queue.value, env.now))] else p.outstanding
    ensures Sdk.Next(p, PageHidden, env).outstanding == p.outstanding + [First(Pruned(p.queue.value, env.now))]
  {
    hide Pruned;
  }

  /**
    Recording behind an open gate brings a sender up when an earlier try failed, and queues the event
    as it was built before that try; a try that fails again loses the event and stores nothing.
   */
  lemma TrackRetriesActivation(p: Page, body: string, env: Env)
    requires p.gate.Granted? && p.sender.None?
    ensures var q := Track(p, body, env); var e := QueuedEvent(env.eventId, Some(env.now), p.identity.anonymousId, p.identity.userId, body);
            if env.loaded.Some? && (p.pendingUserId.Some? ==> env.saves)
            then Active(q) && q.queue.value != [] && q.queue.value[|q.queue.value| - 1] == e && q.pendingUserId == None
            else q.sender.None? && q.content == p.content && (p.queue.Some? ==> q.queue == p.queue)
  {
    hide AddTo, Pruned, ReadStore;
    var (q, ok) := EnsureActivated(p, env);
    if ok {
      var e := Built(p, body, env);
      AddedComesLast(q, e, env);
      AddKeepsTheRest(q, e, env);
    }
  }

  lemma AddKeepsTheRest(p: Page, e: QueuedEvent, env: Env)
    requires p.queue.Some?
    ensures var q := AddTo(p, e, env); q.gate == p.gate && q.sender == p.sender && q.identity == p.identity && q.pendingUserId == p.pendingUserId
  {
    hide AfterAdd;
  }

  // ---- From the start -----------------------------------------------------------------------------------------------

  /** With consent required, nothing at all happens until someone grants it, whatever the page calls. */
  lemma RequiredConsentIsSilent(content: Content, refusalSignalled: bool, autoPage: Option<string>, env: Env, calls: seq<(Call, Env)>)
    requires forall i :: 0 <= i < |calls| ==> !Asks(calls[i].0)
    ensures var p := Sdk.Run(Init(Blank(content), true, refusalSignalled, autoPage, env), calls);
            p.effects == [] && !p.gate.Granted?
  {
    assert Good(Blank(content));
    hide Sdk.Next, Init, Good;
    InitIsGood(Blank(content), true, refusalSignalled, autoPage, env);
    ClosedGateIsSilent(Init(Blank(content), true, refusalSignalled, autoPage, env), calls);
  }

  /** Without that requirement the SDK sends from the start. */
  lemma OpenFromTheStart(content: Content, refusalSignalled: bool, env: Env)
    requires env.loaded.Some?
    ensures Active(Init(Blank(content), false, refusalSignalled, None, env))
    ensures Init(Blank(content), false, refusalSignalled, None, env).identity == env.loaded.value
  {
  }

  /**
    The automatic page view is the first event of the record: held under the throwaway identity while
    consent is pending, not recorded once it is refused, and queued under the visitor's own otherwise,
    unless a cookie call threw.
   */
  lemma AutoPageIsRecorded(content: Content, required: bool, refusalSignalled: bool, body: string, env: Env)
    ensures var p := Init(Blank(content), required, refusalSignalled, Some(body), env);
            if required then p.held == (if refusalSignalled then [] else [QueuedEvent(env.eventId, Some(env.now), env.uuid, None, body)])
            else if env.loaded.None? then p.sender.None? && p.content == content
            else
              && Active(p) && p.queue.value != [] && var who := env.loaded.value;
              p.queue.value[|p.queue.value| - 1] == QueuedEvent(env.eventId, Some(env.now), who.anonymousId, who.userId, body)
  {
    hide AddTo, Pruned, ReadStore;
    if !required && env.loaded.Some? {
      var q := Init(Blank(content), false, refusalSignalled, None, env);
      OpenFromTheStart(content, refusalSignalled, env);
      var e := Built(q, body, env);
      AddedComesLast(q, e, env);
      AddKeepsTheRest(q, e, env);
    }
  }
}
