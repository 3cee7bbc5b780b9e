/**
  Delivery over every run of flush triggers, responses, failures, tracked events and other tabs
  (packages/sdk-browser/src/transport.ts:138-299).
 */
module TransportRuns {
  import opened Basics
  import opened EventQueues
  import opened QueueTabs
  import opened Transports

  datatype Action =
    | Trigger(bypass: bool, now: int, access: Access, json: Serialised)
    | Reply(i: nat, reply: Transports.Reply, now: int, access: Access, jitter: real)
    | Resumed
    | Arm
    | Disarm
    | Track(e: QueuedEvent, now: int, access: Access)
    | Elsewhere(content: Content)

  function Act(y: System, a: Action): System {
    match a
    case Trigger(bypass, now, access, json) => Begin(y, bypass, now, access, json)
    case Reply(i, reply, now, access, jitter) => if i < |y.outstanding| then Answer(y, i, reply, now, access, jitter) else y
    case Resumed => if y.returning > 0 then Return(y) else y
    case Arm => y.(sender := y.sender.(timer := true))
    case Disarm => y.(sender := y.sender.(timer := false))
    case Track(e, now, access) =>
      var events := AfterAdd(Seen(y.persist, y.content, access), y.events, e, now);
      y.(events := events, content := Written(y.persist, y.content, access, events))
    case Elsewhere(content) => y.(content := content)
  }

  function Acts(y: System, actions: seq<Action>): System {
    if actions == [] then y else Act(Acts(y, actions[..|actions| - 1]), actions[|actions| - 1])
  }

  // ---- One request at a time ----------------------------------------------------------------------------

  /** What the in-flight flag means: one request unanswered, or one attempt about to return, and never more. */
  predicate Sound(y: System) { |y.outstanding| + y.returning == if y.sender.inFlight then 1 else 0 }

  lemma StepKeepsSound(y: System, a: Action)
    requires Sound(y)
    ensures Sound(Act(y, a))
  {
    hide Pruned, AfterRemove, AfterAdd, Written, Seen, Unserialisable, Delay, First;
  }

  /** At most one request is in flight, in every state of every run. */
  lemma {:induction false} AtMostOneInFlight(y: System, actions: seq<Action>)
    requires Sound(y)
    ensures Sound(Acts(y, actions)) && |Acts(y, actions).outstanding| <= 1
  {
    if actions != [] {
      hide Act;
      AtMostOneInFlight(y, actions[..|actions| - 1]);
      StepKeepsSound(Acts(y, actions[..|actions| - 1]), actions[|actions| - 1]);
    }
  }

  /** The first 20, or all when there are no more. */
  predicate IsHead(batch: Batch, events: seq<QueuedEvent>) { batch <= events && |batch| == Min(20, |events|) }

  /** A request begins only from an idle, unstopped sender, and carries the first 20 queued events in order. */
  lemma RequestIsTheHeadOfTheQueue(y: System, a: Action)
    requires Sound(y) && |Act(y, a).outstanding| > |y.outstanding|
    ensures a.Trigger? && !y.sender.stopped && y.outstanding == [] && (a.bypass || y.sender.nextAttemptAt <= a.now as real)
    ensures var z := Act(y, a);
            && z.events == Pruned(y.events, a.now)
            && |z.outstanding| == 1 && z.outstanding[0] != [] && IsHead(z.outstanding[0], z.events)
  {
    PrunedMembers(y.events, if a.Trigger? then a.now else 0);
  }

  /** Step `k` began this request, from an unstopped sender, with the head of the queue as that step left it. */
  predicate BegunAt(y: System, actions: seq<Action>, k: nat, batch: Batch)
    requires k < |actions|
  {
    && actions[k].Trigger? && !Acts(y, actions[..k]).sender.stopped
    && batch != [] && IsHead(batch, Acts(y, actions[..k + 1]).events)
  }

  lemma StepKeepsRequests(y: System, a: Action)
    requires Sound(y)
    ensures |Act(y, a).outstanding| > |y.outstanding| || Act(y, a).outstanding == [] || Act(y, a).outstanding == y.outstanding
  {
    hide Pruned, AfterRemove, AfterAdd, Written, Seen, Unserialisable, Delay, First;
  }

  lemma StillBegun(y: System, actions: seq<Action>, k: nat, batch: Batch)
    requires k + 1 < |actions| && BegunAt(y, actions[..|actions| - 1], k, batch)
    ensures BegunAt(y, actions, k, batch)
  {
    hide IsHead, Acts;
    var before := actions[..|actions| - 1];
    assert before[..k] == actions[..k] && before[..k + 1] == actions[..k + 1];
  }

  lemma BegunNow(y: System, actions: seq<Action>)
    requires actions != [] && var w := Acts(y, actions[..|actions| - 1]); Sound(w) && |Acts(y, actions).outstanding| > |w.outstanding|
    ensures |Acts(y, actions).outstanding| == 1 && BegunAt(y, actions, |actions| - 1, Acts(y, actions).outstanding[0])
  {
    hide IsHead, Act, Sound;
    var last := |actions| - 1;
    RequestIsTheHeadOfTheQueue(Acts(y, actions[..last]), actions[last]);
    assert actions[..last + 1] == actions;
  }

  /** Whatever is in flight at the end of any run was, when it was begun, the first 20 events of the queue. */
  lemma {:induction false} EveryRequestWasAHead(y: System, actions: seq<Action>)
    requires Sound(y) && y.outstanding == []
    ensures var z := Acts(y, actions);
            z.outstanding != [] ==> |z.outstanding| == 1 && exists k :: 0 <= k < |actions| && BegunAt(y, actions, k, z.outstanding[0])
  {
    if actions != [] {
      hide Act, Sound, BegunAt;
      var before := actions[..|actions| - 1];
      EveryRequestWasAHead(y, before);
      AtMostOneInFlight(y, before);
      StepKeepsRequests(Acts(y, before), actions[|actions| - 1]);
      if |Acts(y, actions).outstanding| > |Acts(y, before).outstanding| {
        BegunNow(y, actions);
      } else if Acts(y, actions).outstanding != [] {
        var k :| 0 <= k < |before| && BegunAt(y, before, k, Acts(y, before).outstanding[0]);
        StillBegun(y, actions, k, Acts(y, before).outstanding[0]);
      }
    }
  }

  // ---- 401 ------------------------------------------------------------------------------------------------

  lemma {:induction false} StoppedStaysStopped(y: System, actions: seq<Action>)
    requires y.sender.stopped && y.outstanding == []
    ensures Acts(y, actions).sender.stopped && Acts(y, actions).outstanding == []
  {
    if actions != [] {
      StoppedStaysStopped(y, actions[..|actions| - 1]);
    }
  }

  /** After a 401 no request is ever begun again, whatever happens: restarts and page unloads included. */
  lemma UnauthorisedIsFinal(y: System, a: Action, actions: seq<Action>)
    requires Sound(y) && a.Reply? && a.i < |y.outstanding| && a.reply.Status? && a.reply.code == 401
    ensures Acts(Act(y, a), actions).outstanding == []
  {
    StoppedStaysStopped(Act(y, a), actions);
  }

  // ---- Backoff -------------------------------------------------------------------------------------------

  lemma {:induction false} DoubledGrows(n: nat)
    ensures Doubled(n) >= 1 && (n > 0 ==> Doubled(n) >= 2)
  {
    if n > 0 { DoubledGrows(n - 1); }
  }

  /** Whatever a server advises, a wait is between one second and five minutes. */
  lemma DelayIsBounded(failures: nat, advised: Option<real>, jitter: real)
    requires failures > 0 && 0.0 <= jitter < 1.0
    ensures 1000.0 <= Delay(failures, advised, jitter) <= 300_000.0
    ensures advised.None? ==> Exponential(failures) as real <= Delay(failures, advised, jitter) < 36_000.0
  {
    hide Dithered, Doubled;
    DoubledGrows(failures - 1);
    var wait := Exponential(failures);
    assert 1000 <= wait <= 30_000;
    DitheredIsBounded(wait as real, jitter);
  }

  lemma DitheredIsBounded(wait: real, jitter: real)
    requires 1000.0 <= wait <= 30_000.0 && 0.0 <= jitter < 1.0
    ensures wait <= Dithered(wait, jitter) < 36_000.0
  {
    FractionIsLess(wait, jitter);
    assert wait * 0.2 * jitter == 0.2 * (wait * jitter);
  }

  lemma FractionIsLess(e: real, fraction: real)
    requires 0.0 < e && 0.0 <= fraction < 1.0
    ensures 0.0 <= e * fraction < e
  {
    assert 0.0 < e * (1.0 - fraction);
  }

  /** The verdicts that are retried: no usable response, or a status that is none of the four. */
  predicate Retried(reply: Transports.Reply) { reply.Failure? || reply.code !in {202, 401, 400, 413} }

  /** Every ordinary trigger here comes before `until`, and none bypasses the backoff. */
  predicate OrdinaryBefore(actions: seq<Action>, until: real) {
    forall k :: 0 <= k < |actions| && actions[k].Trigger? ==> !actions[k].bypass && (actions[k].now as real) < until
  }

  lemma {:induction false} BackoffHolds(y: System, actions: seq<Action>)
    requires y.outstanding == [] && OrdinaryBefore(actions, y.sender.nextAttemptAt)
    ensures var z := Acts(y, actions); z.outstanding == [] && z.sender.nextAttemptAt == y.sender.nextAttemptAt
  {
    if actions != [] { BackoffHolds(y, actions[..|actions| - 1]); }
  }

  /** For a second after a retried verdict, whatever else happens, no ordinary trigger begins a request. */
  lemma NoHotLoop(y: System, a: Action, actions: seq<Action>)
    requires Sound(y) && a.Reply? && a.i < |y.outstanding| && Retried(a.reply) && 0.0 <= a.jitter < 1.0
    requires OrdinaryBefore(actions, (a.now + 1000) as real)
    ensures Acts(Act(y, a), actions).outstanding == []
  {
    DelayIsBounded(y.sender.failures + 1, if a.reply.Failure? then None else a.reply.advised, a.jitter);
    BackoffHolds(Act(y, a), actions);
  }

  // ---- Leaving the queue -------------------------------------------------------------------------------------

  /** Some version of the event was dropped by the age or size cap. */
  ghost predicate Capped(events: seq<QueuedEvent>, now: int, id: string) {
    exists v :: v in events && v.id == id && v !in Pruned(events, now)
  }

  ghost predicate CappedInRemoval(y: System, ids: seq<string>, now: int, access: Access, id: string) {
    Capped(Without(Merged(Seen(y.persist, y.content, access), y.events), ids), now, id)
  }

  predicate Final(reply: Transports.Reply) { reply.Status? && reply.code in {202, 400, 413} }

  /** This event throws when serialised; or none of its batch does on its own, and the whole batch goes. */
  predicate ThrewOrNoneDid(batch: Batch, bad: set<string>, id: string) {
    id in bad || forall i :: 0 <= i < |batch| ==> batch[i].id !in bad
  }

  /** Why an event may leave: a verdict on its batch, failing to serialise, or the caps. */
  ghost predicate Reason(y: System, a: Action, id: string) {
    match a
    case Reply(i, reply, now, access, _) =>
      i < |y.outstanding| && Final(reply) && (Has(y.outstanding[i], id) || CappedInRemoval(y, Ids(y.outstanding[i]), now, access, id))
    case Trigger(bypass, now, access, json) =>
      MayBegin(y.sender, bypass, now) &&
      (|| Capped(y.events, now, id)
       || (var looked := y.(events := Pruned(y.events, now));
           var ids := Unserialisable(First(looked.events), if json.Throws? then json.bad else {});
           json.Throws? && ((Has(First(looked.events), id) && ThrewOrNoneDid(First(looked.events), json.bad, id))
                            || CappedInRemoval(looked, ids, now, access, id))))
    case Track(e, now, access) => Capped(Merged(Seen(y.persist, y.content, access), y.events) + [e], now, id)
    case _ => false
  }

  lemma StaysOrCapped(events: seq<QueuedEvent>, now: int, id: string)
    requires Has(events, id)
    ensures Has(Pruned(events, now), id) || Capped(events, now, id)
  {
    var i :| 0 <= i < |events| && events[i].id == id;
    if events[i] in Pruned(events, now) { HasMember(Pruned(events, now), events[i]); }
  }

  lemma HasWithout(events: seq<QueuedEvent>, ids: seq<string>, id: string)
    requires Has(events, id) && id !in ids
    ensures Has(Without(events, ids), id)
  {
    var i :| 0 <= i < |events| && events[i].id == id;
    FilterMembers((e: QueuedEvent) => e.id !in ids, events);
    HasMember(Without(events, ids), events[i]);
  }

  lemma RemovalKeepsOthers(y: System, ids: seq<string>, now: int, access: Access, id: string)
    requires Has(y.events, id)
    ensures Has(Removed(y, ids, now, access).events, id) || id in ids || CappedInRemoval(y, ids, now, access, id)
  {
    var stored := Seen(y.persist, y.content, access);
    MergeKeepsEverything(stored, y.events, id);
    if id !in ids {
      HasWithout(Merged(stored, y.events), ids, id);
      StaysOrCapped(Without(Merged(stored, y.events), ids), now, id);
    }
  }

  lemma IdsOf(batch: Batch, id: string)
    ensures id in Ids(batch) <==> Has(batch, id)
  {
    if Has(batch, id) {
      var i :| 0 <= i < |batch| && batch[i].id == id;
      assert Ids(batch)[i] == id;
    }
  }

  lemma UnserialisableIsInBatch(batch: Batch, bad: set<string>)
    ensures forall id :: id in Unserialisable(batch, bad) <==> Has(batch, id) && ThrewOrNoneDid(batch, bad, id)
  {
    FilterMembers((id: string) => id in bad, Ids(batch));
    forall id ensures id in Ids(batch) <==> Has(batch, id) { IdsOf(batch, id); }
    var poisoned := Filter((id: string) => id in bad, Ids(batch));
    if poisoned != [] {
      assert poisoned[0] in poisoned;
      var i :| 0 <= i < |batch| && batch[i].id == poisoned[0];
    } else {
      forall i | 0 <= i < |batch| ensures batch[i].id !in bad {
        assert Ids(batch)[i] in Ids(batch) && batch[i].id !in poisoned;
      }
    }
  }

  lemma TriggerKeeps(y: System, a: Action, id: string)
    requires a.Trigger? && Has(y.events, id)
    ensures Has(Act(y, a).events, id) || Reason(y, a, id)
  {
    hide CappedInRemoval, Pruned, Unserialisable, AfterRemove;
    if MayBegin(y.sender, a.bypass, a.now) {
      StaysOrCapped(y.events, a.now, id);
      if Has(Pruned(y.events, a.now), id) && a.json.Throws? {
        var looked := y.(events := Pruned(y.events, a.now));
        var batch := First(looked.events);
        UnserialisableIsInBatch(batch, a.json.bad);
        RemovalKeepsOthers(looked, Unserialisable(batch, a.json.bad), a.now, a.access, id);
      }
    }
  }

  /** A queued event leaves this tab's queue in one step only for one of the reasons. */
  lemma LeavesOnlyForAReason(y: System, a: Action, id: string)
    requires Has(y.events, id)
    ensures Has(Act(y, a).events, id) || Reason(y, a, id)
  {
    hide Pruned, AfterRemove;
    if a.Reply? && a.i < |y.outstanding| && Final(a.reply) {
      IdsOf(y.outstanding[a.i], id);
      RemovalKeepsOthers(y, Ids(y.outstanding[a.i]), a.now, a.access, id);
    } else if a.Trigger? {
      TriggerKeeps(y, a, id);
    } else if a.Track? {
      var merged := Merged(Seen(y.persist, y.content, a.access), y.events);
      MergeKeepsEverything(Seen(y.persist, y.content, a.access), y.events, id);
      var i :| 0 <= i < |merged| && merged[i].id == id;
      assert (merged + [a.e])[i].id == id;
      StaysOrCapped(merged + [a.e], a.now, id);
    }
  }

  ghost predicate ReasonAt(y: System, actions: seq<Action>, k: nat, id: string)
    requires k < |actions|
  {
    Reason(Acts(y, actions[..k]), actions[k], id)
  }

  /** Over any run, an event still queued at the start is queued at the end, or some step had a reason. */
  lemma {:induction false} NoEventIsLost(y: System, actions: seq<Action>, id: string)
    requires Has(y.events, id)
    ensures Has(Acts(y, actions).events, id) || exists k :: 0 <= k < |actions| && ReasonAt(y, actions, k, id)
  {
    hide Reason, Act;
    if actions != [] {
      var last := |actions| - 1;
      var before := actions[..last];
      NoEventIsLost(y, before, id);
      if Has(Acts(y, before).events, id) {
        LeavesOnlyForAReason(Acts(y, before), actions[last], id);
        if !Has(Acts(y, actions).events, id) { assert ReasonAt(y, actions, last, id); }
      } else {
        var k :| 0 <= k < |before| && ReasonAt(y, before, k, id);
        assert before[..k] == actions[..k];
        assert ReasonAt(y, actions, k, id);
      }
    }
  }
}
