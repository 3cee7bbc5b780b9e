/**
  A second `init` while a request is out: `stop()` ends the timer and the listeners, not the request
  (packages/sdk-browser/src/index.ts:268-308, packages/sdk-browser/src/transport.ts:129-136).
 */
module SdkRestart {
  import opened Basics
  import opened Consenting
  import opened EventQueues
  import opened QueueLists
  import opened QueueTabs
  import opened Sdk
  import opened SdkConsent
  import opened Transports

  lemma PrunedTwice(events: seq<QueuedEvent>, now: int)
    ensures Pruned(Pruned(events, now), now) == Pruned(events, now)
  {
    PrunedMembers(events, now);
    FilterAll(e => InWindow(e, now), Pruned(events, now));
  }

  /** Starting over and flushing, with the gate open and no cookie call failing. */
  function Restarted(p: Page, env: Env): Page { Sdk.Flush(Init(p, false, false, None, env), env) }

  /**
    The old request stays out, under the retired sender; a second one joins it exactly when the key
    holds anything inside the window, and carries the first twenty of that.
   */
  lemma RestartAsksBeside(p: Page, env: Env)
    requires Good(p) && p.sender.Some? && env.loaded.Some? && env.json.Fine? && env.now >= 0
    ensures var q := Restarted(p, env);
            var stored := Pruned(ReadStore(p.content, env.access), env.now);
            && q.retired == p.retired + [Retired(p.queue.value, p.sender.value.(timer := false), p.outstanding, p.returning)]
            && q.outstanding == (if stored == [] then [] else [First(stored)])
            && q.content == p.content
  {
    hide Pruned, ReadStore;
    var stored := Pruned(ReadStore(p.content, env.access), env.now);
    PrunedTwice(ReadStore(p.content, env.access), env.now);
    var begun := Init(p, false, false, None, env);
    assert begun.queue == Some(stored) && begun.sender == Some(Sender(false, false, 0, 0.0, true));
    FirstIsEmpty(stored);
  }

  lemma FirstIsEmpty(events: seq<QueuedEvent>)
    ensures First(events) == [] <==> events == []
  {
  }

  /** So a queue that was written in full is asked for twice: both requests carry the same events. */
  lemma RestartResends(p: Page, env: Env)
    requires Good(p) && p.sender.Some? && env.loaded.Some? && env.json.Fine? && env.now >= 0 && !env.access.Denied?
    requires p.content == Array(Items(p.queue.value)) && Settled(p.queue.value, env.now)
    requires p.queue.value != [] && p.outstanding == [First(p.queue.value)]
    ensures var q := Restarted(p, env);
            q.outstanding == p.outstanding && q.retired[|q.retired| - 1].outstanding == p.outstanding
  {
    hide Restarted, Pruned;
    RestartAsksBeside(p, env);
    NamedReadBack(p.queue.value);
    SettledIsNotPruned(p.queue.value, env.now);
  }

  /** The retired queue seen as one more tab over the key. */
  function AsTab(p: Page, k: nat): World
    requires k < |p.retired|
  {
    World(p.content, map[0 := Tab(true, p.retired[k].events)])
  }

  /**
    A late verdict changes nothing of the page but the key and the retired sender itself, and to the
    key it does only what another tab's removal may: a stored event goes only if its batch names it,
    or by the caps.
   */
  lemma LateVerdictKeepsTheRest(p: Page, k: nat, i: nat, reply: Transports.Reply, jitter: real, env: Env, x: QueuedEvent)
    requires k < |p.retired| && i < |p.retired[k].outstanding| && x in ReadStore(p.content, Works)
    ensures var q := Sdk.Next(p, LateResponse(k, i, reply, jitter), env);
            && q == p.(content := q.content, retired := p.retired[k := q.retired[k]])
            && (|| x in ReadStore(q.content, Works)
                || Excused(AsTab(p, k), Remove(0, Ids(p.retired[k].outstanding[i]), env.now, env.access), x))
  {
    hide Pruned, Merged, Without, ReadStore, Excused, Ids, Delay;
    StoredStays(AsTab(p, k), Remove(0, Ids(p.retired[k].outstanding[i]), env.now, env.access), x);
  }
}
