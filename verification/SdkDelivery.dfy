/**
  A page behind an open gate delivers exactly as the sender does on its own: each public call, timer
  tick, unload, answer and write by another tab is one step of it, or none. So whatever holds over
  every run of the sender holds over every run of the page
  (packages/sdk-browser/src/index.ts:162-193, 310-452).
 */
module SdkDelivery {
  import opened Basics
  import opened Consenting
  import opened EventQueues
  import opened QueueTabs
  import opened Sdk
  import opened SdkGrant
  import opened SdkIdentity
  import opened SdkRestart
  import opened TransportBackoff
  import opened Transports
  import R = TransportRuns

  function Queues(e: Option<QueuedEvent>, env: Env): seq<R.Action> {
    if e.None? then [] else [R.Track(e.value, env.now, env.access)]
  }

  /** What a call asks of the sender. A retired sender's answer is a write by someone else. */
  function ActionOf(p: Page, c: Call, env: Env): seq<R.Action> {
    match c
    case CallTrack(_) => Queues(QueuedBy(p.identity, c, env), env)
    case CallIdentify(_, _) => Queues(QueuedBy(p.identity, c, env), env)
    case CallFlush => [R.Trigger(false, env.now, env.access, env.json)]
    case CallReset => [R.Trigger(false, env.now, env.access, env.json)]
    case TimerTick => if Armed(p) then [R.Trigger(false, env.now, env.access, env.json)] else []
    case PageHidden => if Armed(p) then [R.Trigger(true, env.now, env.access, env.json)] else []
    case Response(i, reply, jitter) => [R.Reply(i, reply, env.now, env.access, jitter)]
    case Resumed => [R.Resumed]
    case LateResponse(_, _, _, _) => [R.Elsewhere(Sdk.Next(p, c, env).content)]
    case LateResumed(_) => []
    case OtherTab(content) => [R.Elsewhere(content)]
    case _ => []
  }

  lemma ActsOne(y: System, a: R.Action)
    ensures R.Acts(y, []) == y && R.Acts(y, [a]) == R.Act(y, a)
  {
    assert [a][..0] == [];
  }

  lemma StepKeepsPersist(y: System, a: R.Action)
    ensures R.Act(y, a).persist == y.persist
  {
    hide AfterAdd, AfterRemove, Pruned, Written, Seen, Delay;
  }

  lemma CallIsAStep(p: Page, c: Call, env: Env)
    requires Active(p) && LeavesPending(c)
    ensures var q := Sdk.Next(p, c, env); Active(q) && SystemOf(q) == R.Acts(SystemOf(p), ActionOf(p, c, env))
  {
    hide Begin, Answer, AfterAdd, R.Acts;
    OpenCallNames(p, c, env);
    var a := if ActionOf(p, c, env) == [] then R.Resumed else ActionOf(p, c, env)[0];
    ActsOne(SystemOf(p), a);
    StepKeepsPersist(SystemOf(p), a);
  }

  /** Everything a run of calls asks of the sender, in order. */
  function Deliveries(p: Page, calls: seq<(Call, Env)>): seq<R.Action> {
    if calls == [] then []
    else
      var before, last := calls[..|calls| - 1], calls[|calls| - 1];
      Deliveries(p, before) + ActionOf(Sdk.Run(p, before), last.0, last.1)
  }

  lemma {:induction false} ActsConcat(y: System, a: seq<R.Action>, b: seq<R.Action>)
    ensures R.Acts(y, a + b) == R.Acts(R.Acts(y, a), b)
  {
    hide R.Act;
    if b == [] {
      assert a + b == a;
    } else {
      assert (a + b)[..|a + b| - 1] == a + b[..|b| - 1];
      ActsConcat(y, a, b[..|b| - 1]);
    }
  }

  /** Every run of the page, short of a decision or a restart, is a run of the sender. */
  lemma {:induction false} PageIsASender(p: Page, calls: seq<(Call, Env)>)
    requires Active(p) && forall i :: 0 <= i < |calls| ==> LeavesPending(calls[i].0)
    ensures var q := Sdk.Run(p, calls); Active(q) && SystemOf(q) == R.Acts(SystemOf(p), Deliveries(p, calls))
  {
    hide R.Acts, Sdk.Next, ActionOf, SystemOf;
    if calls == [] {
      ActsOne(SystemOf(p), R.Resumed);
    } else {
      var before, last := calls[..|calls| - 1], calls[|calls| - 1];
      PageIsASender(p, before);
      CallIsAStep(Sdk.Run(p, before), last.0, last.1);
      ActsConcat(SystemOf(p), Deliveries(p, before), ActionOf(Sdk.Run(p, before), last.0, last.1));
    }
  }

  /** So an event the page queued is there at the end, or left for one of the sender's reasons. */
  lemma {:induction false} PageLosesNoEvent(p: Page, calls: seq<(Call, Env)>, id: string)
    requires Active(p) && Has(p.queue.value, id) && forall i :: 0 <= i < |calls| ==> LeavesPending(calls[i].0)
    ensures var q := Sdk.Run(p, calls);
            || (q.queue.Some? && Has(q.queue.value, id))
            || exists k :: 0 <= k < |Deliveries(p, calls)| && R.ReasonAt(SystemOf(p), Deliveries(p, calls), k, id)
  {
    hide R.Acts, R.ReasonAt, Sdk.Run, Deliveries;
    PageIsASender(p, calls);
    R.NoEventIsLost(SystemOf(p), Deliveries(p, calls), id);
  }

  /** And a rejected key is the last thing this page asks: no later call sends, until someone starts over. */
  lemma {:induction false} RejectedKeyIsFinal(p: Page, i: nat, jitter: real, advised: Option<real>, env: Env, calls: seq<(Call, Env)>)
    requires Active(p) && R.Sound(SystemOf(p)) && i < |p.outstanding|
    requires forall j :: 0 <= j < |calls| ==> LeavesPending(calls[j].0)
    ensures Sdk.Run(Sdk.Next(p, Response(i, Status(401, advised), jitter), env), calls).outstanding == []
  {
    hide R.Acts, Sdk.Run, Deliveries;
    var c := Response(i, Status(401, advised), jitter);
    CallIsAStep(p, c, env);
    ActsOne(SystemOf(p), ActionOf(p, c, env)[0]);
    var q := Sdk.Next(p, c, env);
    PageIsASender(q, calls);
    R.UnauthorisedIsFinal(SystemOf(p), R.Reply(i, Status(401, advised), env.now, env.access, jitter), Deliveries(q, calls));
  }

  /**
    A retired sender still takes its verdict: the request is no longer out, and a batch that is done
    with is gone from its queue, and from the key when that can be written.
   */
  lemma LateVerdictDecides(p: Page, k: nat, i: nat, reply: Transports.Reply, jitter: real, env: Env)
    requires k < |p.retired| && i < |p.retired[k].outstanding|
    ensures var q := Sdk.Next(p, LateResponse(k, i, reply, jitter), env); var batch := p.retired[k].outstanding[i];
            && |q.retired| == |p.retired|
            && q.retired[k].outstanding == p.retired[k].outstanding[..i] + p.retired[k].outstanding[i + 1..]
            && (BatchIsDone(reply) ==> forall e :: e in batch ==>
                  !Has(q.retired[k].events, e.id) && (env.access.Works? ==> !Has(ReadStore(q.content, Works), e.id)))
            && (!BatchIsDone(reply) ==> q.retired[k].events == p.retired[k].events && q.content == p.content)
            && (q.retired[k].sender.stopped <==> p.retired[k].sender.stopped || KeyRejected(reply))
  {
    hide Answer, ReadStore;
    var y := LateSystem(p, k);
    var a := R.Reply(i, reply, env.now, env.access, jitter);
    VerdictDecides(y, a);
    var z := R.Act(y, a);
    if BatchIsDone(reply) && env.access.Works? {
      WrittenIsRead(y, a);
    }
  }

  lemma WrittenIsRead(y: System, a: R.Action)
    requires a.Reply? && a.i < |y.outstanding| && BatchIsDone(a.reply) && a.access.Works? && y.persist
    ensures forall id :: Has(ReadStore(R.Act(y, a).content, Works), id) ==> Has(R.Act(y, a).events, id)
  {
    hide AfterRemove;
    StoredAreHeld(R.Act(y, a).events);
  }

  lemma StoredAreHeld(events: seq<QueuedEvent>)
    ensures forall id :: Has(Events(Items(events)), id) ==> Has(events, id)
  {
    var read := Events(Items(events));
    ReadsBack(events);
    forall id | Has(read, id) ensures Has(events, id) {
      var i :| 0 <= i < |read| && read[i].id == id;
      assert read[i] in read;
      HasMember(events, read[i]);
    }
  }
}
