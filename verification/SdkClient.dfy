/**
  The public methods as they run, updating one state record, its gate, queue and transport in place;
  each is the page transition of the same name (packages/sdk-browser/src/index.ts:122-452).
 */
module SdkClient {
  import opened Basics
  import opened Consenting
  import opened EventQueues
  import opened Sdk
  import opened Transports

  /** The continuations the runtime holds: this record's sender's, and every earlier one's. */
  datatype Waiting = Waiting(outstanding: seq<Batch>, returning: nat, retired: seq<Retired>) {
    function After(a: Attempt): Waiting { Waiting(Unanswered(outstanding, a), Returning(returning, a), retired) }
  }

  class Client {
    const store: Storage
    var gate: ConsentGate
    var queue: EventQueue?
    var transport: Transport?
    var identity: Identity
    var pendingUserId: Option<string>
    var effects: seq<Entry>

    constructor (store: Storage, required: bool, refusalSignalled: bool, uuid: string, effects: seq<Entry>)
      ensures this.store == store && Valid() && fresh(gate) && queue == null && transport == null
      ensures forall retired ::
        (View(Waiting([], 0, retired)) == NewRecord(store.content, retired, effects, required, refusalSignalled, uuid))
    {
      this.store, this.effects := store, effects;
      gate := new ConsentGate(required, refusalSignalled);
      queue, transport := null, null;
      identity, pendingUserId := Identity.Identity(uuid, None), None;
    }

    ghost predicate Valid()
      reads this, queue, transport
    {
      && (queue != null ==> queue.store == store && queue.persist)
      && (transport != null ==> queue != null && transport.queue == queue)
    }

    /** The page this record stands for, beside the continuations the runtime holds. */
    ghost function View(w: Waiting): Page
      reads this, gate, queue, transport, store
    {
      Page(gate.state, gate.held, store.content,
           if queue == null then None else Some(queue.events),
           if transport == null then None else Some(transport.State()),
           w.outstanding, w.returning, w.retired, identity, pendingUserId, effects)
    }

    /** Sub-objects are only ever kept or replaced by new ones. */
    twostate predicate Kept()
      reads this
    {
      && gate == old(gate)
      && (queue == old(queue) || (old(queue) == null && queue != null && fresh(queue)))
      && (transport == old(transport) || (old(transport) == null && transport != null && fresh(transport)))
    }

    method Log(effect: Effect)
      modifies this`effects
      ensures effects == old(effects) + [Entry(effect, gate.state)]
    {
      effects := effects + [Entry(effect, gate.state)];
    }

    method OpenQueue(env: Env, ghost w: Waiting)
      requires Valid() && store.access == env.access
      modifies this
      ensures Valid() && Kept() && transport == old(transport) && queue != null
      ensures View(w) == Sdk.OpenQueue(old(View(w)), env)
    {
      if queue == null {
        queue := new EventQueue(store, true, env.now);
        Log(QueueMade);
      }
    }

    /** False when a cookie call threw; whatever was done before it stays done. */
    method Activate(env: Env, ghost w: Waiting) returns (ok: bool)
      requires Valid() && store.access == env.access
      modifies this, transport
      ensures Valid() && Kept() && queue != null && (ok ==> transport != null)
      ensures (View(w), ok) == Sdk.Activate(old(View(w)), env)
    {
      OpenQueue(env, w);
      Log(CookieWritten);
      if env.loaded.None? { return false; }
      identity := env.loaded.value;
      if pendingUserId.Some? {
        Log(CookieWritten);
        if !env.saves { return false; }
        identity := identity.(userId := pendingUserId);
        pendingUserId := None;
      }
      if transport == null { transport := new Transport(queue); }
      transport.Start();
      ok := true;
    }

    method EnsureActivated(env: Env, ghost w: Waiting) returns (ok: bool)
      requires Valid() && store.access == env.access
      modifies this, transport
      ensures Valid() && Kept()
      ensures (View(w), ok) == Sdk.EnsureActivated(old(View(w)), env)
    {
      ok := true;
      if gate.Allowed() && transport == null { ok := Activate(env, w); }
    }

    method EnqueueOrHold(e: QueuedEvent, env: Env, ghost w: Waiting)
      requires Valid() && store.access == env.access
      modifies this, gate, queue, transport, store`content
      ensures Valid() && Kept()
      ensures View(w) == Sdk.EnqueueOrHold(old(View(w)), e, env)
    {
      if gate.state == Refused { return; }
      if gate.state == Granted {
        var ok := EnsureActivated(env, w);
        if ok && queue != null { queue.Add(e, env.now); }
      } else {
        gate.Hold(e);
      }
    }

    method Track(body: string, env: Env, ghost w: Waiting)
      requires Valid() && store.access == env.access
      modifies this, gate, queue, transport, store`content
      ensures Valid() && Kept()
      ensures View(w) == Sdk.Track(old(View(w)), body, env)
    {
      EnqueueOrHold(QueuedEvent(env.eventId, Some(env.now), identity.anonymousId, identity.userId, body), env, w);
    }

    method Identify(userId: string, body: string, env: Env, ghost w: Waiting)
      requires Valid() && store.access == env.access
      modifies this, gate, queue, transport, store`content
      ensures Valid() && Kept()
      ensures View(w) == Sdk.Identify(old(View(w)), userId, body, env)
    {
      if gate.state == Granted {
        Log(CookieWritten);
        if !env.saves { return; }
        identity := identity.(userId := Some(userId));
      } else if gate.state == Pending {
        pendingUserId := Some(userId);
        identity := identity.(userId := Some(userId));
      }
      EnqueueOrHold(QueuedEvent(env.eventId, Some(env.now), identity.anonymousId, identity.userId, body), env, w);
    }

    /** One run of the transport; a begun request is what it returns. */
    method Send(bypass: bool, env: Env, ghost w: Waiting) returns (attempt: Attempt)
      requires Valid() && store.access == env.access && queue != null && transport != null
      modifies this`effects, queue, transport, store`content
      ensures Valid() && Kept()
      ensures View(w.After(attempt)) == Sdk.Send(old(View(w)), bypass, env)
    {
      attempt := transport.BeginRun(bypass, env.now, env.json, w.outstanding, w.returning);
      if attempt.Asked? { Log(RequestBegun); }
    }

    method Flush(env: Env, ghost w: Waiting) returns (attempt: Attempt)
      requires Valid() && store.access == env.access
      modifies this, queue, transport, store`content
      ensures Valid() && Kept()
      ensures View(w.After(attempt)) == Sdk.Flush(old(View(w)), env)
    {
      attempt := Barred;
      if !gate.Allowed() { return; }
      var ok := EnsureActivated(env, w);
      if ok && transport != null { attempt := Send(false, env, w); }
    }

    method Reset(env: Env, ghost w: Waiting) returns (attempt: Attempt)
      requires Valid() && store.access == env.access
      modifies this, queue, transport, store`content
      ensures Valid() && Kept()
      ensures View(w.After(attempt)) == Sdk.Reset(old(View(w)), env)
    {
      attempt := Flush(env, w);
      pendingUserId := None;
      if gate.Allowed() {
        Log(CookieWritten);
        if env.saves { identity := Identity.Identity(env.uuid, None); }
      } else {
        identity := Identity.Identity(env.uuid, None);
      }
    }

    /** Granting: queue what was held, activate, then take each event out and put it back re-stamped. */
    method Grant(env: Env, ghost w: Waiting) returns (ok: bool)
      requires Valid() && store.access == env.access
      modifies this, gate, queue, transport, store`content
      ensures Valid() && Kept()
      ensures (View(w), ok) == Sdk.Grant(old(View(w)), env)
    {
      var released := gate.Decide(true);
      OpenQueue(env, w);
      AddReleased(released, env, w);
      ok := Activate(env, w);
      if ok { RotateReleased(released, identity.anonymousId, env, w); }
    }

    method AddReleased(released: seq<QueuedEvent>, env: Env, ghost w: Waiting)
      requires Valid() && store.access == env.access && queue != null
      modifies queue, store`content
      ensures Valid()
      ensures View(w) == Sdk.AddAll(old(View(w)), released, env)
    {
      for i := 0 to |released|
        invariant Valid() && store.access == env.access
        invariant Sdk.AddAll(View(w), released[i..], env) == Sdk.AddAll(old(View(w)), released, env)
      {
        assert released[i..][0] == released[i] && released[i..][1..] == released[i + 1..];
        queue.Add(released[i], env.now);
      }
      assert released[|released|..] == [];
    }

    method RotateReleased(released: seq<QueuedEvent>, anonymousId: string, env: Env, ghost w: Waiting)
      requires Valid() && store.access == env.access && queue != null
      modifies queue, store`content
      ensures Valid()
      ensures View(w) == Sdk.Rotate(old(View(w)), released, anonymousId, env)
    {
      for i := 0 to |released|
        invariant Valid() && store.access == env.access
        invariant Sdk.Rotate(View(w), released[i..], anonymousId, env) == Sdk.Rotate(old(View(w)), released, anonymousId, env)
      {
        assert released[i..][0] == released[i] && released[i..][1..] == released[i + 1..];
        queue.Remove([released[i].id], env.now);
        queue.Add(released[i].(anonymousId := anonymousId), env.now);
      }
      assert released[|released|..] == [];
    }

    method Consent(granted: bool, env: Env, ghost w: Waiting) returns (attempt: Attempt)
      requires Valid() && store.access == env.access
      modifies this, gate, queue, transport, store`content
      ensures Valid() && Kept()
      ensures View(w.After(attempt)) == Sdk.Consent(old(View(w)), granted, env)
    {
      attempt := Barred;
      if granted {
        var ok := Grant(env, w);
        if ok { attempt := Flush(env, w); }
      } else {
        var _ := gate.Decide(false);
        if transport != null { transport.Stop(); }
        pendingUserId := None;
      }
    }

    /** The timer's tick and the page being hidden: the sender runs only while it is armed. */
    method Wake(bypass: bool, env: Env, ghost w: Waiting) returns (attempt: Attempt)
      requires Valid() && store.access == env.access
      modifies this`effects, queue, transport, store`content
      ensures Valid() && Kept()
      ensures View(w.After(attempt)) == Sdk.Next(old(View(w)), if bypass then PageHidden else TimerTick, env)
    {
      attempt := Barred;
      if transport != null && transport.timer { attempt := Send(bypass, env, w); }
    }

    /** An answer to this record's own sender. */
    method Answered(i: nat, batch: Batch, reply: Transports.Reply, jitter: real, env: Env, ghost w: Waiting)
      requires Valid() && store.access == env.access && transport != null
      requires i < |w.outstanding| && batch == w.outstanding[i]
      modifies queue, transport, store`content
      ensures Valid()
      ensures View(Waiting(w.outstanding[..i] + w.outstanding[i + 1..], w.returning + 1, w.retired))
           == Sdk.Next(old(View(w)), Response(i, reply, jitter), env)
    {
      transport.Respond(i, batch, reply, env.now, jitter, w.outstanding, w.returning);
    }

    /** An answer to a sender an earlier `init` left behind: it writes the key this page shares. */
    method AnsweredLate(late: Transport, k: nat, i: nat, batch: Batch, reply: Transports.Reply, jitter: real, env: Env, ghost w: Waiting)
      returns (ghost after: Retired)
      requires Valid() && store.access == env.access
      requires late != transport && late.queue != queue && late.queue.store == store && late.queue.persist
      requires k < |w.retired| && w.retired[k] == RecordOf(late, w.retired[k].outstanding, w.retired[k].returning)
      requires i < |w.retired[k].outstanding| && batch == w.retired[k].outstanding[i]
      modifies late, late.queue, store`content
      ensures Valid() && after == RecordOf(late, after.outstanding, after.returning)
      ensures View(w.(retired := w.retired[k := after])) == Sdk.Next(old(View(w)), LateResponse(k, i, reply, jitter), env)
    {
      ghost var o, r := w.retired[k].outstanding, w.retired[k].returning;
      late.Respond(i, batch, reply, env.now, jitter, o, r);
      after := RecordOf(late, o[..i] + o[i + 1..], r + 1);
    }
  }

  /** A sender and its queue, as a page with a newer one remembers them. */
  ghost function RecordOf(t: Transport, outstanding: seq<Batch>, returning: nat): Retired
    reads t, t.queue
  {
    Retired(t.queue.events, t.State(), outstanding, returning)
  }

  /** The earlier sender joins those already retired, with what it is still waiting for. */
  ghost function Behind(earlier: Client, w: Waiting): seq<Retired>
    reads earlier, earlier.transport, if earlier.transport == null then {} else {earlier.transport.queue}
  {
    if earlier.transport == null then w.retired
    else w.retired + [RecordOf(earlier.transport, w.outstanding, w.returning)]
  }

  /** From a new record to the end of `init`. */
  method Start(store: Storage, required: bool, refusalSignalled: bool, autoPage: Option<string>, env: Env, effects: seq<Entry>,
               ghost retired: seq<Retired>)
    returns (client: Client)
    requires store.access == env.access
    modifies store`content
    ensures client.Valid() && fresh(client) && client.store == store
    ensures client.transport != null ==> fresh(client.transport)
    ensures client.queue != null ==> fresh(client.queue)
    ensures client.View(Waiting([], 0, retired))
         == Sdk.Start(NewRecord(old(store.content), retired, effects, required, refusalSignalled, env.uuid), autoPage, env)
  {
    hide Sdk.Activate, Sdk.Track;
    client := new Client(store, required, refusalSignalled, env.uuid, effects);
    ghost var waiting := Waiting([], 0, retired);
    var ok := true;
    if client.gate.Allowed() { ok := client.Activate(env, waiting); }
    if ok && autoPage.Some? { client.Track(autoPage.value, env, waiting); }
  }

  /** `init`: an earlier record's sender is disarmed, and a new record begun over the same storage. */
  method Init(earlier: Client, required: bool, refusalSignalled: bool, autoPage: Option<string>, env: Env, ghost w: Waiting)
    returns (client: Client)
    requires earlier.Valid() && earlier.store.access == env.access
    modifies earlier.transport, earlier.store`content
    ensures client.Valid() && fresh(client) && client.store == earlier.store
    ensures client.transport != null ==> fresh(client.transport)
    ensures client.queue != null ==> fresh(client.queue)
    ensures client.View(Waiting([], 0, Behind(earlier, w))) == Sdk.Init(old(earlier.View(w)), required, refusalSignalled, autoPage, env)
  {
    hide Sdk.Start;
    if earlier.transport != null { earlier.transport.Stop(); }
    ghost var retired := Behind(earlier, w);
    assert retired == Retire(old(earlier.View(w)));
    client := Start(earlier.store, required, refusalSignalled, autoPage, env, earlier.effects, retired);
    assert Behind(earlier, w) == retired;
  }
}
