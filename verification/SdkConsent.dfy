/**
  Nothing is sent, stored under a cookie or queued before consent, over every run of public calls
  (packages/sdk-browser/src/index.ts:122-193, 332-452).
 */
module SdkConsent {
  import opened Basics
  import opened Consenting
  import opened EventQueues
  import opened Sdk
  import opened Transports

  /** Every effect so far happened while the gate was granted. */
  predicate Consented(effects: seq<Entry>) { forall i :: 0 <= i < |effects| ==> effects[i].gate.Granted? }

  /** A retired sender can never be woken again, and has at most one request out. */
  predicate Spent(r: Retired) { !r.sender.timer && |r.outstanding| + r.returning == if r.sender.inFlight then 1 else 0 }

  /**
    A sender needs a queue, is armed only behind a granted gate, and has at most one request out; so
    has each retired one; and everything that happened, happened with consent.
   */
  predicate Good(p: Page) {
    && (p.sender.Some? ==> p.queue.Some?)
    && (p.sender.Some? && p.sender.value.timer ==> p.gate.Granted?)
    && |p.outstanding| + p.returning == (if p.sender.Some? && p.sender.value.inFlight then 1 else 0)
    && (forall k :: 0 <= k < |p.retired| ==> Spent(p.retired[k]))
    && |p.held| <= MAX_HELD_EVENTS
    && Consented(p.effects)
  }

  /** What one call did: its effects are the earlier ones and then its own. */
  predicate Extends(p: Page, q: Page) { p.effects <= q.effects }

  lemma NoteIsGood(p: Page, e: Effect)
    requires Consented(p.effects) && p.gate.Granted?
    ensures Consented(Note(p, e).effects) && Extends(p, Note(p, e))
  {
  }

  lemma SendIsGood(p: Page, bypass: bool, env: Env)
    requires Good(p) && p.sender.Some? && p.gate.Granted?
    ensures Good(Send(p, bypass, env)) && Extends(p, Send(p, bypass, env)) && Send(p, bypass, env).gate == p.gate
  {
    hide Pruned, AfterRemove, Unserialisable, Written, Seen;
    var y := Begin(SystemOf(p), bypass, env.now, env.access, env.json);
    NoteIsGood(WithSystem(p, y), RequestBegun);
  }

  lemma ActivateIsGood(p: Page, env: Env)
    requires Good(p) && p.gate.Granted?
    ensures Good(Activate(p, env).0) && Extends(p, Activate(p, env).0) && Activate(p, env).0.gate == p.gate
    ensures Activate(p, env).0.queue.Some? && Activate(p, env).0.held == p.held
    ensures Activate(p, env).1 ==> Activate(p, env).0.sender.Some?
  {
    hide Pruned, ReadStore;
  }

  lemma EnsureActivatedIsGood(p: Page, env: Env)
    requires Good(p)
    ensures Good(EnsureActivated(p, env).0) && Extends(p, EnsureActivated(p, env).0) && EnsureActivated(p, env).0.gate == p.gate
    ensures !p.gate.Granted? ==> EnsureActivated(p, env).0 == p
  {
    hide Activate;
    if p.gate.Granted? { ActivateIsGood(p, env); }
  }

  lemma EnqueueIsGood(p: Page, e: QueuedEvent, env: Env)
    requires Good(p)
    ensures Good(EnqueueOrHold(p, e, env)) && Extends(p, EnqueueOrHold(p, e, env)) && EnqueueOrHold(p, e, env).gate == p.gate
    ensures !p.gate.Granted? ==> EnqueueOrHold(p, e, env).effects == p.effects
  {
    hide EnsureActivated, AfterAdd, ReadStore, WriteStore;
    EnsureActivatedIsGood(p, env);
  }

  lemma FlushIsGood(p: Page, env: Env)
    requires Good(p)
    ensures Good(Flush(p, env)) && Extends(p, Flush(p, env)) && Flush(p, env).gate == p.gate
    ensures !p.gate.Granted? ==> Flush(p, env) == p
  {
    hide EnsureActivated, Send;
    EnsureActivatedIsGood(p, env);
    var q := EnsureActivated(p, env).0;
    if p.gate.Granted? && q.sender.Some? { SendIsGood(q, false, env); }
  }

  lemma {:induction false} AddAllIsGood(p: Page, events: seq<QueuedEvent>, env: Env)
    requires Good(p) && p.queue.Some?
    ensures var q := AddAll(p, events, env); Good(q) && q.effects == p.effects && q.gate == p.gate && q.queue.Some? && q.held == p.held
    decreases |events|
  {
    hide AfterAdd, ReadStore, WriteStore;
    if events != [] { AddAllIsGood(AddTo(p, events[0], env), events[1..], env); }
  }

  lemma {:induction false} RotateIsGood(p: Page, released: seq<QueuedEvent>, anonymousId: string, env: Env)
    requires Good(p) && p.queue.Some?
    ensures var q := Rotate(p, released, anonymousId, env); Good(q) && q.effects == p.effects && q.gate == p.gate
    decreases |released|
  {
    hide AfterAdd, AfterRemove, ReadStore, WriteStore;
    if released != [] {
      RotateIsGood(AddTo(RemoveFrom(p, [released[0].id], env), Restamped(released[0], anonymousId), env), released[1..], anonymousId, env);
    }
  }

  lemma GrantIsGood(p: Page, env: Env)
    requires Good(p)
    ensures Good(Grant(p, env).0) && Extends(p, Grant(p, env).0) && Grant(p, env).0.gate.Granted?
  {
    hide AddAll, Activate, Rotate, Pruned, ReadStore;
    var base := OpenQueue(p.(gate := Granted, held := []), env);
    AddAllIsGood(base, p.held, env);
    var added := AddAll(base, p.held, env);
    ActivateIsGood(added, env);
    RotateIsGood(Activate(added, env).0, p.held, Activate(added, env).0.identity.anonymousId, env);
  }

  lemma ConsentIsGood(p: Page, granted: bool, env: Env)
    requires Good(p)
    ensures Good(Consent(p, granted, env)) && Extends(p, Consent(p, granted, env))
    ensures !granted ==> Consent(p, granted, env).effects == p.effects
    ensures Consent(p, granted, env).gate.Granted? <==> granted
  {
    hide Grant, Flush;
    if granted {
      GrantIsGood(p, env);
      FlushIsGood(Grant(p, env).0, env);
    }
  }

  lemma IdentifyIsGood(p: Page, userId: string, body: string, env: Env)
    requires Good(p)
    ensures var q := Identify(p, userId, body, env); Good(q) && Extends(p, q) && q.gate == p.gate && (!p.gate.Granted? ==> q.effects == p.effects)
  {
    hide EnqueueOrHold;
    if p.gate.Granted? {
      NoteIsGood(p, CookieWritten);
      var q := Note(p, CookieWritten);
      var named := q.(identity := q.identity.(userId := Some(userId)));
      EnqueueIsGood(named, Built(named, body, env), env);
    } else {
      var named := if p.gate.Pending? then p.(pendingUserId := Some(userId), identity := p.identity.(userId := Some(userId))) else p;
      EnqueueIsGood(named, Built(named, body, env), env);
    }
  }

  lemma ResetIsGood(p: Page, env: Env)
    requires Good(p)
    ensures var q := Reset(p, env); Good(q) && Extends(p, q) && q.gate == p.gate && (!p.gate.Granted? ==> q.effects == p.effects)
  {
    hide Flush;
    FlushIsGood(p, env);
  }

  lemma RetiredAreSpent(p: Page)
    requires Good(p)
    ensures forall k :: 0 <= k < |Retire(p)| ==> Spent(Retire(p)[k])
  {
  }

  lemma InitIsGood(p: Page, required: bool, refusalSignalled: bool, autoPage: Option<string>, env: Env)
    requires Good(p)
    ensures var q := Init(p, required, refusalSignalled, autoPage, env);
            && Good(q) && Extends(p, q) && q.gate == Opening(required, refusalSignalled)
            && (!q.gate.Granted? ==> q.effects == p.effects)
  {
    hide Activate, Track, Retire;
    RetiredAreSpent(p);
    var first := NewRecord(p.content, Retire(p), p.effects, required, refusalSignalled, env.uuid);
    if first.gate.Granted? { ActivateIsGood(first, env); }
    var q := if first.gate.Granted? then Activate(first, env).0 else first;
    if autoPage.Some? { TrackIsGood(q, autoPage.value, env); }
  }

  lemma ResponseIsGood(p: Page, i: nat, reply: Transports.Reply, jitter: real, env: Env)
    requires Good(p) && p.sender.Some? && i < |p.outstanding|
    ensures var q := WithSystem(p, Answer(SystemOf(p), i, reply, env.now, env.access, jitter));
            Good(q) && q.effects == p.effects && q.gate == p.gate
  {
    hide AfterRemove, Written, Seen, Delay;
  }

  lemma LateIsGood(p: Page, k: nat, y: System)
    requires Good(p) && k < |p.retired| && Spent(Retired(y.events, y.sender, y.outstanding, y.returning))
    ensures Good(WithLate(p, k, y)) && WithLate(p, k, y).effects == p.effects && WithLate(p, k, y).gate == p.gate
  {
  }

  lemma LateResponseIsGood(p: Page, k: nat, i: nat, reply: Transports.Reply, jitter: real, env: Env)
    requires Good(p) && k < |p.retired| && i < |p.retired[k].outstanding|
    ensures var q := WithLate(p, k, Answer(LateSystem(p, k), i, reply, env.now, env.access, jitter));
            Good(q) && q.effects == p.effects && q.gate == p.gate
  {
    hide AfterRemove, Written, Seen, Delay;
    assert Spent(p.retired[k]);
    LateIsGood(p, k, Answer(LateSystem(p, k), i, reply, env.now, env.access, jitter));
  }

  /** One call keeps the invariant; a call that leaves the gate closed has no effect anyone could object to. */
  lemma CallIsGood(p: Page, c: Call, env: Env)
    requires Good(p)
    ensures Good(Next(p, c, env)) && Extends(p, Next(p, c, env))
    ensures !Next(p, c, env).gate.Granted? ==> Next(p, c, env).effects == p.effects
    ensures !c.CallInit? && !(c.CallConsent? && c.granted) && !p.gate.Granted? ==> !Next(p, c, env).gate.Granted?
  {
    hide Init, Track, Identify, Consent, Reset, Flush, Send, Answer, WithLate;
    match c
    case CallInit(required, refusalSignalled, autoPage) => InitIsGood(p, required, refusalSignalled, autoPage, env);
    case CallTrack(body) => TrackIsGood(p, body, env);
    case CallIdentify(userId, body) => IdentifyIsGood(p, userId, body, env);
    case CallConsent(granted) => ConsentIsGood(p, granted, env);
    case CallReset => ResetIsGood(p, env);
    case CallFlush => FlushIsGood(p, env);
    case TimerTick => if Armed(p) { SendIsGood(p, false, env); }
    case PageHidden => if Armed(p) { SendIsGood(p, true, env); }
    case Response(i, reply, jitter) =>
      if p.sender.Some? && i < |p.outstanding| { ResponseIsGood(p, i, reply, jitter, env); }
    case Resumed =>
    case LateResponse(k, i, reply, jitter) =>
      if k < |p.retired| && i < |p.retired[k].outstanding| { LateResponseIsGood(p, k, i, reply, jitter, env); }
    case LateResumed(k) =>
      if k < |p.retired| && p.retired[k].returning > 0 { LateIsGood(p, k, Return(LateSystem(p, k))); }
    case OtherTab(_) =>
  }

  lemma TrackIsGood(p: Page, body: string, env: Env)
    requires Good(p)
    ensures var q := Track(p, body, env); Good(q) && Extends(p, q) && q.gate == p.gate && (!p.gate.Granted? ==> q.effects == p.effects)
  {
    hide EnqueueOrHold;
    EnqueueIsGood(p, Built(p, body, env), env);
  }

  /** The page as it loads, with whatever storage already holds. */
  function Blank(content: Content): Page { NewRecord(content, [], [], true, false, "") }

  lemma {:induction false} RunIsGood(p: Page, calls: seq<(Call, Env)>)
    requires Good(p)
    ensures Good(Run(p, calls)) && Extends(p, Run(p, calls))
  {
    if calls != [] {
      hide Next;
      var last := calls[|calls| - 1];
      RunIsGood(p, calls[..|calls| - 1]);
      CallIsGood(Run(p, calls[..|calls| - 1]), last.0, last.1);
    }
  }

  /**
    Whatever the page calls and whatever fails, no request is begun, no cookie written and no queue
    created at a moment when the gate is not granted; and no sender, retired ones included, ever has
    more than one request out.
   */
  lemma ConsentIsRespected(content: Content, required: bool, refusalSignalled: bool, autoPage: Option<string>, env: Env,
                           calls: seq<(Call, Env)>)
    ensures var p := Run(Init(Blank(content), required, refusalSignalled, autoPage, env), calls);
            && (forall i :: 0 <= i < |p.effects| ==> p.effects[i].gate.Granted?)
            && |p.outstanding| <= 1
            && (forall k :: 0 <= k < |p.retired| ==> |p.retired[k].outstanding| <= 1 && !p.retired[k].sender.timer)
  {
    hide Init, Run;
    InitIsGood(Blank(content), required, refusalSignalled, autoPage, env);
    RunIsGood(Init(Blank(content), required, refusalSignalled, autoPage, env), calls);
  }

  predicate Asks(c: Call) { c.CallInit? || (c.CallConsent? && c.granted) }

  /** From a closed gate, until someone grants or starts over, nothing happens at all. */
  lemma {:induction false} ClosedGateIsSilent(p: Page, calls: seq<(Call, Env)>)
    requires Good(p) && !p.gate.Granted? && forall i :: 0 <= i < |calls| ==> !Asks(calls[i].0)
    ensures Run(p, calls).effects == p.effects && !Run(p, calls).gate.Granted?
  {
    hide Next, Good;
    if calls != [] {
      var last := calls[|calls| - 1];
      var before := calls[..|calls| - 1];
      ClosedGateIsSilent(p, before);
      RunIsGood(p, before);
      CallIsGood(Run(p, before), last.0, last.1);
    }
  }
}
