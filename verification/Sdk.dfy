/**
  The SDK's public calls over one page: a gate, a queue, a sender and an identity
  (packages/sdk-browser/src/index.ts).
 */
module Sdk {
  import opened Basics
  import opened Consenting
  import opened EventQueues
  import opened Transports

  datatype Identity = Identity(anonymousId: string, userId: Option<string>)

  /** What a visitor could object to. */
  datatype Effect = CookieWritten | QueueMade | RequestBegun

  /** An effect, and what the gate said at that moment. */
  datatype Entry = Entry(effect: Effect, gate: ConsentState)

  /** An earlier `init`'s sender: disarmed, but its unanswered request still comes back to its own queue. */
  datatype Retired = Retired(events: seq<QueuedEvent>, sender: Sender, outstanding: seq<Batch>, returning: nat)

  /** `queue` and `sender` are absent until sending is activated. */
  datatype Page = Page(gate: ConsentState, held: seq<QueuedEvent>, content: Content, queue: Option<seq<QueuedEvent>>,
                       sender: Option<Sender>, outstanding: seq<Batch>, returning: nat, retired: seq<Retired>,
                       identity: Identity, pendingUserId: Option<string>, effects: seq<Entry>)

  /** Everything one call reads from outside: the clock, storage, fresh ids, and which cookie calls throw. */
  datatype Env = Env(now: int, access: Access, json: Serialised, uuid: string, eventId: string,
                     loaded: Option<Identity>, saves: bool)

  function Note(p: Page, e: Effect): Page { p.(effects := p.effects + [Entry(e, p.gate)]) }

  // ---- Sending ------------------------------------------------------------------------------------------

  function SystemOf(p: Page): System
    requires p.queue.Some? && p.sender.Some?
  {
    System(p.content, true, p.queue.value, p.sender.value, p.outstanding, p.returning)
  }

  function WithSystem(p: Page, y: System): Page {
    p.(content := y.content, queue := Some(y.events), sender := Some(y.sender), outstanding := y.outstanding, returning := y.returning)
  }

  /** The transport's own run; it knows nothing of the gate. */
  function Send(p: Page, bypass: bool, env: Env): Page
    requires p.queue.Some? && p.sender.Some?
  {
    var y := Begin(SystemOf(p), bypass, env.now, env.access, env.json);
    var q := WithSystem(p, y);
    if |y.outstanding| > |p.outstanding| then Note(q, RequestBegun) else q
  }

  function OpenQueue(p: Page, env: Env): Page {
    if p.queue.Some? then p else Note(p.(queue := Some(Pruned(ReadStore(p.content, env.access), env.now))), QueueMade)
  }

  /** Activation: true when it ran to the end, false when a cookie call threw part way. */
  function Activate(p: Page, env: Env): (r: (Page, bool)) {
    var q := Note(OpenQueue(p, env), CookieWritten);
    if env.loaded.None? then (q, false)
    else
      var loaded := q.(identity := env.loaded.value);
      if loaded.pendingUserId.Some? && !env.saves then (Note(loaded, CookieWritten), false)
      else
        var named := if loaded.pendingUserId.None? then loaded
                     else Note(loaded.(identity := loaded.identity.(userId := loaded.pendingUserId), pendingUserId := None), CookieWritten);
        (named.(sender := Some((if named.sender.Some? then named.sender.value else Sender(false, false, 0, 0.0, false)).(timer := true))), true)
  }

  /** Activation again, if an earlier one threw before a transport existed. */
  function EnsureActivated(p: Page, env: Env): (r: (Page, bool)) {
    if p.gate.Granted? && p.sender.None? then Activate(p, env) else (p, true)
  }

  function AddTo(p: Page, e: QueuedEvent, env: Env): Page
    requires p.queue.Some?
  {
    var events := AfterAdd(ReadStore(p.content, env.access), p.queue.value, e, env.now);
    p.(queue := Some(events), content := WriteStore(p.content, env.access, events))
  }

  function RemoveFrom(p: Page, ids: seq<string>, env: Env): Page
    requires p.queue.Some?
  {
    var events := AfterRemove(ReadStore(p.content, env.access), p.queue.value, ids, env.now);
    p.(queue := Some(events), content := WriteStore(p.content, env.access, events))
  }

  function EnqueueOrHold(p: Page, e: QueuedEvent, env: Env): Page {
    if p.gate.Refused? then p
    else if p.gate.Granted? then
      var (q, ok) := EnsureActivated(p, env);
      if !ok || q.queue.None? then q else AddTo(q, e, env)
    else p.(held := HeldWith(p.held, e))
  }

  function Built(p: Page, body: string, env: Env): QueuedEvent {
    QueuedEvent(env.eventId, Some(env.now), p.identity.anonymousId, p.identity.userId, body)
  }

  // ---- The public calls ------------------------------------------------------------------------------------

  /** `stop()` on the sender there was: its timer and listeners go, its request does not. */
  function Retire(p: Page): seq<Retired> {
    if p.sender.Some? && p.queue.Some?
    then p.retired + [Retired(p.queue.value, p.sender.value.(timer := false), p.outstanding, p.returning)]
    else p.retired
  }

  /** The record `init` builds: a gate, a throwaway identity, and nothing that could send or store. */
  function NewRecord(content: Content, retired: seq<Retired>, effects: seq<Entry>, required: bool, refusalSignalled: bool, uuid: string): Page {
    Page(Opening(required, refusalSignalled), [], content, None, None, [], 0, retired, Identity(uuid, None), None, effects)
  }

  /** The automatic page view comes last, and not at all when activation threw. */
  function Start(p: Page, autoPage: Option<string>, env: Env): Page {
    var (q, ok) := if p.gate.Granted? then Activate(p, env) else (p, true);
    if ok && autoPage.Some? then Track(q, autoPage.value, env) else q
  }

  /** A new record beside whatever earlier senders left behind; storage and the effects so far remain. */
  function Init(p: Page, required: bool, refusalSignalled: bool, autoPage: Option<string>, env: Env): Page {
    Start(NewRecord(p.content, Retire(p), p.effects, required, refusalSignalled, env.uuid), autoPage, env)
  }

  /** `track` and `page`. */
  function Track(p: Page, body: string, env: Env): Page { EnqueueOrHold(p, Built(p, body, env), env) }

  function Identify(p: Page, userId: string, body: string, env: Env): Page {
    if p.gate.Granted? then
      var q := Note(p, CookieWritten);
      if !env.saves then q
      else
        var named := q.(identity := q.identity.(userId := Some(userId)));
        EnqueueOrHold(named, Built(named, body, env), env)
    else
      var named := if p.gate.Pending? then p.(pendingUserId := Some(userId), identity := p.identity.(userId := Some(userId))) else p;
      EnqueueOrHold(named, Built(named, body, env), env)
  }

  function Flush(p: Page, env: Env): Page {
    if !p.gate.Granted? then p
    else
      var (q, ok) := EnsureActivated(p, env);
      if !ok || q.sender.None? || q.queue.None? then q else Send(q, false, env)
  }

  function Reset(p: Page, env: Env): Page {
    var q := Flush(p, env).(pendingUserId := None);
    if q.gate.Granted? then
      var noted := Note(q, CookieWritten);
      if env.saves then noted.(identity := Identity(env.uuid, None)) else noted
    else q.(identity := Identity(env.uuid, None))
  }

  function AddAll(p: Page, events: seq<QueuedEvent>, env: Env): Page
    requires p.queue.Some?
    decreases |events|
  {
    if events == [] then p else AddAll(AddTo(p, events[0], env), events[1..], env)
  }

  function Restamped(e: QueuedEvent, anonymousId: string): QueuedEvent { e.(anonymousId := anonymousId) }

  /** Each released event is taken out and put back under the visitor's own id. */
  function Rotate(p: Page, released: seq<QueuedEvent>, anonymousId: string, env: Env): Page
    requires p.queue.Some?
    decreases |released|
  {
    if released == [] then p
    else Rotate(AddTo(RemoveFrom(p, [released[0].id], env), Restamped(released[0], anonymousId), env), released[1..], anonymousId, env)
  }

  /** A grant up to its final flush: queued first, activated, then rotated. */
  function Grant(p: Page, env: Env): (r: (Page, bool)) {
    var base := OpenQueue(p.(gate := Granted, held := []), env);
    var added := AddAll(base, p.held, env);
    var (q, ok) := Activate(added, env);
    if !ok then (q, false) else (Rotate(q, p.held, q.identity.anonymousId, env), true)
  }

  function Consent(p: Page, granted: bool, env: Env): Page {
    if granted then
      var (q, ok) := Grant(p, env);
      if ok then Flush(q, env) else q
    else
      p.(gate := Refused, held := [], pendingUserId := None,
         sender := if p.sender.None? then None else Some(p.sender.value.(timer := false)))
  }

  // ---- What else can happen ----------------------------------------------------------------------------------

  datatype Call =
    | CallInit(required: bool, refusalSignalled: bool, autoPage: Option<string>)
    | CallTrack(body: string)
    | CallIdentify(userId: string, body: string)
    | CallConsent(granted: bool)
    | CallReset
    | CallFlush
    | TimerTick
    | PageHidden
    | Response(i: nat, reply: Transports.Reply, jitter: real)
    | Resumed
    | LateResponse(k: nat, i: nat, reply: Transports.Reply, jitter: real)
    | LateResumed(k: nat)
    | OtherTab(content: Content)

  /** A retired sender and its queue, over the same key. */
  function LateSystem(p: Page, k: nat): System
    requires k < |p.retired|
  {
    var r := p.retired[k];
    System(p.content, true, r.events, r.sender, r.outstanding, r.returning)
  }

  function WithLate(p: Page, k: nat, y: System): Page
    requires k < |p.retired|
  {
    p.(content := y.content, retired := p.retired[k := Retired(y.events, y.sender, y.outstanding, y.returning)])
  }

  /** The timer and both unload listeners exist together, from `start()` to `stop()`. */
  predicate Armed(p: Page) { p.sender.Some? && p.queue.Some? && p.sender.value.timer }

  function Next(p: Page, c: Call, env: Env): Page {
    match c
    case CallInit(required, refusalSignalled, autoPage) => Init(p, required, refusalSignalled, autoPage, env)
    case CallTrack(body) => Track(p, body, env)
    case CallIdentify(userId, body) => Identify(p, userId, body, env)
    case CallConsent(granted) => Consent(p, granted, env)
    case CallReset => Reset(p, env)
    case CallFlush => Flush(p, env)
    case TimerTick => if Armed(p) then Send(p, false, env) else p
    case PageHidden => if Armed(p) then Send(p, true, env) else p
    case Response(i, reply, jitter) =>
      if p.sender.Some? && p.queue.Some? && i < |p.outstanding|
      then WithSystem(p, Answer(SystemOf(p), i, reply, env.now, env.access, jitter)) else p
    case Resumed =>
      if p.sender.Some? && p.queue.Some? && p.returning > 0 then WithSystem(p, Return(SystemOf(p))) else p
    case LateResponse(k, i, reply, jitter) =>
      if k < |p.retired| && i < |p.retired[k].outstanding|
      then WithLate(p, k, Answer(LateSystem(p, k), i, reply, env.now, env.access, jitter)) else p
    case LateResumed(k) =>
      if k < |p.retired| && p.retired[k].returning > 0 then WithLate(p, k, Return(LateSystem(p, k))) else p
    case OtherTab(content) => p.(content := content)
  }

  function Run(p: Page, calls: seq<(Call, Env)>): Page {
    if calls == [] then p
    else
      var last := calls[|calls| - 1];
      Next(Run(p, calls[..|calls| - 1]), last.0, last.1)
  }
}
