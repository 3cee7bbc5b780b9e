/**
  The sender: one request in flight, a backoff, and a queue it empties only on a verdict
  (packages/sdk-browser/src/transport.ts).
 */
module Transports {
  import opened Basics
  import opened EventQueues

  const BATCH_SIZE: nat := 20
  const BACKOFF_BASE_MS: int := 1_000
  const BACKOFF_MAX_MS: int := 30_000
  const MAX_HONOURED_RETRY_AFTER_MS: real := 300_000.0

  type Batch = seq<QueuedEvent>

  datatype Sender = Sender(stopped: bool, inFlight: bool, failures: nat, nextAttemptAt: real, timer: bool)

  /**
    A tab's sender and queue, the requests still unanswered, and the attempts that have only to
    return: their verdict is in, the run awaiting them has not resumed, and the flag is still up.
   */
  datatype System = System(content: Content, persist: bool, events: seq<QueuedEvent>, sender: Sender,
                           outstanding: seq<Batch>, returning: nat)

  /** Whether the batch turns into JSON; if not, which ids throw on their own. */
  datatype Serialised = Fine | Throws(bad: set<string>)

  /**
    What comes back: nothing usable (a network error, a status that cannot be read or is no number),
    or a status with any advice on when to retry, in milliseconds, when that is a finite number.
   */
  datatype Reply = Failure | Status(code: int, advised: Option<real>)

  // ---- Backoff ------------------------------------------------------------------------------------------

  function Doubled(n: nat): nat { if n == 0 then 1 else 2 * Doubled(n - 1) }

  /** The undithered wait after this many failures in a row. */
  function Exponential(failures: nat): int
    requires failures > 0
  {
    Min(BACKOFF_BASE_MS * Doubled(failures - 1), BACKOFF_MAX_MS)
  }

  function Clamp(x: real, low: real, high: real): real { if (if x < low then low else x) > high then high else if x < low then low else x }

  /** A wait and up to a fifth of it again; `jitter` is the random fraction, in [0, 1). */
  function Dithered(wait: real, jitter: real): real { wait + wait * 0.2 * jitter }

  function Delay(failures: nat, advised: Option<real>, jitter: real): real
    requires failures > 0
  {
    if advised.Some? then Clamp(advised.value, BACKOFF_BASE_MS as real, MAX_HONOURED_RETRY_AFTER_MS)
    else Dithered(Exponential(failures) as real, jitter)
  }

  function Backoff(s: Sender, advised: Option<real>, jitter: real, now: int): Sender {
    s.(failures := s.failures + 1, nextAttemptAt := now as real + Delay(s.failures + 1, advised, jitter))
  }

  // ---- One attempt, cut at its awaits -------------------------------------------------------------------

  predicate MayBegin(s: Sender, bypass: bool, now: int) {
    !s.stopped && (bypass || now as real >= s.nextAttemptAt) && !s.inFlight
  }

  function Ids(batch: Batch): seq<string> { seq(|batch|, i requires 0 <= i < |batch| => batch[i].id) }

  function First(events: seq<QueuedEvent>): Batch { events[..Min(BATCH_SIZE, |events|)] }

  /** The ids that throw on their own; all of them when none does. */
  function Unserialisable(batch: Batch, bad: set<string>): seq<string> {
    var poisoned := Filter((id: string) => id in bad, Ids(batch));
    if poisoned != [] then poisoned else Ids(batch)
  }

  function Removed(y: System, ids: seq<string>, now: int, access: Access): System {
    var events := AfterRemove(Seen(y.persist, y.content, access), y.events, ids, now);
    y.(events := events, content := Written(y.persist, y.content, access, events))
  }

  /**
    Up to the first await: nothing when the run may not begin. An empty batch, or one that cannot be
    sent, still raises the flag: it comes down only once the run has resumed.
   */
  function Begin(y: System, bypass: bool, now: int, access: Access, json: Serialised): System {
    if !MayBegin(y.sender, bypass, now) then y
    else
      var looked := y.(events := Pruned(y.events, now), sender := y.sender.(inFlight := true));
      var batch := First(looked.events);
      if batch == [] then looked.(returning := y.returning + 1)
      else if json.Throws? then Removed(looked.(returning := y.returning + 1), Unserialisable(batch, json.bad), now, access)
      else looked.(outstanding := y.outstanding + [batch])
  }

  /** The verdict on one unanswered request, up to where its run has only to resume. */
  function Answer(y: System, i: nat, reply: Reply, now: int, access: Access, jitter: real): System
    requires i < |y.outstanding|
  {
    var batch := y.outstanding[i];
    var z := y.(outstanding := y.outstanding[..i] + y.outstanding[i + 1..], returning := y.returning + 1);
    if reply.Failure? then z.(sender := Backoff(y.sender, None, jitter, now))
    else if reply.code == 202 then Removed(z.(sender := y.sender.(failures := 0, nextAttemptAt := 0.0)), Ids(batch), now, access)
    else if reply.code == 401 then z.(sender := y.sender.(stopped := true, timer := false))
    else if reply.code == 400 || reply.code == 413 then Removed(z, Ids(batch), now, access)
    else z.(sender := Backoff(y.sender, reply.advised, jitter, now))
  }

  /** The run resumes: after an accepted response's body is read or fails, and at once otherwise. */
  function Return(y: System): System
    requires y.returning > 0
  {
    y.(returning := y.returning - 1, sender := y.sender.(inFlight := false))
  }

  /** What a call of `#run` came to: barred by a guard, nothing to await but its own return, or a request. */
  datatype Attempt = Barred | Over | Asked(batch: Batch)

  function Unanswered(outstanding: seq<Batch>, a: Attempt): seq<Batch> { if a.Asked? then outstanding + [a.batch] else outstanding }

  function Returning(returning: nat, a: Attempt): nat { if a.Over? then returning + 1 else returning }

  // ---- The sender as it runs ----------------------------------------------------------------------------------

  method Poisoned(batch: Batch, bad: set<string>) returns (ids: seq<string>)
    ensures ids == Filter((id: string) => id in bad, Ids(batch))
  {
    ids := [];
    for i := 0 to |batch|
      invariant ids == Filter((id: string) => id in bad, Ids(batch)[..i])
    {
      assert Ids(batch)[..i + 1] == Ids(batch)[..i] + [batch[i].id];
      FilterConcat((id: string) => id in bad, Ids(batch)[..i], [batch[i].id]);
      if batch[i].id in bad { ids := ids + [batch[i].id]; }
    }
    assert Ids(batch)[..|batch|] == Ids(batch);
  }

  class Transport {
    const queue: EventQueue
    var stopped: bool
    var inFlight: bool
    var failures: nat
    var nextAttemptAt: real
    var timer: bool

    constructor (queue: EventQueue)
      ensures this.queue == queue && State() == Sender(false, false, 0, 0.0, false)
    {
      this.queue := queue;
      stopped, inFlight, failures, nextAttemptAt, timer := false, false, 0, 0.0, false;
    }

    function State(): Sender
      reads this
    {
      Sender(stopped, inFlight, failures, nextAttemptAt, timer)
    }

    /** This sender and its queue, beside the continuations the runtime holds. */
    ghost function View(outstanding: seq<Batch>, returning: nat): System
      reads this, queue, queue.store
    {
      System(queue.store.content, queue.persist, queue.events, State(), outstanding, returning)
    }

    method Start()
      modifies this`timer
      ensures State() == old(State()).(timer := true)
    {
      if !timer { timer := true; }
    }

    method Stop()
      modifies this`timer
      ensures State() == old(State()).(timer := false)
    {
      timer := false;
    }

    /** `#run` up to its first await. */
    method BeginRun(bypass: bool, now: int, json: Serialised, ghost outstanding: seq<Batch>, ghost returning: nat)
      returns (attempt: Attempt)
      modifies this`inFlight, queue`events, queue`expired, queue`corrupt, queue.store`content
      ensures View(Unanswered(outstanding, attempt), Returning(returning, attempt))
           == Begin(old(View(outstanding, returning)), bypass, now, queue.store.access, json)
    {
      if stopped { return Barred; }
      if !bypass && (now as real) < nextAttemptAt { return Barred; }
      if inFlight { return Barred; }
      inFlight := true;
      var batch := queue.Peek(BATCH_SIZE, now);
      if batch == [] {
        attempt := Over;
      } else if json.Throws? {
        var poisoned := Poisoned(batch, json.bad);
        queue.Remove(if poisoned != [] then poisoned else Ids(batch), now);
        attempt := Over;
      } else {
        attempt := Asked(batch);
      }
    }

    /** What follows the response to request `i`, up to where the run has only to resume. */
    method Respond(i: nat, batch: Batch, reply: Reply, now: int, jitter: real, ghost outstanding: seq<Batch>, ghost returning: nat)
      requires i < |outstanding| && batch == outstanding[i]
      modifies this, queue`events, queue`expired, queue`corrupt, queue.store`content
      ensures View(outstanding[..i] + outstanding[i + 1..], returning + 1)
           == Answer(old(View(outstanding, returning)), i, reply, now, queue.store.access, jitter)
    {
      if reply.Failure? {
        Retry(None, jitter, now);
      } else if reply.code == 202 {
        queue.Remove(Ids(batch), now);
        failures, nextAttemptAt := 0, 0.0;
      } else if reply.code == 401 {
        stopped := true;
        Stop();
      } else if reply.code == 400 || reply.code == 413 {
        queue.Remove(Ids(batch), now);
      } else {
        Retry(reply.advised, jitter, now);
      }
    }

    method Retry(advised: Option<real>, jitter: real, now: int)
      modifies this`failures, this`nextAttemptAt
      ensures State() == Backoff(old(State()), advised, jitter, now)
    {
      failures := failures + 1;
      nextAttemptAt := now as real + Delay(failures, advised, jitter);
    }

    /** The `finally` of `#run`. */
    method Finish(ghost outstanding: seq<Batch>, ghost returning: nat)
      requires returning > 0
      modifies this`inFlight
      ensures View(outstanding, returning - 1) == Return(old(View(outstanding, returning)))
    {
      inFlight := false;
    }
  }
}
