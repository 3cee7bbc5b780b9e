/**
  What each verdict does, and how long it holds the next request back
  (packages/sdk-browser/src/transport.ts:145-157, 181-299, 395-408), over every run.
 */
module TransportBackoff {
  import opened Basics
  import opened EventQueues
  import opened QueueTabs
  import opened TransportRuns
  import opened Transports

  // ---- Beginning ------------------------------------------------------------------------------------------

  /** A trigger begins a request exactly from an idle, unstopped sender past its wait, or told to bypass it, with something to send. */
  lemma BeginsIff(y: System, a: Action)
    requires a.Trigger?
    ensures |Act(y, a).outstanding| > |y.outstanding|
       <==> !y.sender.stopped && !y.sender.inFlight && (a.bypass || y.sender.nextAttemptAt <= a.now as real)
            && Pruned(y.events, a.now) != [] && a.json.Fine?
  {
    hide Pruned, AfterRemove, Unserialisable, Written, Seen;
  }

  /** A batch that cannot be sent loses the events that throw on their own, or all of itself when none does. */
  lemma PoisonLeaves(y: System, a: Action, id: string)
    requires a.Trigger? && !y.sender.stopped && !y.sender.inFlight && (a.bypass || y.sender.nextAttemptAt <= a.now as real)
    requires a.json.Throws? && Has(First(Pruned(y.events, a.now)), id) && ThrewOrNoneDid(First(Pruned(y.events, a.now)), a.json.bad, id)
    ensures Act(y, a).outstanding == y.outstanding && !Has(Act(y, a).events, id)
  {
    hide Merged, Pruned, Unserialisable;
    var seen := Pruned(y.events, a.now);
    UnserialisableIsInBatch(First(seen), a.json.bad);
    var ids := Unserialisable(First(seen), a.json.bad);
    GoneOnceRemoved(Seen(y.persist, y.content, a.access), seen, ids, a.now, id);
  }

  lemma GoneOnceRemoved(stored: seq<QueuedEvent>, own: seq<QueuedEvent>, ids: seq<string>, now: int, id: string)
    requires id in ids
    ensures !Has(AfterRemove(stored, own, ids, now), id)
  {
    hide Merged;
    var left := AfterRemove(stored, own, ids, now);
    PrunedMembers(Without(Merged(stored, own), ids), now);
    FilterMembers((e: QueuedEvent) => e.id !in ids, Merged(stored, own));
    forall i | 0 <= i < |left| ensures left[i].id != id { assert left[i] in left; }
  }

  // ---- Verdicts ---------------------------------------------------------------------------------------------

  /** Taken, or refused for good: the batch is done with. */
  predicate BatchIsDone(reply: Transports.Reply) { reply.Status? && (reply.code == 202 || reply.code == 400 || reply.code == 413) }

  predicate KeyRejected(reply: Transports.Reply) { reply.Status? && reply.code == 401 }

  /**
    Each verdict's whole effect: a batch that is done with leaves the queue, and only then does the
    queue change; a rejected key stops the sender and its timer, and nothing else does; and the
    request is no longer out, though the sender is busy until its run returns. A refusal leaves the
    wait as it was.
   */
  lemma VerdictDecides(y: System, a: Action)
    requires a.Reply? && a.i < |y.outstanding|
    ensures var z := Act(y, a);
            && z.outstanding == y.outstanding[..a.i] + y.outstanding[a.i + 1..]
            && z.returning == y.returning + 1 && z.sender.inFlight == y.sender.inFlight
            && (if BatchIsDone(a.reply) then forall e :: e in y.outstanding[a.i] ==> !Has(z.events, e.id)
                else z.events == y.events && z.content == y.content)
            && z.sender.stopped == (y.sender.stopped || KeyRejected(a.reply))
            && z.sender.timer == (y.sender.timer && !KeyRejected(a.reply))
            && (KeyRejected(a.reply) || (BatchIsDone(a.reply) && a.reply.code != 202) ==>
                  z.sender.nextAttemptAt == y.sender.nextAttemptAt && z.sender.failures == y.sender.failures)
  {
    hide AfterRemove, Written, Seen, Delay;
    var batch := y.outstanding[a.i];
    if BatchIsDone(a.reply) {
      forall e | e in batch ensures !Has(Act(y, a).events, e.id) {
        HasMember(batch, e);
        IdsOf(batch, e.id);
        GoneOnceRemoved(Seen(y.persist, y.content, a.access), y.events, Ids(batch), a.now, e.id);
      }
    }
  }

  // ---- Waiting ------------------------------------------------------------------------------------------------

  /** Retried verdicts since the last 202. */
  function Streak(y: System, actions: seq<Action>): nat {
    if actions == [] then y.sender.failures
    else
      var before, a := actions[..|actions| - 1], actions[|actions| - 1];
      var so := Streak(y, before);
      if !a.Reply? || a.i >= |Acts(y, before).outstanding| then so
      else if a.reply.Status? && a.reply.code == 202 then 0
      else if Retried(a.reply) then so + 1
      else so
  }

  lemma {:induction false} FailuresAreTheStreak(y: System, actions: seq<Action>)
    ensures Acts(y, actions).sender.failures == Streak(y, actions)
  {
    hide AfterRemove, AfterAdd, Pruned, Written, Seen, Delay, Unserialisable, First;
    if actions != [] { FailuresAreTheStreak(y, actions[..|actions| - 1]); }
  }

  /** The least wait after this many retried verdicts in a row, in milliseconds. */
  function LeastWait(f: nat): real
    requires f > 0
  {
    if f == 1 then 1000.0 else if f == 2 then 2000.0 else if f == 3 then 4000.0 else if f == 4 then 8000.0
    else if f == 5 then 16_000.0 else 30_000.0
  }

  /** What the server advised, between one second and five minutes. */
  function Honoured(advised: real): real { if advised < 1000.0 then 1000.0 else if advised > 300_000.0 then 300_000.0 else advised }

  function Advice(reply: Transports.Reply): Option<real> { if reply.Failure? then None else reply.advised }

  lemma {:induction false} DoubledFromFive(n: nat)
    requires n >= 5
    ensures Doubled(n) >= 32
  {
    if n > 5 { DoubledFromFive(n - 1); } else { assert Doubled(4) == 16 by { assert Doubled(2) == 4; } }
  }

  lemma ExponentialIs(f: nat)
    requires f > 0
    ensures Exponential(f) as real == LeastWait(f)
  {
    assert Doubled(2) == 4 && Doubled(4) == 4 * Doubled(2);
    if f > 5 { DoubledFromFive(f - 1); }
  }

  lemma DelayIs(f: nat, advised: Option<real>, jitter: real)
    requires f > 0 && 0.0 <= jitter < 1.0
    ensures advised.Some? ==> Delay(f, advised, jitter) == Honoured(advised.value)
    ensures advised.None? ==> Delay(f, advised, jitter) == LeastWait(f) + LeastWait(f) * jitter / 5.0
    ensures advised.None? ==> LeastWait(f) <= Delay(f, advised, jitter) < 1.2 * LeastWait(f)
  {
    hide Exponential;
    ExponentialIs(f);
    if advised.None? {
      var wait := LeastWait(f);
      FractionIsLess(wait, jitter);
      assert wait * 0.2 * jitter == 0.2 * (wait * jitter);
    }
  }

  /**
    After a retried verdict, the `f`-th since the last 202, the sender waits exactly as advised, or
    without advice the doubled wait and less than a fifth more. Until then no ordinary trigger begins
    a request, whatever else happens.
   */
  lemma RetriedVerdictWaits(y: System, actions: seq<Action>, a: Action, more: seq<Action>)
    requires Sound(y) && a.Reply? && a.i < |Acts(y, actions).outstanding| && Retried(a.reply) && 0.0 <= a.jitter < 1.0
    ensures var z := Act(Acts(y, actions), a);
            var wait := z.sender.nextAttemptAt - a.now as real;
            var f := Streak(y, actions) + 1;
            && (Advice(a.reply).Some? ==> wait == Honoured(Advice(a.reply).value))
            && (Advice(a.reply).None? ==>
                  wait == LeastWait(f) + LeastWait(f) * a.jitter / 5.0 && LeastWait(f) <= wait < 1.2 * LeastWait(f))
            && (OrdinaryBefore(more, z.sender.nextAttemptAt) ==>
                  Acts(z, more).outstanding == [] && Acts(z, more).sender.nextAttemptAt == z.sender.nextAttemptAt)
  {
    hide Acts, Delay;
    var w := Acts(y, actions);
    FailuresAreTheStreak(y, actions);
    AtMostOneInFlight(y, actions);
    DelayIs(w.sender.failures + 1, Advice(a.reply), a.jitter);
    var z := Act(w, a);
    assert z.outstanding == [];
    if OrdinaryBefore(more, z.sender.nextAttemptAt) { BackoffHolds(z, more); }
  }

  /** A 202 clears the wait: the next trigger need not be held back at all. */
  lemma AcceptedClearsTheWait(y: System, a: Action)
    requires a.Reply? && a.i < |y.outstanding| && a.reply.Status? && a.reply.code == 202
    ensures Act(y, a).sender.nextAttemptAt == 0.0 && Act(y, a).sender.failures == 0
  {
    hide AfterRemove, Written, Seen;
  }
}
