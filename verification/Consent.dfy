/** The consent gate (packages/sdk-browser/src/consent.ts). */
module Consenting {
  import opened EventQueues

  const MAX_HELD_EVENTS: nat := 100

  datatype ConsentState = Granted | Refused | Pending

  /** A refusal signal is only read when consent is required. */
  function Opening(required: bool, refusalSignalled: bool): ConsentState {
    if !required then Granted else if refusalSignalled then Refused else Pending
  }

  /** The last hundred. */
  function LastHeld(events: seq<QueuedEvent>): seq<QueuedEvent> {
    if |events| > MAX_HELD_EVENTS then events[|events| - MAX_HELD_EVENTS..] else events
  }

  function HeldWith(held: seq<QueuedEvent>, e: QueuedEvent): seq<QueuedEvent> { LastHeld(held + [e]) }

  class ConsentGate {
    var state: ConsentState
    var held: seq<QueuedEvent>

    constructor (required: bool, refusalSignalled: bool)
      ensures state == Opening(required, refusalSignalled) && held == []
    {
      held := [];
      if !required {
        state := Granted;
      } else {
        state := if refusalSignalled then Refused else Pending;
      }
    }

    predicate Allowed()
      reads this
    {
      state == Granted
    }

    method Hold(e: QueuedEvent)
      modifies this`held
      ensures held == HeldWith(old(held), e)
    {
      held := held + [e];
      if |held| > MAX_HELD_EVENTS { held := held[|held| - MAX_HELD_EVENTS..]; }
    }

    /** Grants or refuses; the held events are released once, and only on a grant. */
    method Decide(granted: bool) returns (released: seq<QueuedEvent>)
      modifies this
      ensures state == (if granted then Granted else Refused) && held == []
      ensures released == if granted then old(held) else []
    {
      state := if granted then Granted else Refused;
      released := if granted then held else [];
      held := [];
    }
  }

  function HeldAfter(held: seq<QueuedEvent>, events: seq<QueuedEvent>): seq<QueuedEvent>
    decreases |events|
  {
    if events == [] then held else HeldAfter(HeldWith(held, events[0]), events[1..])
  }

  /** At most a hundred, and the newest ones: whatever is forgotten came before all that is kept. */
  lemma LastHeldIs(events: seq<QueuedEvent>)
    ensures |LastHeld(events)| == if |events| <= 100 then |events| else 100
    ensures exists forgotten :: events == forgotten + LastHeld(events)
  {
    var cut := |events| - |LastHeld(events)|;
    assert events == events[..cut] + events[cut..];
  }

  /** Forgetting early forgets nothing the last hundred would have kept. */
  lemma LastHeldTwice(events: seq<QueuedEvent>, more: seq<QueuedEvent>)
    ensures LastHeld(LastHeld(events) + more) == LastHeld(events + more)
    ensures |LastHeld(events)| <= MAX_HELD_EVENTS
  {
  }

  /** However many are held one by one, what is kept is the last hundred of all of them, in order. */
  lemma {:induction false} HoldKeepsTheLastHundred(held: seq<QueuedEvent>, events: seq<QueuedEvent>)
    requires |held| <= MAX_HELD_EVENTS
    ensures HeldAfter(held, events) == LastHeld(held + events)
    decreases |events|
  {
    if events == [] {
      assert held + events == held;
    } else {
      hide LastHeld;
      HoldKeepsTheLastHundred(HeldWith(held, events[0]), events[1..]);
      LastHeldTwice(held + [events[0]], events[1..]);
      assert held + events == (held + [events[0]]) + events[1..];
    }
  }
}
