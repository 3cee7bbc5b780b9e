/**
  Compiling a funnel into one pass: a scan, one chain of conditions per aggregate, and the levels
  the projections compare with (packages/core/src/funnels/compile.ts).
 */
module FunnelCompile {
  import opened Basics
  import opened Events
  import opened FunnelAst
  import opened Spines
  import opened Suppression
  import opened WindowFunnel

  /**
    What measures one optional step: the chain that ends at it and the level that chain must reach,
    and the chain that carries on to the required step after it, absent when there is none. The
    full chain is one condition longer, so it is compared with `level + 1`.
   */
  datatype Side = Side(branch: seq<Condition>, level: nat, full: Option<seq<Condition>>)

  /** The compiled query: scan bounds, event names, window, chains, partial boundary. */
  datatype Plan = Plan(since: int, scanEnd: int, names: seq<string>, window: int,
                       spine: seq<Condition>, sides: seq<Side>, partialAfter: int)

  // ---- What the compiler builds ------------------------------------------------------------

  function ConditionAt(steps: seq<Step>, until: int, i: nat): Condition
    requires i < |steps|
  {
    Condition(steps[i], if i == 0 then Some(until) else None)
  }

  /** The conditions at some positions, in that order. */
  function Pick(steps: seq<Step>, until: int, at: seq<nat>): (r: seq<Condition>)
    requires forall i :: 0 <= i < |at| ==> at[i] < |steps|
    ensures |r| == |at| && forall i :: 0 <= i < |at| ==> r[i] == ConditionAt(steps, until, at[i])
  {
    if at == [] then [] else [ConditionAt(steps, until, at[0])] + Pick(steps, until, at[1..])
  }

  /** Distinct event names in first-seen order: the scan's `IN` list. */
  function Names(steps: seq<Step>, n: nat): seq<string>
    requires n <= |steps|
  {
    if n == 0 then []
    else
      var before := Names(steps, n - 1);
      if steps[n - 1].event in before then before else before + [steps[n - 1].event]
  }

  ghost predicate InRange(at: seq<nat>, n: nat) { forall i :: 0 <= i < |at| ==> at[i] < n }

  /** The chain that measures the optional step at position `k`, and the one that carries on. */
  ghost function BranchPositions(steps: seq<Step>, k: nat): seq<nat>
    requires k < |steps|
  {
    Positions(steps, false, k) + [k]
  }

  ghost function FullPositions(steps: seq<Step>, k: nat): Option<seq<nat>>
    requires k < |steps|
  {
    var rank, all := |Positions(steps, false, k)|, Positions(steps, false, |steps|);
    if rank < |all| then Some(BranchPositions(steps, k) + [all[rank]]) else None
  }

  lemma ChainsInRange(steps: seq<Step>, k: nat)
    requires k < |steps|
    ensures InRange(BranchPositions(steps, k), |steps|)
    ensures FullPositions(steps, k).Some? ==> InRange(FullPositions(steps, k).value, |steps|)
    ensures InRange(Positions(steps, false, |steps|), |steps|)
  {
    PositionsInRange(steps, false, k);
    PositionsInRange(steps, false, |steps|);
  }

  lemma PositionsInRange(steps: seq<Step>, optional: bool, n: nat)
    requires n <= |steps|
    ensures InRange(Positions(steps, optional, n), n)
  {
    PositionsMembers(steps, optional, n);
    var r := Positions(steps, optional, n);
    forall i | 0 <= i < |r| ensures r[i] < n {
      var x: nat := r[i];
      assert x in r;
    }
  }

  ghost function SideAt(steps: seq<Step>, until: int, k: nat): Side
    requires k < |steps|
  {
    ChainsInRange(steps, k);
    Side(Pick(steps, until, BranchPositions(steps, k)), |Positions(steps, false, k)| + 1,
         match FullPositions(steps, k) case None => None case Some(at) => Some(Pick(steps, until, at)))
  }

  ghost function Sides(steps: seq<Step>, until: int): (r: seq<Side>)
    ensures |r| == |Positions(steps, true, |steps|)|
    ensures var at := Positions(steps, true, |steps|);
            forall j :: 0 <= j < |r| ==> at[j] < |steps| && r[j] == SideAt(steps, until, at[j])
  {
    PositionsInRange(steps, true, |steps|);
    var at := Positions(steps, true, |steps|);
    seq(|at|, j requires 0 <= j < |at| => SideAt(steps, until, at[j]))
  }

  ghost function PlanOf(def: Definition, range: Range, now: int): Plan {
    PositionsInRange(def.steps, false, |def.steps|);
    var window := def.windowSeconds * 1000;
    Plan(range.since, Min(range.until + window, now), Names(def.steps, |def.steps|), window,
         Pick(def.steps, range.until, Positions(def.steps, false, |def.steps|)),
         Sides(def.steps, range.until), now - window)
  }

  /** The name's first use among the steps is at position `i`. */
  ghost predicate FirstUsedAt(steps: seq<Step>, name: string, i: nat) {
    i < |steps| && steps[i].event == name && forall j :: 0 <= j < i ==> steps[j].event != name
  }

  /** The scan's names are exactly the steps' events, each once, in the order the steps first use them. */
  lemma {:induction false} NamesAreTheEvents(steps: seq<Step>, n: nat) returns (at: seq<nat>)
    requires n <= |steps|
    ensures forall i :: 0 <= i < n ==> steps[i].event in Names(steps, n)
    ensures |at| == |Names(steps, n)|
    ensures forall k :: 0 <= k < |at| ==> at[k] < n && FirstUsedAt(steps, Names(steps, n)[k], at[k])
    ensures forall j, k :: 0 <= j < k < |at| ==> at[j] < at[k]
  {
    at := [];
    if n > 0 {
      at := NamesAreTheEvents(steps, n - 1);
      if steps[n - 1].event !in Names(steps, n - 1) {
        assert FirstUsedAt(steps, steps[n - 1].event, n - 1);
        at := at + [n - 1];
      }
    }
  }

  method EventNames(steps: seq<Step>) returns (names: seq<string>)
    ensures names == Names(steps, |steps|)
  {
    names := [];
    for i := 0 to |steps|
      invariant names == Names(steps, i)
    {
      if steps[i].event !in names {
        names := names + [steps[i].event];
      }
    }
  }

  method CompileSide(steps: seq<Step>, until: int, spine: Spine, k: nat) returns (side: Side)
    requires k < |steps| && steps[k].optional && spine == SpineOf(steps)
    ensures side == SideAt(steps, until, k)
  {
    SpineIsConsistent(steps, k);
    PositionsPrefix(steps, false, k, |steps|);
    ChainsInRange(steps, k);
    var rank := spine.placements[k].spineRank;
    var prefix := spine.required[..rank];
    assert prefix == Positions(steps, false, k);
    var full := None;
    if rank < |spine.required| {
      full := Some(Pick(steps, until, prefix + [k] + [spine.required[rank]]));
    }
    side := Side(Pick(steps, until, prefix + [k]), spine.placements[k].branch.value.level, full);
  }

  method CompileSides(steps: seq<Step>, until: int, spine: Spine) returns (sides: seq<Side>)
    requires spine == SpineOf(steps)
    ensures sides == Sides(steps, until)
  {
    sides := [];
    PositionsMembers(steps, true, |steps|);
    PositionsInRange(steps, true, |steps|);
    for j := 0 to |spine.optional|
      invariant sides == Sides(steps, until)[..j]
    {
      var k: nat := spine.optional[j];
      assert k in spine.optional;
      var side := CompileSide(steps, until, spine, k);
      sides := sides + [side];
    }
  }

  /** Refuses what `validateFunnel` and `validateRange` refuse; otherwise the plan. */
  method CompileFunnel(def: Definition, range: Range, now: int) returns (plan: Option<Plan>)
    ensures plan == if ValidFunnel(def) && ValidRange(range) then Some(PlanOf(def, range, now)) else None
  {
    if !ValidFunnel(def) || !ValidRange(range) {
      return None;
    }
    var names := EventNames(def.steps);
    var windowMs := def.windowSeconds * 1000;
    var observeUntil := Min(range.until + windowMs, now);
    var spine := FunnelSpine(def.steps);
    PositionsInRange(def.steps, false, |def.steps|);
    var spineConditions := Pick(def.steps, range.until, spine.required);
    var sides := CompileSides(def.steps, range.until, spine);
    plan := Some(Plan(range.since, observeUntil, names, windowMs, spineConditions, sides, now - windowMs));
  }
}
