/**
  Splitting a step list into the required spine and the optional branches
  (packages/core/src/funnels/spine.ts).
 */
module Spines {
  import opened Basics
  import opened FunnelAst

  datatype Branch = Branch(index: nat, level: nat)

  datatype Placement = Placement(position: nat, optional: bool, spineRank: nat, branch: Option<Branch>)

  datatype Spine = Spine(required: seq<nat>, optional: seq<nat>, placements: seq<Placement>)

  /** The positions below `n` whose step is (or is not) optional, in order. */
  ghost function Positions(steps: seq<Step>, optional: bool, n: nat): (r: seq<nat>)
    requires n <= |steps|
    ensures |r| <= n
  {
    if n == 0 then [] else Positions(steps, optional, n - 1) + One(steps, optional, n - 1)
  }

  ghost function One(steps: seq<Step>, optional: bool, i: nat): seq<nat>
    requires i < |steps|
  {
    if steps[i].optional == optional then [i] else []
  }

  ghost predicate Ascending(r: seq<nat>) { forall i, j :: 0 <= i < j < |r| ==> r[i] < r[j] }

  lemma {:induction false} PositionsMembers(steps: seq<Step>, optional: bool, n: nat)
    requires n <= |steps|
    ensures forall x: nat :: x in Positions(steps, optional, n) <==> x < n && steps[x].optional == optional
    ensures Ascending(Positions(steps, optional, n))
  {
    if n > 0 {
      PositionsMembers(steps, optional, n - 1);
      var r, q := Positions(steps, optional, n), Positions(steps, optional, n - 1);
      forall i, j | 0 <= i < j < |r| ensures r[i] < r[j] {
        assert q <= r && i < |q| && q[i] == r[i] && q[i] in q;
        if j < |q| {
          assert q[i] < q[j];
        } else {
          var x: nat := q[i];
          assert x in q && x < n - 1;
          assert r[j] == n - 1;
        }
      }
    }
  }

  ghost function PlacementAt(steps: seq<Step>, i: nat): Placement
    requires i < |steps|
  {
    var rank := |Positions(steps, false, i)|;
    if steps[i].optional then Placement(i, true, rank, Some(Branch(|Positions(steps, true, i)|, rank + 1)))
    else Placement(i, false, rank + 1, None)
  }

  ghost function SpineUpTo(steps: seq<Step>, n: nat): Spine
    requires n <= |steps|
  {
    Spine(Positions(steps, false, n), Positions(steps, true, n), Placements(steps, n))
  }

  ghost function Placements(steps: seq<Step>, n: nat): (r: seq<Placement>)
    requires n <= |steps|
    ensures |r| == n && forall i :: 0 <= i < n ==> r[i] == PlacementAt(steps, i)
  {
    if n == 0 then [] else Placements(steps, n - 1) + [PlacementAt(steps, n - 1)]
  }

  ghost function SpineOf(steps: seq<Step>): Spine { SpineUpTo(steps, |steps|) }

  method FunnelSpine(steps: seq<Step>) returns (spine: Spine)
    ensures spine == SpineOf(steps)
  {
    var required: seq<nat>, optional: seq<nat>, placements: seq<Placement> := [], [], [];
    for position := 0 to |steps|
      invariant Spine(required, optional, placements) == SpineUpTo(steps, position)
    {
      if steps[position].optional {
        // Read before pushing: an optional step never counts itself.
        var spineRank := |required|;
        placements := placements + [Placement(position, true, spineRank, Some(Branch(|optional|, spineRank + 1)))];
        optional := optional + [position];
        continue;
      }
      required := required + [position];
      placements := placements + [Placement(position, false, |required|, None)];
    }
    spine := Spine(required, optional, placements);
  }

  /** Positions below `n` are the first of the positions below `m`. */
  lemma {:induction false} PositionsPrefix(steps: seq<Step>, optional: bool, n: nat, m: nat)
    requires n <= m <= |steps|
    ensures Positions(steps, optional, n) <= Positions(steps, optional, m)
    ensures var r := Positions(steps, optional, m);
            forall j :: |Positions(steps, optional, n)| <= j < |r| ==> n <= r[j]
    decreases m - n
  {
    if n < m {
      PositionsPrefix(steps, optional, n, m - 1);
    }
  }

  /** A step of either kind sits in its own list at the number of its kind before it. */
  lemma PositionAt(steps: seq<Step>, i: nat)
    requires i < |steps|
    ensures var o := steps[i].optional; var r := Positions(steps, o, |steps|);
            |Positions(steps, o, i)| < |r| && r[|Positions(steps, o, i)|] == i
  {
    PositionsPrefix(steps, steps[i].optional, i + 1, |steps|);
    var mine := Positions(steps, steps[i].optional, i + 1);
    assert mine[|mine| - 1] == i;
  }

  lemma PlacementsAreWhere(steps: seq<Step>, i: nat)
    requires i < |steps|
    ensures |SpineOf(steps).placements| == |steps| && SpineOf(steps).placements[i] == PlacementAt(steps, i)
    ensures PlacementAt(steps, i).position == i && PlacementAt(steps, i).optional == steps[i].optional
  {
  }

  /** The required steps before position `i` are the first of all required ones, and the rest come at or after it. */
  lemma RequiredBefore(steps: seq<Step>, i: nat)
    requires i < |steps|
    ensures var before, all := Positions(steps, false, i), Positions(steps, false, |steps|);
            && |before| <= |all|
            && (forall r :: 0 <= r < |before| ==> all[r] < i)
            && (forall r :: |before| <= r < |all| ==> i <= all[r])
  {
    PositionsPrefix(steps, false, i, |steps|);
    PositionsMembers(steps, false, i);
    var before, all := Positions(steps, false, i), Positions(steps, false, |steps|);
    forall r | 0 <= r < |before| ensures all[r] < i { assert before[r] == all[r] && before[r] in before; }
  }

  /** Every position and its rank: required steps are where their rank says, branches likewise. */
  lemma SpineIsConsistent(steps: seq<Step>, i: nat)
    requires i < |steps|
    ensures |SpineOf(steps).placements| == |steps|
    ensures var p := SpineOf(steps).placements[i]; p.position == i && p.optional == steps[i].optional
    ensures var s := SpineOf(steps); var p := s.placements[i];
            if steps[i].optional
            then p.branch.Some? && p.branch.value.index < |s.optional| && s.optional[p.branch.value.index] == i
                 && p.branch.value.level == p.spineRank + 1 && p.spineRank <= |s.required|
                 && (forall r :: 0 <= r < p.spineRank ==> s.required[r] < i)
                 && (forall r :: p.spineRank <= r < |s.required| ==> i < s.required[r])
            else p.branch.None? && 1 <= p.spineRank <= |s.required| && s.required[p.spineRank - 1] == i
  {
    hide Positions, Placements;
    PlacementsAreWhere(steps, i);
    PositionAt(steps, i);
    RequiredBefore(steps, i);
    if steps[i].optional { NotRequired(steps, i); }
  }

  lemma NotRequired(steps: seq<Step>, i: nat)
    requires i < |steps| && steps[i].optional
    ensures var all := Positions(steps, false, |steps|); forall r :: 0 <= r < |all| ==> all[r] != i
  {
    PositionsMembers(steps, false, |steps|);
    var all := Positions(steps, false, |steps|);
    forall r | 0 <= r < |all| ensures all[r] != i { assert all[r] in all; }
  }
}
