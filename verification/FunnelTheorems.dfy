/** The report's numbers against direct counting, for every funnel, population and instant. */
module FunnelTheorems {
  import opened Basics
  import opened Events
  import opened FunnelAst
  import opened FunnelCompile
  import opened FunnelLevels
  import opened FunnelMeaning
  import opened Spines
  import opened Suppression
  import opened WindowFunnel

  // ---- Compiled chains are the paths they stand for --------------------------------------------

  ghost function StepsAt(steps: seq<Step>, at: seq<nat>): (r: seq<Step>)
    requires InRange(at, |steps|)
    ensures |r| == |at| && forall j :: 0 <= j < |at| ==> r[j] == steps[at[j]]
  {
    seq(|at|, j requires 0 <= j < |at| => steps[at[j]])
  }

  lemma {:induction false} RequiredAt(steps: seq<Step>, k: nat)
    requires k <= |steps| && InRange(Positions(steps, false, k), |steps|)
    ensures StepsAt(steps, Positions(steps, false, k)) == Required(steps[..k])
  {
    if k > 0 {
      PositionsInRange(steps, false, k - 1);
      RequiredAt(steps, k - 1);
      assert steps[..k] == steps[..k - 1] + [steps[k - 1]];
      FilterConcat((s: Step) => !s.optional, steps[..k - 1], [steps[k - 1]]);
      var last := [steps[k - 1]];
      assert last[1..] == [];
      var at, before := Positions(steps, false, k), Positions(steps, false, k - 1);
      assert StepsAt(steps, at) == StepsAt(steps, before) + if steps[k - 1].optional then [] else last;
    }
  }

  /** Positions that start at 0 and never return to it compile with the entry bound in front only. */
  lemma PickCompiles(steps: seq<Step>, until: int, at: seq<nat>)
    requires InRange(at, |steps|)
    requires forall j :: 0 <= j < |at| ==> (at[j] == 0 <==> j == 0)
    ensures Compiles(Pick(steps, until, at), StepsAt(steps, at), until)
  {
  }

  lemma RequiredStartsAtZero(steps: seq<Step>, k: nat)
    requires k <= |steps| && steps != [] && !steps[0].optional
    ensures var at := Positions(steps, false, k); forall j :: 0 <= j < |at| ==> (at[j] == 0 <==> j == 0)
    ensures 1 <= k ==> Positions(steps, false, k) != []
  {
    if k > 0 {
      PositionsMembers(steps, false, k);
      PositionsPrefix(steps, false, 1, k);
      var at := Positions(steps, false, k);
      assert Positions(steps, false, 0) == [] && Positions(steps, false, 1) == [0];
      assert at[0] == 0;
    }
  }

  lemma NamesCover(steps: seq<Step>, n: nat, i: nat)
    requires i < n <= |steps|
    ensures steps[i].event in Names(steps, n)
  {
    if i < n - 1 {
      NamesCover(steps, n - 1, i);
    }
  }

  /** A chain of positions is reached exactly by those who did those steps. */
  lemma ChainIsPath(run: Run, p: string, at: seq<nat>)
    requires run.Valid() && at != [] && InRange(at, |run.def.steps|)
    requires forall j :: 0 <= j < |at| ==> (at[j] == 0 <==> j == 0)
    ensures Reaches(Rows(run, p), Pick(run.def.steps, run.range.until, at), run.Window(), |at|)
            <==> Did(run, p, StepsAt(run.def.steps, at))
  {
    var steps := run.def.steps;
    PickCompiles(steps, run.range.until, at);
    forall j | 0 <= j < |at| ensures StepsAt(steps, at)[j].event in run.Plan().names {
      NamesCover(steps, |steps|, at[j]);
    }
    ScanLosesNothing(run, p, Pick(steps, run.range.until, at), StepsAt(steps, at));
  }

  lemma RowsSorted(run: Run, p: string)
    requires run.Valid()
    ensures Sorted(Rows(run, p))
  {
    SortedFilter(e => Scanned(run.Plan(), e), run.table);
    SortedFilter(e => run.Mine(p, e), Filter(e => Scanned(run.Plan(), e), run.table));
  }

  lemma SortedFilter(keep: Event -> bool, s: seq<Event>)
    requires Sorted(s)
    ensures Sorted(Filter(keep, s))
  {
    SubseqSelf(Filter(keep, s));
    SubseqFilter(Filter(keep, s), keep, s);
    SubseqSorted(Filter(keep, s), s);
  }

  lemma {:induction false} SubseqSelf(s: seq<Event>)
    ensures Subseq(s, s)
  {
    if s != [] { SubseqSelf(s[1..]); }
  }

  /** The required positions before `i`, then `i`, spell out the path to step `i`. */
  lemma PathPositions(steps: seq<Step>, i: nat)
    requires i < |steps| && !steps[0].optional
    ensures InRange(BranchPositions(steps, i), |steps|)
    ensures StepsAt(steps, BranchPositions(steps, i)) == Path(steps, i)
    ensures var at := BranchPositions(steps, i); forall j :: 0 <= j < |at| ==> (at[j] == 0 <==> j == 0)
  {
    ChainsInRange(steps, i);
    PositionsInRange(steps, false, i);
    RequiredAt(steps, i);
    RequiredStartsAtZero(steps, i);
    assert StepsAt(steps, BranchPositions(steps, i)) == StepsAt(steps, Positions(steps, false, i)) + [steps[i]];
  }

  /** A required step: spine rank reached means its path was walked. */
  lemma RankIsPath(run: Run, p: string, i: nat)
    requires run.Valid() && i < |run.def.steps| && !run.def.steps[i].optional
    ensures PlacementAt(run.def.steps, i).spineRank <= SpineLevel(run, p) <==> Did(run, p, Path(run.def.steps, i))
    ensures PlacementAt(run.def.steps, i).spineRank <= |run.Plan().spine|
  {
    var steps, rows, w := run.def.steps, Rows(run, p), run.Window();
    var at := BranchPositions(steps, i);
    assert at == Positions(steps, false, i + 1);
    PathPositions(steps, i);
    ChainIsPath(run, p, at);
    RowsSorted(run, p);
    SpineStartsWith(run, i);
    var spine, short := run.Plan().spine, Pick(steps, run.range.until, at);
    SharedPrefix(rows, spine, short, w, |at|);
    LevelAtLeast(rows, spine, w, |at|);
  }

  lemma SpineStartsWith(run: Run, i: nat)
    requires i < |run.def.steps| && !run.def.steps[i].optional && InRange(BranchPositions(run.def.steps, i), |run.def.steps|)
    ensures Pick(run.def.steps, run.range.until, BranchPositions(run.def.steps, i)) <= run.Plan().spine
  {
    var steps, until := run.def.steps, run.range.until;
    PositionsPrefix(steps, false, i + 1, |steps|);
    PositionsInRange(steps, false, |steps|);
    assert BranchPositions(steps, i) == Positions(steps, false, i + 1);
    assert run.Plan().spine == Pick(steps, until, Positions(steps, false, |steps|));
    hide Pick, PlanOf;
    PickPrefix(steps, until, BranchPositions(steps, i), Positions(steps, false, |steps|));
  }

  lemma PickPrefix(steps: seq<Step>, until: int, a: seq<nat>, b: seq<nat>)
    requires InRange(a, |steps|) && InRange(b, |steps|) && a <= b
    ensures Pick(steps, until, a) <= Pick(steps, until, b)
  {
    hide Pick;
    assert forall i :: 0 <= i < |a| ==> a[i] == b[i];
  }

  /** An optional step: its branch level reached means its path was walked. */
  lemma TookIsPath(run: Run, p: string, k: nat)
    requires run.Valid() && k < |run.def.steps| && run.def.steps[k].optional
    ensures Took(run, p, SideAt(run.def.steps, run.range.until, k)) <==> Did(run, p, Path(run.def.steps, k))
  {
    var steps := run.def.steps;
    var at := BranchPositions(steps, k);
    PathPositions(steps, k);
    ChainIsPath(run, p, at);
    RowsSorted(run, p);
    LevelAtLeast(Rows(run, p), Pick(steps, run.range.until, at), run.Window(), |at|);
  }

  /** The position of the next required step after the optional one at `k`. */
  ghost function NextRequired(steps: seq<Step>, k: nat): nat
    requires k < |steps| && steps[k].optional && !steps[|steps| - 1].optional
    ensures k < NextRequired(steps, k) < |steps| && !steps[NextRequired(steps, k)].optional
    decreases |steps| - k
  {
    if !steps[k + 1].optional then k + 1 else NextRequired(steps, k + 1)
  }

  /** No required step lies between an optional step and the next required one. */
  lemma {:induction false} NextRequiredRank(steps: seq<Step>, k: nat)
    requires k < |steps| && steps[k].optional && !steps[|steps| - 1].optional
    ensures Positions(steps, false, NextRequired(steps, k)) == Positions(steps, false, k)
    decreases |steps| - k
  {
    if steps[k + 1].optional {
      NextRequiredRank(steps, k + 1);
    }
  }

  lemma FullChain(steps: seq<Step>, k: nat)
    requires k < |steps| && steps[k].optional && !steps[0].optional && !steps[|steps| - 1].optional
    ensures var at := BranchPositions(steps, k) + [NextRequired(steps, k)];
            && FullPositions(steps, k) == Some(at)
            && InRange(at, |steps|)
            && StepsAt(steps, at) == Path(steps, k) + [steps[NextRequired(steps, k)]]
            && forall j :: 0 <= j < |at| ==> (at[j] == 0 <==> j == 0)
  {
    NextRequiredRank(steps, k);
    PositionAt(steps, NextRequired(steps, k));
    PathPositions(steps, k);
    assert StepsAt(steps, BranchPositions(steps, k) + [NextRequired(steps, k)])
        == StepsAt(steps, BranchPositions(steps, k)) + [steps[NextRequired(steps, k)]];
  }

  lemma CarriedOnIsPath(run: Run, p: string, k: nat)
    requires run.Valid() && k < |run.def.steps| && run.def.steps[k].optional
    ensures var steps := run.def.steps;
            CarriedOn(run, p, SideAt(steps, run.range.until, k))
            <==> Did(run, p, Path(steps, k) + [steps[NextRequired(steps, k)]])
  {
    var steps := run.def.steps;
    var at := BranchPositions(steps, k) + [NextRequired(steps, k)];
    FullChain(steps, k);
    ChainIsPath(run, p, at);
    RowsSorted(run, p);
    LevelAtLeast(Rows(run, p), Pick(steps, run.range.until, at), run.Window(), |at|);
  }
}
