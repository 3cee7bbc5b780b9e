/**
  Turning the level histogram back into per-step counts and rates
  (packages/core/src/funnels/levels.ts).
 */
module FunnelLevels {
  import opened Basics
  import opened FunnelAst
  import opened Spines

  /** One histogram row. `reached` and `continued` may be absent, which reads as all zeros. */
  datatype LevelRow = LevelRow(level: nat, people: nat, partial: nat, reached: seq<nat>, continued: seq<nat>)

  datatype OptionalResult = OptionalResult(skipped: int, continued: nat)

  datatype StepResult = StepResult(index: nat, event: string, people: nat, fromPrevious: real, fromStart: real,
                                   optional: Option<OptionalResult>)

  datatype FunnelResult = FunnelResult(entered: nat, converted: nat, conversionRate: real,
                                       partialWindowEntrants: nat, steps: seq<StepResult>)

  function At(s: seq<nat>, j: nat): nat { if j < |s| then s[j] else 0 }

  function Rate(n: nat, d: nat): real { if d == 0 then 0.0 else n as real / d as real }

  // ---- What the numbers are, as sums over rows -----------------------------------------------

  ghost function Total(rows: seq<LevelRow>, f: LevelRow -> nat): nat {
    if rows == [] then 0 else Total(rows[..|rows| - 1], f) + f(rows[|rows| - 1])
  }

  /** People who stopped exactly at spine rank `l`, out of `n`. Level 0 never entered. */
  ghost function Stopped(rows: seq<LevelRow>, n: nat, l: nat): nat {
    Total(rows, (r: LevelRow) => if r.level >= 1 && Min(r.level, n) == l then r.people else 0)
  }

  /** People at spine rank `l` or beyond. */
  ghost function AtLeast(rows: seq<LevelRow>, n: nat, l: nat): nat {
    Total(rows, (r: LevelRow) => if r.level >= 1 && l <= Min(r.level, n) then r.people else 0)
  }

  ghost function Reached(rows: seq<LevelRow>, j: nat): nat { Total(rows, (r: LevelRow) => At(r.reached, j)) }

  ghost function Continued(rows: seq<LevelRow>, j: nat): nat { Total(rows, (r: LevelRow) => At(r.continued, j)) }

  ghost function Partial(rows: seq<LevelRow>): nat {
    Total(rows, (r: LevelRow) => if r.level >= 1 then r.partial else 0)
  }

  lemma {:induction false} SuffixSum(rows: seq<LevelRow>, n: nat, l: nat)
    ensures AtLeast(rows, n, l) == Stopped(rows, n, l) + AtLeast(rows, n, l + 1)
    ensures AtLeast(rows, n, n + 1) == 0
  {
    if rows != [] {
      SuffixSum(rows[..|rows| - 1], n, l);
    }
  }

  /** The number of people at or beyond rank `r`, except that nobody is beyond a spine of none. */
  ghost function Population(rows: seq<LevelRow>, n: nat, r: nat): nat {
    if 1 <= r <= n then AtLeast(rows, n, r) else 0
  }

  ghost function StepOf(rows: seq<LevelRow>, steps: seq<Step>, i: nat): StepResult
    requires i < |steps|
  {
    var n := |Positions(steps, false, |steps|)|;
    var entered := Population(rows, n, 1);
    var p := PlacementAt(steps, i);
    if p.branch.Some? then
      var people := Reached(rows, p.branch.value.index);
      var branchPoint := if p.spineRank == 0 then entered else Population(rows, n, p.spineRank);
      StepResult(i + 1, steps[i].event, people, Rate(people, branchPoint), Rate(people, entered),
                 Some(OptionalResult(branchPoint - people, Continued(rows, p.branch.value.index))))
    else
      var people := Population(rows, n, p.spineRank);
      var previous := if p.spineRank <= 1 then people else Population(rows, n, p.spineRank - 1);
      StepResult(i + 1, steps[i].event, people, Rate(people, previous), Rate(people, entered), None)
  }

  ghost function StepsOf(rows: seq<LevelRow>, steps: seq<Step>, k: nat): (r: seq<StepResult>)
    requires k <= |steps|
    ensures |r| == k && forall i :: 0 <= i < k ==> r[i] == StepOf(rows, steps, i)
  {
    if k == 0 then [] else StepsOf(rows, steps, k - 1) + [StepOf(rows, steps, k - 1)]
  }

  ghost function SummaryOf(rows: seq<LevelRow>, steps: seq<Step>): FunnelResult {
    var n := |Positions(steps, false, |steps|)|;
    FunnelResult(Population(rows, n, 1), Population(rows, n, n),
                 Rate(Population(rows, n, n), Population(rows, n, 1)), Partial(rows), StepsOf(rows, steps, |steps|))
  }

  // ---- The loops -----------------------------------------------------------------------------

  lemma ColumnGrows(rows: seq<LevelRow>, i: nat, j: nat)
    requires i < |rows|
    ensures Reached(rows[..i + 1], j) == Reached(rows[..i], j) + At(rows[i].reached, j)
    ensures Continued(rows[..i + 1], j) == Continued(rows[..i], j) + At(rows[i].continued, j)
  {
    assert rows[..i + 1][..i] == rows[..i];
  }

  lemma NoColumns(j: nat)
    ensures Reached([], j) == 0 && Continued([], j) == 0
  {
  }

  /** Column `j` of a per-row list, summed over every row: one accumulator of `summarise`. */
  method SumColumns(rows: seq<LevelRow>, width: nat) returns (reached: seq<nat>, continued: seq<nat>)
    ensures |reached| == |continued| == width
    ensures forall j :: 0 <= j < width ==> reached[j] == Reached(rows, j) && continued[j] == Continued(rows, j)
  {
    hide Reached, Continued, At;
    var a, b := new nat[width](_ => 0), new nat[width](_ => 0);
    forall j: nat ensures Reached([], j) == 0 && Continued([], j) == 0 { NoColumns(j); }
    assert rows[..0] == [];
    for i := 0 to |rows|
      invariant forall j :: 0 <= j < width ==> a[j] == Reached(rows[..i], j) && b[j] == Continued(rows[..i], j)
    {
      forall j: nat
        ensures Reached(rows[..i + 1], j) == Reached(rows[..i], j) + At(rows[i].reached, j)
        ensures Continued(rows[..i + 1], j) == Continued(rows[..i], j) + At(rows[i].continued, j)
      {
        ColumnGrows(rows, i, j);
      }
      for j := 0 to width
        invariant forall k :: 0 <= k < j ==> a[k] == Reached(rows[..i + 1], k)
        invariant forall k :: j <= k < width ==> a[k] == Reached(rows[..i], k)
        invariant forall k :: 0 <= k < width ==> b[k] == Continued(rows[..i], k)
      {
        a[j] := a[j] + At(rows[i].reached, j);
      }
      for j := 0 to width
        invariant forall k :: 0 <= k < j ==> b[k] == Continued(rows[..i + 1], k)
        invariant forall k :: j <= k < width ==> b[k] == Continued(rows[..i], k)
        invariant forall k :: 0 <= k < width ==> a[k] == Reached(rows[..i + 1], k)
      {
        b[j] := b[j] + At(rows[i].continued, j);
      }
    }
    assert rows[..|rows|] == rows;
    reached, continued := a[..], b[..];
  }

  /** The buckets and their suffix sum: `atLeast[r]` counts people at spine rank `r` or beyond. */
  method SuffixCounts(rows: seq<LevelRow>, n: nat) returns (atLeast: seq<nat>, partial: nat)
    ensures |atLeast| == n + 2 && forall r :: 0 <= r < n + 2 ==> atLeast[r] == Population(rows, n, r)
    ensures partial == Partial(rows)
  {
    var stoppedAt, sums := new nat[n + 2](_ => 0), new nat[n + 2](_ => 0);
    partial := 0;
    for i := 0 to |rows|
      invariant forall l :: 0 <= l < n + 2 ==> stoppedAt[l] == Stopped(rows[..i], n, l) && sums[l] == 0
      invariant partial == Partial(rows[..i])
    {
      assert rows[..i + 1][..i] == rows[..i];
      if rows[i].level < 1 {
        continue;
      }
      var level := Min(rows[i].level, n);
      stoppedAt[level] := stoppedAt[level] + rows[i].people;
      partial := partial + rows[i].partial;
    }
    assert rows[..|rows|] == rows;
    SuffixSum(rows, n, n);
    for i := n + 1 downto 1
      invariant forall l :: 0 <= l < n + 2 ==> stoppedAt[l] == Stopped(rows, n, l)
      invariant forall l :: 0 <= l < n + 2 ==> sums[l] == if l < i then 0 else AtLeast(rows, n, l)
    {
      SuffixSum(rows, n, i);
      sums[i] := stoppedAt[i] + sums[i + 1];
    }
    atLeast := sums[..];
  }

  /** One entry of the result: an optional step rates against its branch point, a required one by rank. */
  method StepEntry(ghost rows: seq<LevelRow>, steps: seq<Step>, i: nat, p: Placement, atLeast: seq<nat>,
                   reached: seq<nat>, continued: seq<nat>) returns (r: StepResult)
    requires i < |steps| && p == PlacementAt(steps, i)
    requires var n := |Positions(steps, false, |steps|)|;
             |atLeast| == n + 2 && forall k :: 0 <= k < n + 2 ==> atLeast[k] == Population(rows, n, k)
    requires |reached| == |continued| == |Positions(steps, true, |steps|)|
    requires forall j :: 0 <= j < |reached| ==> reached[j] == Reached(rows, j) && continued[j] == Continued(rows, j)
    ensures r == StepOf(rows, steps, i)
  {
    SpineIsConsistent(steps, i);
    var entered := atLeast[1];
    if p.branch.Some? {
      var people: int := reached[p.branch.value.index];
      var branchPoint: int := if p.spineRank == 0 then entered else atLeast[p.spineRank];
      r := StepResult(i + 1, steps[i].event, people, Rate(people, branchPoint), Rate(people, entered),
                      Some(OptionalResult(branchPoint - people, continued[p.branch.value.index])));
    } else {
      var people := atLeast[p.spineRank];
      var previous := if p.spineRank <= 1 then people else atLeast[p.spineRank - 1];
      r := StepResult(i + 1, steps[i].event, people, Rate(people, previous), Rate(people, entered), None);
    }
  }

  method Summarise(rows: seq<LevelRow>, steps: seq<Step>) returns (result: FunnelResult)
    ensures result == SummaryOf(rows, steps)
  {
    var spine := FunnelSpine(steps);
    var n := |spine.required|;
    var reached, continued := SumColumns(rows, |spine.optional|);
    var atLeast, partial := SuffixCounts(rows, n);
    var out: seq<StepResult> := [];
    for i := 0 to |steps|
      invariant out == StepsOf(rows, steps, i)
    {
      var entry := StepEntry(rows, steps, i, spine.placements[i], atLeast, reached, continued);
      out := out + [entry];
    }
    result := FunnelResult(atLeast[1], atLeast[n], Rate(atLeast[n], atLeast[1]), partial, out);
  }
}
