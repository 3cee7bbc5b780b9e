/**
  The summary of any histogram rows at all: their order, levels past the end, and level 0
  (packages/core/src/funnels/levels.ts:95-152).
 */
module FunnelRows {
  import opened Basics
  import opened FunnelAst
  import opened FunnelLevels
  import opened Spines

  lemma TotalSnoc(rows: seq<LevelRow>, row: LevelRow, f: LevelRow -> nat)
    ensures Total(rows + [row], f) == Total(rows, f) + f(row)
  {
    assert (rows + [row])[..|rows|] == rows;
  }

  lemma {:induction false} TotalWithout(rows: seq<LevelRow>, i: nat, f: LevelRow -> nat)
    requires i < |rows|
    ensures Total(rows, f) == Total(rows[..i] + rows[i + 1..], f) + f(rows[i])
  {
    var last := |rows| - 1;
    if i == last {
      assert rows[..i] + rows[i + 1..] == rows[..last];
    } else {
      TotalWithout(rows[..last], i, f);
      assert rows[..i] + rows[i + 1..] == (rows[..last][..i] + rows[..last][i + 1..]) + [rows[last]];
      TotalSnoc(rows[..last][..i] + rows[..last][i + 1..], rows[last], f);
    }
  }

  lemma MultisetWithout(rows: seq<LevelRow>, i: nat)
    requires i < |rows|
    ensures multiset(rows) == multiset(rows[..i] + rows[i + 1..]) + multiset{rows[i]}
  {
    assert rows == rows[..i] + ([rows[i]] + rows[i + 1..]);
  }

  lemma RestsAgree(a: seq<LevelRow>, b: seq<LevelRow>, i: nat)
    requires multiset(a) == multiset(b) && a != [] && i < |b| && b[i] == a[|a| - 1]
    ensures multiset(a[..|a| - 1]) == multiset(b[..i] + b[i + 1..])
  {
    var k := |a| - 1;
    MultisetWithout(a, k);
    MultisetWithout(b, i);
    assert a[..k] + a[k + 1..] == a[..k];
    assert multiset(a[..k]) == multiset(a) - multiset{a[k]};
    assert multiset(b[..i] + b[i + 1..]) == multiset(b) - multiset{b[i]};
  }

  lemma {:induction false} TotalPermutes(a: seq<LevelRow>, b: seq<LevelRow>, f: LevelRow -> nat)
    requires multiset(a) == multiset(b)
    ensures Total(a, f) == Total(b, f)
    decreases |a|
  {
    if a == [] {
      assert |b| == |multiset(b)| == |multiset(a)|;
    } else {
      var k := |a| - 1;
      assert a[k] in multiset(b);
      var i :| 0 <= i < |b| && b[i] == a[k];
      RestsAgree(a, b, i);
      TotalWithout(b, i, f);
      TotalPermutes(a[..k], b[..i] + b[i + 1..], f);
    }
  }

  /** The summary is made of these totals and nothing else. */
  ghost predicate SameTotals(a: seq<LevelRow>, b: seq<LevelRow>, n: nat) {
    && (forall l: nat :: l >= 1 ==> AtLeast(a, n, l) == AtLeast(b, n, l))
    && (forall j: nat :: Reached(a, j) == Reached(b, j) && Continued(a, j) == Continued(b, j))
    && Partial(a) == Partial(b)
  }

  lemma SamePopulations(a: seq<LevelRow>, b: seq<LevelRow>, n: nat)
    requires SameTotals(a, b, n)
    ensures Partial(a) == Partial(b) && forall r: nat :: Population(a, n, r) == Population(b, n, r)
  {
    hide AtLeast, Partial;
  }

  lemma SameStep(a: seq<LevelRow>, b: seq<LevelRow>, steps: seq<Step>, i: nat)
    requires SameTotals(a, b, |Positions(steps, false, |steps|)|) && i < |steps|
    ensures StepOf(a, steps, i) == StepOf(b, steps, i)
  {
    hide AtLeast, Reached, Continued, Partial, Positions, Rate;
  }

  lemma SameTotalsSameSummary(a: seq<LevelRow>, b: seq<LevelRow>, steps: seq<Step>)
    requires SameTotals(a, b, |Positions(steps, false, |steps|)|)
    ensures SummaryOf(a, steps) == SummaryOf(b, steps)
  {
    hide AtLeast, Reached, Continued, Partial, Positions, Rate, SameTotals;
    forall i | 0 <= i < |steps| ensures StepOf(a, steps, i) == StepOf(b, steps, i) { SameStep(a, b, steps, i); }
    assert StepsOf(a, steps, |steps|) == StepsOf(b, steps, |steps|);
    SamePopulations(a, b, |Positions(steps, false, |steps|)|);
  }

  /** The database may return its rows in any order. */
  lemma RowOrderDoesNotMatter(a: seq<LevelRow>, b: seq<LevelRow>, steps: seq<Step>)
    requires multiset(a) == multiset(b)
    ensures SummaryOf(a, steps) == SummaryOf(b, steps)
  {
    hide Total, SummaryOf;
    var n := |Positions(steps, false, |steps|)|;
    forall l: nat | l >= 1 ensures AtLeast(a, n, l) == AtLeast(b, n, l) {
      TotalPermutes(a, b, (r: LevelRow) => if r.level >= 1 && l <= Min(r.level, n) then r.people else 0);
    }
    forall j: nat ensures Reached(a, j) == Reached(b, j) && Continued(a, j) == Continued(b, j) {
      TotalPermutes(a, b, (r: LevelRow) => At(r.reached, j));
      TotalPermutes(a, b, (r: LevelRow) => At(r.continued, j));
    }
    TotalPermutes(a, b, (r: LevelRow) => if r.level >= 1 then r.partial else 0);
    SameTotalsSameSummary(a, b, steps);
  }

  /** A level past the spine is its last step's: no step is invented for it. */
  lemma LevelsPastTheEndFold(rows: seq<LevelRow>, row: LevelRow, steps: seq<Step>)
    requires var n := |Positions(steps, false, |steps|)|; 1 <= n < row.level
    ensures SummaryOf(rows + [row], steps) == SummaryOf(rows + [row.(level := |Positions(steps, false, |steps|)|)], steps)
  {
    hide Total, SummaryOf;
    var n := |Positions(steps, false, |steps|)|;
    var folded := row.(level := n);
    forall l: nat | l >= 1 ensures AtLeast(rows + [row], n, l) == AtLeast(rows + [folded], n, l) {
      var f := (r: LevelRow) => if r.level >= 1 && l <= Min(r.level, n) then r.people else 0;
      TotalSnoc(rows, row, f);
      TotalSnoc(rows, folded, f);
    }
    ColumnsSnoc(rows, row);
    ColumnsSnoc(rows, folded);
    SameTotalsSameSummary(rows + [row], rows + [folded], steps);
  }

  lemma ColumnsSnoc(rows: seq<LevelRow>, row: LevelRow)
    ensures forall j: nat :: Reached(rows + [row], j) == Reached(rows, j) + At(row.reached, j)
                             && Continued(rows + [row], j) == Continued(rows, j) + At(row.continued, j)
    ensures Partial(rows + [row]) == Partial(rows) + if row.level >= 1 then row.partial else 0
  {
    hide Total;
    forall j: nat
      ensures Reached(rows + [row], j) == Reached(rows, j) + At(row.reached, j)
      ensures Continued(rows + [row], j) == Continued(rows, j) + At(row.continued, j)
    {
      TotalSnoc(rows, row, (r: LevelRow) => At(r.reached, j));
      TotalSnoc(rows, row, (r: LevelRow) => At(r.continued, j));
    }
    TotalSnoc(rows, row, (r: LevelRow) => if r.level >= 1 then r.partial else 0);
  }

  /** People at level 0 entered nothing: they add to no total, and to an optional step only what their row says. */
  lemma LevelZeroEntersNothing(rows: seq<LevelRow>, row: LevelRow, steps: seq<Step>, i: nat)
    requires row.level == 0 && i < |steps|
    ensures var was, now := SummaryOf(rows, steps), SummaryOf(rows + [row], steps);
            && (now.entered, now.converted, now.conversionRate, now.partialWindowEntrants)
            == (was.entered, was.converted, was.conversionRate, was.partialWindowEntrants)
            && (!steps[i].optional ==> now.steps[i] == was.steps[i])
            && (steps[i].optional ==>
                  var j := |Positions(steps, true, i)|;
                  now.steps[i].people == was.steps[i].people + At(row.reached, j)
                  && now.steps[i].optional.value.continued == was.steps[i].optional.value.continued + At(row.continued, j))
  {
    hide Total;
    var n := |Positions(steps, false, |steps|)|;
    forall l: nat | l >= 1 ensures AtLeast(rows + [row], n, l) == AtLeast(rows, n, l) {
      TotalSnoc(rows, row, (r: LevelRow) => if r.level >= 1 && l <= Min(r.level, n) then r.people else 0);
    }
    ColumnsSnoc(rows, row);
  }
}
