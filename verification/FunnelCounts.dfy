/** The main results on funnels: every number reported is the size of a set of people. */
module FunnelCounts {
  import opened Basics
  import opened Events
  import opened FunnelAst
  import opened FunnelCompile
  import opened FunnelLevels
  import opened FunnelMeaning
  import opened FunnelTheorems
  import opened Spines
  import opened WindowFunnel

  // ---- From rows back to people ----------------------------------------------------------------

  lemma HasLevelSplits(rows: seq<LevelRow>, l: nat)
    requires rows != [] && forall i, j :: 0 <= i < j < |rows| ==> rows[i].level != rows[j].level
    ensures var before, last := rows[..|rows| - 1], rows[|rows| - 1];
            && (HasLevel(rows, l) <==> HasLevel(before, l) || l == last.level)
            && (l == last.level ==> !HasLevel(before, l))
  {
    var before := rows[..|rows| - 1];
    if HasLevel(rows, l) {
      var i :| 0 <= i < |rows| && rows[i].level == l;
      assert i < |before| ==> before[i] == rows[i];
    }
    if HasLevel(before, l) {
      var i :| 0 <= i < |before| && before[i].level == l;
      assert rows[i] == before[i];
    }
    if l == rows[|rows| - 1].level { assert rows[|rows| - 1].level == l; }
  }

  /** Summing a count over rows with distinct levels counts everyone whose level has a row. */
  lemma {:induction false} GroupedTotal(people: set<string>, key: string -> nat, want: string -> bool,
                                        rows: seq<LevelRow>, f: LevelRow -> nat)
    requires forall i, j :: 0 <= i < j < |rows| ==> rows[i].level != rows[j].level
    requires forall i :: 0 <= i < |rows| ==> f(rows[i]) == |set p | p in people && want(p) && key(p) == rows[i].level|
    ensures Total(rows, f) == |set p | p in people && want(p) && HasLevel(rows, key(p))|
  {
    var all := set p | p in people && want(p) && HasLevel(rows, key(p));
    if rows == [] {
      assert all == {};
    } else {
      var before, last := rows[..|rows| - 1], rows[|rows| - 1];
      GroupedTotal(people, key, want, before, f);
      var a := set p | p in people && want(p) && HasLevel(before, key(p));
      var b := set p | p in people && want(p) && key(p) == last.level;
      forall p ensures HasLevel(rows, key(p)) <==> HasLevel(before, key(p)) || key(p) == last.level
               ensures key(p) == last.level ==> !HasLevel(before, key(p))
      {
        HasLevelSplits(rows, key(p));
      }
      hide HasLevel;
      assert all == a + b;
      assert a !! b;
    }
  }

  /** A total over the histogram is the number of grouped people it wants, level 0 aside. */
  lemma HistogramTotal(run: Run, rows: seq<LevelRow>, want: string -> bool, f: LevelRow -> nat)
    requires IsHistogram(run, rows)
    requires forall i :: 0 <= i < |rows| ==> f(rows[i]) == |set p | p in AtLevel(run, rows[i].level) && want(p)|
    requires forall p :: p in Groups(run) && want(p) ==> SpineLevel(run, p) > 0
    ensures Total(rows, f) == |set p | p in Groups(run) && want(p)|
  {
    hide SpineLevel, IsRow, Groups;
    ghost var key := (p: string) => SpineLevel(run, p);
    forall i | 0 <= i < |rows|
      ensures f(rows[i]) == |set p | p in Groups(run) && want(p) && key(p) == rows[i].level|
    {
      assert (set p | p in AtLevel(run, rows[i].level) && want(p))
          == (set p | p in Groups(run) && want(p) && key(p) == rows[i].level);
    }
    GroupedTotal(Groups(run), key, want, rows, f);
    assert (set p | p in Groups(run) && want(p) && HasLevel(rows, key(p))) == (set p | p in Groups(run) && want(p));
  }

  lemma CountAtRank(run: Run, rows: seq<LevelRow>, r: nat)
    requires run.Valid() && IsHistogram(run, rows) && 1 <= r <= |run.Plan().spine|
    ensures Population(rows, |run.Plan().spine|, r) == |set p | p in Groups(run) && r <= SpineLevel(run, p)|
  {
    hide SpineLevel, Groups, EnteredLate, Took, CarriedOn, PlanOf;
    var n := |run.Plan().spine|;
    ghost var want := (p: string) => r <= SpineLevel(run, p);
    ghost var f := (row: LevelRow) => if row.level >= 1 && r <= Min(row.level, n) then row.people else 0;
    forall i | 0 <= i < |rows| ensures f(rows[i]) == |set p | p in AtLevel(run, rows[i].level) && want(p)| {
      var at := set p | p in AtLevel(run, rows[i].level) && want(p);
      if r <= rows[i].level {
        assert at == AtLevel(run, rows[i].level);
      } else {
        assert at == {};
      }
    }
    HistogramTotal(run, rows, want, f);
    TotalSame(rows, f, (row: LevelRow) => if row.level >= 1 && r <= Min(row.level, n) then row.people else 0);
    assert (set p | p in Groups(run) && want(p)) == (set p | p in Groups(run) && r <= SpineLevel(run, p));
  }

  lemma {:induction false} TotalSame(rows: seq<LevelRow>, f: LevelRow -> nat, g: LevelRow -> nat)
    requires forall i :: 0 <= i < |rows| ==> f(rows[i]) == g(rows[i])
    ensures Total(rows, f) == Total(rows, g)
  {
    if rows != [] {
      TotalSame(rows[..|rows| - 1], f, g);
    }
  }

  // ---- From people to what they did --------------------------------------------------------------

  lemma {:induction false} DidFewer(run: Run, p: string, steps: seq<Step>, m: nat)
    requires run.Valid() && 1 <= m <= |steps| && Did(run, p, steps)
    ensures Did(run, p, steps[..m])
  {
    var c: seq<Event> :| InOrder(c, History(run, p), steps, run.range, run.Window());
    SubseqTake(c, History(run, p), m);
    SortedFilter(e => run.Mine(p, e), run.table);
    SubseqSorted(c, History(run, p));
    assert InOrder(c[..m], History(run, p), steps[..m], run.range, run.Window());
  }

  /** The conditions these steps compile to, the entry bound on the first. */
  ghost function Compiled(steps: seq<Step>, until: int): seq<Condition> {
    seq(|steps|, j requires 0 <= j < |steps| => Condition(steps[j], if j == 0 then Some(until) else None))
  }

  /** Whoever did a list of steps also did it with any one after the first left out. */
  lemma DidWithout(run: Run, p: string, steps: seq<Step>, d: nat)
    requires run.Valid() && 1 <= d < |steps| && FunnelMeaning.Named(run, steps) && Did(run, p, steps)
    ensures Did(run, p, steps[..d] + steps[d + 1..])
  {
    hide Did, Rows, Reaches;
    var conds := Compiled(steps, run.range.until);
    var rest, shorter := steps[..d] + steps[d + 1..], conds[..d] + conds[d + 1..];
    RowsSorted(run, p);
    ScanLosesNothing(run, p, conds, steps);
    DropOne(Rows(run, p), conds, run.Window(), d);
    forall j | 0 <= j < |rest| ensures rest[j].event in run.Plan().names {
      assert rest[j] == steps[if j < d then j else j + 1];
    }
    ScanLosesNothing(run, p, shorter, rest);
  }

  lemma PathStartsWithEntry(run: Run, p: string, i: nat)
    requires run.Valid() && i < |run.def.steps| && Did(run, p, Path(run.def.steps, i))
    ensures Did(run, p, Path(run.def.steps, 0)) && 1 <= SpineLevel(run, p)
  {
    var steps := run.def.steps;
    if i > 0 {
      assert steps[..i] == [steps[0]] + steps[1..i];
      assert steps[..i][0] == steps[0];
      assert Required(steps[..i])[0] == steps[0];
      DidFewer(run, p, Path(steps, i), 1);
      assert Path(steps, i)[..1] == [steps[0]];
    }
    assert Path(steps, 0) == [steps[0]] by { assert steps[..0] == []; }
    RankIsPath(run, p, 0);
  }

  lemma EnteredIsGrouped(run: Run, p: string)
    requires run.Valid() && 1 <= SpineLevel(run, p) && run.InSegment(p)
    ensures p in Groups(run) && p in Everyone(run.table)
  {
    var rows, spine := Rows(run, p), run.Plan().spine;
    RowsSorted(run, p);
    LevelAtLeast(rows, spine, run.Window(), 1);
    var c: seq<Event> :| |c| == 1 && Chain(c, rows, spine, run.Window());
    SubseqMembers(c, rows);
    assert c[0] in c && c[0] in rows;
    FilterMembers(e => run.Mine(p, e), Filter(e => Scanned(run.Plan(), e), run.table));
    FilterMembers(e => Scanned(run.Plan(), e), run.table);
    assert c[0] in run.table && c[0].person == p;
  }

  /** Grouped people singled out by something only entrants have are all the people who have it. */
  lemma GroupedAreDoers(run: Run, steps: seq<Step>, want: string -> bool)
    requires run.Valid()
    requires forall p :: want(p) <==> Did(run, p, steps)
    requires forall p :: want(p) ==> 1 <= SpineLevel(run, p)
    ensures (set p | p in Groups(run) && want(p)) == Doers(run, steps)
  {
    forall p | p in Doers(run, steps) ensures p in Groups(run) && want(p) {
      EnteredIsGrouped(run, p);
    }
  }

  // ---- Main results --------------------------------------------------------------------------------

  lemma CountRequired(run: Run, rows: seq<LevelRow>, i: nat)
    requires run.Valid() && IsHistogram(run, rows) && i < |run.def.steps| && !run.def.steps[i].optional
    ensures Population(rows, |run.Plan().spine|, PlacementAt(run.def.steps, i).spineRank) == |Doers(run, Path(run.def.steps, i))|
  {
    RankIsPath(run, "", i);
    RankPopulation(run, PlacementAt(run.def.steps, i).spineRank, i);
    CountAtRank(run, rows, PlacementAt(run.def.steps, i).spineRank);
  }

  lemma RankPopulation(run: Run, r: nat, i: nat)
    requires run.Valid() && i < |run.def.steps| && !run.def.steps[i].optional
    requires 1 <= r == PlacementAt(run.def.steps, i).spineRank
    ensures (set p | p in Groups(run) && r <= SpineLevel(run, p)) == Doers(run, Path(run.def.steps, i))
  {
    hide Did, SpineLevel, Groups, Doers, Path, PlacementAt;
    ghost var path := Path(run.def.steps, i);
    ghost var want := (p: string) => r <= SpineLevel(run, p);
    forall p ensures want(p) <==> Did(run, p, path) {
      RankIsPath(run, p, i);
    }
    GroupedAreDoers(run, path, want);
    assert (set p | p in Groups(run) && want(p)) == (set p | p in Groups(run) && r <= SpineLevel(run, p));
  }

  lemma CountOptional(run: Run, rows: seq<LevelRow>, k: nat)
    requires run.Valid() && IsHistogram(run, rows) && k < |run.def.steps| && run.def.steps[k].optional
    ensures Reached(rows, PlacementAt(run.def.steps, k).branch.value.index) == |Doers(run, Path(run.def.steps, k))|
  {
    hide Did, Doers, SpineLevel, Groups, CarriedOn, Took, History, EnteredLate;
    var steps := run.def.steps;
    var j, side := PlacementAt(steps, k).branch.value.index, SideAt(steps, run.range.until, k);
    PositionAt(steps, k);
    ghost var want := (p: string) => Took(run, p, side);
    forall p
      ensures want(p) <==> Did(run, p, Path(steps, k))
      ensures want(p) ==> 1 <= SpineLevel(run, p)
    {
      TookIsPath(run, p, k);
      if want(p) { PathStartsWithEntry(run, p, k); }
    }
    ghost var f := (row: LevelRow) => At(row.reached, j);
    forall i | 0 <= i < |rows| ensures f(rows[i]) == |set p | p in AtLevel(run, rows[i].level) && want(p)| {
      assert (set p | p in AtLevel(run, rows[i].level) && want(p)) == (set p | p in AtLevel(run, rows[i].level) && Took(run, p, run.Plan().sides[j]));
    }
    HistogramTotal(run, rows, want, f);
    TotalSame(rows, f, (row: LevelRow) => At(row.reached, j));
    GroupedAreDoers(run, Path(steps, k), want);
  }

  lemma WhoCarriedOn(run: Run, p: string, k: nat)
    requires run.Valid() && k < |run.def.steps| && run.def.steps[k].optional
    ensures var steps := run.def.steps;
            CarriedOn(run, p, SideAt(steps, run.range.until, k)) <==> Did(run, p, Path(steps, k) + [steps[NextRequired(steps, k)]])
    ensures CarriedOn(run, p, SideAt(run.def.steps, run.range.until, k)) ==> 1 <= SpineLevel(run, p)
  {
    hide Did, SpineLevel, CarriedOn;
    var steps := run.def.steps;
    var through := Path(steps, k) + [steps[NextRequired(steps, k)]];
    CarriedOnIsPath(run, p, k);
    if CarriedOn(run, p, SideAt(steps, run.range.until, k)) {
      DidFewer(run, p, through, |Path(steps, k)|);
      assert through[..|Path(steps, k)|] == Path(steps, k);
      PathStartsWithEntry(run, p, k);
    }
  }

  /** Column `j` of a histogram row counts the people at its level who carried on past optional step `j`. */
  lemma ContinuedColumn(run: Run, rows: seq<LevelRow>, i: nat, j: nat, want: string -> bool)
    requires IsHistogram(run, rows) && i < |rows| && j < |run.Plan().sides|
    requires forall p :: want(p) <==> CarriedOn(run, p, run.Plan().sides[j])
    ensures At(rows[i].continued, j) == |set p | p in AtLevel(run, rows[i].level) && want(p)|
  {
    hide CarriedOn, AtLevel, PlanOf, Took, EnteredLate;
    assert IsRow(run, rows[i]);
    assert (set p | p in AtLevel(run, rows[i].level) && want(p))
        == (set p | p in AtLevel(run, rows[i].level) && CarriedOn(run, p, run.Plan().sides[j]));
  }

  lemma SideOfStep(run: Run, k: nat)
    requires k < |run.def.steps| && run.def.steps[k].optional
    ensures var j := PlacementAt(run.def.steps, k).branch.value.index;
            j < |run.Plan().sides| && run.Plan().sides[j] == SideAt(run.def.steps, run.range.until, k)
  {
    PositionAt(run.def.steps, k);
  }

  lemma CountContinued(run: Run, rows: seq<LevelRow>, k: nat)
    requires run.Valid() && IsHistogram(run, rows) && k < |run.def.steps| && run.def.steps[k].optional
    ensures var steps := run.def.steps;
            Continued(rows, PlacementAt(steps, k).branch.value.index)
            == |Doers(run, Path(steps, k) + [steps[NextRequired(steps, k)]])|
  {
    hide Did, Doers, SpineLevel, Groups, CarriedOn, Path, AtLevel, At, SideAt, PlanOf, IsHistogram;
    var steps := run.def.steps;
    var through := Path(steps, k) + [steps[NextRequired(steps, k)]];
    var j, side := PlacementAt(steps, k).branch.value.index, SideAt(steps, run.range.until, k);
    SideOfStep(run, k);
    ghost var want := (p: string) => CarriedOn(run, p, side);
    forall p
      ensures want(p) <==> Did(run, p, through)
      ensures want(p) ==> 1 <= SpineLevel(run, p)
    {
      WhoCarriedOn(run, p, k);
    }
    ghost var f := (row: LevelRow) => At(row.continued, j);
    forall i | 0 <= i < |rows| ensures f(rows[i]) == |set p | p in AtLevel(run, rows[i].level) && want(p)| {
      ContinuedColumn(run, rows, i, j, want);
    }
    HistogramTotal(run, rows, want, f);
    TotalSame(rows, f, (row: LevelRow) => At(row.continued, j));
    GroupedAreDoers(run, through, want);
  }

  /**
    Compile, group and summarise equals direct counting: step `i` reports the number of people who
    did every required step before it and then it, in order, inside one window.
   */
  lemma FunnelCountsPeople(run: Run, rows: seq<LevelRow>, i: nat)
    requires run.Valid() && IsHistogram(run, rows) && i < |run.def.steps|
    ensures var s := SummaryOf(rows, run.def.steps).steps[i];
            && s.people == |Doers(run, Path(run.def.steps, i))|
            && (s.optional.Some? <==> run.def.steps[i].optional)
  {
    if run.def.steps[i].optional {
      CountOptional(run, rows, i);
    } else {
      CountRequired(run, rows, i);
    }
  }

  /** The path to a required step opens the required prefix of anything after it. */
  lemma PathOpens(steps: seq<Step>, i: nat, j: nat)
    requires i < j < |steps| && !steps[i].optional
    ensures Path(steps, i) <= Required(steps[..j]) && Path(steps, i) <= Path(steps, j) && Path(steps, i) != []
  {
    var (a, b) := (steps[..i + 1], steps[i + 1..j]);
    var required := (s: Step) => !s.optional;
    assert steps[..j] == a + b && a == steps[..i] + [steps[i]];
    FilterConcat(required, a, b);
    FilterConcat(required, steps[..i], [steps[i]]);
    assert [steps[i]][1..] == [];
    assert Required(a) == Path(steps, i);
  }

  lemma PathWithin(run: Run, i: nat, j: nat)
    requires run.Valid() && i < j < |run.def.steps| && !run.def.steps[i].optional
    ensures Doers(run, Path(run.def.steps, j)) <= Doers(run, Path(run.def.steps, i))
    ensures Path(run.def.steps, i) <= Required(run.def.steps[..j])
  {
    var steps := run.def.steps;
    PathOpens(steps, i, j);
    hide Did, Path, Required;
    forall p | p in Doers(run, Path(steps, j)) ensures p in Doers(run, Path(steps, i)) {
      DidFewer(run, p, Path(steps, j), |Path(steps, i)|);
      assert Path(steps, j)[..|Path(steps, i)|] == Path(steps, i);
    }
  }

  /** Required counts never increase along the spine. */
  lemma RequiredNeverIncreases(run: Run, rows: seq<LevelRow>, i: nat, j: nat)
    requires run.Valid() && IsHistogram(run, rows) && i < j < |run.def.steps|
    requires !run.def.steps[i].optional && !run.def.steps[j].optional
    ensures var s := SummaryOf(rows, run.def.steps).steps; s[j].people <= s[i].people
  {
    FunnelCountsPeople(run, rows, i);
    FunnelCountsPeople(run, rows, j);
    PathWithin(run, i, j);
    SubsetSize(Doers(run, Path(run.def.steps, j)), Doers(run, Path(run.def.steps, i)));
  }

  lemma LastRequired(steps: seq<Step>)
    requires steps != [] && !steps[|steps| - 1].optional
    ensures Path(steps, |steps| - 1) == Required(steps)
    ensures PlacementAt(steps, |steps| - 1).spineRank == |Positions(steps, false, |steps|)|
  {
    var n := |steps| - 1;
    assert steps == steps[..n] + [steps[n]];
    FilterConcat((s: Step) => !s.optional, steps[..n], [steps[n]]);
    assert [steps[n]][1..] == [];
  }

  /** Someone entered, but so recently that they have not had a whole window of real time yet. */
  ghost predicate NewEntrant(run: Run, p: string) {
    run.def.steps != [] && p in Doers(run, Path(run.def.steps, 0))
    && forall e :: e in History(run, p) && Matches(run.def.steps[0], e) && run.range.since <= e.at < run.range.until
         ==> run.now - run.Window() < e.at
  }

  /** Entry events past the range's start are the same ones in the scan and in the whole history. */
  lemma EntryIsScanned(run: Run, p: string, e: Event)
    requires run.Valid() && run.Plan().spine != [] && Meets(run.Plan().spine[0], e)
    requires run.Plan().spine[0].step.event in run.Plan().names
    requires run.Plan().spine[0].before == Some(run.range.until)
    ensures e in Rows(run, p) <==> e in History(run, p) && run.range.since <= e.at
  {
    FilterMembers(e => run.Mine(p, e), run.table);
    FilterMembers(e => run.Mine(p, e), Filter(e => Scanned(run.Plan(), e), run.table));
    FilterMembers(e => Scanned(run.Plan(), e), run.table);
  }

  lemma EntryCondition(run: Run)
    requires run.Valid()
    ensures run.Plan().spine != [] && run.Plan().spine[0] == Condition(run.def.steps[0], Some(run.range.until))
    ensures run.def.steps[0].event in run.Plan().names
  {
    var steps := run.def.steps;
    PositionsInRange(steps, false, |steps|);
    RequiredStartsAtZero(steps, |steps|);
    NamesCover(steps, |steps|, 0);
  }

  lemma LateIsNew(run: Run, p: string)
    requires run.Valid() && p in Doers(run, Path(run.def.steps, 0))
    ensures EnteredLate(run, p) <==> NewEntrant(run, p)
  {
    hide Rows, History, Doers, Path;
    EntryCondition(run);
    forall e | Meets(run.Plan().spine[0], e)
      ensures e in Rows(run, p) <==> e in History(run, p) && run.range.since <= e.at
    {
      EntryIsScanned(run, p, e);
    }
  }

  lemma CountPartial(run: Run, rows: seq<LevelRow>)
    requires run.Valid() && IsHistogram(run, rows)
    ensures Partial(rows) == |set p | p in Doers(run, Path(run.def.steps, 0)) && NewEntrant(run, p)|
  {
    ghost var want := (p: string) => 1 <= SpineLevel(run, p) && EnteredLate(run, p);
    ghost var f := (row: LevelRow) => if row.level >= 1 then row.partial else 0;
    forall i | 0 <= i < |rows| ensures f(rows[i]) == |set p | p in AtLevel(run, rows[i].level) && want(p)| {
      assert IsRow(run, rows[i]);
      assert (set p | p in AtLevel(run, rows[i].level) && want(p)) == (set p | p in AtLevel(run, rows[i].level) && EnteredLate(run, p));
    }
    HistogramTotal(run, rows, want, f);
    TotalSame(rows, f, (row: LevelRow) => if row.level >= 1 then row.partial else 0);
    PartialPopulation(run, want);
  }

  lemma PartialPopulation(run: Run, want: string -> bool)
    requires run.Valid() && forall p :: want(p) <==> 1 <= SpineLevel(run, p) && EnteredLate(run, p)
    ensures (set p | p in Groups(run) && want(p)) == (set p | p in Doers(run, Path(run.def.steps, 0)) && NewEntrant(run, p))
  {
    forall p ensures p in Groups(run) && want(p) <==> p in Doers(run, Path(run.def.steps, 0)) && NewEntrant(run, p) {
      LateEntrant(run, p);
    }
  }

  lemma LateEntrant(run: Run, p: string)
    requires run.Valid()
    ensures p in Groups(run) && 1 <= SpineLevel(run, p) && EnteredLate(run, p)
            <==> p in Doers(run, Path(run.def.steps, 0)) && NewEntrant(run, p)
  {
    RankIsPath(run, p, 0);
    assert PlacementAt(run.def.steps, 0).spineRank == 1;
    if 1 <= SpineLevel(run, p) && run.InSegment(p) {
      EnteredIsGrouped(run, p);
      LateIsNew(run, p);
    }
  }

  /** The headline numbers: who entered, who converted, and whose window is still open. */
  lemma FunnelTotals(run: Run, rows: seq<LevelRow>)
    requires run.Valid() && IsHistogram(run, rows)
    ensures var r := SummaryOf(rows, run.def.steps);
            && r.entered == |Doers(run, [run.def.steps[0]])|
            && r.converted == |Doers(run, Required(run.def.steps))|
            && r.partialWindowEntrants == |set p | p in Doers(run, [run.def.steps[0]]) && NewEntrant(run, p)|
  {
    hide Doers, Population, Partial, NewEntrant, IsHistogram;
    var steps := run.def.steps;
    CountRequired(run, rows, 0);
    assert Path(steps, 0) == [steps[0]] by { assert steps[..0] == []; }
    LastRequired(steps);
    CountRequired(run, rows, |steps| - 1);
    CountPartial(run, rows);
  }

  ghost function StoppedFrom(rows: seq<LevelRow>, n: nat, l: nat): nat
    decreases n + 1 - l
  {
    if l > n then 0 else Stopped(rows, n, l) + StoppedFrom(rows, n, l + 1)
  }

  lemma {:induction false} StoppedSumsToReached(rows: seq<LevelRow>, n: nat, l: nat)
    requires l <= n + 1
    ensures StoppedFrom(rows, n, l) == AtLeast(rows, n, l)
    decreases n + 1 - l
  {
    SuffixSum(rows, n, l);
    if l <= n {
      StoppedSumsToReached(rows, n, l + 1);
    }
  }

  /** The people stopped at each spine level add up to the people who entered, for any rows at all. */
  lemma StoppedSumsToEntered(rows: seq<LevelRow>, steps: seq<Step>)
    ensures StoppedFrom(rows, |Positions(steps, false, |steps|)|, 1) == SummaryOf(rows, steps).entered
  {
    StoppedSumsToReached(rows, |Positions(steps, false, |steps|)|, 1);
  }

  // ---- Optional steps --------------------------------------------------------------------------------

  /** The people who got to the step this optional one branches off. */
  ghost function BranchPoint(run: Run, k: nat): set<string>
    requires k < |run.def.steps|
  {
    Doers(run, Required(run.def.steps[..k]))
  }

  /** The last required step before position `k`. */
  ghost function LastRequiredBefore(steps: seq<Step>, k: nat): (i: nat)
    requires 0 < k <= |steps| && !steps[0].optional
    ensures i < k && !steps[i].optional
    ensures PlacementAt(steps, i).spineRank == |Positions(steps, false, k)|
    ensures Path(steps, i) == Required(steps[..k])
  {
    assert steps[..k] == steps[..k - 1] + [steps[k - 1]];
    FilterConcat((s: Step) => !s.optional, steps[..k - 1], [steps[k - 1]]);
    assert [steps[k - 1]][1..] == [];
    if !steps[k - 1].optional then k - 1 else LastRequiredBefore(steps, k - 1)
  }

  /** What the summary reports for one step. */
  ghost function Reported(rows: seq<LevelRow>, steps: seq<Step>, i: nat): StepResult
    requires i < |steps|
  {
    SummaryOf(rows, steps).steps[i]
  }

  /** Who did the step is part of the branch point, and `skipped` is the rest of it. */
  lemma SkippedIsTheRest(run: Run, rows: seq<LevelRow>, k: nat)
    requires run.Valid() && IsHistogram(run, rows) && k < |run.def.steps| && run.def.steps[k].optional
    ensures Doers(run, Path(run.def.steps, k)) <= BranchPoint(run, k)
    ensures var r := Reported(rows, run.def.steps, k);
            && r.optional.Some?
            && r.optional.value.skipped == |BranchPoint(run, k) - Doers(run, Path(run.def.steps, k))|
  {
    hide Doers, IsHistogram, Path, Required, SpineLevel, Did;
    var steps := run.def.steps;
    var i := LastRequiredBefore(steps, k);
    FunnelCountsPeople(run, rows, k);
    PathWithin(run, i, k);
    CountRequired(run, rows, i);
    RankIsPath(run, "", i);
    SubsetSize(Doers(run, Path(steps, k)), BranchPoint(run, k));
  }

  /** Where the optional step's branch rejoins the spine. */
  ghost function Rejoins(run: Run, k: nat): (next: nat)
    requires run.Valid() && k < |run.def.steps| && run.def.steps[k].optional
    ensures next < |run.def.steps|
  {
    NextRequired(run.def.steps, k)
  }

  /** The people who did the optional step and went on to the next required one. */
  ghost function WentOn(run: Run, k: nat): set<string>
    requires run.Valid() && k < |run.def.steps| && run.def.steps[k].optional
  {
    Doers(run, Path(run.def.steps, k) + [run.def.steps[Rejoins(run, k)]])
  }

  /** `continued` is who went on through the step, within it and within the next required step. */
  lemma ContinuedIsBetween(run: Run, rows: seq<LevelRow>, k: nat)
    requires run.Valid() && IsHistogram(run, rows) && k < |run.def.steps| && run.def.steps[k].optional
    ensures var r := Reported(rows, run.def.steps, k);
            && r.optional.Some?
            && r.optional.value.continued == |WentOn(run, k)|
            && r.optional.value.continued <= r.people
            && r.optional.value.continued <= Reported(rows, run.def.steps, Rejoins(run, k)).people
  {
    hide Doers, IsHistogram, Path, Required, SpineLevel, Did;
    var steps, next := run.def.steps, Rejoins(run, k);
    FunnelCountsPeople(run, rows, k);
    FunnelCountsPeople(run, rows, next);
    CountContinued(run, rows, k);
    Through(run, k);
    SubsetSize(WentOn(run, k), Doers(run, Path(steps, k)));
    SubsetSize(WentOn(run, k), Doers(run, Path(steps, next)));
  }

  /**
    Shared-prefix theorem. `skipped` is exactly the people at the branch point who did not do the
    step, so it is never negative; `continued` is the people who went on through it, a part both of
    the step's own count and of the next required step's.
   */
  lemma SharedPrefixTheorem(run: Run, rows: seq<LevelRow>, k: nat)
    requires run.Valid() && IsHistogram(run, rows) && k < |run.def.steps| && run.def.steps[k].optional
    ensures Doers(run, Path(run.def.steps, k)) <= BranchPoint(run, k)
    ensures var r := Reported(rows, run.def.steps, k);
            && r.optional.Some?
            && r.optional.value.skipped == |BranchPoint(run, k) - Doers(run, Path(run.def.steps, k))|
            && r.optional.value.continued == |WentOn(run, k)|
            && r.optional.value.continued <= r.people
            && r.optional.value.continued <= Reported(rows, run.def.steps, Rejoins(run, k)).people
  {
    hide Doers, IsHistogram, Path, Required, Reported, BranchPoint, WentOn;
    SkippedIsTheRest(run, rows, k);
    ContinuedIsBetween(run, rows, k);
  }

  lemma Through(run: Run, k: nat)
    requires run.Valid() && k < |run.def.steps| && run.def.steps[k].optional
    ensures var steps := run.def.steps; var next := NextRequired(steps, k);
            var through := Doers(run, Path(steps, k) + [steps[next]]);
            through <= Doers(run, Path(steps, k)) && through <= Doers(run, Path(steps, next))
  {
    var steps, next := run.def.steps, NextRequired(run.def.steps, k);
    var through, before := Path(steps, k) + [steps[next]], |Required(steps[..k])|;
    NextRequiredRank(steps, k);
    PositionsInRange(steps, false, k);
    PositionsInRange(steps, false, next);
    RequiredAt(steps, k);
    RequiredAt(steps, next);
    RequiredStartsAtZero(steps, k);
    assert through[..before + 1] == Path(steps, k);
    assert through[..before] + through[before + 1..] == Path(steps, next);
    ThroughIsNamed(run, k);
    forall p | p in Doers(run, through)
      ensures p in Doers(run, Path(steps, k)) && p in Doers(run, Path(steps, next))
    {
      DidFewer(run, p, through, before + 1);
      DidWithout(run, p, through, before);
    }
  }

  /** Every step on the way is one the scan asks for by name. */
  lemma ThroughIsNamed(run: Run, k: nat)
    requires run.Valid() && k < |run.def.steps| && run.def.steps[k].optional
    ensures FunnelMeaning.Named(run, Path(run.def.steps, k) + [run.def.steps[NextRequired(run.def.steps, k)]])
  {
    var steps := run.def.steps;
    FullChain(steps, k);
    var at := BranchPositions(steps, k) + [NextRequired(steps, k)];
    forall j | 0 <= j < |at| ensures StepsAt(steps, at)[j].event in run.Plan().names {
      NamesCover(steps, |steps|, at[j]);
    }
  }

  // ---- What each entry of the result says -----------------------------------------------------------------

  /** `rate` is `n` out of `d`, and 0 when there is nothing to divide by. */
  predicate Ratio(rate: real, n: nat, d: nat) { if d == 0 then rate == 0.0 else rate * (d as real) == n as real }

  lemma RateIsRatio(n: nat, d: nat)
    ensures Ratio(Rate(n, d), n, d)
  {
  }

  /** A required step's rank is one past the required steps before it. */
  lemma RankAfter(run: Run, i: nat)
    requires run.Valid() && 0 < i < |run.def.steps|
    ensures var steps := run.def.steps; var j := LastRequiredBefore(steps, i);
            && 1 <= PlacementAt(steps, j).spineRank
            && PlacementAt(steps, i).spineRank == PlacementAt(steps, j).spineRank + (if steps[i].optional then 0 else 1)
            && Path(steps, j) == Required(steps[..i])
  {
    var steps := run.def.steps;
    var j := LastRequiredBefore(steps, i);
    RankIsPath(run, "", j);
    PositionsMembers(steps, false, j);
  }

  /** The people the step before it on the spine held: what `from_previous` divides by. */
  lemma PreviousPopulation(run: Run, rows: seq<LevelRow>, i: nat)
    requires run.Valid() && IsHistogram(run, rows) && 0 < i < |run.def.steps|
    ensures var r := Reported(rows, run.def.steps, i);
            r.fromPrevious == Rate(r.people, |BranchPoint(run, i)|)
  {
    hide Doers, IsHistogram, Path, Required, SpineLevel, Did, Population;
    RankAfter(run, i);
    CountRequired(run, rows, LastRequiredBefore(run.def.steps, i));
  }

  lemma FirstStep(run: Run, rows: seq<LevelRow>)
    requires run.Valid() && IsHistogram(run, rows)
    ensures var r := Reported(rows, run.def.steps, 0); r.fromPrevious == Rate(r.people, r.people)
    ensures Path(run.def.steps, 0) == [run.def.steps[0]]
  {
    assert run.def.steps[..0] == [];
  }

  /**
    Each entry carries its own place and event, and both rates are out of the right people: the share
    of those who entered, and the share of those who had done every required step before this one
    (an optional step's branch point, a required step's predecessor; the first step's is itself).
   */
  lemma ReportedStep(run: Run, rows: seq<LevelRow>, i: nat)
    requires run.Valid() && IsHistogram(run, rows) && i < |run.def.steps|
    ensures var steps := run.def.steps; var r := Reported(rows, steps, i);
            && r.index == i + 1 && r.event == steps[i].event
            && Ratio(r.fromStart, |Doers(run, Path(steps, i))|, |Doers(run, [steps[0]])|)
            && Ratio(r.fromPrevious, |Doers(run, Path(steps, i))|,
                     if i == 0 then |Doers(run, Path(steps, i))| else |Doers(run, Required(steps[..i]))|)
  {
    hide Doers, IsHistogram, Path, Required, SpineLevel, Did, Population, Rate, Ratio;
    var steps := run.def.steps;
    var r, d := Reported(rows, steps, i), |Doers(run, Path(steps, i))|;
    FunnelCountsPeople(run, rows, i);
    CountRequired(run, rows, 0);
    FirstStep(run, rows);
    assert r.fromStart == Rate(r.people, |Doers(run, [steps[0]])|);
    RateIsRatio(d, |Doers(run, [steps[0]])|);
    if i == 0 {
      RateIsRatio(d, d);
    } else {
      PreviousPopulation(run, rows, i);
      RateIsRatio(d, |BranchPoint(run, i)|);
    }
  }

  /** The conversion rate is those who did every required step out of those who entered. */
  lemma ConversionIsRatio(run: Run, rows: seq<LevelRow>)
    requires run.Valid() && IsHistogram(run, rows)
    ensures Ratio(SummaryOf(rows, run.def.steps).conversionRate, |Doers(run, Required(run.def.steps))|, |Doers(run, [run.def.steps[0]])|)
    ensures |SummaryOf(rows, run.def.steps).steps| == |run.def.steps|
  {
    hide Doers, IsHistogram, Required, Population, Partial;
    FunnelTotals(run, rows);
    RateIsRatio(|Doers(run, Required(run.def.steps))|, |Doers(run, [run.def.steps[0]])|);
  }

  // ---- People lists --------------------------------------------------------------------------------------

  datatype Mode = ModeReached | ModeDropped | ModeSkipped

  /** The predicate each people list selects by; `>=` for reached, `=` for dropped. */
  ghost predicate Listed(run: Run, i: nat, mode: Mode, p: string)
    requires i < |run.def.steps|
  {
    var place := PlacementAt(run.def.steps, i);
    if place.branch.Some? then
      var side := SideAt(run.def.steps, run.range.until, i);
      if mode == ModeSkipped then place.spineRank <= SpineLevel(run, p) && !Took(run, p, side) else Took(run, p, side)
    else if mode == ModeReached then place.spineRank <= SpineLevel(run, p)
    else SpineLevel(run, p) == place.spineRank
  }

  ghost function PeopleAt(run: Run, i: nat, mode: Mode): set<string>
    requires i < |run.def.steps|
  {
    set p | p in Groups(run) && Listed(run, i, mode, p)
  }

  /** The list behind a step's count has exactly as many people as the count says. */
  lemma ReachedListMatchesCount(run: Run, rows: seq<LevelRow>, i: nat)
    requires run.Valid() && IsHistogram(run, rows) && i < |run.def.steps|
    ensures PeopleAt(run, i, ModeReached) == Doers(run, Path(run.def.steps, i))
    ensures |PeopleAt(run, i, ModeReached)| == SummaryOf(rows, run.def.steps).steps[i].people
  {
    ListedReached(run, i);
    FunnelCountsPeople(run, rows, i);
  }

  lemma ListedReached(run: Run, i: nat)
    requires run.Valid() && i < |run.def.steps|
    ensures PeopleAt(run, i, ModeReached) == Doers(run, Path(run.def.steps, i))
  {
    hide Did, SpineLevel, Path, Listed;
    ghost var path := Path(run.def.steps, i);
    ghost var want := (p: string) => Listed(run, i, ModeReached, p);
    forall p
      ensures want(p) <==> Did(run, p, path)
      ensures want(p) ==> 1 <= SpineLevel(run, p)
    {
      ListedIsPath(run, i, p);
    }
    GroupedAreDoers(run, path, want);
    assert (set p | p in Groups(run) && want(p)) == PeopleAt(run, i, ModeReached);
  }

  lemma ListedIsPath(run: Run, i: nat, p: string)
    requires run.Valid() && i < |run.def.steps|
    ensures Listed(run, i, ModeReached, p) <==> Did(run, p, Path(run.def.steps, i))
    ensures Listed(run, i, ModeReached, p) ==> 1 <= SpineLevel(run, p)
  {
    if run.def.steps[i].optional {
      TookIsPath(run, p, i);
    } else {
      RankIsPath(run, p, i);
    }
    if Did(run, p, Path(run.def.steps, i)) { PathStartsWithEntry(run, p, i); }
  }

  /** The `skipped` list is the branch point without the people who did the step, and has that size. */
  lemma SkippedListMatchesCount(run: Run, rows: seq<LevelRow>, k: nat)
    requires run.Valid() && IsHistogram(run, rows) && k < |run.def.steps| && run.def.steps[k].optional
    ensures PeopleAt(run, k, ModeSkipped) == BranchPoint(run, k) - Doers(run, Path(run.def.steps, k))
    ensures var r := Reported(rows, run.def.steps, k).optional; r.Some? && |PeopleAt(run, k, ModeSkipped)| == r.value.skipped
  {
    SkippedListIs(run, k);
    hide PeopleAt, BranchPoint, Doers, Reported, IsHistogram;
    SharedPrefixTheorem(run, rows, k);
  }

  lemma SkippedListIs(run: Run, k: nat)
    requires run.Valid() && k < |run.def.steps| && run.def.steps[k].optional
    ensures PeopleAt(run, k, ModeSkipped) == BranchPoint(run, k) - Doers(run, Path(run.def.steps, k))
  {
    hide Did, SpineLevel;
    var steps := run.def.steps;
    var i := LastRequiredBefore(steps, k);
    ListedReached(run, i);
    ListedReached(run, k);
    forall p ensures p in PeopleAt(run, k, ModeSkipped) <==> p in PeopleAt(run, i, ModeReached) - PeopleAt(run, k, ModeReached) {
      assert PlacementAt(steps, k).spineRank == PlacementAt(steps, i).spineRank;
    }
  }

  /** `dropped` on a required step: those who reached it and not the next required one. */
  lemma DroppedListIsTheDifference(run: Run, i: nat, next: nat)
    requires run.Valid() && i < next < |run.def.steps| && !run.def.steps[i].optional && !run.def.steps[next].optional
    requires forall k :: i < k < next ==> run.def.steps[k].optional
    ensures PeopleAt(run, i, ModeDropped) == Doers(run, Path(run.def.steps, i)) - Doers(run, Path(run.def.steps, next))
  {
    ListedReached(run, i);
    ListedReached(run, next);
    NoRequiredBetween(run.def.steps, i + 1, next);
    forall p ensures p in PeopleAt(run, i, ModeDropped) <==> p in PeopleAt(run, i, ModeReached) - PeopleAt(run, next, ModeReached) {
      assert PlacementAt(run.def.steps, next).spineRank == PlacementAt(run.def.steps, i).spineRank + 1;
    }
  }

  lemma {:induction false} NoRequiredBetween(steps: seq<Step>, a: nat, b: nat)
    requires a <= b <= |steps| && forall k :: a <= k < b ==> steps[k].optional
    ensures Positions(steps, false, a) == Positions(steps, false, b)
    decreases b - a
  {
    if a < b { NoRequiredBetween(steps, a, b - 1); }
  }

  // ---- Deleting an optional step ---------------------------------------------------------------------------

  ghost function WithoutStep(run: Run, k: nat): Run
    requires k < |run.def.steps|
  {
    run.(def := run.def.(steps := run.def.steps[..k] + run.def.steps[k + 1..]))
  }

  lemma RequiredWithout(steps: seq<Step>, k: nat)
    requires k < |steps| && steps[k].optional
    ensures Required(steps[..k] + steps[k + 1..]) == Required(steps)
  {
    var required := (s: Step) => !s.optional;
    assert steps == steps[..k] + ([steps[k]] + steps[k + 1..]);
    FilterConcat(required, steps[..k], [steps[k]] + steps[k + 1..]);
    FilterConcat(required, [steps[k]], steps[k + 1..]);
    assert [steps[k]][1..] == [];
    FilterConcat(required, steps[..k], steps[k + 1..]);
  }

  lemma SameHistorySameDoers(a: Run, b: Run, steps: seq<Step>)
    requires b == a.(def := b.def) && a.def.windowSeconds == b.def.windowSeconds
    ensures Doers(a, steps) == Doers(b, steps)
  {
    forall p ensures Did(a, p, steps) <==> Did(b, p, steps) {
      FilterSame(e => a.Mine(p, e), e => b.Mine(p, e), a.table);
      assert History(a, p) == History(b, p) && a.Window() == b.Window();
      assert forall c :: InOrder(c, History(a, p), steps, a.range, a.Window()) <==> InOrder(c, History(b, p), steps, b.range, b.Window());
    }
  }

  /**
    Deleting an optional step, which also drops its event from the scan, changes nothing that is
    reported about the others' spine: entrants, conversions and every required step's count.
   */
  lemma DeletingOptionalKeepsSpine(run: Run, k: nat, rows: seq<LevelRow>, rows': seq<LevelRow>, i: nat)
    requires run.Valid() && k < |run.def.steps| && run.def.steps[k].optional && WithoutStep(run, k).Valid()
    requires IsHistogram(run, rows) && IsHistogram(WithoutStep(run, k), rows')
    requires i < |run.def.steps| && !run.def.steps[i].optional
    ensures var before, after := SummaryOf(rows, run.def.steps), SummaryOf(rows', WithoutStep(run, k).def.steps);
            && before.entered == after.entered && before.converted == after.converted
            && before.steps[i].people == after.steps[if i < k then i else i - 1].people
  {
    var less := WithoutStep(run, k);
    var i' := if i < k then i else i - 1;
    FunnelTotals(run, rows);
    FunnelTotals(less, rows');
    PathWithout(run, k, i);
    SameHistorySameDoers(run, less, [run.def.steps[0]]);
    SameHistorySameDoers(run, less, Required(run.def.steps));
    FunnelCountsPeople(run, rows, i);
    FunnelCountsPeople(less, rows', i');
    SameHistorySameDoers(run, less, Path(run.def.steps, i));
  }

  lemma PathWithout(run: Run, k: nat, i: nat)
    requires run.Valid() && k < |run.def.steps| && run.def.steps[k].optional
    requires i < |run.def.steps| && !run.def.steps[i].optional
    ensures var steps, fewer := run.def.steps, WithoutStep(run, k).def.steps;
            && i != k && fewer[0] == steps[0] && Required(fewer) == Required(steps)
            && Path(fewer, if i < k then i else i - 1) == Path(steps, i)
  {
    var steps, fewer := run.def.steps, WithoutStep(run, k).def.steps;
    RequiredWithout(steps, k);
    if i < k {
      assert fewer[..i] == steps[..i];
    } else {
      RequiredWithout(steps[..i], k);
      assert fewer[..i - 1] == steps[..i][..k] + steps[..i][k + 1..];
    }
  }
}
