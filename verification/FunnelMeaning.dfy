/**
  What running a compiled funnel means, and that the numbers it reports are direct counts of people.
  The scan, the per-person pass and the histogram follow packages/core/src/funnels/compile.ts:331-348
  and :483-506.
 */
module FunnelMeaning {
  import opened Basics
  import opened Events
  import opened FunnelAst
  import opened FunnelCompile
  import opened FunnelLevels
  import opened Spines
  import opened Suppression
  import opened WindowFunnel

  /** One run: what was asked, and the state of the project it was asked about. */
  datatype Run = Run(def: Definition, range: Range, now: int, table: seq<Event>, suppressed: Boundaries,
                     segment: Option<set<string>>)
  {
    ghost function Plan(): Plan { PlanOf(def, range, now) }

    ghost function Window(): nat { def.windowSeconds * 1000 }

    /** The schema's and validators' demands, and a table in time order with nothing from the future. */
    ghost predicate Valid() {
      && ValidFunnel(def) && ValidRange(range)
      && Sorted(table) && forall e :: e in table ==> e.at < now
    }

    ghost predicate InSegment(p: string) { segment.Some? ==> p in segment.value }

    predicate Mine(p: string, e: Event) { e.person == p && Survives(suppressed, p, e.at) }
  }

  // ---- Direct meaning ------------------------------------------------------------------------

  /** Everything a person did that survives suppression, over all time. */
  ghost function History(run: Run, p: string): seq<Event> {
    Filter(e => run.Mine(p, e), run.table)
  }

  /** They did these steps in this order, starting inside the range and finishing within the window. */
  ghost predicate InOrder(c: seq<Event>, history: seq<Event>, steps: seq<Step>, range: Range, window: nat) {
    && |c| == |steps| > 0
    && Subseq(c, history)
    && (forall j :: 0 <= j < |c| ==> Matches(steps[j], c[j]))
    && range.since <= c[0].at < range.until
    && c[|c| - 1].at <= c[0].at + window
  }

  ghost predicate Did(run: Run, p: string, steps: seq<Step>) {
    exists c :: InOrder(c, History(run, p), steps, run.range, run.Window())
  }

  ghost function Doers(run: Run, steps: seq<Step>): set<string> {
    set p | p in Everyone(run.table) && run.InSegment(p) && Did(run, p, steps)
  }

  ghost function Required(steps: seq<Step>): seq<Step> { Filter((s: Step) => !s.optional, steps) }

  /** The steps someone must have done to count at step `i`: the required ones before it, then it. */
  ghost function Path(steps: seq<Step>, i: nat): seq<Step>
    requires i < |steps|
  {
    Required(steps[..i]) + [steps[i]]
  }

  // ---- The per-person pass -------------------------------------------------------------------

  predicate Scanned(plan: Plan, e: Event) {
    plan.since <= e.at < plan.scanEnd && e.name in plan.names
  }

  ghost function Rows(run: Run, p: string): seq<Event> {
    Filter(e => run.Mine(p, e), Filter(e => Scanned(run.Plan(), e), run.table))
  }

  /** `GROUP BY person`: one group per person with a surviving row, kept when in the segment. */
  ghost function Groups(run: Run): set<string> {
    set p | p in Everyone(run.table) && Rows(run, p) != [] && run.InSegment(p)
  }

  ghost function SpineLevel(run: Run, p: string): nat { Level(Rows(run, p), run.Plan().spine, run.Plan().window) }

  ghost predicate Took(run: Run, p: string, side: Side) {
    side.level <= Level(Rows(run, p), side.branch, run.Plan().window)
  }

  ghost predicate CarriedOn(run: Run, p: string, side: Side) {
    side.full.Some? && side.level + 1 <= Level(Rows(run, p), side.full.value, run.Plan().window)
  }

  /** `minIf(timestamp, <first condition>) > boundary`, for someone who entered. */
  ghost predicate EnteredLate(run: Run, p: string) {
    run.Plan().spine != []
    && forall e :: e in Rows(run, p) && Meets(run.Plan().spine[0], e) ==> run.Plan().partialAfter < e.at
  }

  ghost function AtLevel(run: Run, level: nat): set<string> {
    set p | p in Groups(run) && SpineLevel(run, p) == level
  }

  ghost predicate IsRow(run: Run, row: LevelRow) {
    var at, sides := AtLevel(run, row.level), run.Plan().sides;
    && row.people == |at|
    && row.partial == |set p | p in at && EnteredLate(run, p)|
    && |row.reached| == |row.continued| == |sides|
    && (forall j :: 0 <= j < |sides| ==> row.reached[j] == |set p | p in at && Took(run, p, sides[j])|)
    && (forall j :: 0 <= j < |sides| ==> row.continued[j] == |set p | p in at && CarriedOn(run, p, sides[j])|)
  }

  ghost predicate HasLevel(rows: seq<LevelRow>, level: nat) { exists i :: 0 <= i < |rows| && rows[i].level == level }

  /** `WHERE level > 0 GROUP BY level`, in whatever order the rows come back. */
  ghost predicate IsHistogram(run: Run, rows: seq<LevelRow>) {
    && (forall i, j :: 0 <= i < j < |rows| ==> rows[i].level != rows[j].level)
    && (forall i :: 0 <= i < |rows| ==> rows[i].level > 0 && IsRow(run, rows[i]))
    && (forall p :: p in Groups(run) && SpineLevel(run, p) > 0 ==> HasLevel(rows, SpineLevel(run, p)))
  }

  // ---- The scan loses nothing ------------------------------------------------------------------

  /** `conds` is `steps` compiled, the entry bound on the first. */
  ghost predicate Compiles(conds: seq<Condition>, steps: seq<Step>, until: int) {
    |conds| == |steps|
    && forall j :: 0 <= j < |conds| ==> conds[j] == Condition(steps[j], if j == 0 then Some(until) else None)
  }

  ghost predicate Named(run: Run, steps: seq<Step>) {
    forall j :: 0 <= j < |steps| ==> steps[j].event in run.Plan().names
  }

  /** Nothing the report cannot use is scanned: no row before the range, after its last window closes, or from the future. */
  lemma ScanIsTight(run: Run, e: Event)
    requires run.Valid() && Scanned(run.Plan(), e)
    ensures run.range.since <= e.at < run.range.until + run.Window() && e.at < run.now
    ensures exists i :: 0 <= i < |run.def.steps| && run.def.steps[i].event == e.name
  {
    var at := NamesAreTheEvents(run.def.steps, |run.def.steps|);
    var k :| 0 <= k < |run.Plan().names| && run.Plan().names[k] == e.name;
    assert FirstUsedAt(run.def.steps, e.name, at[k]);
  }

  /**
    The bounded, name-filtered scan reaches the end of a chain exactly when the person's whole
    surviving history does.
   */
  lemma InOrderLength(c: seq<Event>, history: seq<Event>, steps: seq<Step>, range: Range, window: nat)
    requires InOrder(c, history, steps, range, window)
    ensures |c| == |steps|
  {
  }

  /** The same chain, read off the scanned rows or off the whole history. */
  lemma ChainIsInOrder(run: Run, p: string, conds: seq<Condition>, steps: seq<Step>, c: seq<Event>)
    requires run.Valid() && steps != [] && Compiles(conds, steps, run.range.until) && Named(run, steps) && |c| == |steps|
    ensures Chain(c, Rows(run, p), conds, run.Window()) <==> InOrder(c, History(run, p), steps, run.range, run.Window())
  {
    SubseqFilter(c, e => run.Mine(p, e), run.table);
    SubseqFilter(c, e => run.Mine(p, e), Filter(e => Scanned(run.Plan(), e), run.table));
    SubseqFilter(c, e => Scanned(run.Plan(), e), run.table);
    assert c[0] in c;
    if Subseq(c, run.table) {
      SubseqSorted(c, run.table);
      SubseqMembers(c, run.table);
    }
    if InOrder(c, History(run, p), steps, run.range, run.Window()) {
      forall e | e in c ensures Scanned(run.Plan(), e) {
        var j :| 0 <= j < |c| && c[j] == e;
        assert c[0].at <= e.at <= c[|c| - 1].at;
        assert e in run.table;
      }
    }
  }

  lemma ScanLosesNothing(run: Run, p: string, conds: seq<Condition>, steps: seq<Step>)
    requires run.Valid() && steps != [] && Compiles(conds, steps, run.range.until) && Named(run, steps)
    ensures Reaches(Rows(run, p), conds, run.Window(), |steps|) <==> Did(run, p, steps)
  {
    hide Chain, InOrder, Rows, History;
    var rows, all, w := Rows(run, p), History(run, p), run.Window();
    forall c: seq<Event> | |c| == |steps| ensures Chain(c, rows, conds, w) <==> InOrder(c, all, steps, run.range, w) {
      ChainIsInOrder(run, p, conds, steps, c);
    }
    if Reaches(rows, conds, w, |steps|) {
      var c :| |c| == |steps| && Chain(c, rows, conds, w);
      assert InOrder(c, all, steps, run.range, w);
    }
    if Did(run, p, steps) {
      var c :| InOrder(c, all, steps, run.range, w);
      InOrderLength(c, all, steps, run.range, w);
      assert Chain(c, rows, conds, w);
    }
  }
}
