/**
  The retention grid: cohorts, activity and the scan that feeds them
  (packages/core/src/retention/compile.ts:86-279, packages/core/src/retention/ast.ts:41-121).
 */
module Retention {
  import opened Basics
  import opened Calendar
  import opened Events
  import opened Suppression

  const MAX_PERIODS: nat := 26
  const MAX_COHORTS: nat := 60

  /** What starts a cohort, or counts as coming back; no name means any event. */
  datatype Side = Side(event: Option<string>, where: seq<Event -> bool>)

  datatype Query = Query(start: Side, return_: Side, granularity: Granularity, periods: nat, since: int, until: int)

  predicate Matches(side: Side, e: Event) {
    (side.event.Some? ==> e.name == side.event.value) && forall i :: 0 <= i < |side.where| ==> side.where[i](e)
  }

  /** The shortest a period can be, which over-counts cohorts rather than under-counting them. */
  function PeriodMsMin(g: Granularity): int {
    match g case Daily => DAY_MS case Weekly => 7 * DAY_MS case Monthly => 28 * DAY_MS
  }

  /** What the schema and `validateRetention` let through. */
  predicate ValidQuery(q: Query) {
    && 1 <= q.periods <= MAX_PERIODS
    && q.since < q.until
    && (q.until - q.since + PeriodMsMin(q.granularity) - 1) / PeriodMsMin(q.granularity) <= MAX_COHORTS
  }

  /** One run over the project as it stands at `now`: nothing in it is from the future. */
  datatype Run = Run(query: Query, now: int, table: seq<Event>, suppressed: Boundaries, segment: Option<set<string>>) {
    ghost predicate Valid() { ValidQuery(query) && forall e :: e in table ==> e.at < now }

    predicate Mine(p: string, e: Event) { e.person == p && Survives(suppressed, p, e.at) }

    function Index(e: Event): int { Period(query.granularity, e.at) }
  }

  // ---- The compiled query --------------------------------------------------------------------------

  /** How far past the range the last cohort's last period may reach. */
  function Horizon(q: Query): int { q.until + (q.periods + 1) * PeriodMsMax(q.granularity) }

  function ScanEnd(run: Run): int { Min(Horizon(run.query), run.now) }

  /** The name predicate, omitted when either side takes any event. */
  predicate NameWanted(q: Query, e: Event) {
    q.start.event.None? || q.return_.event.None? || e.name == q.start.event.value || e.name == q.return_.event.value
  }

  predicate Scanned(run: Run, e: Event) {
    run.query.since <= e.at < ScanEnd(run) && NameWanted(run.query, e)
  }

  /** The `scan` rows of one person. */
  ghost predicate InScan(run: Run, p: string, e: Event) {
    e in run.table && Scanned(run, e) && run.Mine(p, e)
  }

  ghost predicate StartsIn(run: Run, p: string, e: Event) {
    InScan(run, p, e) && Matches(run.query.start, e) && e.at < run.query.until
  }

  /** `cohorts`: the bucket of the person's first start event in the scan. */
  ghost predicate InCohort(run: Run, p: string, cohort: int) {
    (run.segment.Some? ==> p in run.segment.value)
    && exists first :: StartsIn(run, p, first) && run.Index(first) == cohort
                       && forall e :: StartsIn(run, p, e) ==> first.at <= e.at
  }

  /** `per_person`: entry `k` of the indicator array, false throughout for someone with no activity. */
  ghost predicate Hit(run: Run, p: string, cohort: int, k: nat) {
    exists e :: InScan(run, p, e) && Matches(run.query.return_, e) && run.Index(e) - cohort == k
  }

  ghost function CohortSize(run: Run, cohort: int): nat { |set p | p in Everyone(run.table) && InCohort(run, p, cohort)| }

  ghost function Retained(run: Run, cohort: int, k: nat): nat {
    |set p | p in Everyone(run.table) && InCohort(run, p, cohort) && Hit(run, p, cohort, k)|
  }

  /** In numbers: up to 26 periods, and a range of at most sixty days, weeks, or months of 28 days. */
  lemma ValidQueryIs(q: Query)
    ensures ValidQuery(q)
       <==> 1 <= q.periods <= 26
            && 0 < q.until - q.since <= 60 * 86_400_000 * (match q.granularity case Daily => 1 case Weekly => 7 case Monthly => 28)
  {
  }

  /** The limit on cohorts holds: a valid range touches at most sixty-one periods, the first and last in part. */
  lemma CohortsAreBounded(run: Run)
    requires run.Valid()
    ensures Period(run.query.granularity, run.query.until - 1) - Period(run.query.granularity, run.query.since) <= 60
  {
    var g, since, last := run.query.granularity, run.query.since, run.query.until - 1;
    var a, b := Period(g, since), Period(g, last);
    InPeriod(g, since, a);
    InPeriod(g, last, b);
    if a < b {
      PeriodsAtLeast(g, a + 1, b);
      CohortSpan(last - since, b - a, PeriodMsMin(g));
    }
  }

  lemma PeriodsAtLeast(g: Granularity, a: int, b: int)
    requires a <= b
    ensures PeriodStart(g, b) >= PeriodStart(g, a) + (b - a) * PeriodMsMin(g)
  {
    MonthsApart(a, b);
  }

  lemma CohortSpan(span: int, n: int, least: int)
    requires n > 0 && least > 2 && span >= (n - 1) * least + 1 && (span + 1 + least - 1) / least <= 60
    ensures n <= 60
  {
    assert span + least < 61 * least;
    assert n * least < 61 * least;
  }

  /** Nothing the grid cannot use is scanned. */
  lemma ScanIsTight(run: Run, e: Event)
    requires run.Valid() && Scanned(run, e)
    ensures run.query.since <= e.at < run.now
    ensures run.query.start.event.Some? && run.query.return_.event.Some? ==>
      e.name == run.query.start.event.value || e.name == run.query.return_.event.value
  {
  }

  // ---- Direct meaning ------------------------------------------------------------------------------

  /** Something the person did that survives suppression, at any time. */
  ghost predicate Happened(run: Run, p: string, e: Event) { e in run.table && run.Mine(p, e) }

  ghost predicate Started(run: Run, p: string, e: Event) {
    Happened(run, p, e) && Matches(run.query.start, e) && run.query.since <= e.at < run.query.until
  }

  /** Their first start event inside the range falls in this period. */
  ghost predicate Joined(run: Run, p: string, cohort: int) {
    (run.segment.Some? ==> p in run.segment.value)
    && exists first :: Started(run, p, first) && run.Index(first) == cohort
                       && forall e :: Started(run, p, e) ==> first.at <= e.at
  }

  /** They came back `k` periods after their cohort's; in the cohort's own period, from `since` on. */
  ghost predicate CameBack(run: Run, p: string, cohort: int, k: nat) {
    exists e :: Happened(run, p, e) && Matches(run.query.return_, e) && run.Index(e) == cohort + k
                && (k == 0 ==> run.query.since <= e.at)
  }

  // ---- The truncated scan loses nothing --------------------------------------------------------------

  lemma SameStarts(run: Run, p: string, e: Event)
    requires run.Valid()
    ensures StartsIn(run, p, e) <==> Started(run, p, e)
  {
  }

  lemma SameCohorts(run: Run, p: string, cohort: int)
    requires run.Valid()
    ensures InCohort(run, p, cohort) <==> Joined(run, p, cohort)
  {
    forall e ensures StartsIn(run, p, e) <==> Started(run, p, e) {
      SameStarts(run, p, e);
    }
  }

  /** The scan covers every measured period of every cohort, months included. */
  lemma PeriodIsScanned(run: Run, first: Event, e: Event, p: string, k: nat)
    requires run.Valid() && k <= run.query.periods
    requires Started(run, p, first) && Happened(run, p, e) && run.Index(e) == run.Index(first) + k
    ensures k > 0 ==> run.query.since <= e.at
    ensures e.at < Horizon(run.query)
  {
    WithinPeriods(run.query.granularity, first.at, e.at, k, run.query.periods);
  }

  /** Each cell counts exactly the cohort's people who came back in that period. */
  lemma HitIsDirect(run: Run, p: string, cohort: int, k: nat)
    requires run.Valid() && k <= run.query.periods && InCohort(run, p, cohort)
    ensures Hit(run, p, cohort, k) <==> CameBack(run, p, cohort, k)
  {
    hide Horizon, Survives, Period;
    var first :| StartsIn(run, p, first) && run.Index(first) == cohort && forall e :: StartsIn(run, p, e) ==> first.at <= e.at;
    if Hit(run, p, cohort, k) {
      var e :| InScan(run, p, e) && Matches(run.query.return_, e) && run.Index(e) - cohort == k;
      assert Happened(run, p, e);
    }
    if CameBack(run, p, cohort, k) {
      var e :| Happened(run, p, e) && Matches(run.query.return_, e) && run.Index(e) == cohort + k
               && (k == 0 ==> run.query.since <= e.at);
      PeriodIsScanned(run, first, e, p, k);
      assert InScan(run, p, e);
    }
  }

  ghost function Joiners(run: Run, cohort: int): set<string> {
    set p | p in Everyone(run.table) && Joined(run, p, cohort)
  }

  ghost function Returners(run: Run, cohort: int, k: nat): set<string> {
    set p | p in Everyone(run.table) && Joined(run, p, cohort) && CameBack(run, p, cohort, k)
  }

  /** The grid equals direct counting, for every cohort and every period it shows. */
  lemma GridCountsPeople(run: Run, cohort: int, k: nat)
    requires run.Valid() && k <= run.query.periods
    ensures CohortSize(run, cohort) == |Joiners(run, cohort)|
    ensures Retained(run, cohort, k) == |Returners(run, cohort, k)|
  {
    forall p
      ensures InCohort(run, p, cohort) <==> Joined(run, p, cohort)
      ensures InCohort(run, p, cohort) ==> (Hit(run, p, cohort, k) <==> CameBack(run, p, cohort, k))
    {
      SameCohorts(run, p, cohort);
      if InCohort(run, p, cohort) { HitIsDirect(run, p, cohort, k); }
    }
    assert (set p | p in Everyone(run.table) && InCohort(run, p, cohort)) == Joiners(run, cohort);
    assert (set p | p in Everyone(run.table) && InCohort(run, p, cohort) && Hit(run, p, cohort, k)) == Returners(run, cohort, k);
  }

  /** One of the start events is first, and it decides the cohort. */
  lemma {:induction false} FirstStart(run: Run, p: string, e: Event, rows: seq<Event>) returns (first: Event)
    requires StartsIn(run, p, e) && forall f :: f in rows ==> f in run.table
    ensures StartsIn(run, p, first) && first.at <= e.at
    ensures forall f :: f in rows && StartsIn(run, p, f) ==> first.at <= f.at
  {
    if rows == [] {
      first := e;
    } else {
      assert rows == [rows[0]] + rows[1..];
      first := FirstStart(run, p, e, rows[1..]);
      if StartsIn(run, p, rows[0]) && rows[0].at < first.at { first := rows[0]; }
    }
  }

  /** Everyone in the segment who did the start event inside the range is in exactly one cohort. */
  lemma ExactlyOneCohort(run: Run, p: string, e: Event)
    requires run.Valid() && Started(run, p, e) && (run.segment.Some? ==> p in run.segment.value)
    ensures exists cohort :: InCohort(run, p, cohort) && forall c :: InCohort(run, p, c) ==> c == cohort
  {
    SameStarts(run, p, e);
    var first := FirstStart(run, p, e, run.table);
    var cohort := run.Index(first);
    assert InCohort(run, p, cohort);
    forall c | InCohort(run, p, c) ensures c == cohort {
      var f :| StartsIn(run, p, f) && run.Index(f) == c && forall e :: StartsIn(run, p, e) ==> f.at <= e.at;
      assert f.at == first.at;
    }
  }

  // ---- Which cells may be shown ------------------------------------------------------------------------

  method MeasurableCells(cohortStart: int, g: Granularity, periods: nat, now: int) returns (out: seq<bool>)
    ensures |out| == periods + 1
    ensures forall k :: 0 <= k <= periods ==> (out[k] <==> PeriodEnd(cohortStart, g, k + 1) <= now)
  {
    out := [];
    for k := 0 to periods + 1
      invariant |out| == k
      invariant forall j :: 0 <= j < k ==> (out[j] <==> PeriodEnd(cohortStart, g, j + 1) <= now)
    {
      out := out + [PeriodEnd(cohortStart, g, k + 1) <= now];
    }
  }

  ghost predicate Measurable(cohortStart: int, g: Granularity, now: int, k: nat) { PeriodEnd(cohortStart, g, k + 1) <= now }

  /** Measurable cells come first: once one is not, none after it is. */
  lemma MeasurableIsAPrefix(cohortStart: int, g: Granularity, now: int, j: nat, k: nat)
    requires j <= k && Measurable(cohortStart, g, now, k)
    ensures Measurable(cohortStart, g, now, j)
  {
    if j < k { PeriodEndIncreases(cohortStart, g, j + 1, k + 1); }
  }

  /** The same project seen later: whatever is new happened at or after the earlier instant. */
  ghost predicate SeenLater(run: Run, later: Run) {
    && later == run.(now := later.now, table := later.table)
    && run.now <= later.now
    && forall e :: e in run.table <==> e in later.table && e.at < run.now
  }

  lemma JoinedIsSettled(run: Run, later: Run, p: string, cohort: int)
    requires run.Valid() && later.Valid() && SeenLater(run, later)
    requires PeriodStart(run.query.granularity, cohort + 1) <= run.now
    ensures Joined(run, p, cohort) <==> Joined(later, p, cohort)
  {
    var g := run.query.granularity;
    forall e ensures Started(run, p, e) <==> Started(later, p, e) && e.at < run.now {}
    if Joined(run, p, cohort) {
      var first :| Started(run, p, first) && run.Index(first) == cohort && forall e :: Started(run, p, e) ==> first.at <= e.at;
      assert Started(later, p, first) && later.Index(first) == cohort;
    }
    if Joined(later, p, cohort) {
      var first :| Started(later, p, first) && later.Index(first) == cohort && forall e :: Started(later, p, e) ==> first.at <= e.at;
      InPeriod(g, first.at, cohort);
      assert Started(run, p, first) && run.Index(first) == cohort;
    }
  }

  lemma CameBackIsSettled(run: Run, later: Run, p: string, cohort: int, k: nat)
    requires run.Valid() && later.Valid() && SeenLater(run, later)
    requires PeriodStart(run.query.granularity, cohort + k + 1) <= run.now
    ensures CameBack(run, p, cohort, k) <==> CameBack(later, p, cohort, k)
  {
    if CameBack(run, p, cohort, k) {
      var e :| Happened(run, p, e) && Matches(run.query.return_, e) && run.Index(e) == cohort + k && (k == 0 ==> run.query.since <= e.at);
      assert Happened(later, p, e) && later.Index(e) == cohort + k;
    }
    if CameBack(later, p, cohort, k) {
      var e :| Happened(later, p, e) && Matches(run.query.return_, e) && later.Index(e) == cohort + k && (k == 0 ==> run.query.since <= e.at);
      InPeriod(run.query.granularity, e.at, cohort + k);
      assert Happened(run, p, e) && run.Index(e) == cohort + k;
    }
  }

  /** A measurable cell is final: it reads the same at every later instant. */
  lemma MeasurableCellIsFinal(run: Run, later: Run, cohort: int, k: nat)
    requires run.Valid() && later.Valid() && SeenLater(run, later) && k <= run.query.periods
    requires Measurable(PeriodStart(run.query.granularity, cohort), run.query.granularity, run.now, k)
    ensures CohortSize(run, cohort) == CohortSize(later, cohort)
    ensures Retained(run, cohort, k) == Retained(later, cohort, k)
  {
    ClosedPeriods(run.query.granularity, cohort, k, run.now);
    SettledSets(run, later, cohort, k);
    GridCountsPeople(run, cohort, k);
    GridCountsPeople(later, cohort, k);
  }

  lemma ClosedPeriods(g: Granularity, cohort: int, k: nat, now: int)
    requires Measurable(PeriodStart(g, cohort), g, now, k)
    ensures PeriodStart(g, cohort + 1) <= PeriodStart(g, cohort + k + 1) <= now
  {
    PeriodEndIsAStart(g, cohort, k + 1);
    PeriodsApart(g, cohort + 1, cohort + k + 1);
  }

  lemma SettledSets(run: Run, later: Run, cohort: int, k: nat)
    requires run.Valid() && later.Valid() && SeenLater(run, later)
    requires PeriodStart(run.query.granularity, cohort + 1) <= run.now
    requires PeriodStart(run.query.granularity, cohort + k + 1) <= run.now
    ensures Joiners(run, cohort) == Joiners(later, cohort)
    ensures Returners(run, cohort, k) == Returners(later, cohort, k)
  {
    forall p
      ensures Joined(run, p, cohort) <==> Joined(later, p, cohort)
      ensures CameBack(run, p, cohort, k) <==> CameBack(later, p, cohort, k)
      ensures Joined(run, p, cohort) ==> p in Everyone(run.table) && p in Everyone(later.table)
    {
      JoinedIsSettled(run, later, p, cohort);
      CameBackIsSettled(run, later, p, cohort, k);
    }
  }
}
