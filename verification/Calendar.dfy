/**
  UTC days, Monday weeks and calendar months, as `Date.UTC` and the bucketing functions count them
  (packages/core/src/retention/compile.ts:30-49, 281-289).
 */
module Calendar {

  const DAY_MS := 86_400_000

  datatype Granularity = Daily | Weekly | Monthly

  /** Months are numbered from January 1970; `/` and `%` floor, so earlier months are negative. */
  function YearOf(month: int): int { 1970 + month / 12 }

  predicate Leap(year: int) { year % 4 == 0 && (year % 100 != 0 || year % 400 == 0) }

  function MonthLength(month: int): (n: int)
    ensures 28 <= n <= 31
  {
    var m := month % 12;
    if m == 1 then (if Leap(YearOf(month)) then 29 else 28)
    else if m == 3 || m == 5 || m == 8 || m == 10 then 30
    else 31
  }

  /** The day, counted from 1 January 1970, a month starts on. */
  function MonthStart(month: int): int
    decreases if month < 0 then -month else month
  {
    if month == 0 then 0
    else if month > 0 then MonthStart(month - 1) + MonthLength(month - 1)
    else MonthStart(month + 1) - MonthLength(month)
  }

  lemma MonthStep(month: int)
    ensures MonthStart(month + 1) == MonthStart(month) + MonthLength(month)
  {
  }

  // ---- The civil calendar --------------------------------------------------------------------------

  /** Days from 1 January 1970 to 1 January of a year: 365 each, and one more for each leap year between. */
  function YearStart(year: int): int {
    365 * (year - 1970) + ((year - 1) / 4 - 492) - ((year - 1) / 100 - 19) + ((year - 1) / 400 - 4)
  }

  /** How far into a common year each month starts. */
  const MONTH_OFFSETS: seq<int> := [0, 31, 59, 90, 120, 151, 181, 212, 243, 273, 304, 334]

  /** The civil calendar in closed form: the year's start, the month's offset, and the leap day once February is past. */
  function CivilMonthStart(month: int): int {
    var year, m := 1970 + month / 12, month % 12;
    YearStart(year) + MONTH_OFFSETS[m] + if m >= 2 then YearStart(year + 1) - YearStart(year) - 365 else 0
  }

  lemma YearLength(year: int)
    ensures YearStart(year + 1) == YearStart(year) + if Leap(year) then 366 else 365
  {
    assert year / 4 == (year - 1) / 4 + if year % 4 == 0 then 1 else 0;
    assert year / 100 == (year - 1) / 100 + if year % 100 == 0 then 1 else 0;
    assert year / 400 == (year - 1) / 400 + if year % 400 == 0 then 1 else 0;
    assert year % 400 == 0 ==> year % 100 == 0;
    assert year % 100 == 0 ==> year % 4 == 0;
  }

  lemma CivilStep(month: int)
    ensures CivilMonthStart(month + 1) == CivilMonthStart(month) + MonthLength(month)
  {
    hide YearStart, Leap;
    YearLength(1970 + month / 12);
    var m := month % 12;
    if m == 11 {
      assert (month + 1) / 12 == month / 12 + 1 && (month + 1) % 12 == 0;
    } else {
      assert (month + 1) / 12 == month / 12 && (month + 1) % 12 == m + 1;
    }
  }

  /** Every month starts on the day the civil calendar says, in every year before and after 1970. */
  lemma {:induction false} MonthStartIsCivil(month: int)
    ensures MonthStart(month) == CivilMonthStart(month)
    decreases if month < 0 then -month else month
  {
    hide CivilMonthStart;
    if month == 0 {
      EpochStart();
    } else if month > 0 {
      MonthStartIsCivil(month - 1);
      CivilStep(month - 1);
    } else {
      MonthStartIsCivil(month + 1);
      CivilStep(month);
    }
  }

  lemma EpochStart()
    ensures CivilMonthStart(0) == 0
  {
  }

  lemma {:induction false} MonthsApart(a: int, b: int)
    requires a <= b
    ensures 28 * (b - a) <= MonthStart(b) - MonthStart(a) <= 31 * (b - a)
    decreases b - a
  {
    if a < b {
      MonthsApart(a, b - 1);
      MonthStep(b - 1);
    }
  }

  /** The month a day falls in, searched from a month at or before it. */
  function MonthFrom(day: int, month: int): (m: int)
    requires MonthStart(month) <= day
    ensures MonthStart(m) <= day < MonthStart(m + 1)
    decreases day - MonthStart(month)
  {
    MonthStep(month);
    if day < MonthStart(month + 1) then month else MonthFrom(day, month + 1)
  }

  function MonthOf(day: int): (m: int)
    ensures MonthStart(m) <= day < MonthStart(m + 1)
  {
    if day >= 0 then MonthFrom(day, 0)
    else
      MonthsApart(day, 0);
      MonthFrom(day, day)
  }

  lemma MonthOfUnique(day: int, m: int)
    requires MonthStart(m) <= day < MonthStart(m + 1)
    ensures MonthOf(day) == m
  {
    var n := MonthOf(day);
    if n < m { MonthsApart(n + 1, m); }
    if m < n { MonthsApart(m + 1, n); }
  }

  function DayOf(instant: int): int { instant / DAY_MS }

  // ---- Periods ---------------------------------------------------------------------------------

  /** Which period an instant falls in: `dateDiff` between two buckets is the difference of these. */
  function Period(g: Granularity, instant: int): int {
    match g
    case Daily => DayOf(instant)
    case Weekly => (DayOf(instant) + 3) / 7
    case Monthly => MonthOf(DayOf(instant))
  }

  /** The first instant of a period: midnight UTC of its first day, Monday for a week. */
  function PeriodStart(g: Granularity, period: int): int {
    DAY_MS * match g
      case Daily => period
      case Weekly => 7 * period - 3
      case Monthly => MonthStart(period)
  }

  function PeriodMsMax(g: Granularity): int {
    match g case Daily => DAY_MS case Weekly => 7 * DAY_MS case Monthly => 31 * DAY_MS
  }

  lemma InPeriod(g: Granularity, instant: int, p: int)
    ensures Period(g, instant) == p <==> PeriodStart(g, p) <= instant < PeriodStart(g, p + 1)
  {
    if g == Monthly && PeriodStart(g, p) <= instant < PeriodStart(g, p + 1) {
      MonthOfUnique(DayOf(instant), p);
    }
  }

  /** Periods grow, and never by more than the bound the scan allows for each. */
  lemma PeriodsApart(g: Granularity, a: int, b: int)
    requires a <= b
    ensures a < b ==> PeriodStart(g, a) < PeriodStart(g, b)
    ensures PeriodStart(g, b) <= PeriodStart(g, a) + (b - a) * PeriodMsMax(g)
  {
    MonthsApart(a, b);
  }

  lemma PeriodMonotone(g: Granularity, s: int, t: int)
    ensures Period(g, s) < Period(g, t) ==> s < t
  {
    var p, q := Period(g, s), Period(g, t);
    InPeriod(g, s, p);
    InPeriod(g, t, q);
    if p < q { PeriodsApart(g, p + 1, q); }
  }

  /** An instant `k <= n` periods on comes later, but within `n + 1` of the longest periods. */
  lemma WithinPeriods(g: Granularity, s: int, t: int, k: nat, n: nat)
    requires Period(g, t) == Period(g, s) + k && k <= n
    ensures k > 0 ==> s < t
    ensures t < s + (n + 1) * PeriodMsMax(g)
  {
    hide Period, PeriodStart, PeriodMsMax;
    var c := Period(g, s);
    InPeriod(g, s, c);
    InPeriod(g, t, c + k);
    PeriodMonotone(g, s, t);
    PeriodsApart(g, c, c + k + 1);
    MorePeriods(g, k + 1, n + 1);
  }

  lemma MorePeriods(g: Granularity, a: nat, b: nat)
    requires a <= b
    ensures a * PeriodMsMax(g) <= b * PeriodMsMax(g)
  {
  }

  /** Days are 86400000 ms from the epoch; weeks start on Mondays, as 5 January 1970 was; months on the calendar's days. */
  lemma PeriodsStartWhere(p: int)
    ensures PeriodStart(Daily, p) == p * 86_400_000
    ensures PeriodStart(Weekly, p) == (4 + 7 * (p - 1)) * 86_400_000
    ensures PeriodStart(Monthly, p) == CivilMonthStart(p) * 86_400_000
  {
    hide CivilMonthStart, MonthStart;
    MonthStartIsCivil(p);
  }

  // ---- Date.UTC ------------------------------------------------------------------------------------

  /** `getUTCFullYear`, `getUTCMonth` (from 0) and `getUTCDate` (from 1). */
  function CivilDate(instant: int): (int, int, int) {
    var m := MonthOf(DayOf(instant));
    (YearOf(m), m % 12, DayOf(instant) - MonthStart(m) + 1)
  }

  /** `Date.UTC`, months and days beyond their range carrying over. */
  function DateUtc(year: int, month: int, day: int): int {
    DAY_MS * (MonthStart(12 * (year - 1970) + month) + day - 1)
  }

  /** The instant `n` whole periods after a start. */
  function PeriodEnd(start: int, g: Granularity, n: int): int {
    var (y, m, d) := CivilDate(start);
    if g == Monthly then DateUtc(y, m + n, d) else DateUtc(y, m, d + if g == Weekly then 7 * n else n)
  }

  /** Reading an instant's date and building it again gives midnight of its day; the parts are a month and a day of it. */
  lemma DateUtcUndoesCivilDate(instant: int)
    ensures var (y, m, d) := CivilDate(instant);
            && 0 <= m < 12 && 1 <= d <= 31
            && DateUtc(y, m, d) <= instant < DateUtc(y, m, d) + 86_400_000 && DateUtc(y, m, d) % 86_400_000 == 0
            && (y, m) == (1970 + MonthOf(instant / 86_400_000) / 12, MonthOf(instant / 86_400_000) % 12)
  {
    var month := MonthOf(DayOf(instant));
    MonthStep(month);
    assert 12 * (YearOf(month) - 1970) + month % 12 == month;
  }

  /** Strictly increasing in `n`, across month lengths and leap years, from any start at all. */
  lemma PeriodEndIncreases(start: int, g: Granularity, a: int, b: int)
    requires a < b
    ensures PeriodEnd(start, g, a) < PeriodEnd(start, g, b)
  {
    var (y, m, d) := CivilDate(start);
    MonthsApart(12 * (y - 1970) + m + a, 12 * (y - 1970) + m + b);
  }

  /** From a cohort's own start, the calendar arithmetic lands on the starts of later periods. */
  lemma PeriodEndIsAStart(g: Granularity, cohort: int, n: int)
    ensures PeriodEnd(PeriodStart(g, cohort), g, n) == PeriodStart(g, cohort + n)
  {
    var start := PeriodStart(g, cohort);
    var day := DayOf(start);
    assert start == DAY_MS * day;
    var month := MonthOf(day);
    assert 12 * (YearOf(month) - 1970) + month % 12 == month;
    if g == Monthly {
      MonthStep(cohort);
      MonthOfUnique(day, cohort);
    }
  }
}
