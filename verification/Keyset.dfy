/**
  Paging a population by its last row, on (instant descending, person ascending), under whatever
  strict order people are compared by (packages/core/src/segments/compile.ts:271-293,
  packages/core/src/funnels/compile.ts:377-387).
 */
module Keyset {
  import opened Basics

  /** A row of a people list: `last_seen` for a segment, `entered_at` for a funnel. */
  datatype Row<P> = Row(instant: int, person: P)

  const MEMBER_PAGE_SIZE: nat := 100

  /** How the database compares people: any two are ordered one way, and consistently. */
  ghost predicate StrictOrder<P(!new)>(before: (P, P) -> bool) {
    && (forall a, b :: a == b || before(a, b) || before(b, a))
    && (forall a, b :: !(before(a, b) && before(b, a)))
    && (forall a, b, c :: before(a, b) && before(b, c) ==> before(a, c))
  }

  /** ORDER BY instant DESC, person ASC. */
  function Order<P(==)>(before: (P, P) -> bool): (Row<P>, Row<P>) -> bool {
    (a: Row<P>, b: Row<P>) => a.instant > b.instant || (a.instant == b.instant && before(a.person, b.person))
  }

  /** The continuation the query adds for a cursor, with the database's `>` on people. */
  function Continues<P(==)>(before: (P, P) -> bool, cursor: Option<Row<P>>): Row<P> -> bool {
    (r: Row<P>) =>
      cursor.Some? ==>
        r.instant < cursor.value.instant
        || (r.instant == cursor.value.instant && !before(r.person, cursor.value.person) && r.person != cursor.value.person)
  }

  /** Each person once. */
  ghost predicate DistinctPeople<P(!new)>(population: seq<Row<P>>) {
    forall i, j :: 0 <= i < j < |population| ==> population[i].person != population[j].person
  }

  function Sorted<P(==)>(before: (P, P) -> bool, population: seq<Row<P>>): seq<Row<P>> { SortBy(Order(before), population) }

  function Limited<T>(rows: seq<T>): seq<T> { if |rows| <= MEMBER_PAGE_SIZE then rows else rows[..MEMBER_PAGE_SIZE] }

  /** One compiled page: filter by the cursor, order, limit. */
  function Page<P(==)>(before: (P, P) -> bool, population: seq<Row<P>>, cursor: Option<Row<P>>): seq<Row<P>> {
    Limited(Sorted(before, Filter(Continues(before, cursor), population)))
  }

  lemma RowsOrdered<P(!new)>(before: (P, P) -> bool, all: seq<Row<P>>)
    requires StrictOrder(before)
    ensures OrdersAll(Order(before), all)
  {
    var less := Order(before);
    forall x, y {:trigger less(x, y)}
      ensures x != y ==> less(x, y) || less(y, x)
      ensures !(less(x, y) && less(y, x))
    {
      assert x.person == y.person || before(x.person, y.person) || before(y.person, x.person);
    }
    forall x, y, z {:trigger less(x, y), less(y, z)} | less(x, y) && less(y, z) ensures less(x, z) {
    }
  }

  lemma {:induction false} DistinctRows<P(!new)>(population: seq<Row<P>>)
    requires DistinctPeople(population)
    ensures Distinct(population)
  {
    if population != [] {
      DistinctRows(population[1..]);
      assert forall j :: 0 < j < |population| ==> population[j] != population[0];
      assert population[0] !in population[1..];
    }
  }

  lemma {:induction false} DistinctFilter<T(!new)>(keep: T -> bool, s: seq<T>)
    requires Distinct(s)
    ensures Distinct(Filter(keep, s))
  {
    if s != [] {
      DistinctFilter(keep, s[1..]);
      FilterMembers(keep, s[1..]);
      if keep(s[0]) { assert Filter(keep, s)[1..] == Filter(keep, s[1..]); }
    }
  }

  lemma {:induction false} AscendingSuffix<T(!new)>(less: (T, T) -> bool, s: seq<T>, i: nat)
    requires i <= |s| && AscendingBy(less, s)
    ensures AscendingBy(less, s[i..])
  {
    if i > 0 {
      AscendingSuffix(less, s[1..], i - 1);
      assert s[i..] == s[1..][i - 1..];
    } else {
      assert s[0..] == s;
    }
  }

  /** The continuation lets through exactly what the order puts after the cursor's row. */
  lemma ContinuesIsAfter<P(!new)>(before: (P, P) -> bool, c: Row<P>, r: Row<P>)
    requires StrictOrder(before)
    ensures Continues(before, Some(c))(r) <==> Order(before)(c, r)
  {
    assert r.person == c.person || before(r.person, c.person) || before(c.person, r.person);
    assert !(before(r.person, c.person) && before(c.person, r.person));
  }

  /** In an ascending list, what comes after row `i` is what the order puts after it. */
  lemma AfterRow<P(!new)>(before: (P, P) -> bool, s: seq<Row<P>>, i: nat, r: Row<P>)
    requires StrictOrder(before) && i < |s| && AscendingBy(Order(before), s) && r in s
    ensures Continues(before, Some(s[i]))(r) <==> r in s[i + 1..]
  {
    var less := Order(before);
    ContinuesIsAfter(before, s[i], r);
    RowsOrdered(before, s);
    if less(s[i], r) {
      var j :| 0 <= j < |s| && s[j] == r;
      if j < i { AscendingAt(less, s, j, i); }
      assert !(less(s[i], r) && less(r, s[i]));
      assert s[i + 1..][j - i - 1] == r;
    }
    if r in s[i + 1..] {
      var j :| 0 <= j < |s| - i - 1 && s[i + 1..][j] == r;
      AscendingAt(less, s, i, i + 1 + j);
    }
  }

  /** Sorting any selection of the population puts just that selection in ascending order. */
  lemma SelectionAscends<P(!new)>(before: (P, P) -> bool, population: seq<Row<P>>, keep: Row<P> -> bool)
    requires StrictOrder(before) && DistinctPeople(population)
    ensures AscendingBy(Order(before), Sorted(before, Filter(keep, population)))
    ensures forall r :: r in Sorted(before, Filter(keep, population)) <==> r in population && keep(r)
  {
    hide Order, StrictOrder, Filter, SortBy, AscendingBy;
    var less, rest := Order(before), Filter(keep, population);
    DistinctRows(population);
    RowsOrdered(before, population);
    DistinctFilter(keep, population);
    FilterMembers(keep, population);
    forall y | y in rest ensures y in population && keep(y) { assert y in Filter(keep, population); }
    SortByAscending(less, population, rest);
    SortByMembers(less, rest);
  }

  /** The rows left after row `i` of the sorted list are exactly its tail, in order. */
  lemma Remaining<P(!new)>(before: (P, P) -> bool, population: seq<Row<P>>, i: nat)
    requires StrictOrder(before) && DistinctPeople(population) && i < |Sorted(before, population)|
    ensures var s := Sorted(before, population);
            Sorted(before, Filter(Continues(before, Some(s[i])), population)) == s[i + 1..]
  {
    hide Order, StrictOrder, Continues, Filter, SortBy, AscendingBy, Sorted;
    var less, s := Order(before), Sorted(before, population);
    var keep := Continues(before, Some(s[i]));
    SelectionAscends(before, population, keep);
    WalkIsExact(before, population, s[i]);
    AscendingSuffix(less, s, i + 1);
    RowsOrdered(before, population);
    forall r ensures r in population && keep(r) <==> r in s[i + 1..] {
      WalkIsExact(before, population, r);
      if r in s { AfterRow(before, s, i, r); }
    }
    AscendingUnique(less, population, Sorted(before, Filter(keep, population)), s[i + 1..]);
  }

  lemma WholeAtStart<P(!new)>(before: (P, P) -> bool, population: seq<Row<P>>)
    ensures Filter(Continues(before, None), population) == population
  {
    FilterAll(Continues(before, None), population);
  }

  /**
    Following the continuation page by page yields the sorted population, with no row skipped or
    repeated, and stops.
   */
  method Walk<P(==,!new)>(before: (P, P) -> bool, population: seq<Row<P>>) returns (rows: seq<Row<P>>)
    requires StrictOrder(before) && DistinctPeople(population)
    ensures rows == Sorted(before, population)
  {
    hide StrictOrder, Continues, Sorted;
    rows := [];
    var cursor: Option<Row<P>> := None;
    ghost var all := Sorted(before, population);
    WholeAtStart(before, population);
    var page := Page(before, population, cursor);
    while page != []
      invariant rows <= all
      invariant page == all[|rows|..Min(|rows| + MEMBER_PAGE_SIZE, |all|)]
      decreases |all| - |rows|
    {
      rows := rows + page;
      cursor := Some(page[|page| - 1]);
      Remaining(before, population, |rows| - 1);
      assert cursor.value == all[|rows| - 1];
      page := Page(before, population, cursor);
      assert page == all[|rows|..Min(|rows| + MEMBER_PAGE_SIZE, |all|)];
    }
  }

  /** Everyone in the population is in the walk exactly once, in order. */
  lemma WalkIsExact<P(!new)>(before: (P, P) -> bool, population: seq<Row<P>>, r: Row<P>)
    requires StrictOrder(before) && DistinctPeople(population)
    ensures r in Sorted(before, population) <==> r in population
    ensures |Sorted(before, population)| == |population|
    ensures AscendingBy(Order(before), Sorted(before, population))
  {
    SortByMembers(Order(before), population);
    DistinctRows(population);
    RowsOrdered(before, population);
    SortByAscending(Order(before), population, population);
  }

  /** JavaScript's own order on strings is one such order. */
  lemma CodeUnitOrderIsStrict()
    ensures StrictOrder(Before)
  {
    forall a, b ensures (a == b || Before(a, b) || Before(b, a)) && !(Before(a, b) && Before(b, a)) { BeforeTotal(a, b); }
    forall a, b, c | Before(a, b) && Before(b, c) ensures Before(a, c) { BeforeTransitive(a, b, c); }
  }
}
