/**
  Paging through a segment's members: each compiled page is the keyset page of the people the tree
  describes (packages/core/src/segments/compile.ts:266-303).
 */
module SegmentPages {
  import opened Basics
  import opened BehaviourMeaning
  import opened BehaviourPasses
  import opened Events
  import opened Filters
  import opened Predicates
  import opened SegmentMeaning
  import opened SegmentSelection
  import opened Segments
  import opened SqlEval
  import K = Keyset

  function RowOf(p: Person): K.Row<string> { K.Row(p.lastSeen, p.id) }

  function RowsOf(people: seq<Person>): (r: seq<K.Row<string>>)
    ensures |r| == |people| && forall i :: 0 <= i < |r| ==> r[i] == RowOf(people[i])
  {
    seq(|people|, i requires 0 <= i < |people| => RowOf(people[i]))
  }

  function CursorRow(cursor: Option<Cursor>): Option<K.Row<string>> {
    if cursor.None? then None else Some(K.Row(cursor.value.lastSeen, cursor.value.person))
  }

  /** Where the continuation's parameters begin. */
  function AfterAt(f: Filter, project: nat, now: int, n: nat): nat
    requires ValidFilter(f)
  {
    n + |BeforeTree(f, project, now) + TreeBindings(f, now)| + 2
  }

  /** The whole WHERE clause of a page on one row: suppression, filter, continuation. */
  ghost predicate OnPage(f: Filter, project: nat, now: int, cursor: Option<Cursor>, n: nat, w: World, p: Person, params: seq<Binding>)
    requires ValidFilter(f)
  {
    && Selected(f, project, now, n, w, p, params)
    && (cursor.Some? ==> Eval(AfterFragment(AfterAt(f, project, now, n)).meant, PersonEnv(f, project, now, n, w, p, params)) == Truth(true))
  }

  /** The page's rows: filtered, ordered, limited. */
  ghost function MemberPage(f: Filter, project: nat, now: int, cursor: Option<Cursor>, n: nat, w: World, base: seq<Person>,
                            params: seq<Binding>): seq<K.Row<string>>
    requires ValidFilter(f)
  {
    var people := Basics.Filter((p: Person) => OnPage(f, project, now, cursor, n, w, p, params), base);
    K.Limited(K.Sorted(w.lib.before, RowsOf(people)))
  }

  lemma AfterIsPlaced(f: Filter, project: nat, now: int, c: Cursor, n: nat, params: seq<Binding>)
    requires ValidFilter(f) && Placed(params, n, QueryBindings(f, project, now, Members, Some(c)))
    ensures Placed(params, AfterAt(f, project, now, n), AfterBindings(Members, Some(c)))
  {
    hide BeforeTree, TreeBindings, Placed;
    var before, after := BeforeTree(f, project, now) + TreeBindings(f, now), AfterBindings(Members, Some(c));
    var projects := [ProjectBinding(project), ProjectBinding(project)];
    PlacedSplit(params, n, before, projects + after);
    PlacedSplit(params, n + |before|, projects, after);
  }

  /** One row is on the page exactly when the tree describes it and the keyset continues to it. */
  lemma OnPageMeans(f: Filter, project: nat, now: int, cursor: Option<Cursor>, n: nat, w: World, p: Person, params: seq<Binding>)
    requires ValidFilter(f) && FitsFilter(f, w.lib) && DistinctIds(w.table)
    requires Placed(params, n, QueryBindings(f, project, now, Members, cursor))
    ensures OnPage(f, project, now, cursor, n, w, p, params)
        <==> Described(f, w, p, now) && K.Continues(w.lib.before, CursorRow(cursor))(RowOf(p))
  {
    hide Selected, Described, Placed, QueryBindings, AfterFragment, AfterAt, Eval;
    FilterIsItsMeaning(f, project, now, Members, cursor, n, w, p, params);
    if cursor.Some? {
      AfterIsPlaced(f, project, now, cursor.value, n, params);
      AfterIsAfter(cursor.value, AfterAt(f, project, now, n), PersonEnv(f, project, now, n, w, p, params), p);
    }
  }

  lemma {:induction false} RowsFiltered(people: seq<Person>, keep: Person -> bool, kept: Person -> bool, on: K.Row<string> -> bool)
    requires forall p :: p in people ==> (keep(p) <==> kept(p) && on(RowOf(p)))
    ensures RowsOf(Basics.Filter(keep, people)) == Basics.Filter(on, RowsOf(Basics.Filter(kept, people)))
  {
    if people == [] {
      assert RowsOf([]) == [];
    } else {
      var rest := people[1..];
      assert people == [people[0]] + rest;
      RowsFiltered(rest, keep, kept, on);
      RowsCons(people[0], Basics.Filter(keep, rest));
      RowsCons(people[0], Basics.Filter(kept, rest));
      FilterConcat(on, [RowOf(people[0])], RowsOf(Basics.Filter(kept, rest)));
    }
  }

  lemma RowsCons(p: Person, people: seq<Person>)
    ensures RowsOf([p] + people) == [RowOf(p)] + RowsOf(people)
  {
  }

  /**
    Whatever the cursor, the compiled page is the keyset page of the described people: so the walk
    through pages is `Keyset.Walk` over the segment itself.
   */
  lemma PageIsKeysetPage(f: Filter, project: nat, now: int, cursor: Option<Cursor>, n: nat, w: World, base: seq<Person>,
                         params: seq<Binding>)
    requires ValidFilter(f) && FitsFilter(f, w.lib) && DistinctIds(w.table)
    requires Placed(params, n, QueryBindings(f, project, now, Members, cursor))
    ensures MemberPage(f, project, now, cursor, n, w, base, params)
         == K.Page(w.lib.before, RowsOf(DescribedPeople(f, w, base, now)), CursorRow(cursor))
  {
    hide OnPage, Described, QueryBindings, Placed, K.Continues, K.Sorted, K.Limited, RowsOf;
    forall p: Person
      ensures OnPage(f, project, now, cursor, n, w, p, params)
          <==> Described(f, w, p, now) && K.Continues(w.lib.before, CursorRow(cursor))(RowOf(p))
    {
      OnPageMeans(f, project, now, cursor, n, w, p, params);
    }
    RowsFiltered(base, (p: Person) => OnPage(f, project, now, cursor, n, w, p, params), (p: Person) => Described(f, w, p, now),
                 K.Continues(w.lib.before, CursorRow(cursor)));
  }

  // ---- The walk -------------------------------------------------------------------------------------------

  /** The cursor a reader sends next: the last row it was given. */
  function NextCursor(rows: seq<K.Row<string>>): Option<Cursor> {
    if rows == [] then None else Some(Cursor(rows[|rows| - 1].instant, rows[|rows| - 1].person))
  }

  /** Every page of this walk is compiled on its own, into parameters of its own. */
  ghost predicate Compiles(f: Filter, project: nat, now: int, n: nat, bind: Option<Cursor> -> seq<Binding>)
    requires ValidFilter(f)
  {
    forall c :: Placed(bind(c), n, QueryBindings(f, project, now, Members, c))
  }

  /** The rows a reader has after `k` pages. */
  ghost function Read(f: Filter, project: nat, now: int, n: nat, w: World, base: seq<Person>, bind: Option<Cursor> -> seq<Binding>,
                      k: nat): seq<K.Row<string>>
    requires ValidFilter(f)
  {
    if k == 0 then []
    else
      var rows := Read(f, project, now, n, w, base, bind, k - 1);
      rows + MemberPage(f, project, now, NextCursor(rows), n, w, base, bind(NextCursor(rows)))
  }

  /** The page after the first `i` rows of the sorted population is the next hundred of them. */
  lemma NextPage(before: (string, string) -> bool, population: seq<K.Row<string>>, i: nat)
    requires K.StrictOrder(before) && K.DistinctPeople(population) && i <= |K.Sorted(before, population)|
    ensures var all := K.Sorted(before, population);
            K.Page(before, population, CursorRow(NextCursor(all[..i]))) == all[i..Min(i + 100, |all|)]
  {
    hide K.StrictOrder, K.Continues, K.Sorted;
    var all := K.Sorted(before, population);
    if i == 0 {
      K.WholeAtStart(before, population);
      assert all[0..] == all;
    } else {
      K.Remaining(before, population, i - 1);
      assert CursorRow(NextCursor(all[..i])) == Some(all[i - 1]);
    }
  }

  /**
    After `k` pages a reader has the first 100k people the tree describes, in order: none skipped, none
    twice, no one else, and all of them from page n/100, rounded up.
   */
  lemma {:induction false} PagesAreTheSegment(f: Filter, project: nat, now: int, n: nat, w: World, base: seq<Person>,
                                              bind: Option<Cursor> -> seq<Binding>, k: nat)
    requires ValidFilter(f) && FitsFilter(f, w.lib) && DistinctIds(w.table) && Compiles(f, project, now, n, bind)
    requires K.StrictOrder(w.lib.before) && K.DistinctPeople(RowsOf(DescribedPeople(f, w, base, now)))
    ensures var all := K.Sorted(w.lib.before, RowsOf(DescribedPeople(f, w, base, now)));
            Read(f, project, now, n, w, base, bind, k) == all[..Min(100 * k, |all|)]
  {
    hide K.StrictOrder, K.DistinctPeople, K.Sorted, K.Page, MemberPage, DescribedPeople, QueryBindings, Placed, DistinctIds, RowsOf, NextCursor;
    var people := RowsOf(DescribedPeople(f, w, base, now));
    var all := K.Sorted(w.lib.before, people);
    if k > 0 {
      PagesAreTheSegment(f, project, now, n, w, base, bind, k - 1);
      var i := Min(100 * (k - 1), |all|);
      var cursor := NextCursor(all[..i]);
      PageIsKeysetPage(f, project, now, cursor, n, w, base, bind(cursor));
      NextPage(w.lib.before, people, i);
    }
  }
}
