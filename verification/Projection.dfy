/**
  The scan projects only the event columns its predicates name, and those are enough
  (packages/core/src/segments/predicates.ts:250-277, packages/core/src/segments/behaviour.ts:130-138).

  `events` is columnar and the one table every report reads, so a column no predicate names is not
  selected. The other direction is what a query's parsing depends on: an expression must read no
  column its scan did not select.
 */
module Projection {
  import opened Basics
  import opened BehaviourPasses
  import opened Filters
  import opened Predicates
  import opened PredicatesRead
  import opened SqlGrammar

  /** The columns every scan selects. */
  const SCAN_COLUMNS: set<string> :=
    {"project_id", "anonymous_id", "user_id", "timestamp", "event_name", "properties", "properties_num", "event_id"}

  predicate Names(wheres: seq<Where>, column: string) {
    exists i :: 0 <= i < |wheres| && wheres[i].Attribute? && wheres[i].column == column
  }

  lemma {:induction false} AddDistinct(s: seq<string>, x: string)
    requires Distinct(s) && x !in s
    ensures Distinct(s + [x])
  {
    if s != [] {
      AddDistinct(s[1..], x);
      assert (s + [x])[1..] == s[1..] + [x];
    }
  }

  /** Each named column once, in order. `before` is the order JavaScript sorts strings in. */
  method AttributeColumns(wheres: seq<Where>, before: (string, string) -> bool, ghost all: seq<string>) returns (columns: seq<string>)
    requires OrdersAll(before, all) && forall c :: Names(wheres, c) ==> c in all
    ensures forall c :: c in columns <==> Names(wheres, c)
    ensures AscendingBy(before, columns)
  {
    var out: seq<string> := [];
    for i := 0 to |wheres|
      invariant Distinct(out)
      invariant forall c :: c in out <==> Names(wheres[..i], c)
    {
      NamesOneMore(wheres, i);
      if wheres[i].Attribute? && wheres[i].column !in out {
        AddDistinct(out, wheres[i].column);
        out := out + [wheres[i].column];
      }
    }
    assert wheres[..|wheres|] == wheres;
    SortByMembers(before, out);
    SortByAscending(before, all, out);
    columns := SortBy(before, out);
  }

  lemma NamesOneMore(wheres: seq<Where>, i: nat)
    requires i < |wheres|
    ensures forall c :: Names(wheres[..i + 1], c) <==> Names(wheres[..i], c) || (wheres[i].Attribute? && wheres[i].column == c)
  {
    forall c | Names(wheres[..i], c) ensures Names(wheres[..i + 1], c) {
      var j :| 0 <= j < i && wheres[..i][j].Attribute? && wheres[..i][j].column == c;
      assert wheres[..i + 1][j] == wheres[j];
    }
    assert wheres[..i + 1][i] == wheres[i];
  }

  /** The same predicates in another order project the same columns in the same order. */
  lemma ProjectionIgnoresOrder(a: seq<string>, b: seq<string>, before: (string, string) -> bool, all: seq<string>, wheres: seq<Where>, others: seq<Where>)
    requires OrdersAll(before, all) && forall c :: Names(wheres, c) ==> c in all
    requires AscendingBy(before, a) && forall c :: c in a <==> Names(wheres, c)
    requires AscendingBy(before, b) && forall c :: c in b <==> Names(others, c)
    requires multiset(wheres) == multiset(others)
    ensures a == b
  {
    forall c ensures Names(wheres, c) <==> Names(others, c) {
      if Names(wheres, c) {
        var i :| 0 <= i < |wheres| && wheres[i].Attribute? && wheres[i].column == c;
        assert wheres[i] in multiset(others);
        var j :| 0 <= j < |others| && others[j] == wheres[i];
      }
      if Names(others, c) {
        var i :| 0 <= i < |others| && others[i].Attribute? && others[i].column == c;
        assert others[i] in multiset(wheres);
        var j :| 0 <= j < |wheres| && wheres[j] == others[i];
      }
    }
    AscendingUnique(before, all, a, b);
  }

  // ---- What an expression reads -----------------------------------------------------------------------

  /** Every column the expression reads is among these. */
  predicate Only(e: Expr, columns: set<string>) {
    match e
    case Column(name) => name in columns
    case Call(_, args) => forall i :: 0 <= i < |args| ==> Only(args[i], columns)
    case At(base, key) => Only(base, columns) && Only(key, columns)
    case Compare(_, left, right) => Only(left, columns) && Only(right, columns)
    case Range(x, low, high) => Only(x, columns) && Only(low, columns) && Only(high, columns)
    case Member(x, _) => Only(x, columns)
    case Negation(x) => Only(x, columns)
    case All(es) => forall i :: 0 <= i < |es| ==> Only(es[i], columns)
    case Any(es) => forall i :: 0 <= i < |es| ==> Only(es[i], columns)
    case _ => true
  }

  predicate AllOnly(fs: seq<Fragment>, columns: set<string>) { forall i :: 0 <= i < |fs| ==> Only(fs[i].meant, columns) }

  lemma CallOnly(f: string, args: seq<Fragment>, columns: set<string>)
    requires AllOnly(args, columns)
    ensures Only(CallOf(f, args).meant, columns)
  {
  }

  lemma JoinOnly(fs: seq<Fragment>, level: nat, columns: set<string>)
    requires fs != [] && AllOnly(fs, columns)
    ensures Only(JoinOf(fs, level).meant, columns)
  {
  }

  lemma TextOnly(lhs: Fragment, c: Clause, n: nat, columns: set<string>)
    requires c.Matches? && Only(lhs.meant, columns)
    ensures Only(TextFragment(lhs, c, n).meant, columns)
  {
    var hay, needle := CallOf("lowerUTF8", [lhs]), CallOf("lowerUTF8", [ParamRef(n)]);
    CallOnly("lowerUTF8", [lhs], columns);
    CallOnly("lowerUTF8", [ParamRef(n)], columns);
    CallOnly("position", [hay, needle], columns);
    CallOnly("startsWith", [hay, needle], columns);
    CallOnly("endsWith", [hay, needle], columns);
  }

  lemma ColumnOnly(column: string, c: Clause, n: nat, columns: set<string>)
    requires ColumnClause(c) && column in columns
    ensures Only(ColumnFragment(column, c, n).meant, columns)
  {
    if c.Matches? { TextOnly(ColumnRef(column), c, n, columns); }
  }

  lemma RelativeOnly(date: Fragment, c: Clause, n: nat, columns: set<string>)
    requires c.Relative? && Only(date.meant, columns)
    ensures Only(RelativeFragment(date, c, true, n).meant, columns)
  {
    CallOnly("ifNull", [Comparing2(date, Ge, ParamRef(n)), NumberRef(0)], columns);
  }

  lemma StringOnly(map_: string, c: Clause, n: nat, columns: set<string>)
    requires !c.Presence? && map_ in columns
    ensures Only(StringFragment(map_, c, n).meant, columns)
  {
    var str := Lookup(map_, n);
    if c.Matches? {
      TextOnly(str, c, n + 1, columns);
    } else if c.Relative? {
      CallOnly("parseDateTime64BestEffortOrNull", [str], columns);
      RelativeOnly(AsDate(str), c, n + 1, columns);
    }
  }

  lemma WhereOnly(w: Where, n: nat, columns: set<string>)
    requires ValidWhere(w) && SCAN_COLUMNS <= columns && (w.Attribute? ==> w.column in columns)
    ensures Only(WhereFragment(w, n).meant, columns)
  {
    if w.Attribute? {
      ColumnOnly(w.column, w.clause, n, columns);
    } else if w.clause.Presence? {
      CallOnly("mapContains", [ColumnRef("properties"), ParamRef(n)], columns);
      CallOnly("mapContains", [ColumnRef("properties_num"), ParamRef(n)], columns);
      JoinOnly([HasKey("properties", n), HasKey("properties_num", n)], DISJUNCTION, columns);
    } else if !Numeric(w.clause) {
      StringOnly("properties", w.clause, n, columns);
    }
  }

  lemma {:induction false} WheresOnly(wheres: seq<Where>, n: nat, now: int, columns: set<string>)
    requires forall i :: 0 <= i < |wheres| ==> ValidWhere(wheres[i])
    requires SCAN_COLUMNS <= columns && forall c :: Names(wheres, c) ==> c in columns
    ensures AllOnly(WhereFragments(wheres, n, now), columns)
  {
    hide WhereFragment, WhereBindings, Only;
    if wheres != [] {
      if wheres[0].Attribute? { assert Names(wheres, wheres[0].column); }
      forall c | Names(wheres[1..], c) ensures Names(wheres, c) {
        var i :| 0 <= i < |wheres| - 1 && wheres[1..][i].Attribute? && wheres[1..][i].column == c;
        assert wheres[i + 1].column == c;
      }
      WhereOnly(wheres[0], n, columns);
      WheresOnly(wheres[1..], n + |WhereBindings(wheres[0], now)|, now, columns);
    }
  }

  lemma ConcatOnly(a: seq<Fragment>, b: seq<Fragment>, columns: set<string>)
    requires AllOnly(a, columns) && AllOnly(b, columns)
    ensures AllOnly(a + b, columns)
  {
  }

  /** A behaviour's condition reads no column its scan did not select. */
  lemma ConditionReadsOnlyWhatIsProjected(b: Behavior, now: int, n: nat, columns: set<string>)
    requires ValidBehavior(b) && SCAN_COLUMNS <= columns && forall c :: Names(b.where, c) ==> c in columns
    ensures Only(ConditionFragment(b, now, n).meant, columns)
  {
    hide WhereFragments;
    var wheres := WhereFragments(b.where, WheresAt(b, now, n), now);
    WheresOnly(b.where, WheresAt(b, now, n), now, columns);
    ConcatOnly(UntilParts(b, now, n), wheres, columns);
    ConcatOnly(FromParts(b, now, n), UntilParts(b, now, n) + wheres, columns);
    ConcatOnly(EventParts(b, n), FromParts(b, now, n) + (UntilParts(b, now, n) + wheres), columns);
    if ConditionParts(b, now, n) != [] { JoinOnly(ConditionParts(b, now, n), CONJUNCTION, columns); }
  }
}
