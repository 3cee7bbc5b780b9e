/**
  Every text the compiler emits, read back under ordinary precedence, is the structure it was meant
  to have, wherever the compiler puts it (packages/core/src/segments/predicates.ts:56-167, 377-396;
  packages/core/src/funnels/compile.ts:37-49).
 */
module PredicatesRead {
  import opened Basics
  import opened Filters
  import opened Predicates
  import opened SqlGrammar

  ghost predicate Reading(f: Fragment, level: nat)
    requires level <= DISJUNCTION
  {
    Reads(f.text, level, f.meant)
  }

  lemma Loosen(f: Fragment, level: nat, target: nat)
    requires level <= target <= DISJUNCTION && Reading(f, level)
    ensures Reading(f, target)
  {
    Looser(f.text, level, f.meant, target);
  }

  // ---- Building blocks -------------------------------------------------------------------------

  lemma AtomsRead(name: string, n: nat, k: int)
    ensures Reading(ColumnRef(name), PRIMARY) && Reading(ParamRef(n), PRIMARY) && Reading(NumberRef(k), PRIMARY)
    ensures Reading(ColumnRef(name), POSTFIX) && Reading(ParamRef(n), POSTFIX) && Reading(NumberRef(k), POSTFIX)
    ensures Reading(ColumnRef(name), DISJUNCTION) && Reading(ParamRef(n), DISJUNCTION) && Reading(NumberRef(k), DISJUNCTION)
  {
    ReadsName(name);
    ReadsAtom(Param(n), Bound(n));
    ReadsAtom(Numeral(k), Literal(k));
    Loosen(ColumnRef(name), PRIMARY, POSTFIX);
    Loosen(ParamRef(n), PRIMARY, POSTFIX);
    Loosen(NumberRef(k), PRIMARY, POSTFIX);
    Loosen(ColumnRef(name), PRIMARY, DISJUNCTION);
    Loosen(ParamRef(n), PRIMARY, DISJUNCTION);
    Loosen(NumberRef(k), PRIMARY, DISJUNCTION);
  }

  lemma CallReads(f: string, args: seq<Fragment>)
    requires args != [] && forall i :: 0 <= i < |args| ==> Reading(args[i], DISJUNCTION)
    ensures Reading(CallOf(f, args), PRIMARY) && Reading(CallOf(f, args), POSTFIX) && Reading(CallOf(f, args), DISJUNCTION)
  {
    ReadsCall(f, Texts(args), Meants(args));
    Loosen(CallOf(f, args), PRIMARY, POSTFIX);
    Loosen(CallOf(f, args), PRIMARY, DISJUNCTION);
  }

  lemma LookupReads(map_: string, key: nat)
    ensures Reading(Lookup(map_, key), POSTFIX) && Reading(Lookup(map_, key), DISJUNCTION)
  {
    AtomsRead(map_, key, 0);
    ReadsIndex([Name(map_)], Column(map_), [Param(key)], Bound(key));
    Loosen(Lookup(map_, key), POSTFIX, DISJUNCTION);
  }

  lemma ComparisonReads(a: Fragment, op: Comparison, b: Fragment)
    requires Reading(a, POSTFIX) && Reading(b, POSTFIX)
    ensures Reading(Comparing2(a, op, b), NEGATION) && Reading(Comparing2(a, op, b), DISJUNCTION)
  {
    ReadsCompare(a.text, a.meant, op, b.text, b.meant);
    Loosen(Comparing2(a, op, b), COMPARISON, NEGATION);
    Loosen(Comparing2(a, op, b), COMPARISON, DISJUNCTION);
  }

  lemma ParensRead(f: Fragment)
    requires Reading(f, DISJUNCTION)
    ensures Reading(Parens(f), PRIMARY) && Reading(Parens(f), NEGATION)
  {
    ReadsParens(f.text, f.meant);
    Loosen(Parens(f), PRIMARY, NEGATION);
  }

  lemma NotReads(f: Fragment)
    requires Reading(f, NEGATION)
    ensures Reading(NotOf(f), NEGATION)
  {
    ReadsNot(f.text, f.meant);
  }

  lemma {:induction false} AllLoosen(fs: seq<Fragment>, level: nat, target: nat)
    requires level <= target <= DISJUNCTION && forall i :: 0 <= i < |fs| ==> Reading(fs[i], level)
    ensures forall i :: 0 <= i < |fs| ==> Reading(fs[i], target)
  {
    forall i | 0 <= i < |fs| ensures Reading(fs[i], target) {
      Loosen(fs[i], level, target);
    }
  }

  /** Each piece is closed: it can stand anywhere a negation can. */
  ghost predicate AllRead(fs: seq<Fragment>) { forall i :: 0 <= i < |fs| ==> Reading(fs[i], NEGATION) }

  lemma AllReadConcat(a: seq<Fragment>, b: seq<Fragment>)
    requires AllRead(a) && AllRead(b)
    ensures AllRead(a + b)
  {
  }

  lemma AllReadOne(f: Fragment)
    requires Reading(f, NEGATION)
    ensures AllRead([f])
  {
  }

  /** Closed pieces stay closed when joined: each is one operand of the keyword. */
  lemma JoinReads(fs: seq<Fragment>, level: nat)
    requires CONJUNCTION <= level <= DISJUNCTION && fs != [] && AllRead(fs)
    ensures Reading(JoinOf(fs, level), level) && Reading(JoinOf(fs, level), DISJUNCTION)
  {
    AllLoosen(fs, NEGATION, level - 1);
    assert Texts(fs) != [];
    ReadsChain(Texts(fs), Meants(fs), level);
    Loosen(JoinOf(fs, level), level, DISJUNCTION);
  }

  // ---- The families ------------------------------------------------------------------------------

  lemma CompareReads(lhs: Fragment, c: Clause, n: nat)
    requires Comparing(c) && Reading(lhs, POSTFIX)
    ensures Reading(CompareFragment(lhs, c, n), NEGATION) && Reading(CompareFragment(lhs, c, n), DISJUNCTION)
  {
    AtomsRead("", n, 0);
    AtomsRead("", n + 1, 0);
    if c.Between? {
      ReadsBetween(lhs.text, lhs.meant, [Param(n)], Bound(n), [Param(n + 1)], Bound(n + 1));
      Loosen(CompareFragment(lhs, c, n), COMPARISON, NEGATION);
      Loosen(CompareFragment(lhs, c, n), COMPARISON, DISJUNCTION);
    } else {
      ComparisonReads(lhs, c.op, ParamRef(n));
    }
  }

  lemma TextReads(lhs: Fragment, c: Clause, n: nat)
    requires c.Matches? && Reading(lhs, DISJUNCTION)
    ensures Reading(TextFragment(lhs, c, n), NEGATION)
  {
    AtomsRead("", n, 0);
    CallReads("lowerUTF8", [lhs]);
    CallReads("lowerUTF8", [ParamRef(n)]);
    var args := [CallOf("lowerUTF8", [lhs]), CallOf("lowerUTF8", [ParamRef(n)])];
    match c.operator
    case Contains =>
      CallReads("position", args);
      ComparisonReads(CallOf("position", args), if c.negated then Eq else Gt, NumberRef(0));
    case StartsWith =>
      CallReads("startsWith", args);
      Loosen(CallOf("startsWith", args), PRIMARY, NEGATION);
      NotReads(CallOf("startsWith", args));
    case EndsWith =>
      CallReads("endsWith", args);
      Loosen(CallOf("endsWith", args), PRIMARY, NEGATION);
      NotReads(CallOf("endsWith", args));
  }

  lemma SetReads(present: Fragment, is_set: bool)
    requires Reading(present, NEGATION)
    ensures Reading(SetFragment(present, is_set), NEGATION)
  {
    Loosen(present, NEGATION, DISJUNCTION);
    ParensRead(present);
    NotReads(Parens(present));
  }

  lemma RelativeReads(date: Fragment, c: Clause, nullable: bool, n: nat)
    requires c.Relative? && Reading(date, POSTFIX)
    ensures Reading(RelativeFragment(date, c, nullable, n), NEGATION)
  {
    AtomsRead("", n, 0);
    var cmp := Comparing2(date, Ge, ParamRef(n));
    ComparisonReads(date, Ge, ParamRef(n));
    CallReads("ifNull", [cmp, NumberRef(0)]);
    Loosen(CallOf("ifNull", [cmp, NumberRef(0)]), PRIMARY, NEGATION);
    ParensRead(cmp);
    NotReads(Parens(cmp));
    NotReads(CallOf("ifNull", [cmp, NumberRef(0)]));
  }

  // ---- Leaves ----------------------------------------------------------------------------------------

  lemma ColumnReads(column: string, c: Clause, n: nat)
    requires ColumnClause(c)
    ensures Reading(ColumnFragment(column, c, n), NEGATION)
  {
    AtomsRead(column, n, 0);
    var lhs := ColumnRef(column);
    if c.Matches? {
      TextReads(lhs, c, n);
    } else if c.Presence? {
      var empty := Fragment([Quoted("")], Text(""));
      ReadsAtom(Quoted(""), Text(""));
      Loosen(empty, PRIMARY, POSTFIX);
      ComparisonReads(lhs, Ne, empty);
      SetReads(NotEmpty(lhs), c.set_);
    } else {
      CompareReads(lhs, c, n);
    }
  }

  lemma StringReads(map_: string, c: Clause, n: nat)
    requires !c.Presence?
    ensures Reading(StringFragment(map_, c, n), NEGATION)
  {
    var str := Lookup(map_, n);
    LookupReads(map_, n);
    AtomsRead("", n + 1, 0);
    if c.Matches? { TextReads(str, c, n + 1); }
    else if c.Boolean? { ComparisonReads(str, Eq, ParamRef(n + 1)); }
    else if c.Relative? {
      CallReads("parseDateTime64BestEffortOrNull", [str]);
      RelativeReads(AsDate(str), c, true, n + 1);
    } else { CompareReads(str, c, n + 1); }
  }

  lemma HasKeyReads(map_: string, n: nat)
    ensures Reading(HasKey(map_, n), NEGATION)
  {
    AtomsRead(map_, n, 0);
    CallReads("mapContains", [ColumnRef(map_), ParamRef(n)]);
    Loosen(HasKey(map_, n), PRIMARY, NEGATION);
  }

  /** A `where` predicate is closed: it can be joined by AND to anything. */
  lemma WhereReads(w: Where, n: nat)
    requires ValidWhere(w)
    ensures Reading(WhereFragment(w, n), NEGATION)
  {
    match w
    case Attribute(column, c) => ColumnReads(column, c, n);
    case Property(_, c) =>
      if c.Presence? {
        var either := [HasKey("properties", n), HasKey("properties_num", n)];
        HasKeyReads("properties", n);
        HasKeyReads("properties_num", n);
        JoinReads(either, DISJUNCTION);
        ParensRead(JoinOf(either, DISJUNCTION));
        SetReads(Parens(JoinOf(either, DISJUNCTION)), c.set_);
      } else if Numeric(c) {
        LookupReads("properties_num", n);
        CompareReads(Lookup("properties_num", n), c, n + 1);
      } else {
        StringReads("properties", c, n);
      }
  }

  lemma TraitReads(c: Clause, n: nat)
    ensures Reading(TraitFragment(c, n), NEGATION)
  {
    if c.Presence? {
      HasKeyReads("t_has_num", n);
      SetReads(HasKey("t_has_num", n), c.set_);
    } else if Numeric(c) {
      LookupReads("t_has_num", n);
      LookupReads("t_num", n);
      AtomsRead("", n, 1);
      ComparisonReads(Lookup("t_has_num", n), Eq, NumberRef(1));
      CompareReads(Lookup("t_num", n), c, n + 1);
      var both := [Comparing2(Lookup("t_has_num", n), Eq, NumberRef(1)), CompareFragment(Lookup("t_num", n), c, n + 1)];
      JoinReads(both, CONJUNCTION);
      ParensRead(JoinOf(both, CONJUNCTION));
    } else {
      StringReads("t_str", c, n);
    }
  }

  lemma LifecycleReads(f: LifecycleField, c: Clause, n: nat)
    requires Comparing(c) || c.Relative?
    ensures Reading(LifecycleFragment(f, c, n), NEGATION)
  {
    AtomsRead(FieldName(f), n, 0);
    if c.Relative? { RelativeReads(ColumnRef(FieldName(f)), c, false, n); } else { CompareReads(ColumnRef(FieldName(f)), c, n); }
  }

  lemma BehaviorReads(alias: nat, c: Clause, n: nat)
    requires Comparing(c)
    ensures Reading(BehaviorFragment(alias, c, n), NEGATION)
  {
    AtomsRead("", n, 0);
    ReadsAtom(Alias(alias), Aggregate(alias));
    var a := Fragment([Alias(alias)], Aggregate(alias));
    Loosen(a, PRIMARY, DISJUNCTION);
    CallReads("coalesce", [a, NumberRef(0)]);
    CompareReads(CallOf("coalesce", [a, NumberRef(0)]), c, n);
  }

  // ---- The tree --------------------------------------------------------------------------------------------

  lemma {:induction false} TreeReads(f: Filter, aliases: Aliases, now: int, n: nat)
    requires Compilable(f, aliases)
    ensures Reading(TreeFragment(f, aliases, now, n), NEGATION)
    decreases f, 1
  {
    match f
    case Group(conjunction, children) =>
      var parts := ChildFragments(children, aliases, now, n);
      ChildrenRead(children, aliases, now, n);
      JoinReads(parts, Level(conjunction));
      ParensRead(JoinOf(parts, Level(conjunction)));
    case Negated(child) =>
      var inner := TreeFragment(child, aliases, now, n);
      TreeReads(child, aliases, now, n);
      Loosen(inner, NEGATION, DISJUNCTION);
      ParensRead(inner);
      NotReads(Parens(inner));
    case Trait(_, c) => TraitReads(c, n);
    case Context(field, latest, c) => ColumnReads(ContextColumn(field, latest), c, n);
    case Lifecycle(field, c) => LifecycleReads(field, c, n);
    case Did(b) => BehaviorReads(aliases[b], b.clause, n);
  }

  lemma {:induction false} ChildrenRead(children: seq<Filter>, aliases: Aliases, now: int, n: nat)
    requires forall i :: 0 <= i < |children| ==> Compilable(children[i], aliases)
    ensures AllRead(ChildFragments(children, aliases, now, n))
    decreases children, 0
  {
    if children != [] {
      TreeReads(children[0], aliases, now, n);
      ChildrenRead(children[1..], aliases, now, n + |TreeBindings(children[0], now)|);
      AllReadOne(TreeFragment(children[0], aliases, now, n));
      AllReadConcat([TreeFragment(children[0], aliases, now, n)],
                    ChildFragments(children[1..], aliases, now, n + |TreeBindings(children[0], now)|));
    }
  }

  /**
    The text of a filter tree, read back, is exactly the tree's boolean structure: alone, or as the
    last conjunct of the compiled WHERE.
   */
  lemma TreeTextIsTheTree(f: Filter, aliases: Aliases, now: int, n: nat)
    requires Compilable(f, aliases)
    ensures var t := TreeFragment(f, aliases, now, n); Parse(DISJUNCTION, t.text) == Some((t.meant, []))
  {
    TreeReads(f, aliases, now, n);
    var t := TreeFragment(f, aliases, now, n);
    Loosen(t, NEGATION, DISJUNCTION);
    assert t.text + [] == t.text;
    assert Ends(DISJUNCTION, []);
  }

  // ---- Funnel steps ------------------------------------------------------------------------------------------

  /** A step's parts: its event name, its `where` predicates, the audience gate. */
  function StepParts(event: nat, wheres: seq<Where>, audience: Option<nat>, n: nat, now: int): (r: seq<Fragment>)
    requires forall i :: 0 <= i < |wheres| ==> ValidWhere(wheres[i])
    ensures |r| == 1 + |wheres| + if audience.Some? then 1 else 0
  {
    [Comparing2(ColumnRef("event_name"), Eq, ParamRef(event))]
    + WhereFragments(wheres, n, now)
    + if audience.None? then []
      else [Fragment([Name("resolved_person")] + [In, Subquery(audience.value)], Member(Column("resolved_person"), audience.value))]
  }

  function WhereFragments(wheres: seq<Where>, n: nat, now: int): (r: seq<Fragment>)
    requires forall i :: 0 <= i < |wheres| ==> ValidWhere(wheres[i])
    ensures |r| == |wheres|
  {
    if wheres == [] then []
    else [WhereFragment(wheres[0], n)] + WhereFragments(wheres[1..], n + |WhereBindings(wheres[0], now)|, now)
  }

  function StepFragment(event: nat, wheres: seq<Where>, audience: Option<nat>, n: nat, now: int): Fragment
    requires forall i :: 0 <= i < |wheres| ==> ValidWhere(wheres[i])
  {
    var parts := StepParts(event, wheres, audience, n, now);
    if |parts| == 1 then parts[0] else Parens(JoinOf(parts, CONJUNCTION))
  }

  /** The first step also carries the entry bound. */
  function EntryFragment(step: Fragment, until: nat): Fragment {
    Parens(JoinOf([step, Comparing2(ColumnRef("timestamp"), Lt, ParamRef(until))], CONJUNCTION))
  }

  lemma {:induction false} WheresRead(wheres: seq<Where>, n: nat, now: int)
    requires forall i :: 0 <= i < |wheres| ==> ValidWhere(wheres[i])
    ensures AllRead(WhereFragments(wheres, n, now))
  {
    hide WhereFragment, WhereBindings;
    if wheres != [] {
      var next := n + |WhereBindings(wheres[0], now)|;
      WheresRead(wheres[1..], next, now);
      WheresStep(wheres[0], n, WhereFragments(wheres[1..], next, now));
    }
  }

  lemma WheresStep(w: Where, n: nat, rest: seq<Fragment>)
    requires ValidWhere(w) && AllRead(rest)
    ensures AllRead([WhereFragment(w, n)] + rest)
  {
    WhereReads(w, n);
    AllReadOne(WhereFragment(w, n));
    AllReadConcat([WhereFragment(w, n)], rest);
  }

  lemma StepPartsRead(event: nat, wheres: seq<Where>, audience: Option<nat>, n: nat, now: int)
    requires forall i :: 0 <= i < |wheres| ==> ValidWhere(wheres[i])
    ensures AllRead(StepParts(event, wheres, audience, n, now))
  {
    var name := Comparing2(ColumnRef("event_name"), Eq, ParamRef(event));
    AtomsRead("event_name", event, 0);
    ComparisonReads(ColumnRef("event_name"), Eq, ParamRef(event));
    WheresRead(wheres, n, now);
    AllReadOne(name);
    AllReadConcat([name], WhereFragments(wheres, n, now));
    if audience.Some? {
      var gate := Fragment([Name("resolved_person")] + [In, Subquery(audience.value)], Member(Column("resolved_person"), audience.value));
      AtomsRead("resolved_person", 0, 0);
      ReadsIn([Name("resolved_person")], Column("resolved_person"), audience.value);
      Loosen(gate, COMPARISON, NEGATION);
      AllReadOne(gate);
      AllReadConcat([name] + WhereFragments(wheres, n, now), [gate]);
    }
  }

  /** A step reads as the conjunction of its parts, and the entry bound as one more. */
  lemma StepTextIsTheStep(event: nat, wheres: seq<Where>, audience: Option<nat>, n: nat, until: nat, now: int)
    requires forall i :: 0 <= i < |wheres| ==> ValidWhere(wheres[i])
    ensures var parts := StepParts(event, wheres, audience, n, now);
            var step := StepFragment(event, wheres, audience, n, now);
            && Reading(step, NEGATION) && step.meant == Chain(CONJUNCTION, Meants(parts))
            && Reading(EntryFragment(step, until), NEGATION)
            && EntryFragment(step, until).meant == All([step.meant, Compare(Lt, Column("timestamp"), Bound(until))])
  {
    var parts := StepParts(event, wheres, audience, n, now);
    StepPartsRead(event, wheres, audience, n, now);
    JoinReads(parts, CONJUNCTION);
    ParensRead(JoinOf(parts, CONJUNCTION));
    EntryReads(StepFragment(event, wheres, audience, n, now), until);
  }

  lemma EntryReads(step: Fragment, until: nat)
    requires Reading(step, NEGATION)
    ensures Reading(EntryFragment(step, until), NEGATION)
    ensures EntryFragment(step, until).meant == All([step.meant, Compare(Lt, Column("timestamp"), Bound(until))])
  {
    var entry := Comparing2(ColumnRef("timestamp"), Lt, ParamRef(until));
    AtomsRead("timestamp", until, 0);
    ComparisonReads(ColumnRef("timestamp"), Lt, ParamRef(until));
    JoinReads([step, entry], CONJUNCTION);
    ParensRead(JoinOf([step, entry], CONJUNCTION));
    assert Meants([step, entry]) == [step.meant, entry.meant];
  }
}
