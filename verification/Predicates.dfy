/**
  Compiling predicates to SQL text with positional parameters
  (packages/core/src/segments/predicates.ts, packages/core/src/segments/params.ts).
 */
module Predicates {
  import opened Basics
  import opened Filters
  import opened SqlGrammar

  /** The parameter types the compiler emits. */
  datatype ChType = ChString | ChUInt32 | ChFloat64 | ChDateTime

  datatype Binding = Binding(value: Scalar, type_: ChType)

  /** The single positional sequence every value enters SQL through. */
  class Params {
    var values: seq<Binding>

    constructor ()
      ensures values == []
    {
      values := [];
    }

    /** The placeholder is the next number, and it never means anything else again. */
    method Add(value: Scalar, type_: ChType) returns (placeholder: Token)
      modifies this
      ensures placeholder == Param(|old(values)|) && values == old(values) + [Binding(value, type_)]
    {
      placeholder := Param(|values|);
      values := values + [Binding(value, type_)];
    }

    method AddAll(bindings: seq<Binding>)
      modifies this
      ensures values == old(values) + bindings
    {
      for i := 0 to |bindings|
        invariant values == old(values) + bindings[..i]
      {
        var _ := Add(bindings[i].value, bindings[i].type_);
      }
    }
  }

  /** A piece of SQL text and the structure it is meant to have. */
  datatype Fragment = Fragment(text: seq<Token>, meant: Expr)

  // ---- Building blocks ---------------------------------------------------------------------------

  function ColumnRef(name: string): Fragment { Fragment([Name(name)], Column(name)) }

  function ParamRef(n: nat): Fragment { Fragment([Param(n)], Bound(n)) }

  function NumberRef(n: int): Fragment { Fragment([Numeral(n)], Literal(n)) }

  function CallOf(f: string, args: seq<Fragment>): Fragment { Fragment(CallTokens(f, Texts(args)), Call(f, Meants(args))) }

  function Texts(fs: seq<Fragment>): (r: seq<seq<Token>>)
    ensures |r| == |fs| && forall i :: 0 <= i < |fs| ==> r[i] == fs[i].text
  {
    seq(|fs|, i requires 0 <= i < |fs| => fs[i].text)
  }

  function Meants(fs: seq<Fragment>): (r: seq<Expr>)
    ensures |r| == |fs| && forall i :: 0 <= i < |fs| ==> r[i] == fs[i].meant
  {
    seq(|fs|, i requires 0 <= i < |fs| => fs[i].meant)
  }

  function Lookup(map_: string, key: nat): Fragment {
    Fragment([Name(map_)] + [OpenBracket] + [Param(key)] + [CloseBracket], At(Column(map_), Bound(key)))
  }

  function Comparing2(a: Fragment, op: Comparison, b: Fragment): Fragment {
    Fragment(a.text + [Op(op)] + b.text, Compare(op, a.meant, b.meant))
  }

  function Parens(f: Fragment): Fragment { Fragment([Open] + f.text + [Close], f.meant) }

  function NotOf(f: Fragment): Fragment { Fragment([Not] + f.text, Negation(f.meant)) }

  function JoinOf(fs: seq<Fragment>, level: nat): Fragment
    requires fs != []
  {
    Fragment(Joined(Texts(fs), Joiner(level)), Chain(level, Meants(fs)))
  }

  // ---- The operator families -----------------------------------------------------------------------

  /** `lhs op value`, with `between` taking two bounds. */
  function CompareFragment(lhs: Fragment, c: Clause, n: nat): Fragment
    requires Comparing(c)
  {
    if c.Between? then
      Fragment(lhs.text + [Token.Between] + [Param(n)] + [And] + [Param(n + 1)], Range(lhs.meant, Bound(n), Bound(n + 1)))
    else Comparing2(lhs, c.op, ParamRef(n))
  }

  function CompareBindings(c: Clause, type_: ChType): seq<Binding>
    requires Comparing(c)
  {
    if c.Between? then [Binding(c.low, type_), Binding(c.high, type_)] else [Binding(c.value, type_)]
  }

  /** Case-insensitive substring matching, both sides folded. */
  function TextFragment(lhs: Fragment, c: Clause, n: nat): Fragment
    requires c.Matches?
  {
    var args := [CallOf("lowerUTF8", [lhs]), CallOf("lowerUTF8", [ParamRef(n)])];
    match c.operator
    case Contains => Comparing2(CallOf("position", args), if c.negated then Eq else Gt, NumberRef(0))
    case StartsWith => if c.negated then NotOf(CallOf("startsWith", args)) else CallOf("startsWith", args)
    case EndsWith => if c.negated then NotOf(CallOf("endsWith", args)) else CallOf("endsWith", args)
  }

  function SetFragment(present: Fragment, is_set: bool): Fragment {
    if is_set then present else NotOf(Parens(present))
  }

  /** `in the last ...`, made definite where the date may be NULL. */
  function RelativeFragment(date: Fragment, c: Clause, nullable: bool, n: nat): Fragment
    requires c.Relative?
  {
    var cmp := Comparing2(date, Ge, ParamRef(n));
    var definite := if nullable then CallOf("ifNull", [cmp, NumberRef(0)]) else Parens(cmp);
    if c.inLast then definite else NotOf(definite)
  }

  function RelativeBinding(c: Clause, now: int): Binding
    requires c.Relative?
  {
    Binding(Moment(now - SpanMs(c.span)), ChDateTime)
  }

  function AsDate(lhs: Fragment): Fragment { CallOf("parseDateTime64BestEffortOrNull", [lhs]) }

  function NotEmpty(lhs: Fragment): Fragment { Comparing2(lhs, Ne, Fragment([Quoted("")], Text(""))) }

  // ---- Leaves -----------------------------------------------------------------------------------------

  /** A text column: an event column, or a context field. */
  function ColumnFragment(column: string, c: Clause, n: nat): Fragment
    requires ColumnClause(c)
  {
    var lhs := ColumnRef(column);
    if c.Matches? then TextFragment(lhs, c, n)
    else if c.Presence? then SetFragment(NotEmpty(lhs), c.set_)
    else CompareFragment(lhs, c, n)
  }

  function ColumnBindings(c: Clause): seq<Binding>
    requires ColumnClause(c)
  {
    if c.Matches? then [Binding(Str(c.needle), ChString)] else if c.Presence? then [] else CompareBindings(c, ChString)
  }

  /** What a keyed leaf binds after its key. */
  function KeyedBindings(c: Clause, now: int): seq<Binding> {
    match c
    case Matches(_, _, needle) => [Binding(Str(needle), ChString)]
    case Boolean(flag) => [Binding(Str(if flag then "true" else "false"), ChString)]
    case Relative(_, _) => [RelativeBinding(c, now)]
    case Presence(_) => []
    case _ => CompareBindings(c, if Numeric(c) then ChFloat64 else ChString)
  }

  /** Text, flag and date clauses on a map of strings; its key is parameter `n`. */
  function StringFragment(map_: string, c: Clause, n: nat): Fragment
    requires !c.Presence?
  {
    var str := Lookup(map_, n);
    if c.Matches? then TextFragment(str, c, n + 1)
    else if c.Boolean? then Comparing2(str, Eq, ParamRef(n + 1))
    else if c.Relative? then RelativeFragment(AsDate(str), c, true, n + 1)
    else CompareFragment(str, c, n + 1)
  }

  function HasKey(map_: string, n: nat): Fragment { CallOf("mapContains", [ColumnRef(map_), ParamRef(n)]) }

  /** A predicate on one event. */
  function WhereFragment(w: Where, n: nat): Fragment
    requires ValidWhere(w)
  {
    match w
    case Attribute(column, c) => ColumnFragment(column, c, n)
    case Property(_, c) =>
      if c.Presence? then SetFragment(Parens(JoinOf([HasKey("properties", n), HasKey("properties_num", n)], DISJUNCTION)), c.set_)
      else if Numeric(c) then CompareFragment(Lookup("properties_num", n), c, n + 1)
      else StringFragment("properties", c, n)
  }

  function WhereBindings(w: Where, now: int): seq<Binding>
    requires ValidWhere(w)
  {
    match w
    case Attribute(_, c) => ColumnBindings(c)
    case Property(key, c) => [Binding(Str(key), ChString)] + KeyedBindings(c, now)
  }

  function TraitFragment(c: Clause, n: nat): Fragment {
    if c.Presence? then SetFragment(HasKey("t_has_num", n), c.set_)
    else if Numeric(c) then
      Parens(JoinOf([Comparing2(Lookup("t_has_num", n), Eq, NumberRef(1)), CompareFragment(Lookup("t_num", n), c, n + 1)],
                    CONJUNCTION))
    else StringFragment("t_str", c, n)
  }

  function FieldName(f: LifecycleField): string { if f == FirstSeen then "first_seen" else "last_seen" }

  function LifecycleFragment(f: LifecycleField, c: Clause, n: nat): Fragment
    requires Comparing(c) || c.Relative?
  {
    if c.Relative? then RelativeFragment(ColumnRef(FieldName(f)), c, false, n) else CompareFragment(ColumnRef(FieldName(f)), c, n)
  }

  function LifecycleBindings(c: Clause, now: int): seq<Binding>
    requires Comparing(c) || c.Relative?
  {
    if c.Relative? then [RelativeBinding(c, now)] else CompareBindings(c, ChDateTime)
  }

  /** The aggregate's alias, coalesced: no row in the pass is a count of zero. */
  function BehaviorFragment(alias: nat, c: Clause, n: nat): Fragment
    requires Comparing(c)
  {
    CompareFragment(CallOf("coalesce", [Fragment([Alias(alias)], Aggregate(alias)), NumberRef(0)]), c, n)
  }

  // ---- The tree -------------------------------------------------------------------------------------------

  type Aliases = map<Behavior, nat>

  /** Every behaviour in the tree was handed to the events pass. */
  predicate Aliased(f: Filter, aliases: Aliases) {
    match f
    case Group(_, children) => forall i :: 0 <= i < |children| ==> Aliased(children[i], aliases)
    case Negated(child) => Aliased(child, aliases)
    case Did(b) => b in aliases
    case _ => true
  }

  predicate Compilable(f: Filter, aliases: Aliases) { ValidFilter(f) && Aliased(f, aliases) }

  function TreeBindings(f: Filter, now: int): seq<Binding>
    requires ValidFilter(f)
  {
    match f
    case Group(_, children) => ChildBindings(children, now)
    case Negated(child) => TreeBindings(child, now)
    case Trait(key, c) => [Binding(Str(key), ChString)] + KeyedBindings(c, now)
    case Context(_, _, c) => ColumnBindings(c)
    case Lifecycle(_, c) => LifecycleBindings(c, now)
    case Did(b) => CompareBindings(b.clause, ChFloat64)
  }

  function ChildBindings(children: seq<Filter>, now: int): seq<Binding>
    requires forall i :: 0 <= i < |children| ==> ValidFilter(children[i])
  {
    if children == [] then [] else TreeBindings(children[0], now) + ChildBindings(children[1..], now)
  }

  function Level(conjunction: bool): nat { if conjunction then CONJUNCTION else DISJUNCTION }

  function TreeFragment(f: Filter, aliases: Aliases, now: int, n: nat): Fragment
    requires Compilable(f, aliases)
    decreases f, 0
  {
    match f
    case Group(conjunction, children) => Parens(JoinOf(ChildFragments(children, aliases, now, n), Level(conjunction)))
    case Negated(child) => NotOf(Parens(TreeFragment(child, aliases, now, n)))
    case Trait(_, c) => TraitFragment(c, n)
    case Context(field, latest, c) => ColumnFragment(ContextColumn(field, latest), c, n)
    case Lifecycle(field, c) => LifecycleFragment(field, c, n)
    case Did(b) => BehaviorFragment(aliases[b], b.clause, n)
  }

  function ChildFragments(children: seq<Filter>, aliases: Aliases, now: int, n: nat): (r: seq<Fragment>)
    requires forall i :: 0 <= i < |children| ==> Compilable(children[i], aliases)
    ensures |r| == |children|
    decreases children, 0
  {
    if children == [] then []
    else [TreeFragment(children[0], aliases, now, n)]
         + ChildFragments(children[1..], aliases, now, n + |TreeBindings(children[0], now)|)
  }

  /** The compiler as it runs: text out, values into the one parameter sequence. */
  method TreeExpr(f: Filter, aliases: Aliases, now: int, params: Params) returns (text: seq<Token>)
    requires Compilable(f, aliases)
    modifies params
    ensures text == TreeFragment(f, aliases, now, |old(params.values)|).text
    ensures params.values == old(params.values) + TreeBindings(f, now)
    decreases f, 1
  {
    if f.Group? {
      var parts := ChildExprs(f.children, aliases, now, params);
      text := [Open] + Joined(parts, if f.conjunction then And else Or) + [Close];
    } else if f.Negated? {
      var inner := TreeExpr(f.child, aliases, now, params);
      text := [Not] + ([Open] + inner + [Close]);
    } else {
      text := TreeFragment(f, aliases, now, |params.values|).text;
      params.AddAll(TreeBindings(f, now));
    }
  }

  method ChildExprs(children: seq<Filter>, aliases: Aliases, now: int, params: Params) returns (parts: seq<seq<Token>>)
    requires forall i :: 0 <= i < |children| ==> Compilable(children[i], aliases)
    modifies params
    ensures parts == Texts(ChildFragments(children, aliases, now, |old(params.values)|))
    ensures params.values == old(params.values) + ChildBindings(children, now)
    decreases children, 0
  {
    hide TreeFragment, TreeBindings;
    if children == [] {
      parts := [];
    } else {
      ghost var before := params.values;
      var first := TreeExpr(children[0], aliases, now, params);
      var rest := ChildExprs(children[1..], aliases, now, params);
      parts := [first] + rest;
      ghost var one := TreeFragment(children[0], aliases, now, |before|);
      ghost var more := ChildFragments(children[1..], aliases, now, |before| + |TreeBindings(children[0], now)|);
      TextsCons(one, more);
      assert ChildFragments(children, aliases, now, |before|) == [one] + more;
      assert params.values == before + (TreeBindings(children[0], now) + ChildBindings(children[1..], now));
    }
  }

  lemma TextsCons(f: Fragment, fs: seq<Fragment>)
    ensures Texts([f] + fs) == [f.text] + Texts(fs)
  {
  }
}
