/**
  What the emitted expressions evaluate to: three-valued logic over columns, bound parameters and
  per-person aggregates. The database's own functions are given their documented meaning; case
  folding, date parsing, number printing, text order and what it makes of a value the declared type
  does not plainly hold are parameters.
 */
module SqlEval {
  import opened Basics
  import opened Filters
  import opened Predicates
  import opened SqlGrammar

  datatype Library = Library(lower: string -> string, parse: string -> Option<int>, show: real -> string,
                             before: (string, string) -> bool, misfit: Binding -> Value)

  /** `Error` fails the whole query: a parameter its type refuses, or a comparison across types. */
  datatype Value =
    | Null
    | Error
    | Number(r: real)
    | Word(s: string)
    | Instant(at: int)
    | Words(w: map<string, string>)
    | Numbers(m: map<string, real>)

  /** One row, and everything else the expression can see; a subquery is the set of people it selects. */
  datatype Env = Env(columns: string -> Value, aggregates: nat -> Value, subqueries: nat -> set<string>,
                     params: seq<Binding>, lib: Library)

  function Truth(b: bool): Value { Number(if b then 1.0 else 0.0) }

  /** A value as its declared parameter type reads it; a null, or text as a number, is the database's own affair. */
  function BindValue(b: Binding, lib: Library): Value {
    match (b.type_, b.value)
    case (ChString, Str(s)) => Word(s)
    case (ChString, Num(r)) => Word(lib.show(r))
    case (ChString, Flag(f)) => Word(if f then "true" else "false")
    case (ChFloat64, Num(r)) => Number(r)
    case (ChUInt32, Num(r)) => Number(r)
    case (ChDateTime, Moment(at)) => Instant(at)
    case (_, _) => lib.misfit(b)
  }

  predicate Ordered(op: Comparison, less: bool, equal: bool) {
    match op
    case Eq => equal
    case Ne => !equal
    case Lt => less
    case Le => less || equal
    case Gt => !less && !equal
    case Ge => equal || !less
  }

  function CompareValues(op: Comparison, a: Value, b: Value, lib: Library): Value {
    if a.Error? || b.Error? then Error
    else if a.Null? || b.Null? then Null
    else if a.Number? && b.Number? then Truth(Ordered(op, a.r < b.r, a.r == b.r))
    else if a.Word? && b.Word? then Truth(Ordered(op, lib.before(a.s, b.s), a.s == b.s))
    else if a.Instant? && b.Instant? then Truth(Ordered(op, a.at < b.at, a.at == b.at))
    else Error
  }

  function And3(a: Value, b: Value): Value {
    if a.Error? || b.Error? then Error
    else if a == Truth(false) || b == Truth(false) then Truth(false)
    else if a.Null? || b.Null? then Null
    else Truth(true)
  }

  function Or3(a: Value, b: Value): Value {
    if a.Error? || b.Error? then Error
    else if (a.Number? && a.r != 0.0) || (b.Number? && b.r != 0.0) then Truth(true)
    else if a.Null? || b.Null? then Null
    else Truth(false)
  }

  function Not3(a: Value): Value {
    if a.Number? then Truth(a.r == 0.0) else if a.Null? then Null else Error
  }

  /** The functions the compilers call. */
  function Apply(f: string, args: seq<Value>, lib: Library): Value {
    if |args| == 2 && (f == "ifNull" || f == "coalesce") then (if args[0].Null? then args[1] else args[0])
    else if exists i :: 0 <= i < |args| && args[i].Error? then Error
    else if exists i :: 0 <= i < |args| && args[i].Null? then Null
    else if |args| == 1 && args[0].Word? && f == "lowerUTF8" then Word(lib.lower(args[0].s))
    else if |args| == 1 && args[0].Word? && f == "parseDateTime64BestEffortOrNull" then
      var d := lib.parse(args[0].s);
      if d.None? then Null else Instant(d.value)
    else if |args| == 2 && args[0].Word? && args[1].Word? then
      if f == "position" then
        var at := IndexOf(args[0].s, args[1].s);
        Number(if at.None? then 0.0 else (at.value + 1) as real)
      else if f == "startsWith" then Truth(args[1].s <= args[0].s)
      else if f == "endsWith" then Truth(|args[1].s| <= |args[0].s| && args[0].s[|args[0].s| - |args[1].s|..] == args[1].s)
      else Error
    else if |args| == 2 && f == "mapContains" && args[1].Word? then
      if args[0].Words? then Truth(args[1].s in args[0].w)
      else if args[0].Numbers? then Truth(args[1].s in args[0].m)
      else Error
    else Error
  }

  /** A map gives its value type's default for a key it does not hold. */
  function LookupValue(base: Value, key: Value): Value {
    if key.Word? && base.Words? then Word(if key.s in base.w then base.w[key.s] else "")
    else if key.Word? && base.Numbers? then Number(if key.s in base.m then base.m[key.s] else 0.0)
    else if key.Null? then Null else Error
  }

  function Eval(e: Expr, env: Env): Value
    decreases e, 0
  {
    match e
    case Column(name) => env.columns(name)
    case Aggregate(index) => env.aggregates(index)
    case Bound(index) => if index < |env.params| then BindValue(env.params[index], env.lib) else Error
    case Literal(n) => Number(n as real)
    case Text(text) => Word(text)
    case Call(f, args) => Apply(f, EvalEach(args, env), env.lib)
    case At(base, key) => LookupValue(Eval(base, env), Eval(key, env))
    case Compare(op, left, right) => CompareValues(op, Eval(left, env), Eval(right, env), env.lib)
    case Range(x, low, high) =>
      And3(CompareValues(Ge, Eval(x, env), Eval(low, env), env.lib), CompareValues(Le, Eval(x, env), Eval(high, env), env.lib))
    case Member(x, id) =>
      var v := Eval(x, env);
      if v.Word? then Truth(v.s in env.subqueries(id)) else if v.Null? then Null else Error
    case Negation(x) => Not3(Eval(x, env))
    case All(es) => EvalAll(es, env)
    case Any(es) => EvalAny(es, env)
  }

  function EvalEach(es: seq<Expr>, env: Env): (r: seq<Value>)
    ensures |r| == |es| && forall i :: 0 <= i < |es| ==> r[i] == Eval(es[i], env)
    decreases es, 1
  {
    seq(|es|, i requires 0 <= i < |es| => Eval(es[i], env))
  }

  function EvalAll(es: seq<Expr>, env: Env): Value
    decreases es, 1
  {
    if es == [] then Truth(true) else And3(Eval(es[0], env), EvalAll(es[1..], env))
  }

  function EvalAny(es: seq<Expr>, env: Env): Value
    decreases es, 1
  {
    if es == [] then Truth(false) else Or3(Eval(es[0], env), EvalAny(es[1..], env))
  }

  /** Neither NULL nor an error: the two truth values and nothing else. */
  predicate Definite(v: Value) { v == Truth(true) || v == Truth(false) }

  // ---- Parameters keep their meaning ----------------------------------------------------------------

  /** These bindings stand at these positions. */
  ghost predicate Placed(params: seq<Binding>, n: nat, bindings: seq<Binding>) {
    n + |bindings| <= |params| && forall i :: 0 <= i < |bindings| ==> params[n + i] == bindings[i]
  }

  lemma PlacedFirst(params: seq<Binding>, n: nat, bindings: seq<Binding>)
    requires Placed(params, n, bindings) && bindings != []
    ensures n < |params| && params[n] == bindings[0]
  {
    var first := bindings[0];
  }

  lemma PlacedSplit(params: seq<Binding>, n: nat, a: seq<Binding>, b: seq<Binding>)
    ensures Placed(params, n, a + b) <==> Placed(params, n, a) && Placed(params, n + |a|, b)
  {
    if Placed(params, n, a) && Placed(params, n + |a|, b) {
      forall i | 0 <= i < |a + b| ensures params[n + i] == (a + b)[i] {
        if i >= |a| { assert params[n + |a| + (i - |a|)] == b[i - |a|]; }
      }
    }
    if Placed(params, n, a + b) {
      forall i | 0 <= i < |a| ensures params[n + i] == a[i] { assert (a + b)[i] == a[i]; }
      forall i | 0 <= i < |b| ensures params[n + |a| + i] == b[i] { assert (a + b)[|a| + i] == b[i]; }
    }
  }

  /** The positions an expression reads all exist. */
  predicate Within(e: Expr, n: nat) {
    match e
    case Bound(index) => index < n
    case Call(_, args) => forall i :: 0 <= i < |args| ==> Within(args[i], n)
    case At(base, key) => Within(base, n) && Within(key, n)
    case Compare(_, left, right) => Within(left, n) && Within(right, n)
    case Range(x, low, high) => Within(x, n) && Within(low, n) && Within(high, n)
    case Member(x, _) => Within(x, n)
    case Negation(x) => Within(x, n)
    case All(es) => forall i :: 0 <= i < |es| ==> Within(es[i], n)
    case Any(es) => forall i :: 0 <= i < |es| ==> Within(es[i], n)
    case _ => true
  }

  /** Adding parameters later never changes what an expression already compiled evaluates to. */
  lemma {:induction false} LaterParamsDoNotMatter(e: Expr, env: Env, more: seq<Binding>)
    requires Within(e, |env.params|)
    ensures Eval(e, env.(params := env.params + more)) == Eval(e, env)
    decreases e, 0
  {
    var later := env.(params := env.params + more);
    match e
    case Call(_, args) =>
      forall i | 0 <= i < |args| ensures Eval(args[i], later) == Eval(args[i], env) { LaterParamsDoNotMatter(args[i], env, more); }
      assert EvalEach(args, later) == EvalEach(args, env);
    case At(base, key) => LaterParamsDoNotMatter(base, env, more); LaterParamsDoNotMatter(key, env, more);
    case Compare(_, left, right) => LaterParamsDoNotMatter(left, env, more); LaterParamsDoNotMatter(right, env, more);
    case Range(x, low, high) =>
      LaterParamsDoNotMatter(x, env, more);
      LaterParamsDoNotMatter(low, env, more);
      LaterParamsDoNotMatter(high, env, more);
    case Member(x, _) => LaterParamsDoNotMatter(x, env, more);
    case Negation(x) => LaterParamsDoNotMatter(x, env, more);
    case All(es) => LaterListDoesNotMatter(es, env, more);
    case Any(es) => LaterListDoesNotMatter(es, env, more);
    case _ =>
  }

  lemma {:induction false} LaterListDoesNotMatter(es: seq<Expr>, env: Env, more: seq<Binding>)
    requires forall i :: 0 <= i < |es| ==> Within(es[i], |env.params|)
    ensures var later := env.(params := env.params + more);
            EvalAll(es, later) == EvalAll(es, env) && EvalAny(es, later) == EvalAny(es, env)
    decreases es, 0
  {
    if es != [] {
      LaterParamsDoNotMatter(es[0], env, more);
      LaterListDoesNotMatter(es[1..], env, more);
    }
  }

  // ---- And compiled expressions read no others ----------------------------------------------------------

  lemma {:induction false} WithinMore(e: Expr, n: nat, m: nat)
    requires Within(e, n) && n <= m
    ensures Within(e, m)
  {
    match e
    case Call(_, args) => forall i | 0 <= i < |args| ensures Within(args[i], m) { WithinMore(args[i], n, m); }
    case At(base, key) => WithinMore(base, n, m); WithinMore(key, n, m);
    case Compare(_, left, right) => WithinMore(left, n, m); WithinMore(right, n, m);
    case Range(x, low, high) => WithinMore(x, n, m); WithinMore(low, n, m); WithinMore(high, n, m);
    case Member(x, _) => WithinMore(x, n, m);
    case Negation(x) => WithinMore(x, n, m);
    case All(es) => forall i | 0 <= i < |es| ensures Within(es[i], m) { WithinMore(es[i], n, m); }
    case Any(es) => forall i | 0 <= i < |es| ensures Within(es[i], m) { WithinMore(es[i], n, m); }
    case _ =>
  }

  lemma CallWithin(f: string, args: seq<Fragment>, n: nat)
    requires forall i :: 0 <= i < |args| ==> Within(args[i].meant, n)
    ensures Within(CallOf(f, args).meant, n)
  {
  }

  lemma JoinWithin(fs: seq<Fragment>, level: nat, n: nat)
    requires fs != [] && forall i :: 0 <= i < |fs| ==> Within(fs[i].meant, n)
    ensures Within(JoinOf(fs, level).meant, n)
  {
  }

  lemma CompareWithin(lhs: Fragment, c: Clause, type_: ChType, n: nat)
    requires Comparing(c) && Within(lhs.meant, n)
    ensures Within(CompareFragment(lhs, c, n).meant, n + |CompareBindings(c, type_)|)
  {
    WithinMore(lhs.meant, n, n + |CompareBindings(c, type_)|);
  }

  lemma TextWithin(lhs: Fragment, c: Clause, n: nat)
    requires c.Matches? && Within(lhs.meant, n)
    ensures Within(TextFragment(lhs, c, n).meant, n + 1)
  {
    WithinMore(lhs.meant, n, n + 1);
    CallWithin("lowerUTF8", [lhs], n + 1);
    CallWithin("lowerUTF8", [ParamRef(n)], n + 1);
    var args := [CallOf("lowerUTF8", [lhs]), CallOf("lowerUTF8", [ParamRef(n)])];
    hide CallOf;
    CallWithin("position", args, n + 1);
    CallWithin("startsWith", args, n + 1);
    CallWithin("endsWith", args, n + 1);
  }

  lemma RelativeWithin(date: Fragment, c: Clause, nullable: bool, n: nat)
    requires c.Relative? && Within(date.meant, n)
    ensures Within(RelativeFragment(date, c, nullable, n).meant, n + 1)
  {
    var cmp := Comparing2(date, Ge, ParamRef(n));
    WithinMore(date.meant, n, n + 1);
    CallWithin("ifNull", [cmp, NumberRef(0)], n + 1);
    hide CallOf;
  }

  lemma ColumnWithin(column: string, c: Clause, n: nat)
    requires ColumnClause(c)
    ensures Within(ColumnFragment(column, c, n).meant, n + |ColumnBindings(c)|)
  {
    hide TextFragment, CompareFragment, CompareBindings;
    var lhs := ColumnRef(column);
    if c.Matches? {
      TextWithin(lhs, c, n);
    } else if c.Presence? {
      assert Within(NotEmpty(lhs).meant, n);
    } else {
      CompareWithin(lhs, c, ChString, n);
    }
  }

  lemma StringWithin(map_: string, c: Clause, n: nat, now: int)
    requires !c.Presence? && !Numeric(c)
    ensures Within(StringFragment(map_, c, n).meant, n + 1 + |KeyedBindings(c, now)|)
  {
    hide TextFragment, CompareFragment, CompareBindings, RelativeFragment, CallOf;
    var str := Lookup(map_, n);
    assert Within(str.meant, n + 1);
    if c.Matches? {
      TextWithin(str, c, n + 1);
    } else if c.Relative? {
      CallWithin("parseDateTime64BestEffortOrNull", [str], n + 1);
      RelativeWithin(AsDate(str), c, true, n + 1);
    } else if !c.Boolean? {
      CompareWithin(str, c, ChString, n + 1);
    } else {
      WithinMore(str.meant, n + 1, n + 2);
    }
  }

  lemma TraitWithin(c: Clause, n: nat, now: int)
    ensures Within(TraitFragment(c, n).meant, n + 1 + |KeyedBindings(c, now)|)
  {
    hide StringFragment, CompareFragment, CompareBindings, JoinOf, CallOf;
    var m := n + 1 + |KeyedBindings(c, now)|;
    if c.Presence? {
      CallWithin("mapContains", [ColumnRef("t_has_num"), ParamRef(n)], m);
    } else if Numeric(c) {
      var guard, cmp := Comparing2(Lookup("t_has_num", n), Eq, NumberRef(1)), CompareFragment(Lookup("t_num", n), c, n + 1);
      CompareWithin(Lookup("t_num", n), c, ChFloat64, n + 1);
      assert Within(Lookup("t_has_num", n).meant, m) && Within(guard.meant, m);
      JoinWithin([guard, cmp], CONJUNCTION, m);
    } else {
      StringWithin("t_str", c, n, now);
    }
  }

  lemma LeafWithin(f: Filter, aliases: Aliases, now: int, n: nat)
    requires Compilable(f, aliases) && !f.Group? && !f.Negated?
    ensures Within(TreeFragment(f, aliases, now, n).meant, n + |TreeBindings(f, now)|)
  {
    hide TraitFragment, ColumnFragment, CompareFragment, CompareBindings, RelativeFragment, CallOf, KeyedBindings, ColumnBindings;
    match f
    case Trait(_, c) => TraitWithin(c, n, now);
    case Context(field, latest, c) => ColumnWithin(ContextColumn(field, latest), c, n);
    case Lifecycle(which, c) =>
      if c.Relative? { RelativeWithin(ColumnRef(FieldName(which)), c, false, n); }
      else { CompareWithin(ColumnRef(FieldName(which)), c, ChDateTime, n); }
    case Did(b) =>
      var alias := Fragment([Alias(aliases[b])], Aggregate(aliases[b]));
      CallWithin("coalesce", [alias, NumberRef(0)], n);
      CompareWithin(CallOf("coalesce", [alias, NumberRef(0)]), b.clause, ChFloat64, n);
  }

  /** A compiled tree reads only the parameters before it and its own. */
  lemma {:induction false} TreeWithin(f: Filter, aliases: Aliases, now: int, n: nat)
    requires Compilable(f, aliases)
    ensures Within(TreeFragment(f, aliases, now, n).meant, n + |TreeBindings(f, now)|)
    decreases f, 0
  {
    hide TreeFragment, TreeBindings, Within;
    match f
    case Group(_, children) =>
      ChildrenWithin(children, aliases, now, n);
      GroupWithin(f, aliases, now, n);
    case Negated(child) =>
      TreeWithin(child, aliases, now, n);
      NegatedWithin(f, aliases, now, n);
    case _ => LeafWithin(f, aliases, now, n);
  }

  lemma GroupWithin(f: Filter, aliases: Aliases, now: int, n: nat)
    requires Compilable(f, aliases) && f.Group?
    requires forall i :: 0 <= i < |f.children| ==>
      Within(ChildFragments(f.children, aliases, now, n)[i].meant, n + |ChildBindings(f.children, now)|)
    ensures Within(TreeFragment(f, aliases, now, n).meant, n + |TreeBindings(f, now)|)
  {
    hide JoinOf, Within;
    JoinWithin(ChildFragments(f.children, aliases, now, n), Level(f.conjunction), n + |ChildBindings(f.children, now)|);
  }

  lemma NegatedWithin(f: Filter, aliases: Aliases, now: int, n: nat)
    requires Compilable(f, aliases) && f.Negated? && Within(TreeFragment(f.child, aliases, now, n).meant, n + |TreeBindings(f.child, now)|)
    ensures Within(TreeFragment(f, aliases, now, n).meant, n + |TreeBindings(f, now)|)
  {
  }

  lemma {:induction false} ChildrenWithin(children: seq<Filter>, aliases: Aliases, now: int, n: nat)
    requires forall i :: 0 <= i < |children| ==> Compilable(children[i], aliases)
    ensures forall i :: 0 <= i < |children| ==>
      Within(ChildFragments(children, aliases, now, n)[i].meant, n + |ChildBindings(children, now)|)
    decreases children, 0
  {
    hide TreeFragment, TreeBindings;
    if children != [] {
      var first := |TreeBindings(children[0], now)|;
      var whole := n + |ChildBindings(children, now)|;
      var rest := ChildFragments(children[1..], aliases, now, n + first);
      TreeWithin(children[0], aliases, now, n);
      ChildrenWithin(children[1..], aliases, now, n + first);
      WithinMore(TreeFragment(children[0], aliases, now, n).meant, n + first, whole);
      forall i | 0 <= i < |children| ensures Within(ChildFragments(children, aliases, now, n)[i].meant, whole) {
        if i > 0 { assert ChildFragments(children, aliases, now, n)[i] == rest[i - 1]; }
      }
    }
  }

  /** So whatever is bound after it, a compiled tree evaluates to the same value. */
  lemma TreeIgnoresLaterParams(f: Filter, aliases: Aliases, now: int, n: nat, env: Env, more: seq<Binding>)
    requires Compilable(f, aliases) && n + |TreeBindings(f, now)| <= |env.params|
    ensures var tree := TreeFragment(f, aliases, now, n).meant;
            Eval(tree, env.(params := env.params + more)) == Eval(tree, env)
  {
    TreeWithin(f, aliases, now, n);
    WithinMore(TreeFragment(f, aliases, now, n).meant, n + |TreeBindings(f, now)|, |env.params|);
    LaterParamsDoNotMatter(TreeFragment(f, aliases, now, n).meant, env, more);
  }

  // ---- What a clause means on a value -----------------------------------------------------------------

  /** The value a scalar stands for under the type the compiler chose. */
  function ScalarValue(v: Scalar, type_: ChType, lib: Library): Value { BindValue(Binding(v, type_), lib) }

  predicate Related(op: Comparison, a: Value, b: Value, lib: Library) { CompareValues(op, a, b, lib) == Truth(true) }

  predicate ComparesTo(c: Clause, v: Value, type_: ChType, lib: Library)
    requires Comparing(c)
  {
    if c.Between? then Related(Ge, v, ScalarValue(c.low, type_, lib), lib) && Related(Le, v, ScalarValue(c.high, type_, lib), lib)
    else Related(c.op, v, ScalarValue(c.value, type_, lib), lib)
  }

  ghost predicate Occurs(needle: string, hay: string) { exists a, b :: hay == a + needle + b }

  /** The needle occurs in, starts or ends the text, ignoring case; or, negated, does not. */
  ghost predicate TextMatches(c: Clause, text: string, lib: Library)
    requires c.Matches?
  {
    var hay, needle := lib.lower(text), lib.lower(c.needle);
    c.negated != match c.operator
      case Contains => Occurs(needle, hay)
      case StartsWith => exists b :: hay == needle + b
      case EndsWith => exists a :: hay == a + needle
  }

  /** The date, if there is one, is within the window; `not_in_last` is the exact complement. */
  predicate WithinLast(c: Clause, date: Option<int>, now: int)
    requires c.Relative?
  {
    c.inLast == (date.Some? && now <= date.value + c.span.n * (if c.span.hours then 3_600_000 else 86_400_000))
  }
}
