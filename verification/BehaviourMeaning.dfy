/**
  One shared scan answers every behaviour exactly: each aggregate over the scan bounded by the widest
  window equals that aggregate over the person's whole unsuppressed history under its own window and
  predicates (packages/core/src/segments/behaviour.ts:17-48, 97-181).
 */
module BehaviourMeaning {
  import opened Basics
  import opened BehaviourPasses
  import opened Events
  import opened Filters
  import opened Predicates
  import opened PredicatesRead
  import opened SegmentMeaning
  import opened SqlEval
  import opened SqlGrammar
  import opened Suppression

  // ---- Direct meaning ----------------------------------------------------------------------------------

  ghost predicate WheresSat(wheres: seq<Where>, e: Event, now: int, lib: Library)
    requires forall i :: 0 <= i < |wheres| ==> ValidWhere(wheres[i])
  {
    forall i :: 0 <= i < |wheres| ==> WhereSat(wheres[i], e, now, lib)
  }

  /** Not before the window opens: so many hours or days back from now, or a given instant, or never too early. */
  predicate StartsBy(w: Window, at: int, now: int) {
    match w
    case Last(Span(n, hours)) => now <= at + n * (if hours then 3_600_000 else 86_400_000)
    case Absolute(from, _) => from <= at
    case Ever => true
  }

  /** Not after it closes: only an absolute window does. */
  predicate EndsBy(w: Window, at: int) {
    match w
    case Last(_) => true
    case Absolute(_, until) => at <= until
    case Ever => true
  }

  /** The behaviour counts this event: its name, its own window, every predicate. */
  ghost predicate Counts(b: Behavior, e: Event, now: int, lib: Library)
    requires ValidBehavior(b)
  {
    && (b.event.None? || e.name == b.event.value)
    && StartsBy(b.window, e.at, now)
    && EndsBy(b.window, e.at)
    && WheresSat(b.where, e, now, lib)
  }

  function NumberAt(e: Event, key: string): real { if key in e.numbers then e.numbers[key] else 0.0 }

  function TextAt(e: Event, key: string): string { if key in e.properties then e.properties[key] else "" }

  function NumbersOf(rows: seq<Event>, key: string): (r: seq<real>)
    ensures |r| == |rows| && forall i :: 0 <= i < |rows| ==> r[i] == NumberAt(rows[i], key)
  {
    seq(|rows|, i requires 0 <= i < |rows| => NumberAt(rows[i], key))
  }

  function TextsOf(rows: seq<Event>, key: string): (r: seq<string>)
    ensures |r| == |rows| && forall i :: 0 <= i < |rows| ==> r[i] == TextAt(rows[i], key)
  {
    seq(|rows|, i requires 0 <= i < |rows| => TextAt(rows[i], key))
  }

  function SumOf(s: seq<real>): real { if s == [] then 0.0 else s[0] + SumOf(s[1..]) }

  /** The least value, 0 when there is none. */
  function LeastOf(s: seq<real>): (r: real)
    ensures s == [] ==> r == 0.0
    ensures s != [] ==> r in s && forall x :: x in s ==> r <= x
  {
    if s == [] then 0.0
    else if |s| == 1 then s[0]
    else
      var rest := LeastOf(s[1..]);
      assert s == [s[0]] + s[1..];
      if s[0] <= rest then s[0] else rest
  }

  function GreatestOf(s: seq<real>): (r: real)
    ensures s == [] ==> r == 0.0
    ensures s != [] ==> r in s && forall x :: x in s ==> x <= r
  {
    if s == [] then 0.0
    else if |s| == 1 then s[0]
    else
      var rest := GreatestOf(s[1..]);
      assert s == [s[0]] + s[1..];
      if s[0] >= rest then s[0] else rest
  }

  function DistinctIn(s: seq<string>): nat { |set x | x in s| }

  /** What a behaviour's aggregate is over the rows it counts; no rows give 0. */
  function Aggregated(b: Behavior, rows: seq<Event>): real {
    match b.aggregate
    case Count => |rows| as real
    case Sum => SumOf(NumbersOf(rows, b.property))
    case Minimum => LeastOf(NumbersOf(rows, b.property))
    case Maximum => GreatestOf(NumbersOf(rows, b.property))
    case DistinctValues => DistinctIn(TextsOf(rows, b.property)) as real
  }

  /** A behaviour's total for a person: over their whole unsuppressed history, under its own window. */
  ghost function OwnTotal(b: Behavior, table: seq<Event>, person: string, suppressed: Boundaries, now: int, lib: Library): real
    requires ValidBehavior(b)
  {
    Aggregated(b, Basics.Filter((e: Event) => Theirs(e, person, suppressed) && Counts(b, e, now, lib), table))
  }

  predicate Theirs(e: Event, person: string, suppressed: Boundaries) { e.person == person && Survives(suppressed, person, e.at) }

  // ---- What the emitted pass computes -------------------------------------------------------------------

  /** The environment one event's row is read in. */
  function RowEnv(env: Env, e: Event): Env { env.(columns := EventColumns(e)) }

  ghost function Kept(cond: Expr, rows: seq<Event>, env: Env): seq<Event> {
    Basics.Filter((e: Event) => Eval(cond, RowEnv(env, e)) == Truth(true), rows)
  }

  function Arguments(arg: Expr, rows: seq<Event>, env: Env): (r: seq<Value>)
    ensures |r| == |rows| && forall i :: 0 <= i < |rows| ==> r[i] == Eval(arg, RowEnv(env, rows[i]))
  {
    seq(|rows|, i requires 0 <= i < |rows| => Eval(arg, RowEnv(env, rows[i])))
  }

  function AsReals(vs: seq<Value>): (r: seq<real>)
    ensures |r| == |vs| && forall i :: 0 <= i < |vs| ==> r[i] == if vs[i].Number? then vs[i].r else 0.0
  {
    seq(|vs|, i requires 0 <= i < |vs| => if vs[i].Number? then vs[i].r else 0.0)
  }

  function AsTexts(vs: seq<Value>): (r: seq<string>)
    ensures |r| == |vs| && forall i :: 0 <= i < |vs| ==> r[i] == if vs[i].Word? then vs[i].s else ""
  {
    seq(|vs|, i requires 0 <= i < |vs| => if vs[i].Word? then vs[i].s else "")
  }

  /** The database's conditional aggregates over one group of rows; a group with no match gives 0. */
  ghost function EvalAggregate(e: Expr, rows: seq<Event>, env: Env): Value {
    if !e.Call? || e.args == [] then Error
    else
      var kept := Kept(e.args[|e.args| - 1], rows, env);
      if |e.args| == 1 then (if e.f == "countIf" then Number(|kept| as real) else Error)
      else
        var given := Arguments(e.args[0], kept, env);
        if e.f == "sumIf" then Number(SumOf(AsReals(given)))
        else if e.f == "minIf" then Number(LeastOf(AsReals(given)))
        else if e.f == "maxIf" then Number(GreatestOf(AsReals(given)))
        else if e.f == "uniqExactIf" then Number(DistinctIn(AsTexts(given)) as real)
        else Error
  }

  /** `LIMIT 1 BY event_id`: one row for each id. */
  function OnePerId(rows: seq<Event>): seq<Event> {
    if rows == [] then [] else [rows[0]] + Basics.Filter((e: Event) => e.id != rows[0].id, OnePerId(rows[1..]))
  }

  ghost predicate DistinctIds(rows: seq<Event>) { forall i, j :: 0 <= i < j < |rows| ==> rows[i].id != rows[j].id }

  /** The shared scan, bounded by the widest window. */
  function Scan(bs: seq<Behavior>, table: seq<Event>, now: int): seq<Event>
    requires bs != []
  {
    var widest := Widest(bs, now);
    OnePerId(Basics.Filter((e: Event) => widest.None? || widest.value <= e.at, table))
  }

  /** One person's group. */
  function Group(bs: seq<Behavior>, table: seq<Event>, person: string, suppressed: Boundaries, now: int): seq<Event>
    requires bs != []
  {
    Basics.Filter((e: Event) => Theirs(e, person, suppressed), Scan(bs, table, now))
  }

  /** What the LEFT JOIN gives a person under alias `i`: NULL when they have no group. */
  ghost function JoinedValue(bs: seq<Behavior>, i: nat, n: nat, table: seq<Event>, person: string, suppressed: Boundaries, now: int, env: Env): Value
    requires i < |bs| && ValidBehaviors(bs)
  {
    var rows := Group(bs, table, person, suppressed, now);
    if rows == [] then Null else EvalAggregate(AggregateFragments(bs, now, n)[i].meant, rows, env)
  }

  // ---- The condition ----------------------------------------------------------------------------------------

  /** Every part is definite, and together they say `b`. */
  ghost predicate PartsSay(parts: seq<Fragment>, env: Env, b: bool) {
    (forall i :: 0 <= i < |parts| ==> Definite(Eval(parts[i].meant, env)))
    && (b <==> forall i :: 0 <= i < |parts| ==> Eval(parts[i].meant, env) == Truth(true))
  }

  lemma PartsConcat(x: seq<Fragment>, y: seq<Fragment>, env: Env, a: bool, b: bool)
    requires PartsSay(x, env, a) && PartsSay(y, env, b)
    ensures PartsSay(x + y, env, a && b)
  {
    var both := x + y;
    assert forall i :: 0 <= i < |x| ==> both[i] == x[i];
    assert forall i :: 0 <= i < |y| ==> both[|x| + i] == y[i];
  }

  lemma OnePartSays(f: Fragment, env: Env, b: bool)
    requires Eval(f.meant, env) == Truth(b)
    ensures PartsSay([f], env, b)
  {
    assert [f][0] == f;
  }

  lemma NothingSays(env: Env)
    ensures PartsSay([], env, true)
  {
  }

  lemma {:induction false} AllOfDefinite(es: seq<Expr>, env: Env)
    requires forall i :: 0 <= i < |es| ==> Definite(Eval(es[i], env))
    ensures EvalAll(es, env) == Truth(forall i :: 0 <= i < |es| ==> Eval(es[i], env) == Truth(true))
  {
    if es != [] {
      var rest := es[1..];
      AllOfDefinite(rest, env);
      assert forall i :: 0 < i < |es| ==> es[i] == rest[i - 1];
      if forall i :: 0 <= i < |rest| ==> Eval(rest[i], env) == Truth(true) {
        assert forall i :: 0 < i < |es| ==> Eval(es[i], env) == Truth(true);
      } else {
        var i :| 0 <= i < |rest| && Eval(rest[i], env) != Truth(true);
        assert es[i + 1] == rest[i];
      }
    }
  }

  lemma PartsJoin(parts: seq<Fragment>, env: Env, b: bool)
    requires parts != [] && PartsSay(parts, env, b)
    ensures Eval(JoinOf(parts, CONJUNCTION).meant, env) == Truth(b)
  {
    var es := Meants(parts);
    AllOfDefinite(es, env);
    ChainEvaluates(CONJUNCTION, es, env);
  }

  lemma InstantSays(at: Option<int>, op: Comparison, n: nat, env: Env, e: Event)
    requires op == Ge || op == Le
    requires env.columns == EventColumns(e) && Placed(env.params, n, InstantBindings(at))
    ensures PartsSay(InstantParts(at, op, n), env, at.None? || (if op == Ge then at.value <= e.at else e.at <= at.value))
  {
    if at.Some? {
      PlacedFirst(env.params, n, InstantBindings(at));
      OnePartSays(Comparing2(ColumnRef("timestamp"), op, ParamRef(n)), env, if op == Ge then at.value <= e.at else e.at <= at.value);
    }
  }

  lemma EventSays(b: Behavior, n: nat, env: Env, e: Event)
    requires env.columns == EventColumns(e) && Placed(env.params, n, EventBindings(b))
    ensures PartsSay(EventParts(b, n), env, b.event.None? || e.name == b.event.value)
  {
    if b.event.Some? {
      PlacedFirst(env.params, n, EventBindings(b));
      OnePartSays(Comparing2(ColumnRef("event_name"), Eq, ParamRef(n)), env, e.name == b.event.value);
    }
  }

  predicate FitsWheres(wheres: seq<Where>, lib: Library) {
    forall i :: 0 <= i < |wheres| ==> ValidWhere(wheres[i]) && FitsWhere(wheres[i], lib)
  }

  lemma WheresSatSplits(wheres: seq<Where>, e: Event, now: int, lib: Library)
    requires wheres != [] && forall i :: 0 <= i < |wheres| ==> ValidWhere(wheres[i])
    ensures WheresSat(wheres, e, now, lib) <==> WhereSat(wheres[0], e, now, lib) && WheresSat(wheres[1..], e, now, lib)
  {
    hide WhereSat;
    var rest := wheres[1..];
    assert forall i :: 0 < i < |wheres| ==> wheres[i] == rest[i - 1];
    if WhereSat(wheres[0], e, now, lib) && WheresSat(rest, e, now, lib) {
      forall i | 0 <= i < |wheres| ensures WhereSat(wheres[i], e, now, lib) {
        if i > 0 { assert WhereSat(rest[i - 1], e, now, lib); }
      }
    }
  }

  lemma {:induction false} WheresSay(wheres: seq<Where>, n: nat, now: int, env: Env, e: Event)
    requires FitsWheres(wheres, env.lib)
    requires env.columns == EventColumns(e) && Placed(env.params, n, WheresBindings(wheres, now))
    ensures PartsSay(WhereFragments(wheres, n, now), env, WheresSat(wheres, e, now, env.lib))
  {
    hide PartsSay, Definite;
    hide WhereFragment, WhereSat, WhereBindings;
    if wheres == [] {
      NothingSays(env);
    } else {
      var bound := WhereBindings(wheres[0], now);
      PlacedSplit(env.params, n, bound, WheresBindings(wheres[1..], now));
      WhereEvaluates(wheres[0], n, now, env, e);
      WheresSay(wheres[1..], n + |bound|, now, env, e);
      WheresSatSplits(wheres, e, now, env.lib);
      OnePartSays(WhereFragment(wheres[0], n), env, WhereSat(wheres[0], e, now, env.lib));
      PartsConcat([WhereFragment(wheres[0], n)], WhereFragments(wheres[1..], n + |bound|, now), env,
                  WhereSat(wheres[0], e, now, env.lib), WheresSat(wheres[1..], e, now, env.lib));
    }
  }

  predicate FitsBehavior(b: Behavior, lib: Library) { ValidBehavior(b) && FitsWheres(b.where, lib) }

  lemma ConditionPlaced(b: Behavior, now: int, n: nat, params: seq<Binding>)
    requires ValidBehavior(b) && Placed(params, n, ConditionBindings(b, now))
    ensures Placed(params, n, EventBindings(b))
    ensures Placed(params, FromAt(b, n), InstantBindings(WindowStart(b.window, now)))
    ensures Placed(params, UntilAt(b, now, n), InstantBindings(WindowEnd(b.window)))
    ensures Placed(params, WheresAt(b, now, n), WheresBindings(b.where, now))
  {
    hide Placed, EventBindings, InstantBindings, WheresBindings;
    var from, until, wheres := InstantBindings(WindowStart(b.window, now)), InstantBindings(WindowEnd(b.window)), WheresBindings(b.where, now);
    PlacedSplit(params, n, EventBindings(b), from + (until + wheres));
    PlacedSplit(params, FromAt(b, n), from, until + wheres);
    PlacedSplit(params, UntilAt(b, now, n), until, wheres);
  }

  lemma PartsSayTheCondition(b: Behavior, now: int, n: nat, env: Env, e: Event)
    requires FitsBehavior(b, env.lib) && env.columns == EventColumns(e) && Placed(env.params, n, ConditionBindings(b, now))
    ensures PartsSay(ConditionParts(b, now, n), env, Counts(b, e, now, env.lib))
  {
    hide PartsSay, WheresSat, WhereFragments, InstantParts, EventParts, Placed;
    ConditionPlaced(b, now, n, env.params);
    EventSays(b, n, env, e);
    InstantSays(WindowStart(b.window, now), Ge, FromAt(b, n), env, e);
    InstantSays(WindowEnd(b.window), Le, UntilAt(b, now, n), env, e);
    WheresSay(b.where, WheresAt(b, now, n), now, env, e);
    var wheres := WhereFragments(b.where, WheresAt(b, now, n), now);
    var named := b.event.None? || e.name == b.event.value;
    var ends, rest := EndsBy(b.window, e.at), WheresSat(b.where, e, now, env.lib);
    PartsConcat(UntilParts(b, now, n), wheres, env, ends, rest);
    PartsConcat(FromParts(b, now, n), UntilParts(b, now, n) + wheres, env, StartsBy(b.window, e.at, now), ends && rest);
    PartsConcat(EventParts(b, n), FromParts(b, now, n) + (UntilParts(b, now, n) + wheres), env, named,
                StartsBy(b.window, e.at, now) && (ends && rest));
  }

  /** The compiled condition is true of exactly the events the behaviour counts, and never NULL. */
  lemma ConditionEvaluates(b: Behavior, now: int, n: nat, env: Env, e: Event)
    requires FitsBehavior(b, env.lib) && env.columns == EventColumns(e) && Placed(env.params, n, ConditionBindings(b, now))
    ensures Eval(ConditionFragment(b, now, n).meant, env) == Truth(Counts(b, e, now, env.lib))
  {
    hide ConditionParts, Counts;
    PartsSayTheCondition(b, now, n, env, e);
    var parts := ConditionParts(b, now, n);
    if parts != [] { PartsJoin(parts, env, Counts(b, e, now, env.lib)); }
  }

  // ---- The aggregate ---------------------------------------------------------------------------------------

  lemma AggregatePlaced(b: Behavior, now: int, n: nat, params: seq<Binding>)
    requires ValidBehavior(b) && Placed(params, n, AggregateBindings(b, now))
    ensures Placed(params, n, ConditionBindings(b, now))
    ensures !b.aggregate.Count? ==>
      n + |ConditionBindings(b, now)| < |params| && params[n + |ConditionBindings(b, now)|] == Binding(Str(b.property), ChString)
  {
    hide ConditionBindings;
    PlacedSplit(params, n, ConditionBindings(b, now), KeyBindings(b));
    if !b.aggregate.Count? { PlacedFirst(params, n + |ConditionBindings(b, now)|, KeyBindings(b)); }
  }

  /** The rows the compiled condition keeps are the rows the behaviour counts. */
  lemma KeptIsCounted(b: Behavior, now: int, n: nat, rows: seq<Event>, env: Env)
    requires FitsBehavior(b, env.lib) && Placed(env.params, n, ConditionBindings(b, now))
    ensures Kept(ConditionFragment(b, now, n).meant, rows, env)
         == Basics.Filter((e: Event) => Counts(b, e, now, env.lib), rows)
  {
    hide ConditionFragment, Counts, ConditionBindings;
    var cond := ConditionFragment(b, now, n).meant;
    forall e | e in rows ensures Eval(cond, RowEnv(env, e)) == Truth(Counts(b, e, now, env.lib)) {
      ConditionEvaluates(b, now, n, RowEnv(env, e), e);
    }
    FilterSame((e: Event) => Eval(cond, RowEnv(env, e)) == Truth(true), (e: Event) => Counts(b, e, now, env.lib), rows);
  }

  /** What the property argument reads from each row: the value, or its type's default. */
  lemma ArgumentsAreValues(kind: AggregateKind, property: string, key: nat, rows: seq<Event>, env: Env)
    requires key < |env.params| && env.params[key] == Binding(Str(property), ChString)
    ensures var given := Arguments(Lookup(Bag(kind), key).meant, rows, env);
            if kind.DistinctValues? then AsTexts(given) == TextsOf(rows, property) else AsReals(given) == NumbersOf(rows, property)
  {
    var given := Arguments(Lookup(Bag(kind), key).meant, rows, env);
    forall i | 0 <= i < |rows|
      ensures given[i] == if kind.DistinctValues? then Word(TextAt(rows[i], property)) else Number(NumberAt(rows[i], property))
    {
      LookupEvaluates(Bag(kind), key, property, RowEnv(env, rows[i]),
                      if kind.DistinctValues? then Word(TextAt(rows[i], property)) else Number(NumberAt(rows[i], property)));
    }
  }

  lemma CallEvaluates(kind: AggregateKind, key: nat, cond: Fragment, rows: seq<Event>, env: Env)
    ensures var call := CallOf(AggregateName(kind), AggregateArgs(kind, key, cond)).meant;
            var kept := Kept(cond.meant, rows, env);
            var given := Arguments(Lookup(Bag(kind), key).meant, kept, env);
            EvalAggregate(call, rows, env) == Number(match kind
              case Count => |kept| as real
              case Sum => SumOf(AsReals(given))
              case Minimum => LeastOf(AsReals(given))
              case Maximum => GreatestOf(AsReals(given))
              case DistinctValues => DistinctIn(AsTexts(given)) as real)
  {
    hide Kept, Arguments, SumOf, LeastOf, GreatestOf, DistinctIn, AsReals, AsTexts, Lookup;
    var args := AggregateArgs(kind, key, cond);
    assert args[|args| - 1] == cond;
  }

  /** The emitted aggregate over any rows is the behaviour's own aggregate of those it counts. */
  lemma AggregateEvaluates(b: Behavior, now: int, n: nat, rows: seq<Event>, env: Env)
    requires FitsBehavior(b, env.lib) && Placed(env.params, n, AggregateBindings(b, now))
    ensures EvalAggregate(AggregateFragment(b, now, n).meant, rows, env)
         == Number(Aggregated(b, Basics.Filter((e: Event) => Counts(b, e, now, env.lib), rows)))
  {
    hide ConditionFragment, Counts, ConditionBindings, EvalAggregate, Kept, Arguments, CallOf, AggregateArgs, AggregateName, Bag,
         Lookup, SumOf, LeastOf, GreatestOf, DistinctIn, AsReals, AsTexts, NumbersOf, TextsOf, AggregateBindings, Placed;
    var key := n + |ConditionBindings(b, now)|;
    var cond := ConditionFragment(b, now, n);
    AggregatePlaced(b, now, n, env.params);
    KeptIsCounted(b, now, n, rows, env);
    CallEvaluates(b.aggregate, key, cond, rows, env);
    if !b.aggregate.Count? { ArgumentsAreValues(b.aggregate, b.property, key, Kept(cond.meant, rows, env), env); }
  }

  // ---- The scan ----------------------------------------------------------------------------------------------

  /** Every instant some behaviour's window admits is at or after the scan bound. */
  lemma {:induction false} WidestCovers(bs: seq<Behavior>, i: nat, at: int, now: int)
    requires i < |bs| && StartsBy(bs[i].window, at, now)
    ensures Widest(bs, now).Some? ==> Widest(bs, now).value <= at
  {
    if i > 0 { WidestCovers(bs[1..], i - 1, at, now); }
  }

  /** And the bound is no earlier than it must be: some window admits it, or one admits every instant and there is none. */
  lemma {:induction false} WidestIsTight(bs: seq<Behavior>, now: int) returns (i: nat)
    requires bs != []
    ensures i < |bs|
    ensures match Widest(bs, now)
      case Some(bound) => StartsBy(bs[i].window, bound, now)
      case None => forall at :: StartsBy(bs[i].window, at, now)
  {
    i := 0;
    if |bs| > 1 {
      var j := WidestIsTight(bs[1..], now);
      var first, rest := WindowStart(bs[0].window, now), Widest(bs[1..], now);
      if first.Some? && (rest.None? || rest.value < first.value) { i := j + 1; }
    }
  }

  lemma {:induction false} OnePerIdOfDistinct(rows: seq<Event>)
    requires DistinctIds(rows)
    ensures OnePerId(rows) == rows
  {
    if rows != [] {
      assert forall i, j :: 0 <= i < j < |rows[1..]| ==> rows[1..][i] == rows[i + 1] && rows[1..][j] == rows[j + 1];
      OnePerIdOfDistinct(rows[1..]);
      FilterAll((e: Event) => e.id != rows[0].id, rows[1..]);
    }
  }

  lemma {:induction false} FilterKeepsDistinctIds(keep: Event -> bool, rows: seq<Event>)
    requires DistinctIds(rows)
    ensures DistinctIds(Basics.Filter(keep, rows))
  {
    if rows != [] {
      var rest := rows[1..];
      assert forall i, j :: 0 <= i < j < |rest| ==> rest[i] == rows[i + 1] && rest[j] == rows[j + 1];
      FilterKeepsDistinctIds(keep, rest);
      var kept := Basics.Filter(keep, rest);
      FilterMembers(keep, rest);
      forall e | e in kept ensures e.id != rows[0].id {
        var i :| 0 <= i < |rest| && rest[i] == e;
        assert rows[i + 1] == e;
      }
      if keep(rows[0]) {
        var all := [rows[0]] + kept;
        forall i, j | 0 <= i < j < |all| ensures all[i].id != all[j].id {
          assert all[j] == kept[j - 1] && all[j] in kept;
          if i > 0 { assert all[i] == kept[i - 1]; }
        }
        assert Basics.Filter(keep, rows) == all;
      }
    }
  }

  /** Narrowing the shared scan to one behaviour gives what that behaviour would have read alone. */
  lemma ScanNarrows(bs: seq<Behavior>, i: nat, table: seq<Event>, person: string, suppressed: Boundaries, now: int, lib: Library)
    requires i < |bs| && ValidBehaviors(bs) && DistinctIds(table)
    ensures Basics.Filter((e: Event) => Counts(bs[i], e, now, lib), Group(bs, table, person, suppressed, now))
         == Basics.Filter((e: Event) => Theirs(e, person, suppressed) && Counts(bs[i], e, now, lib), table)
  {
    hide WheresSat, Survives;
    var widest := Widest(bs, now);
    var bounded := (e: Event) => widest.None? || widest.value <= e.at;
    var theirs := (e: Event) => Theirs(e, person, suppressed);
    var counted := (e: Event) => Counts(bs[i], e, now, lib);
    forall e | counted(e) ensures bounded(e) { WidestCovers(bs, i, e.at, now); }
    FilterKeepsDistinctIds(bounded, table);
    OnePerIdOfDistinct(Basics.Filter(bounded, table));
    FilterTwice(bounded, theirs, (e: Event) => bounded(e) && theirs(e), table);
    FilterTwice((e: Event) => bounded(e) && theirs(e), counted, (e: Event) => theirs(e) && counted(e), table);
    FilterSame((e: Event) => theirs(e) && counted(e), (e: Event) => Theirs(e, person, suppressed) && Counts(bs[i], e, now, lib), table);
  }

  /** Where one aggregate's own parameters stand among all of them. */
  lemma {:induction false} FragmentOf(bs: seq<Behavior>, i: nat, now: int, n: nat, params: seq<Binding>) returns (at: nat)
    requires i < |bs| && ValidBehaviors(bs) && Placed(params, n, AggregatesBindings(bs, now))
    ensures AggregateFragments(bs, now, n)[i] == AggregateFragment(bs[i], now, at)
    ensures Placed(params, at, AggregateBindings(bs[i], now))
  {
    hide AggregateFragment, AggregateBindings;
    PlacedSplit(params, n, AggregateBindings(bs[0], now), AggregatesBindings(bs[1..], now));
    if i == 0 {
      at := n;
    } else {
      at := FragmentOf(bs[1..], i - 1, now, n + |AggregateBindings(bs[0], now)|, params);
    }
  }

  /**
    One shared scan is as good as one scan per behaviour: for any list of behaviours, any person (with rows
    in the scan or none at all) and any history with distinct event ids, the coalesced alias is that
    behaviour's own total.
   */
  lemma SharedScanIsExact(bs: seq<Behavior>, i: nat, n: nat, table: seq<Event>, person: string, suppressed: Boundaries, now: int, env: Env)
    requires i < |bs| && ValidBehaviors(bs) && FitsBehavior(bs[i], env.lib) && DistinctIds(table)
    requires Placed(env.params, n, AggregatesBindings(bs, now))
    ensures var v := JoinedValue(bs, i, n, table, person, suppressed, now, env);
            (if v.Null? then Number(0.0) else v) == Number(OwnTotal(bs[i], table, person, suppressed, now, env.lib))
  {
    hide Counts, EvalAggregate, AggregateFragment, AggregateBindings, Theirs;
    var rows := Group(bs, table, person, suppressed, now);
    ScanNarrows(bs, i, table, person, suppressed, now, env.lib);
    if rows == [] {
      NothingAggregates(bs[i]);
    } else {
      var at := FragmentOf(bs, i, now, n, env.params);
      AggregateEvaluates(bs[i], now, at, rows, env);
    }
  }

  lemma NothingAggregates(b: Behavior)
    ensures Aggregated(b, []) == 0.0
  {
    assert TextsOf([], b.property) == [];
    assert (set x | x in TextsOf([], b.property)) == {};
  }
}
