/**
  What filter trees and event predicates mean, and that the emitted expressions evaluate to exactly
  that: two truth values, never NULL (packages/core/src/segments/predicates.ts:94-166, 216-396).
 */
module SegmentMeaning {
  import opened Basics
  import opened Events
  import opened Filters
  import opened Predicates
  import opened SqlEval
  import opened SqlGrammar

  // ---- People -------------------------------------------------------------------------------------

  datatype TraitValue = TextTrait(s: string) | NumberTrait(r: real)

  /** One row of the base population with that person's traits; no traits is an empty map. */
  datatype Person = Person(id: string, traits: map<string, TraitValue>, first: map<ContextField, string>,
                           latest: map<ContextField, string>, firstSeen: int, lastSeen: int)

  function TraitText(p: Person, key: string): string {
    if key in p.traits && p.traits[key].TextTrait? then p.traits[key].s else ""
  }

  function TraitNumber(p: Person, key: string): real {
    if key in p.traits && p.traits[key].NumberTrait? then p.traits[key].r else 0.0
  }

  function FirstText(p: Person, field: ContextField): string { if field in p.first then p.first[field] else "" }

  function LatestText(p: Person, field: ContextField): string { if field in p.latest then p.latest[field] else "" }

  /** What a scope of a field means: an acquisition attribute is its first touch whichever is asked for. */
  function ContextText(p: Person, field: ContextField, latest: bool): string {
    if latest && !(field.Referrer? || field.UtmSource? || field.UtmMedium? || field.UtmCampaign?) then LatestText(p, field)
    else FirstText(p, field)
  }

  /** The device index's merged columns: six kept at both ends of a person's history, four at the first only. */
  function DeviceColumn(p: Person, name: string): string {
    if name == "latest_country" then LatestText(p, Country)
    else if name == "latest_region" then LatestText(p, Region)
    else if name == "latest_city" then LatestText(p, City)
    else if name == "latest_device" then LatestText(p, DeviceType)
    else if name == "latest_os" then LatestText(p, Os)
    else if name == "latest_browser" then LatestText(p, Browser)
    else if name == "first_referrer" then FirstText(p, Referrer)
    else if name == "first_source" then FirstText(p, UtmSource)
    else if name == "first_medium" then FirstText(p, UtmMedium)
    else if name == "first_campaign" then FirstText(p, UtmCampaign)
    else if name == "first_country" then FirstText(p, Country)
    else if name == "first_region" then FirstText(p, Region)
    else if name == "first_city" then FirstText(p, City)
    else if name == "first_device" then FirstText(p, DeviceType)
    else if name == "first_os" then FirstText(p, Os)
    else if name == "first_browser" then FirstText(p, Browser)
    else ""
  }

  /** The columns the compiled WHERE reads: both trait maps and the kind flag share one key set. */
  function PersonColumns(p: Person): string -> Value {
    (name: string) =>
      if name == "t_str" then Words(map k | k in p.traits :: TraitText(p, k))
      else if name == "t_num" then Numbers(map k | k in p.traits :: TraitNumber(p, k))
      else if name == "t_has_num" then Numbers(map k | k in p.traits :: if p.traits[k].NumberTrait? then 1.0 else 0.0)
      else if name == "first_seen" then Instant(p.firstSeen)
      else if name == "last_seen" then Instant(p.lastSeen)
      else if name == "person_id" then Word(p.id)
      else Word(DeviceColumn(p, name))
  }

  function ColumnText(e: Event, column: string): string { if column in e.columns then e.columns[column] else "" }

  function EventColumns(e: Event): string -> Value {
    (name: string) =>
      if name == "event_name" then Word(e.name)
      else if name == "timestamp" then Instant(e.at)
      else if name == "properties" then Words(e.properties)
      else if name == "properties_num" then Numbers(e.numbers)
      else if name == "resolved_person" then Word(e.person)
      else Word(ColumnText(e, name))
  }

  // ---- Direct meaning -------------------------------------------------------------------------------

  /** The bound asks for a number: the one value, or the lower of two. */
  predicate AsksForNumber(c: Clause) {
    match c
    case Compares(_, Num(_)) => true
    case Between(Num(_), _) => true
    case _ => false
  }

  ghost predicate ColumnSat(c: Clause, text: string, lib: Library)
    requires ColumnClause(c)
  {
    if c.Matches? then TextMatches(c, text, lib)
    else if c.Presence? then c.set_ == (text != "")
    else ComparesTo(c, Word(text), ChString, lib)
  }

  ghost predicate StringSat(c: Clause, text: string, now: int, lib: Library)
    requires !c.Presence?
  {
    if c.Matches? then TextMatches(c, text, lib)
    else if c.Boolean? then text == if c.flag then "true" else "false"
    else if c.Relative? then WithinLast(c, lib.parse(text), now)
    else ComparesTo(c, Word(text), ChString, lib)
  }

  ghost predicate WhereSat(w: Where, e: Event, now: int, lib: Library)
    requires ValidWhere(w)
  {
    match w
    case Attribute(column, c) => ColumnSat(c, ColumnText(e, column), lib)
    case Property(key, c) =>
      if c.Presence? then c.set_ == (key in e.properties || key in e.numbers)
      else if AsksForNumber(c) then ComparesTo(c, Number(if key in e.numbers then e.numbers[key] else 0.0), ChFloat64, lib)
      else StringSat(c, if key in e.properties then e.properties[key] else "", now, lib)
  }

  ghost predicate TraitSat(key: string, c: Clause, p: Person, now: int, lib: Library) {
    if c.Presence? then c.set_ == (key in p.traits)
    else if AsksForNumber(c) then
      key in p.traits && p.traits[key].NumberTrait? && ComparesTo(c, Number(p.traits[key].r), ChFloat64, lib)
    else StringSat(c, TraitText(p, key), now, lib)
  }

  ghost predicate LifecycleSat(which: LifecycleField, c: Clause, p: Person, now: int, lib: Library)
    requires Comparing(c) || c.Relative?
  {
    var at := if which == FirstSeen then p.firstSeen else p.lastSeen;
    if c.Relative? then WithinLast(c, Some(at), now) else ComparesTo(c, Instant(at), ChDateTime, lib)
  }

  /** The tree on one person, `total` giving each behaviour's aggregate for them. */
  ghost predicate Sat(f: Filter, p: Person, total: Behavior -> real, now: int, lib: Library)
    requires ValidFilter(f)
  {
    match f
    case Group(conjunction, children) =>
      if conjunction then forall i :: 0 <= i < |children| ==> Sat(children[i], p, total, now, lib)
      else exists i :: 0 <= i < |children| && Sat(children[i], p, total, now, lib)
    case Negated(child) => !Sat(child, p, total, now, lib)
    case Trait(key, c) => TraitSat(key, c, p, now, lib)
    case Context(field, latest, c) => ColumnSat(c, ContextText(p, field, latest), lib)
    case Lifecycle(which, c) => LifecycleSat(which, c, p, now, lib)
    case Did(b) => ComparesTo(b.clause, Number(total(b)), ChFloat64, lib)
  }

  // ---- Comparisons ----------------------------------------------------------------------------------

  predicate KindOf(v: Value, type_: ChType) {
    match type_
    case ChString => v.Word?
    case ChDateTime => v.Instant?
    case _ => v.Number?
  }

  /** Every bound of the clause is a value of its parameter type. */
  predicate Binds(c: Clause, type_: ChType, lib: Library)
    requires Comparing(c)
  {
    if c.Between? then KindOf(ScalarValue(c.low, type_, lib), type_) && KindOf(ScalarValue(c.high, type_, lib), type_)
    else KindOf(ScalarValue(c.value, type_, lib), type_)
  }

  /** A comparison's bounds, if the clause is one, read as values of the type declared for them. */
  predicate Fits(c: Clause, type_: ChType, lib: Library) { Comparing(c) ==> Binds(c, type_, lib) }

  function TypeOf(numeric: bool): ChType { if numeric then ChFloat64 else ChString }

  predicate FitsWhere(w: Where, lib: Library) { Fits(w.clause, TypeOf(w.Property? && Numeric(w.clause)), lib) }

  /** Every comparison in the tree, its behaviours' predicates included. */
  predicate FitsFilter(f: Filter, lib: Library) {
    match f
    case Group(_, children) => forall i :: 0 <= i < |children| ==> FitsFilter(children[i], lib)
    case Negated(child) => FitsFilter(child, lib)
    case Trait(_, clause) => Fits(clause, TypeOf(Numeric(clause)), lib)
    case Context(_, _, clause) => Fits(clause, ChString, lib)
    case Lifecycle(_, _) => true
    case Did(b) => Fits(b.clause, ChFloat64, lib) && forall i :: 0 <= i < |b.where| ==> FitsWhere(b.where[i], lib)
  }

  /** A database that refuses whatever its declared types do not plainly hold. */
  const STRICT := Library((s: string) => s, (_: string) => None, (_: real) => "", (_: string, _: string) => false, (_: Binding) => Error)

  /** The caller's check: plain bounds are exactly those that fit whatever the database does with the rest. */
  lemma ComparableFitsAlways(c: Clause, numeric: bool)
    ensures Comparable(c, numeric) <==> forall lib: Library :: Fits(c, TypeOf(numeric), lib)
  {
    if !Comparable(c, numeric) { assert !Fits(c, TypeOf(numeric), STRICT); }
  }

  /** And so for whole trees: what the schema calls a number or a text always fits. */
  lemma {:induction false} ComparableTreeFits(f: Filter, lib: Library)
    requires ComparableFilter(f)
    ensures FitsFilter(f, lib)
  {
    match f
    case Group(_, children) =>
      forall i | 0 <= i < |children| ensures FitsFilter(children[i], lib) { ComparableTreeFits(children[i], lib); }
    case Negated(child) => ComparableTreeFits(child, lib);
    case Trait(_, clause) => ComparableFitsAlways(clause, Numeric(clause));
    case Context(_, _, clause) => ComparableFitsAlways(clause, false);
    case Lifecycle(_, _) =>
    case Did(b) =>
      ComparableFitsAlways(b.clause, true);
      forall i | 0 <= i < |b.where| ensures FitsWhere(b.where[i], lib) {
        ComparableFitsAlways(b.where[i].clause, b.where[i].Property? && Numeric(b.where[i].clause));
      }
  }

  /** What the compiled comparison gives for a left-hand value. */
  function Compared(c: Clause, v: Value, type_: ChType, lib: Library): Value
    requires Comparing(c)
  {
    if c.Between? then And3(CompareValues(Ge, v, ScalarValue(c.low, type_, lib), lib),
                            CompareValues(Le, v, ScalarValue(c.high, type_, lib), lib))
    else CompareValues(c.op, v, ScalarValue(c.value, type_, lib), lib)
  }

  lemma ComparedMeans(c: Clause, v: Value, type_: ChType, lib: Library)
    requires Comparing(c) && KindOf(v, type_) && Binds(c, type_, lib)
    ensures Compared(c, v, type_, lib) == Truth(ComparesTo(c, v, type_, lib))
  {
  }

  function Zero(type_: ChType): Value {
    match type_
    case ChString => Word("")
    case ChDateTime => Instant(0)
    case _ => Number(0.0)
  }

  /**
    A comparison gives one of the two truth values on every left-hand value of its type exactly when
    its bounds read as values of that type: for text, numbers and dates alike.
   */
  lemma ComparisonIsDefinite(c: Clause, type_: ChType, lib: Library)
    requires Comparing(c)
    ensures (forall v :: KindOf(v, type_) ==> Definite(Compared(c, v, type_, lib))) <==> Binds(c, type_, lib)
  {
    if Binds(c, type_, lib) {
      forall v | KindOf(v, type_) ensures Definite(Compared(c, v, type_, lib)) {
        ComparedMeans(c, v, type_, lib);
      }
    } else {
      var low := if c.Between? then ScalarValue(c.low, type_, lib) else Null;
      var high := if c.Between? then ScalarValue(c.high, type_, lib) else Null;
      var v := if KindOf(low, type_) then low else if KindOf(high, type_) then high else Zero(type_);
      assert KindOf(v, type_) && !Definite(Compared(c, v, type_, lib));
    }
  }

  lemma CompareEvaluates(lhs: Fragment, c: Clause, n: nat, type_: ChType, env: Env, v: Value)
    requires Comparing(c) && Eval(lhs.meant, env) == v && Placed(env.params, n, CompareBindings(c, type_))
    ensures Eval(CompareFragment(lhs, c, n).meant, env) == Compared(c, v, type_, env.lib)
  {
    var bs := CompareBindings(c, type_);
    assert env.params[n + 0] == bs[0];
    if c.Between? { assert env.params[n + 1] == bs[1]; }
  }

  lemma ComparesEvaluates(lhs: Fragment, c: Clause, n: nat, type_: ChType, env: Env, v: Value)
    requires Comparing(c) && Eval(lhs.meant, env) == v && Placed(env.params, n, CompareBindings(c, type_))
    requires KindOf(v, type_) && Binds(c, type_, env.lib)
    ensures Eval(CompareFragment(lhs, c, n).meant, env) == Truth(ComparesTo(c, v, type_, env.lib))
  {
    CompareEvaluates(lhs, c, n, type_, env, v);
    ComparedMeans(c, v, type_, env.lib);
  }

  // ---- Text --------------------------------------------------------------------------------------------

  /** The needle occurs at the front, or further on. */
  lemma OccursStep(needle: string, hay: string)
    requires hay != []
    ensures Occurs(needle, hay) <==> needle <= hay || Occurs(needle, hay[1..])
  {
    if Occurs(needle, hay) {
      var a, b :| hay == a + needle + b;
      if a == [] {
        assert hay == needle + b;
      } else {
        assert hay[1..] == a[1..] + needle + b;
      }
    }
    if needle <= hay { assert hay == [] + needle + hay[|needle|..]; }
    if Occurs(needle, hay[1..]) {
      var a, b :| hay[1..] == a + needle + b;
      assert hay == ([hay[0]] + a) + needle + b;
    }
  }

  lemma {:induction false} IndexOfFinds(hay: string, needle: string)
    ensures IndexOf(hay, needle).Some? <==> Occurs(needle, hay)
  {
    if hay == [] {
      if needle == [] { assert hay == [] + needle + []; }
    } else {
      OccursStep(needle, hay);
      IndexOfFinds(hay[1..], needle);
    }
  }

  lemma AffixesMean(hay: string, needle: string)
    ensures needle <= hay <==> exists b :: hay == needle + b
    ensures (|needle| <= |hay| && hay[|hay| - |needle|..] == needle) <==> exists a :: hay == a + needle
  {
    if needle <= hay { assert hay == needle + hay[|needle|..]; }
    if |needle| <= |hay| && hay[|hay| - |needle|..] == needle { assert hay == hay[..|hay| - |needle|] + needle; }
  }

  /** Both sides folded, ready for the matching function. */
  lemma FoldedEvaluate(lhs: Fragment, needle: string, n: nat, env: Env, text: string)
    requires Eval(lhs.meant, env) == Word(text) && Placed(env.params, n, [Binding(Str(needle), ChString)])
    ensures EvalEach(Meants([CallOf("lowerUTF8", [lhs]), CallOf("lowerUTF8", [ParamRef(n)])]), env)
         == [Word(env.lib.lower(text)), Word(env.lib.lower(needle))]
  {
    PlacedFirst(env.params, n, [Binding(Str(needle), ChString)]);
    var a, b := CallOf("lowerUTF8", [lhs]), CallOf("lowerUTF8", [ParamRef(n)]);
    assert EvalEach(Meants([lhs]), env) == [Word(text)];
    assert EvalEach(Meants([ParamRef(n)]), env) == [Word(needle)];
    assert Eval(a.meant, env) == Word(env.lib.lower(text)) && Eval(b.meant, env) == Word(env.lib.lower(needle));
  }

  lemma MatchApplies(hay: string, needle: string, lib: Library)
    ensures var at := Apply("position", [Word(hay), Word(needle)], lib);
            at.Number? && at.r >= 0.0 && (at.r > 0.0 <==> Occurs(needle, hay))
    ensures Apply("startsWith", [Word(hay), Word(needle)], lib) == Truth(exists b :: hay == needle + b)
    ensures Apply("endsWith", [Word(hay), Word(needle)], lib) == Truth(exists a :: hay == a + needle)
  {
    hide IndexOf, Occurs;
    IndexOfFinds(hay, needle);
    AffixesMean(hay, needle);
  }

  lemma TextEvaluates(lhs: Fragment, c: Clause, n: nat, env: Env, text: string)
    requires c.Matches? && Eval(lhs.meant, env) == Word(text) && Placed(env.params, n, [Binding(Str(c.needle), ChString)])
    ensures Eval(TextFragment(lhs, c, n).meant, env) == Truth(TextMatches(c, text, env.lib))
  {
    hide Occurs, Apply;
    var args := [CallOf("lowerUTF8", [lhs]), CallOf("lowerUTF8", [ParamRef(n)])];
    FoldedEvaluate(lhs, c.needle, n, env, text);
    MatchApplies(env.lib.lower(text), env.lib.lower(c.needle), env.lib);
    assert Eval(CallOf("position", args).meant, env) == Apply("position", EvalEach(Meants(args), env), env.lib);
    assert Eval(CallOf("startsWith", args).meant, env) == Apply("startsWith", EvalEach(Meants(args), env), env.lib);
    assert Eval(CallOf("endsWith", args).meant, env) == Apply("endsWith", EvalEach(Meants(args), env), env.lib);
  }

  lemma NotEvaluates(f: Fragment, env: Env, b: bool)
    requires Eval(f.meant, env) == Truth(b)
    ensures Eval(NotOf(f).meant, env) == Truth(!b)
  {
  }

  lemma SetEvaluates(present: Fragment, is_set: bool, env: Env, b: bool)
    requires Eval(present.meant, env) == Truth(b)
    ensures Eval(SetFragment(present, is_set).meant, env) == Truth(is_set == b)
  {
  }

  // ---- Dates ---------------------------------------------------------------------------------------------

  lemma IfNullEvaluates(x: Fragment, env: Env)
    ensures var v := Eval(x.meant, env);
            Eval(CallOf("ifNull", [x, NumberRef(0)]).meant, env) == if v.Null? then Truth(false) else v
  {
    assert EvalEach(Meants([x, NumberRef(0)]), env) == [Eval(x.meant, env), Number(0.0)];
  }

  /** Made definite by `ifNull`, so the negated form catches the dates that do not parse. */
  lemma RelativeEvaluates(date: Fragment, c: Clause, nullable: bool, n: nat, now: int, env: Env, d: Option<int>)
    requires c.Relative? && Placed(env.params, n, [RelativeBinding(c, now)]) && (d.None? ==> nullable)
    requires Eval(date.meant, env) == if d.None? then Null else Instant(d.value)
    ensures Eval(RelativeFragment(date, c, nullable, n).meant, env) == Truth(WithinLast(c, d, now))
  {
    PlacedFirst(env.params, n, [RelativeBinding(c, now)]);
    var cmp := Comparing2(date, Ge, ParamRef(n));
    var within := d.Some? && now - SpanMs(c.span) <= d.value;
    assert BindValue(env.params[n], env.lib) == Instant(now - SpanMs(c.span));
    assert Eval(cmp.meant, env) == if d.None? then Null else Truth(within);
    IfNullEvaluates(cmp, env);
    var definite := if nullable then CallOf("ifNull", [cmp, NumberRef(0)]) else Parens(cmp);
    assert Eval(definite.meant, env) == Truth(within);
  }

  // ---- Leaves --------------------------------------------------------------------------------------------

  lemma ColumnEvaluates(column: string, c: Clause, n: nat, env: Env, text: string)
    requires ColumnClause(c) && Fits(c, ChString, env.lib) && env.columns(column) == Word(text)
    requires Placed(env.params, n, ColumnBindings(c))
    ensures Eval(ColumnFragment(column, c, n).meant, env) == Truth(ColumnSat(c, text, env.lib))
  {
    var lhs := ColumnRef(column);
    if c.Matches? {
      TextEvaluates(lhs, c, n, env, text);
    } else if c.Presence? {
      assert Eval(NotEmpty(lhs).meant, env) == Truth(text != "");
      SetEvaluates(NotEmpty(lhs), c.set_, env, text != "");
    } else {
      ComparesEvaluates(lhs, c, n, ChString, env, Word(text));
    }
  }

  lemma LookupEvaluates(map_: string, n: nat, key: string, env: Env, v: Value)
    requires n < |env.params| && env.params[n] == Binding(Str(key), ChString)
    requires LookupValue(env.columns(map_), Word(key)) == v
    ensures Eval(Lookup(map_, n).meant, env) == v
  {
  }

  lemma StringEvaluates(map_: string, c: Clause, n: nat, key: string, now: int, env: Env, text: string)
    requires !c.Presence? && !Numeric(c) && Fits(c, ChString, env.lib)
    requires Placed(env.params, n, [Binding(Str(key), ChString)] + KeyedBindings(c, now))
    requires LookupValue(env.columns(map_), Word(key)) == Word(text)
    ensures Eval(StringFragment(map_, c, n).meant, env) == Truth(StringSat(c, text, now, env.lib))
  {
    hide TextFragment, RelativeFragment, CompareFragment, TextMatches, WithinLast, ComparesTo, Binds;
    var str := Lookup(map_, n);
    PlacedSplit(env.params, n, [Binding(Str(key), ChString)], KeyedBindings(c, now));
    PlacedFirst(env.params, n, [Binding(Str(key), ChString)]);
    LookupEvaluates(map_, n, key, env, Word(text));
    if c.Matches? {
      TextEvaluates(str, c, n + 1, env, text);
    } else if c.Boolean? {
      assert env.params[n + 1 + 0] == KeyedBindings(c, now)[0];
    } else if c.Relative? {
      assert EvalEach(Meants([str]), env) == [Word(text)];
      RelativeEvaluates(AsDate(str), c, true, n + 1, now, env, env.lib.parse(text));
    } else {
      ComparesEvaluates(str, c, n + 1, ChString, env, Word(text));
    }
  }

  lemma HasKeyEvaluates(map_: string, n: nat, key: string, env: Env, has: bool)
    requires n < |env.params| && env.params[n] == Binding(Str(key), ChString)
    requires var m := env.columns(map_); (m.Words? && has == (key in m.w)) || (m.Numbers? && has == (key in m.m))
    ensures Eval(HasKey(map_, n).meant, env) == Truth(has)
  {
    assert EvalEach(Meants([ColumnRef(map_), ParamRef(n)]), env) == [env.columns(map_), Word(key)];
  }

  lemma EvalOne(e: Expr, env: Env, b: bool)
    requires Eval(e, env) == Truth(b)
    ensures EvalAll([e], env) == Truth(b) && EvalAny([e], env) == Truth(b)
  {
    assert [e][1..] == [];
    assert EvalAll([], env) == Truth(true) && EvalAny([], env) == Truth(false);
  }

  lemma BothEvaluates(a: Fragment, b: Fragment, level: nat, env: Env, x: bool, y: bool)
    requires CONJUNCTION <= level <= DISJUNCTION && Eval(a.meant, env) == Truth(x) && Eval(b.meant, env) == Truth(y)
    ensures Eval(JoinOf([a, b], level).meant, env) == Truth(if level == CONJUNCTION then x && y else x || y)
  {
    var es := Meants([a, b]);
    assert es[1..] == [b.meant] && es[0] == a.meant;
    EvalOne(b.meant, env, y);
  }

  lemma PropertyPresence(key: string, c: Clause, n: nat, env: Env, e: Event)
    requires c.Presence? && env.columns == EventColumns(e)
    requires n < |env.params| && env.params[n] == Binding(Str(key), ChString)
    ensures Eval(WhereFragment(Property(key, c), n).meant, env) == Truth(c.set_ == (key in e.properties || key in e.numbers))
  {
    hide JoinOf, Parens, HasKey, SetFragment;
    var a, b := HasKey("properties", n), HasKey("properties_num", n);
    HasKeyEvaluates("properties", n, key, env, key in e.properties);
    HasKeyEvaluates("properties_num", n, key, env, key in e.numbers);
    BothEvaluates(a, b, DISJUNCTION, env, key in e.properties, key in e.numbers);
    ParensMean(JoinOf([a, b], DISJUNCTION));
    SetEvaluates(Parens(JoinOf([a, b], DISJUNCTION)), c.set_, env, key in e.properties || key in e.numbers);
  }

  lemma ParensMean(f: Fragment)
    ensures Parens(f).meant == f.meant
  {
  }

  lemma PropertyEvaluates(key: string, c: Clause, n: nat, now: int, env: Env, e: Event)
    requires Fits(c, TypeOf(Numeric(c)), env.lib) && env.columns == EventColumns(e)
    requires Placed(env.params, n, [Binding(Str(key), ChString)] + KeyedBindings(c, now))
    ensures Eval(WhereFragment(Property(key, c), n).meant, env) == Truth(WhereSat(Property(key, c), e, now, env.lib))
  {
    hide StringFragment, StringSat, ComparesTo, CompareFragment, Binds, JoinOf, SetFragment, HasKey;
    PlacedSplit(env.params, n, [Binding(Str(key), ChString)], KeyedBindings(c, now));
    PlacedFirst(env.params, n, [Binding(Str(key), ChString)]);
    if c.Presence? {
      PropertyPresence(key, c, n, env, e);
    } else if Numeric(c) {
      var v := Number(if key in e.numbers then e.numbers[key] else 0.0);
      LookupEvaluates("properties_num", n, key, env, v);
      ComparesEvaluates(Lookup("properties_num", n), c, n + 1, ChFloat64, env, v);
    } else {
      StringEvaluates("properties", c, n, key, now, env, if key in e.properties then e.properties[key] else "");
    }
  }

  /** A claim about one event compiles to an expression that is true of exactly those events. */
  lemma WhereEvaluates(w: Where, n: nat, now: int, env: Env, e: Event)
    requires ValidWhere(w) && FitsWhere(w, env.lib) && env.columns == EventColumns(e)
    requires Placed(env.params, n, WhereBindings(w, now))
    ensures Eval(WhereFragment(w, n).meant, env) == Truth(WhereSat(w, e, now, env.lib))
  {
    hide ColumnFragment, ColumnSat, ColumnBindings, KeyedBindings, Fits;
    match w
    case Attribute(column, c) => ColumnEvaluates(column, c, n, env, ColumnText(e, column));
    case Property(key, c) => PropertyEvaluates(key, c, n, now, env, e);
  }

  /** A string trait leaves the number map at 0, so a numeric comparison is guarded by the kind flag. */
  lemma NumericTraitEvaluates(key: string, c: Clause, n: nat, env: Env, p: Person)
    requires Comparing(c) && Numeric(c) && Fits(c, ChFloat64, env.lib) && env.columns == PersonColumns(p)
    requires n < |env.params| && env.params[n] == Binding(Str(key), ChString)
    requires Placed(env.params, n + 1, CompareBindings(c, ChFloat64))
    ensures Eval(TraitFragment(c, n).meant, env)
         == Truth(key in p.traits && p.traits[key].NumberTrait? && ComparesTo(c, Number(p.traits[key].r), ChFloat64, env.lib))
  {
    hide ComparesTo, CompareFragment, CompareBindings, Binds, JoinOf, Comparing2, Lookup, PersonColumns;
    var isNumber := key in p.traits && p.traits[key].NumberTrait?;
    var v := Number(TraitNumber(p, key));
    var guard := Comparing2(Lookup("t_has_num", n), Eq, NumberRef(1));
    var cmp := CompareFragment(Lookup("t_num", n), c, n + 1);
    KindFlagEvaluates(key, n, env, p);
    NumberMapReads(key, p);
    LookupEvaluates("t_num", n, key, env, v);
    ComparesEvaluates(Lookup("t_num", n), c, n + 1, ChFloat64, env, v);
    BothEvaluates(guard, cmp, CONJUNCTION, env, isNumber, ComparesTo(c, v, ChFloat64, env.lib));
    ParensMean(JoinOf([guard, cmp], CONJUNCTION));
  }

  lemma NumberMapReads(key: string, p: Person)
    ensures LookupValue(PersonColumns(p)("t_num"), Word(key)) == Number(TraitNumber(p, key))
  {
  }

  lemma KindFlagEvaluates(key: string, n: nat, env: Env, p: Person)
    requires env.columns == PersonColumns(p) && n < |env.params| && env.params[n] == Binding(Str(key), ChString)
    ensures Eval(Comparing2(Lookup("t_has_num", n), Eq, NumberRef(1)).meant, env)
         == Truth(key in p.traits && p.traits[key].NumberTrait?)
  {
    hide Lookup, PersonColumns;
    FlagMapReads(key, p);
    LookupEvaluates("t_has_num", n, key, env, Number(if key in p.traits && p.traits[key].NumberTrait? then 1.0 else 0.0));
  }

  lemma FlagMapReads(key: string, p: Person)
    ensures LookupValue(PersonColumns(p)("t_has_num"), Word(key))
         == Number(if key in p.traits && p.traits[key].NumberTrait? then 1.0 else 0.0)
  {
  }

  lemma TraitEvaluates(key: string, c: Clause, n: nat, now: int, env: Env, p: Person)
    requires Fits(c, TypeOf(Numeric(c)), env.lib) && env.columns == PersonColumns(p)
    requires Placed(env.params, n, [Binding(Str(key), ChString)] + KeyedBindings(c, now))
    ensures Eval(TraitFragment(c, n).meant, env) == Truth(TraitSat(key, c, p, now, env.lib))
  {
    PlacedSplit(env.params, n, [Binding(Str(key), ChString)], KeyedBindings(c, now));
    PlacedFirst(env.params, n, [Binding(Str(key), ChString)]);
    if c.Presence? {
      HasKeyEvaluates("t_has_num", n, key, env, key in p.traits);
      SetEvaluates(HasKey("t_has_num", n), c.set_, env, key in p.traits);
    } else if Numeric(c) {
      NumericTraitEvaluates(key, c, n, env, p);
    } else {
      StringEvaluates("t_str", c, n, key, now, env, TraitText(p, key));
    }
  }

  lemma LifecycleEvaluates(which: LifecycleField, c: Clause, n: nat, now: int, env: Env, p: Person)
    requires (Comparing(c) || c.Relative?) && Instants(c) && env.columns == PersonColumns(p)
    requires Placed(env.params, n, LifecycleBindings(c, now))
    ensures Eval(LifecycleFragment(which, c, n).meant, env) == Truth(LifecycleSat(which, c, p, now, env.lib))
  {
    var at := if which == FirstSeen then p.firstSeen else p.lastSeen;
    var lhs := ColumnRef(FieldName(which));
    assert Eval(lhs.meant, env) == Instant(at);
    if c.Relative? {
      RelativeEvaluates(lhs, c, false, n, now, env, Some(at));
    } else {
      ComparesEvaluates(lhs, c, n, ChDateTime, env, Instant(at));
    }
  }

  // ---- The tree -------------------------------------------------------------------------------------------

  /** What the LEFT JOIN leaves under each alias, coalesced, is that behaviour's total. */
  ghost predicate AggregatesAre(env: Env, aliases: Aliases, total: Behavior -> real) {
    forall b :: b in aliases ==>
      var v := env.aggregates(aliases[b]);
      (if v.Null? then Number(0.0) else v) == Number(total(b))
  }

  lemma BehaviorEvaluates(b: Behavior, aliases: Aliases, n: nat, env: Env, total: Behavior -> real)
    requires b in aliases && Comparing(b.clause) && Fits(b.clause, ChFloat64, env.lib) && AggregatesAre(env, aliases, total)
    requires Placed(env.params, n, CompareBindings(b.clause, ChFloat64))
    ensures Eval(BehaviorFragment(aliases[b], b.clause, n).meant, env)
         == Truth(ComparesTo(b.clause, Number(total(b)), ChFloat64, env.lib))
  {
    var alias := Fragment([Alias(aliases[b])], Aggregate(aliases[b]));
    var lhs := CallOf("coalesce", [alias, NumberRef(0)]);
    assert EvalEach(Meants([alias, NumberRef(0)]), env) == [env.aggregates(aliases[b]), Number(0.0)];
    assert Eval(lhs.meant, env) == Number(total(b));
    ComparesEvaluates(lhs, b.clause, n, ChFloat64, env, Number(total(b)));
  }

  /** A context field's column is one of the index's own, never a trait map or a lifecycle date. */
  lemma ContextColumnIsText(field: ContextField, latest: bool, p: Person)
    ensures PersonColumns(p)(ContextColumn(field, latest)) == Word(ContextText(p, field, latest))
  {
  }

  lemma ChainEvaluates(level: nat, es: seq<Expr>, env: Env)
    requires CONJUNCTION <= level <= DISJUNCTION && es != [] && Definite(Eval(es[0], env))
    ensures Eval(Chain(level, es), env) == if level == CONJUNCTION then EvalAll(es, env) else EvalAny(es, env)
  {
    if |es| == 1 { assert es[1..] == []; }
  }

  lemma LeafEvaluates(f: Filter, aliases: Aliases, n: nat, now: int, env: Env, p: Person, total: Behavior -> real)
    requires !f.Group? && !f.Negated? && Compilable(f, aliases) && FitsFilter(f, env.lib)
    requires env.columns == PersonColumns(p) && AggregatesAre(env, aliases, total)
    requires Placed(env.params, n, TreeBindings(f, now))
    ensures Eval(TreeFragment(f, aliases, now, n).meant, env) == Truth(Sat(f, p, total, now, env.lib))
  {
    if f.Trait? {
      TraitEvaluates(f.key, f.clause, n, now, env, p);
    } else if f.Context? {
      var column := ContextColumn(f.field, f.latest);
      ContextColumnIsText(f.field, f.latest, p);
      ColumnEvaluates(column, f.clause, n, env, ContextText(p, f.field, f.latest));
    } else if f.Lifecycle? {
      LifecycleEvaluates(f.which, f.clause, n, now, env, p);
    } else {
      BehaviorEvaluates(f.behavior, aliases, n, env, total);
    }
  }

  ghost predicate EverySat(children: seq<Filter>, p: Person, total: Behavior -> real, now: int, lib: Library)
    requires forall i :: 0 <= i < |children| ==> ValidFilter(children[i])
  {
    forall i :: 0 <= i < |children| ==> Sat(children[i], p, total, now, lib)
  }

  ghost predicate SomeSat(children: seq<Filter>, p: Person, total: Behavior -> real, now: int, lib: Library)
    requires forall i :: 0 <= i < |children| ==> ValidFilter(children[i])
  {
    exists i :: 0 <= i < |children| && Sat(children[i], p, total, now, lib)
  }

  lemma SatSplits(children: seq<Filter>, p: Person, total: Behavior -> real, now: int, lib: Library)
    requires children != [] && forall i :: 0 <= i < |children| ==> ValidFilter(children[i])
    ensures EverySat(children, p, total, now, lib)
        <==> Sat(children[0], p, total, now, lib) && EverySat(children[1..], p, total, now, lib)
    ensures SomeSat(children, p, total, now, lib)
        <==> Sat(children[0], p, total, now, lib) || SomeSat(children[1..], p, total, now, lib)
  {
    var rest := children[1..];
    if EverySat(rest, p, total, now, lib) && Sat(children[0], p, total, now, lib) {
      forall i | 0 <= i < |children| ensures Sat(children[i], p, total, now, lib) {
        if i > 0 { assert children[i] == rest[i - 1]; }
      }
    }
    if SomeSat(children, p, total, now, lib) {
      var i :| 0 <= i < |children| && Sat(children[i], p, total, now, lib);
      if i > 0 { assert rest[i - 1] == children[i]; }
    }
    if SomeSat(rest, p, total, now, lib) {
      var i :| 0 <= i < |rest| && Sat(rest[i], p, total, now, lib);
      assert children[i + 1] == rest[i];
    }
  }

  ghost predicate ValuesAre(es: seq<Expr>, env: Env, every: bool, some: bool) {
    (es != [] ==> Definite(Eval(es[0], env))) && EvalAll(es, env) == Truth(every) && EvalAny(es, env) == Truth(some)
  }

  lemma ListGrows(e: Expr, es: seq<Expr>, env: Env, b: bool, every: bool, some: bool)
    requires Eval(e, env) == Truth(b) && ValuesAre(es, env, every, some)
    ensures ValuesAre([e] + es, env, b && every, b || some)
  {
    assert ([e] + es)[1..] == es;
  }

  lemma GroupEvaluates(f: Filter, aliases: Aliases, n: nat, now: int, env: Env, p: Person, total: Behavior -> real)
    requires f.Group? && Compilable(f, aliases)
    requires ChildrenMean(f.children, aliases, n, now, env, p, total)
    ensures Eval(TreeFragment(f, aliases, now, n).meant, env) == Truth(Sat(f, p, total, now, env.lib))
  {
    ChainEvaluates(Level(f.conjunction), Meants(ChildFragments(f.children, aliases, now, n)), env);
    assert Sat(f, p, total, now, env.lib)
        == if f.conjunction then EverySat(f.children, p, total, now, env.lib) else SomeSat(f.children, p, total, now, env.lib);
  }

  lemma ChildMeants(children: seq<Filter>, aliases: Aliases, now: int, n: nat)
    requires children != [] && forall i :: 0 <= i < |children| ==> ValidFilter(children[i]) && Compilable(children[i], aliases)
    ensures Meants(ChildFragments(children, aliases, now, n))
         == [TreeFragment(children[0], aliases, now, n).meant]
            + Meants(ChildFragments(children[1..], aliases, now, n + |TreeBindings(children[0], now)|))
  {
  }

  lemma ChildrenGrow(children: seq<Filter>, one: Expr, more: seq<Expr>, now: int, env: Env, p: Person, total: Behavior -> real)
    requires children != [] && forall i :: 0 <= i < |children| ==> ValidFilter(children[i])
    requires Eval(one, env) == Truth(Sat(children[0], p, total, now, env.lib))
    requires ValuesAre(more, env, EverySat(children[1..], p, total, now, env.lib), SomeSat(children[1..], p, total, now, env.lib))
    ensures ValuesAre([one] + more, env, EverySat(children, p, total, now, env.lib), SomeSat(children, p, total, now, env.lib))
  {
    SatSplits(children, p, total, now, env.lib);
    ListGrows(one, more, env, Sat(children[0], p, total, now, env.lib),
              EverySat(children[1..], p, total, now, env.lib), SomeSat(children[1..], p, total, now, env.lib));
  }

  /** The compiled children, standing at `n`, evaluate to the children's meanings. */
  ghost predicate ChildrenMean(children: seq<Filter>, aliases: Aliases, n: nat, now: int, env: Env, p: Person, total: Behavior -> real)
    requires forall i :: 0 <= i < |children| ==> ValidFilter(children[i]) && Compilable(children[i], aliases)
  {
    ValuesAre(Meants(ChildFragments(children, aliases, now, n)), env,
              EverySat(children, p, total, now, env.lib), SomeSat(children, p, total, now, env.lib))
  }

  lemma NoChildrenMean(aliases: Aliases, n: nat, now: int, env: Env, p: Person, total: Behavior -> real)
    ensures ChildrenMean([], aliases, n, now, env, p, total)
  {
  }

  lemma OneMoreChild(children: seq<Filter>, aliases: Aliases, n: nat, now: int, env: Env, p: Person, total: Behavior -> real)
    requires children != []
    requires forall i :: 0 <= i < |children| ==> ValidFilter(children[i]) && Compilable(children[i], aliases)
    requires Eval(TreeFragment(children[0], aliases, now, n).meant, env) == Truth(Sat(children[0], p, total, now, env.lib))
    requires ChildrenMean(children[1..], aliases, n + |TreeBindings(children[0], now)|, now, env, p, total)
    ensures ChildrenMean(children, aliases, n, now, env, p, total)
  {
    hide Sat, TreeFragment, EverySat, SomeSat, ValuesAre;
    var first := TreeBindings(children[0], now);
    ChildMeants(children, aliases, now, n);
    ChildrenGrow(children, TreeFragment(children[0], aliases, now, n).meant,
                 Meants(ChildFragments(children[1..], aliases, now, n + |first|)), now, env, p, total);
  }

  /** Wherever its parameters stand, the compiled tree evaluates to the tree's own meaning. */
  ghost predicate Faithful(f: Filter, aliases: Aliases, now: int, env: Env, p: Person, total: Behavior -> real)
    requires Compilable(f, aliases)
  {
    forall n: nat :: Placed(env.params, n, TreeBindings(f, now)) ==>
      Eval(TreeFragment(f, aliases, now, n).meant, env) == Truth(Sat(f, p, total, now, env.lib))
  }

  lemma {:induction false} ChildrenEvaluate(children: seq<Filter>, aliases: Aliases, n: nat, now: int, env: Env, p: Person,
                                            total: Behavior -> real)
    requires forall i :: 0 <= i < |children| ==> Compilable(children[i], aliases) && ValidFilter(children[i])
    requires forall i :: 0 <= i < |children| ==> Faithful(children[i], aliases, now, env, p, total)
    requires Placed(env.params, n, ChildBindings(children, now))
    ensures ChildrenMean(children, aliases, n, now, env, p, total)
    decreases |children|
  {
    hide Sat, TreeFragment, TreeBindings, ChildrenMean, Placed;
    if children == [] {
      NoChildrenMean(aliases, n, now, env, p, total);
    } else {
      PlacedSplit(env.params, n, TreeBindings(children[0], now), ChildBindings(children[1..], now));
      assert Faithful(children[0], aliases, now, env, p, total);
      ChildrenEvaluate(children[1..], aliases, n + |TreeBindings(children[0], now)|, now, env, p, total);
      OneMoreChild(children, aliases, n, now, env, p, total);
    }
  }

  lemma NegatedEvaluates(f: Filter, aliases: Aliases, n: nat, now: int, env: Env, p: Person, total: Behavior -> real)
    requires f.Negated? && Compilable(f, aliases) && Faithful(f.child, aliases, now, env, p, total)
    requires Placed(env.params, n, TreeBindings(f, now))
    ensures Eval(TreeFragment(f, aliases, now, n).meant, env) == Truth(Sat(f, p, total, now, env.lib))
  {
    NotEvaluates(Parens(TreeFragment(f.child, aliases, now, n)), env, Sat(f.child, p, total, now, env.lib));
  }

  /**
    The compiled tree evaluates to the truth value of the tree's own meaning, for every tree and
    every person: it is never NULL, so NOT is an exact complement at every depth.
   */
  lemma {:induction false} TreeEvaluates(f: Filter, aliases: Aliases, now: int, env: Env, p: Person, total: Behavior -> real)
    requires Compilable(f, aliases) && FitsFilter(f, env.lib)
    requires env.columns == PersonColumns(p) && AggregatesAre(env, aliases, total)
    ensures Faithful(f, aliases, now, env, p, total)
  {
    hide Sat, TreeFragment, AggregatesAre;
    if f.Group? {
      forall i | 0 <= i < |f.children| ensures Faithful(f.children[i], aliases, now, env, p, total) {
        TreeEvaluates(f.children[i], aliases, now, env, p, total);
      }
    } else if f.Negated? {
      TreeEvaluates(f.child, aliases, now, env, p, total);
    }
    forall n: nat | Placed(env.params, n, TreeBindings(f, now))
      ensures Eval(TreeFragment(f, aliases, now, n).meant, env) == Truth(Sat(f, p, total, now, env.lib))
    {
      if f.Group? {
        ChildrenEvaluate(f.children, aliases, n, now, env, p, total);
        GroupEvaluates(f, aliases, n, now, env, p, total);
      } else if f.Negated? {
        NegatedEvaluates(f, aliases, n, now, env, p, total);
      } else {
        LeafEvaluates(f, aliases, n, now, env, p, total);
      }
    }
  }

  // ---- Where the schema lets the meaning slip ------------------------------------------------------------

  /** `plan = null`: legal in the schema. */
  const NULL_BOUND: Filter := Trait("plan", Compares(Eq, Nil))

  lemma NullBoundCompiles()
    ensures Compilable(NULL_BOUND, map[]) && Compilable(Negated(NULL_BOUND), map[])
    ensures TreeFragment(NULL_BOUND, map[], 0, 0) == Comparing2(Lookup("t_str", 0), Eq, ParamRef(1))
    ensures TreeFragment(Negated(NULL_BOUND), map[], 0, 0) == NotOf(Parens(Comparing2(Lookup("t_str", 0), Eq, ParamRef(1))))
  {
  }

  /** The value of the compiled tree when its parameters are all there are. */
  function CompiledValue(f: Filter, env: Env): Value {
    if Compilable(f, map[]) then Eval(TreeFragment(f, map[], 0, 0).meant, env) else Error
  }

  /** Null under a text parameter, as the database reads it. */
  function NullRead(lib: Library): Value { BindValue(Binding(Nil, ChString), lib) }

  lemma NullBoundValue(lhs: Fragment, v: Value, env: Env)
    requires Eval(lhs.meant, env) == v && v.Word? && |env.params| == 2 && env.params[1] == Binding(Nil, ChString)
    ensures var cmp := Comparing2(lhs, Eq, ParamRef(1));
            && Eval(cmp.meant, env) == CompareValues(Eq, v, NullRead(env.lib), env.lib)
            && Eval(NotOf(Parens(cmp)).meant, env) == Not3(CompareValues(Eq, v, NullRead(env.lib), env.lib))
  {
  }

  lemma NullBoundValues(p: Person, env: Env)
    requires env.columns == PersonColumns(p) && env.params == [Binding(Str("plan"), ChString), Binding(Nil, ChString)]
    ensures CompiledValue(NULL_BOUND, env) == CompareValues(Eq, Word(TraitText(p, "plan")), NullRead(env.lib), env.lib)
    ensures CompiledValue(Negated(NULL_BOUND), env) == Not3(CompareValues(Eq, Word(TraitText(p, "plan")), NullRead(env.lib), env.lib))
  {
    NullBoundCompiles();
    LookupEvaluates("t_str", 0, "plan", env, Word(TraitText(p, "plan")));
    hide TreeFragment, Lookup, Eval, Comparing2, NotOf, Parens, BindValue, CompareValues, Not3;
    NullBoundValue(Lookup("t_str", 0), Word(TraitText(p, "plan")), env);
  }

  /**
    What a null bound comes to is what the database makes of null under a type that is not nullable.
    Read as NULL, the predicate and its negation are both never true, so together they lose everyone;
    read as text, they split people as any other text would; and otherwise the query fails.
   */
  lemma NullBoundLosesEveryone(p: Person, env: Env)
    requires env.columns == PersonColumns(p) && env.params == [Binding(Str("plan"), ChString), Binding(Nil, ChString)]
    ensures CompiledValue(NULL_BOUND, env) == Null <==> NullRead(env.lib).Null?
    ensures CompiledValue(Negated(NULL_BOUND), env) == Null <==> NullRead(env.lib).Null?
    ensures Definite(CompiledValue(NULL_BOUND, env)) && Definite(CompiledValue(Negated(NULL_BOUND), env)) <==> NullRead(env.lib).Word?
    ensures CompiledValue(NULL_BOUND, env) == Error <==> !NullRead(env.lib).Null? && !NullRead(env.lib).Word?
  {
    hide CompiledValue, NullRead, PersonColumns;
    NullBoundValues(p, env);
  }
}
