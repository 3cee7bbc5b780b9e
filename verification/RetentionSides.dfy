/**
  The retention query's two WHERE clauses, from their text to what they mean
  (packages/core/src/retention/compile.ts:135-166, 207-222).
 */
module RetentionSides {
  import opened Basics
  import opened BehaviourMeaning
  import opened BehaviourPasses
  import opened Events
  import opened Filters
  import opened Predicates
  import opened PredicatesRead
  import opened SegmentMeaning
  import opened SqlEval
  import opened SqlGrammar
  import R = Retention

  /** A side as it is written: an event name, or `*` for any, and predicates on the event. */
  datatype WrittenSide = WrittenSide(event: Option<string>, where: seq<Where>)

  predicate ValidSide(s: WrittenSide) { forall i :: 0 <= i < |s.where| ==> ValidWhere(s.where[i]) }

  /** The side as the grid sees it: claims about one event. */
  ghost function SideOf(s: WrittenSide, now: int, lib: Library): R.Side
    requires ValidSide(s)
  {
    R.Side(s.event, seq(|s.where|, i requires 0 <= i < |s.where| => (e: Event) => ValidWhere(s.where[i]) && WhereSat(s.where[i], e, now, lib)))
  }

  function NameParts(s: WrittenSide, event: nat): seq<Fragment> {
    if s.event.None? then [] else [Comparing2(ColumnRef("event_name"), Eq, ParamRef(event))]
  }

  function SideParts(s: WrittenSide, event: nat, n: nat, now: int): seq<Fragment>
    requires ValidSide(s)
  {
    NameParts(s, event) + WhereFragments(s.where, n, now)
  }

  /** The parts joined by AND, or `1` when there are none. */
  function SideFragment(s: WrittenSide, event: nat, n: nat, now: int): Fragment
    requires ValidSide(s)
  {
    var parts := SideParts(s, event, n, now);
    if parts == [] then NumberRef(1) else JoinOf(parts, CONJUNCTION)
  }

  /** The name, when there is one, is bound where the clause reads it. */
  ghost predicate NameBound(s: WrittenSide, event: nat, params: seq<Binding>) {
    s.event.Some? ==> event < |params| && params[event] == Binding(Str(s.event.value), ChString)
  }

  lemma NameSays(s: WrittenSide, event: nat, env: Env, e: Event)
    requires env.columns == EventColumns(e) && NameBound(s, event, env.params)
    ensures PartsSay(NameParts(s, event), env, s.event.None? || e.name == s.event.value)
  {
    if s.event.Some? { OnePartSays(Comparing2(ColumnRef("event_name"), Eq, ParamRef(event)), env, e.name == s.event.value); }
  }

  lemma SidePartsSay(s: WrittenSide, event: nat, n: nat, now: int, env: Env, e: Event)
    requires ValidSide(s) && FitsWheres(s.where, env.lib) && env.columns == EventColumns(e) && NameBound(s, event, env.params)
    requires Placed(env.params, n, WheresBindings(s.where, now))
    ensures PartsSay(SideParts(s, event, n, now), env, R.Matches(SideOf(s, now, env.lib), e))
  {
    hide PartsSay, WhereFragments, Placed, WheresBindings, WhereSat, FitsWheres, NameParts;
    NameSays(s, event, env, e);
    WheresSay(s.where, n, now, env, e);
    PartsConcat(NameParts(s, event), WhereFragments(s.where, n, now), env, s.event.None? || e.name == s.event.value,
                WheresSat(s.where, e, now, env.lib));
    SameSide(s, now, env.lib, e);
  }

  lemma SameSide(s: WrittenSide, now: int, lib: Library, e: Event)
    requires ValidSide(s)
    ensures R.Matches(SideOf(s, now, lib), e) <==> (s.event.None? || e.name == s.event.value) && WheresSat(s.where, e, now, lib)
  {
    hide WhereSat;
    var side := SideOf(s, now, lib);
    assert forall i :: 0 <= i < |s.where| ==> (side.where[i](e) <==> WhereSat(s.where[i], e, now, lib));
  }

  /** Whatever else is bound, the clause is true of exactly the side's events, and never NULL, under any database that reads its bounds. */
  ghost predicate SideMeans(f: Fragment, params: seq<Binding>, s: WrittenSide, now: int)
    requires ValidSide(s)
  {
    forall env: Env, e: Event :: env.columns == EventColumns(e) && params <= env.params && FitsWheres(s.where, env.lib) ==>
      Eval(f.meant, env) == Truth(R.Matches(SideOf(s, now, env.lib), e))
  }

  lemma SideEvaluates(s: WrittenSide, event: nat, n: nat, now: int, params: seq<Binding>)
    requires ValidSide(s) && NameBound(s, event, params) && Placed(params, n, WheresBindings(s.where, now))
    ensures SideMeans(SideFragment(s, event, n, now), params, s, now)
  {
    hide SideParts, SideOf, R.Matches, WheresBindings, FitsWheres, Eval;
    var parts := SideParts(s, event, n, now);
    forall env: Env, e: Event | env.columns == EventColumns(e) && params <= env.params && FitsWheres(s.where, env.lib)
      ensures Eval(SideFragment(s, event, n, now).meant, env) == Truth(R.Matches(SideOf(s, now, env.lib), e))
    {
      var b := R.Matches(SideOf(s, now, env.lib), e);
      SidePartsSay(s, event, n, now, env, e);
      if parts == [] { OneIsTrue(env); } else { PartsJoin(parts, env, b); }
    }
  }

  lemma OneIsTrue(env: Env)
    ensures Eval(NumberRef(1).meant, env) == Truth(true)
  {
  }

  lemma SideReads(s: WrittenSide, event: nat, n: nat, now: int)
    requires ValidSide(s)
    ensures AllRead(SideParts(s, event, n, now)) && PredicatesRead.Reading(SideFragment(s, event, n, now), CONJUNCTION)
  {
    WheresRead(s.where, n, now);
    AtomsRead("event_name", event, 1);
    ComparisonReads(ColumnRef("event_name"), Eq, ParamRef(event));
    if s.event.Some? { AllReadOne(NameParts(s, event)[0]); }
    AllReadConcat(NameParts(s, event), WhereFragments(s.where, n, now));
    var parts := SideParts(s, event, n, now);
    if parts == [] { Loosen(NumberRef(1), PRIMARY, CONJUNCTION); } else { JoinReads(parts, CONJUNCTION); }
  }

  lemma SideTexts(s: WrittenSide, event: nat, n: nat, now: int)
    requires ValidSide(s)
    ensures Texts(SideParts(s, event, n, now))
         == (if s.event.None? then [] else [[Name("event_name")] + [Op(Eq)] + [Param(event)]]) + Texts(WhereFragments(s.where, n, now))
  {
    hide WhereFragments;
    TextsConcat(NameParts(s, event), WhereFragments(s.where, n, now));
  }

  /** The `activity` clause as it is built: the name unless any event counts, then each predicate. */
  method Clause(s: WrittenSide, event: nat, now: int, params: Params) returns (text: seq<Token>, ghost f: Fragment)
    requires ValidSide(s) && NameBound(s, event, params.values)
    modifies params
    ensures params.values == old(params.values) + WheresBindings(s.where, now)
    ensures text == f.text && PredicatesRead.Reading(f, CONJUNCTION)
    ensures SideMeans(f, params.values, s, now)
  {
    hide WhereFragments, WheresBindings, SideMeans, PredicatesRead.Reading, AllRead;
    ghost var n := |params.values|;
    var wheres := PushWheres(s.where, now, params);
    var parts := (if s.event.None? then [] else [[Name("event_name")] + [Op(Eq)] + [Param(event)]]) + wheres;
    f := SideFragment(s, event, n, now);
    SideTexts(s, event, n, now);
    SideReads(s, event, n, now);
    SideEvaluates(s, event, n, now, params.values);
    text := if parts == [] then [Numeral(1)] else Joined(parts, And);
  }
}
