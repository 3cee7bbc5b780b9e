/**
  A funnel step's condition, from its SQL text to what it means
  (packages/core/src/funnels/compile.ts:37-49, 148-155, 220-226).
 */
module FunnelSteps {
  import opened Basics
  import opened BehaviourMeaning
  import opened BehaviourPasses
  import opened Events
  import opened Filters
  import opened Predicates
  import opened PredicatesRead
  import opened SegmentMeaning
  import opened SqlEval
  import opened SqlGrammar
  import F = FunnelAst
  import W = WindowFunnel

  /** A step as it is written: its audience, if any, is a subquery compiled beforehand. */
  datatype WrittenStep = WrittenStep(event: string, where: seq<Where>, audience: Option<nat>, optional: bool)

  predicate ValidStep(s: WrittenStep) { forall i :: 0 <= i < |s.where| ==> ValidWhere(s.where[i]) }

  /** The step as the chains see it: claims about one event, and the people its audience selects. */
  ghost function StepOf(s: WrittenStep, now: int, lib: Library, audiences: nat -> set<string>): F.Step
    requires ValidStep(s)
  {
    F.Step(s.event,
           seq(|s.where|, i requires 0 <= i < |s.where| => (e: Event) => ValidWhere(s.where[i]) && WhereSat(s.where[i], e, now, lib)),
           if s.audience.None? then None else Some(audiences(s.audience.value)), s.optional)
  }

  /**
    Whatever else is bound later, the text is true of exactly the events that meet the condition, and
    never NULL, under any database that can read the step's bounds.
   */
  ghost predicate Means(f: Fragment, params: seq<Binding>, s: WrittenStep, until: Option<int>, now: int)
    requires ValidStep(s)
  {
    forall env: Env, e: Event :: env.columns == EventColumns(e) && params <= env.params && FitsWheres(s.where, env.lib) ==>
      Eval(f.meant, env) == Truth(W.Meets(W.Condition(StepOf(s, now, env.lib, env.subqueries), until), e))
  }

  // ---- Event names ------------------------------------------------------------------------------------

  /** `eventParams`: each distinct event name is bound once, wherever it is used. */
  class EventParams {
    var at: map<string, nat>

    constructor ()
      ensures at == map[]
    {
      at := map[];
    }
  }

  ghost predicate NamesBound(at: map<string, nat>, params: seq<Binding>) {
    forall event :: event in at ==> at[event] < |params| && params[at[event]] == Binding(Str(event), ChString)
  }

  method EventPlaceholder(event: string, names: EventParams, params: Params) returns (n: nat)
    requires NamesBound(names.at, params.values)
    modifies names, params
    ensures NamesBound(names.at, params.values) && old(params.values) <= params.values
    ensures event in names.at && names.at[event] == n
    ensures forall other :: other in old(names.at) ==> other in names.at && names.at[other] == old(names.at)[other]
    ensures params.values == old(params.values) + if event in old(names.at) then [] else [Binding(Str(event), ChString)]
  {
    if event in names.at {
      n := names.at[event];
    } else {
      n := |params.values|;
      var _ := params.Add(Str(event), ChString);
      names.at := names.at[event := n];
    }
  }

  // ---- One step ------------------------------------------------------------------------------------------

  function Gate(id: nat): Fragment { Fragment([Name("resolved_person")] + [In, Subquery(id)], Member(Column("resolved_person"), id)) }

  lemma StepPartsSay(s: WrittenStep, event: nat, n: nat, now: int, env: Env, e: Event)
    requires ValidStep(s) && FitsWheres(s.where, env.lib) && env.columns == EventColumns(e)
    requires event < |env.params| && env.params[event] == Binding(Str(s.event), ChString)
    requires Placed(env.params, n, WheresBindings(s.where, now))
    ensures PartsSay(StepParts(event, s.where, s.audience, n, now), env,
                     e.name == s.event && WheresSat(s.where, e, now, env.lib)
                     && (s.audience.Some? ==> e.person in env.subqueries(s.audience.value)))
  {
    hide PartsSay, WheresSat, WhereFragments, Placed, WheresBindings;
    var name := Comparing2(ColumnRef("event_name"), Eq, ParamRef(event));
    var wheres := WhereFragments(s.where, n, now);
    WheresSay(s.where, n, now, env, e);
    OnePartSays(name, env, e.name == s.event);
    PartsConcat([name], wheres, env, e.name == s.event, WheresSat(s.where, e, now, env.lib));
    if s.audience.Some? {
      var inside := e.person in env.subqueries(s.audience.value);
      OnePartSays(Gate(s.audience.value), env, inside);
      PartsConcat([name] + wheres, [Gate(s.audience.value)], env, e.name == s.event && WheresSat(s.where, e, now, env.lib), inside);
    } else {
      assert [name] + wheres + [] == [name] + wheres;
    }
  }

  lemma StepEvaluates(s: WrittenStep, event: nat, n: nat, now: int, env: Env, e: Event)
    requires ValidStep(s) && FitsWheres(s.where, env.lib) && env.columns == EventColumns(e)
    requires event < |env.params| && env.params[event] == Binding(Str(s.event), ChString)
    requires Placed(env.params, n, WheresBindings(s.where, now))
    ensures Eval(StepFragment(event, s.where, s.audience, n, now).meant, env)
         == Truth(F.Matches(StepOf(s, now, env.lib, env.subqueries), e))
  {
    hide StepParts, WhereSat, WheresSat, PartsSay, F.Matches, StepOf, Placed, WheresBindings, FitsWheres, Eval;
    StepPartsSay(s, event, n, now, env, e);
    var parts := StepParts(event, s.where, s.audience, n, now);
    var b := e.name == s.event && WheresSat(s.where, e, now, env.lib) && (s.audience.Some? ==> e.person in env.subqueries(s.audience.value));
    assert |parts| > 0;
    PartsJoin(parts, env, b);
    SameMatch(s, now, env, e);
  }

  lemma SameMatch(s: WrittenStep, now: int, env: Env, e: Event)
    requires ValidStep(s)
    ensures F.Matches(StepOf(s, now, env.lib, env.subqueries), e)
        <==> e.name == s.event && WheresSat(s.where, e, now, env.lib) && (s.audience.Some? ==> e.person in env.subqueries(s.audience.value))
  {
    hide WhereSat;
    var step := StepOf(s, now, env.lib, env.subqueries);
    assert forall i :: 0 <= i < |s.where| ==> (step.where[i](e) <==> WhereSat(s.where[i], e, now, env.lib));
  }

  lemma StepMeans(s: WrittenStep, event: nat, n: nat, now: int, params: seq<Binding>)
    requires ValidStep(s) && event < |params| && params[event] == Binding(Str(s.event), ChString)
    requires Placed(params, n, WheresBindings(s.where, now))
    ensures Means(StepFragment(event, s.where, s.audience, n, now), params, s, None, now)
  {
    hide StepFragment, F.Matches, StepOf, WheresBindings;
    forall env: Env, e: Event | env.columns == EventColumns(e) && params <= env.params && FitsWheres(s.where, env.lib)
      ensures Eval(StepFragment(event, s.where, s.audience, n, now).meant, env)
           == Truth(W.Meets(W.Condition(StepOf(s, now, env.lib, env.subqueries), None), e))
    {
      StepEvaluates(s, event, n, now, env, e);
    }
  }

  /** The entry bound: step 1 counts only before the end of the range. */
  lemma EntryMeans(f: Fragment, until: nat, at: int, s: WrittenStep, now: int, params: seq<Binding>)
    requires ValidStep(s) && until < |params| && params[until] == Binding(Moment(at), ChDateTime)
    requires Means(f, params, s, None, now)
    ensures Means(EntryFragment(f, until), params, s, Some(at), now)
  {
    hide F.Matches, StepOf, EntryFragment, Eval;
    forall env: Env, e: Event | env.columns == EventColumns(e) && params <= env.params && FitsWheres(s.where, env.lib)
      ensures Eval(EntryFragment(f, until).meant, env)
           == Truth(W.Meets(W.Condition(StepOf(s, now, env.lib, env.subqueries), Some(at)), e))
    {
      assert env.params[until] == params[until];
      EntryEvaluates(f, until, at, env, e, F.Matches(StepOf(s, now, env.lib, env.subqueries), e));
    }
  }

  lemma EntryEvaluates(f: Fragment, until: nat, at: int, env: Env, e: Event, matches: bool)
    requires env.columns == EventColumns(e) && until < |env.params| && env.params[until] == Binding(Moment(at), ChDateTime)
    requires Eval(f.meant, env) == Truth(matches)
    ensures Eval(EntryFragment(f, until).meant, env) == Truth(matches && e.at < at)
  {
    var bound := Comparing2(ColumnRef("timestamp"), Lt, ParamRef(until));
    assert Eval(bound.meant, env) == Truth(e.at < at);
    BothEvaluates(f, bound, CONJUNCTION, env, matches, e.at < at);
  }

  lemma EntryTexts(f: Fragment, until: nat)
    ensures Texts([EntryFragment(f, until)]) == [EntryText(f.text, until)]
  {
    var bound := Comparing2(ColumnRef("timestamp"), Lt, ParamRef(until));
    assert Texts([f, bound]) == [f.text, bound.text];
  }

  lemma MeansLater(f: Fragment, params: seq<Binding>, more: seq<Binding>, s: WrittenStep, until: Option<int>, now: int)
    requires ValidStep(s) && Means(f, params, s, until, now) && params <= more
    ensures Means(f, more, s, until, now)
  {
  }

  /** One step's condition as it is built: the name, each predicate, the gate; parenthesised when there are several. */
  method StepCondition(s: WrittenStep, now: int, names: EventParams, params: Params) returns (text: seq<Token>, ghost f: Fragment)
    requires ValidStep(s) && NamesBound(names.at, params.values)
    modifies names, params
    ensures NamesBound(names.at, params.values) && old(params.values) <= params.values
    ensures text == f.text && PredicatesRead.Reading(f, NEGATION)
    ensures Means(f, params.values, s, None, now)
  {
    hide WhereFragments, WheresBindings, Means, PredicatesRead.Reading;
    var event := EventPlaceholder(s.event, names, params);
    ghost var n := |params.values|;
    var wheres := PushWheres(s.where, now, params);
    var parts := [[Name("event_name")] + [Op(Eq)] + [Param(event)]] + wheres;
    if s.audience.Some? { parts := parts + [Gate(s.audience.value).text]; }
    f := StepFragment(event, s.where, s.audience, n, now);
    StepTexts(s, event, n, now);
    assert parts == Texts(StepParts(event, s.where, s.audience, n, now));
    text := if |parts| == 1 then parts[0] else [Open] + Joined(parts, And) + [Close];
    StepTextIsTheStep(event, s.where, s.audience, n, 0, now);
    StepMeans(s, event, n, now, params.values);
  }

  lemma StepTexts(s: WrittenStep, event: nat, n: nat, now: int)
    requires ValidStep(s)
    ensures Texts(StepParts(event, s.where, s.audience, n, now))
         == [[Name("event_name")] + [Op(Eq)] + [Param(event)]] + Texts(WhereFragments(s.where, n, now))
            + if s.audience.None? then [] else [Gate(s.audience.value).text]
  {
    hide WhereFragments;
    var name := Comparing2(ColumnRef("event_name"), Eq, ParamRef(event));
    var wheres := WhereFragments(s.where, n, now);
    TextsConcat([name], wheres);
    if s.audience.Some? {
      TextsConcat([name] + wheres, [Gate(s.audience.value)]);
    } else {
      assert [name] + wheres + [] == [name] + wheres;
    }
  }

  // ---- Every step ------------------------------------------------------------------------------------------

  function EntryBound(i: nat, at: int): Option<int> { if i == 0 then Some(at) else None }

  /**
    The conditions every chain is built from. Each one's text is closed, and on every event it is the
    truth of that step's own condition, the first carrying the entry bound: what `windowFunnel` is
    handed is what the step says.
   */
  method Conditions(steps: seq<WrittenStep>, until: nat, at: int, now: int, params: Params)
    returns (texts: seq<seq<Token>>, ghost fs: seq<Fragment>, names: EventParams)
    requires forall i :: 0 <= i < |steps| ==> ValidStep(steps[i])
    requires until < |params.values| && params.values[until] == Binding(Moment(at), ChDateTime)
    modifies params
    ensures old(params.values) <= params.values && NamesBound(names.at, params.values)
    ensures |texts| == |fs| == |steps| && texts == Texts(fs)
    ensures forall i :: 0 <= i < |steps| ==> PredicatesRead.Reading(fs[i], NEGATION)
    ensures forall i :: 0 <= i < |steps| ==> Means(fs[i], params.values, steps[i], EntryBound(i, at), now)
  {
    hide Means, PredicatesRead.Reading;
    texts, fs := [], [];
    names := new EventParams();
    for i := 0 to |steps|
      invariant fresh(names) && old(params.values) <= params.values && NamesBound(names.at, params.values)
      invariant |texts| == |fs| == i && texts == Texts(fs)
      invariant forall j :: 0 <= j < i ==> PredicatesRead.Reading(fs[j], NEGATION)
      invariant forall j :: 0 <= j < i ==> Means(fs[j], params.values, steps[j], EntryBound(j, at), now)
    {
      ghost var before := params.values;
      var text, f := StepCondition(steps[i], now, names, params);
      forall j | 0 <= j < i ensures Means(fs[j], params.values, steps[j], EntryBound(j, at), now) {
        MeansLater(fs[j], before, params.values, steps[j], EntryBound(j, at), now);
      }
      if i == 0 {
        EntryReads(f, until);
        EntryTexts(f, until);
        EntryMeans(f, until, at, steps[0], now, params.values);
        texts, fs := [EntryText(text, until)], [EntryFragment(f, until)];
      } else {
        TextsConcat(fs, [f]);
        texts, fs := texts + [text], fs + [f];
      }
    }
  }

  function EntryText(text: seq<Token>, until: nat): seq<Token> {
    [Open] + Joined([text, [Name("timestamp")] + [Op(Lt)] + [Param(until)]], And) + [Close]
  }
}
