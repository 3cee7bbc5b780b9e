/**
  One pass over `events` for every behavioural node of a tree: a scan bounded by the widest window,
  and one conditional aggregate per node (packages/core/src/segments/behaviour.ts).

  What it binds, in order: the project; the scan bound when there is one; then for each behaviour its
  event name, window start, window end and predicates, and the property it aggregates; and last the
  project again, for suppression. The meaning of what is emitted is in BehaviourMeaning.
 */
module BehaviourPasses {
  import opened Basics
  import opened Filters
  import opened Predicates
  import opened PredicatesRead
  import opened SqlGrammar

  predicate ValidBehavior(b: Behavior) { Comparing(b.clause) && forall i :: 0 <= i < |b.where| ==> ValidWhere(b.where[i]) }

  predicate ValidBehaviors(bs: seq<Behavior>) { forall i :: 0 <= i < |bs| ==> ValidBehavior(bs[i]) }

  /** The earliest instant a window needs; none for `ever`, which is no lower bound at all. */
  function WindowStart(w: Window, now: int): Option<int> {
    match w
    case Last(span) => Some(now - SpanMs(span))
    case Absolute(from, _) => Some(from)
    case Ever => None
  }

  function WindowEnd(w: Window): Option<int> { if w.Absolute? then Some(w.until) else None }

  // ---- One behaviour's condition -------------------------------------------------------------------

  function EventBindings(b: Behavior): seq<Binding> {
    if b.event.None? then [] else [Binding(Str(b.event.value), ChString)]
  }

  function EventParts(b: Behavior, n: nat): seq<Fragment> {
    if b.event.None? then [] else [Comparing2(ColumnRef("event_name"), Eq, ParamRef(n))]
  }

  function InstantBindings(at: Option<int>): seq<Binding> {
    if at.None? then [] else [Binding(Moment(at.value), ChDateTime)]
  }

  function InstantParts(at: Option<int>, op: Comparison, n: nat): seq<Fragment> {
    if at.None? then [] else [Comparing2(ColumnRef("timestamp"), op, ParamRef(n))]
  }

  function WheresBindings(wheres: seq<Where>, now: int): seq<Binding>
    requires forall i :: 0 <= i < |wheres| ==> ValidWhere(wheres[i])
  {
    if wheres == [] then [] else WhereBindings(wheres[0], now) + WheresBindings(wheres[1..], now)
  }

  function ConditionBindings(b: Behavior, now: int): seq<Binding>
    requires ValidBehavior(b)
  {
    EventBindings(b) + (InstantBindings(WindowStart(b.window, now))
                        + (InstantBindings(WindowEnd(b.window)) + WheresBindings(b.where, now)))
  }

  function FromAt(b: Behavior, n: nat): nat { n + |EventBindings(b)| }

  function UntilAt(b: Behavior, now: int, n: nat): nat { FromAt(b, n) + |InstantBindings(WindowStart(b.window, now))| }

  function WheresAt(b: Behavior, now: int, n: nat): nat { UntilAt(b, now, n) + |InstantBindings(WindowEnd(b.window))| }

  function FromParts(b: Behavior, now: int, n: nat): seq<Fragment> { InstantParts(WindowStart(b.window, now), Ge, FromAt(b, n)) }

  function UntilParts(b: Behavior, now: int, n: nat): seq<Fragment> { InstantParts(WindowEnd(b.window), Le, UntilAt(b, now, n)) }

  function ConditionParts(b: Behavior, now: int, n: nat): seq<Fragment>
    requires ValidBehavior(b)
  {
    EventParts(b, n) + (FromParts(b, now, n) + (UntilParts(b, now, n) + WhereFragments(b.where, WheresAt(b, now, n), now)))
  }

  /** The parts joined by AND, or `1` when there are none: any event ever. */
  function ConditionFragment(b: Behavior, now: int, n: nat): Fragment
    requires ValidBehavior(b)
  {
    var parts := ConditionParts(b, now, n);
    if parts == [] then NumberRef(1) else JoinOf(parts, CONJUNCTION)
  }

  function AggregateName(kind: AggregateKind): string {
    match kind
    case Count => "countIf"
    case Sum => "sumIf"
    case Minimum => "minIf"
    case Maximum => "maxIf"
    case DistinctValues => "uniqExactIf"
  }

  function Bag(kind: AggregateKind): string { if kind.DistinctValues? then "properties" else "properties_num" }

  /** The arguments of the aggregate: every one but a count reads a property. */
  function AggregateArgs(kind: AggregateKind, key: nat, cond: Fragment): seq<Fragment> {
    if kind.Count? then [cond] else [Lookup(Bag(kind), key), cond]
  }

  /** The aggregate over the rows the condition keeps. */
  function AggregateFragment(b: Behavior, now: int, n: nat): Fragment
    requires ValidBehavior(b)
  {
    CallOf(AggregateName(b.aggregate), AggregateArgs(b.aggregate, n + |ConditionBindings(b, now)|, ConditionFragment(b, now, n)))
  }

  function KeyBindings(b: Behavior): seq<Binding> {
    if b.aggregate.Count? then [] else [Binding(Str(b.property), ChString)]
  }

  function AggregateBindings(b: Behavior, now: int): seq<Binding>
    requires ValidBehavior(b)
  {
    ConditionBindings(b, now) + KeyBindings(b)
  }

  method PushInstant(at: Option<int>, op: Comparison, params: Params) returns (parts: seq<seq<Token>>)
    modifies params
    ensures parts == Texts(InstantParts(at, op, |old(params.values)|))
    ensures params.values == old(params.values) + InstantBindings(at)
  {
    parts := [];
    if at.Some? {
      var placeholder := params.Add(Moment(at.value), ChDateTime);
      parts := [[Name("timestamp")] + [Op(op)] + [placeholder]];
    }
  }

  method PushWheres(wheres: seq<Where>, now: int, params: Params) returns (parts: seq<seq<Token>>)
    requires forall i :: 0 <= i < |wheres| ==> ValidWhere(wheres[i])
    modifies params
    ensures parts == Texts(WhereFragments(wheres, |old(params.values)|, now))
    ensures params.values == old(params.values) + WheresBindings(wheres, now)
  {
    parts := [];
    ghost var before := params.values;
    for i := 0 to |wheres|
      invariant WherePushed(wheres, i, before, params.values, parts, now)
    {
      var part := WhereFragment(wheres[i], |params.values|).text;
      WherePushes(wheres, i, before, params.values, parts, now);
      params.AddAll(WhereBindings(wheres[i], now));
      parts := parts + [part];
    }
  }

  /** What remains to be pushed completes what has been. */
  ghost predicate WherePushed(wheres: seq<Where>, i: nat, before: seq<Binding>, values: seq<Binding>, parts: seq<seq<Token>>, now: int)
    requires i <= |wheres| && forall i :: 0 <= i < |wheres| ==> ValidWhere(wheres[i])
  {
    && parts + Texts(WhereFragments(wheres[i..], |values|, now)) == Texts(WhereFragments(wheres, |before|, now))
    && values + WheresBindings(wheres[i..], now) == before + WheresBindings(wheres, now)
  }

  /** One more part moves across, whatever the parts are. */
  lemma PartMoves(parts: seq<seq<Token>>, f: Fragment, more: seq<Fragment>, whole: seq<seq<Token>>)
    requires parts + Texts([f] + more) == whole
    ensures (parts + [f.text]) + Texts(more) == whole
  {
    TextsCons(f, more);
  }

  lemma BindingsMove(values: seq<Binding>, a: seq<Binding>, b: seq<Binding>, whole: seq<Binding>)
    requires values + (a + b) == whole
    ensures (values + a) + b == whole
  {
  }

  lemma WhereRest(wheres: seq<Where>, i: nat, n: nat, now: int)
    requires i < |wheres| && forall i :: 0 <= i < |wheres| ==> ValidWhere(wheres[i])
    ensures WhereFragments(wheres[i..], n, now)
         == [WhereFragment(wheres[i], n)] + WhereFragments(wheres[i + 1..], n + |WhereBindings(wheres[i], now)|, now)
    ensures WheresBindings(wheres[i..], now) == WhereBindings(wheres[i], now) + WheresBindings(wheres[i + 1..], now)
  {
    hide WhereFragment, WhereBindings;
    var rest := wheres[i..];
    assert rest[0] == wheres[i] && rest[1..] == wheres[i + 1..];
  }

  lemma WherePushes(wheres: seq<Where>, i: nat, before: seq<Binding>, values: seq<Binding>, parts: seq<seq<Token>>, now: int)
    requires i < |wheres| && forall i :: 0 <= i < |wheres| ==> ValidWhere(wheres[i])
    requires WherePushed(wheres, i, before, values, parts, now)
    ensures WherePushed(wheres, i + 1, before, values + WhereBindings(wheres[i], now),
                        parts + [WhereFragment(wheres[i], |values|).text], now)
  {
    hide WhereFragment, WhereBindings;
    var f, bound := WhereFragment(wheres[i], |values|), WhereBindings(wheres[i], now);
    WhereRest(wheres, i, |values|, now);
    PartMoves(parts, f, WhereFragments(wheres[i + 1..], |values| + |bound|, now), Texts(WhereFragments(wheres, |before|, now)));
    BindingsMove(values, bound, WheresBindings(wheres[i + 1..], now), before + WheresBindings(wheres, now));
    assert |values + bound| == |values| + |bound|;
  }

  lemma TextsConcat(a: seq<Fragment>, b: seq<Fragment>)
    ensures Texts(a + b) == Texts(a) + Texts(b)
  {
  }

  method PushEvent(b: Behavior, params: Params) returns (parts: seq<seq<Token>>)
    modifies params
    ensures parts == Texts(EventParts(b, |old(params.values)|))
    ensures params.values == old(params.values) + EventBindings(b)
  {
    parts := [];
    if b.event.Some? {
      var placeholder := params.Add(Str(b.event.value), ChString);
      parts := [[Name("event_name")] + [Op(Eq)] + [placeholder]];
    }
  }

  lemma ConditionTexts(b: Behavior, now: int, n: nat)
    requires ValidBehavior(b)
    ensures Texts(ConditionParts(b, now, n))
         == Texts(EventParts(b, n)) + (Texts(FromParts(b, now, n))
            + (Texts(UntilParts(b, now, n)) + Texts(WhereFragments(b.where, WheresAt(b, now, n), now))))
  {
    var wheres := WhereFragments(b.where, WheresAt(b, now, n), now);
    TextsConcat(UntilParts(b, now, n), wheres);
    TextsConcat(FromParts(b, now, n), UntilParts(b, now, n) + wheres);
    TextsConcat(EventParts(b, n), FromParts(b, now, n) + (UntilParts(b, now, n) + wheres));
  }

  /** The parts, pushed in order. */
  method PushParts(b: Behavior, now: int, params: Params) returns (parts: seq<seq<Token>>)
    requires ValidBehavior(b)
    modifies params
    ensures parts == Texts(ConditionParts(b, now, |old(params.values)|))
    ensures params.values == old(params.values) + ConditionBindings(b, now)
  {
    hide WhereFragments, WheresBindings, EventParts, InstantParts, EventBindings, InstantBindings, Texts;
    ConditionTexts(b, now, |params.values|);
    var event := PushEvent(b, params);
    var from := PushInstant(WindowStart(b.window, now), Ge, params);
    var until := PushInstant(WindowEnd(b.window), Le, params);
    var wheres := PushWheres(b.where, now, params);
    parts := event + (from + (until + wheres));
  }

  /** The per-event condition as it is built. */
  method Condition(b: Behavior, now: int, params: Params) returns (text: seq<Token>)
    requires ValidBehavior(b)
    modifies params
    ensures text == ConditionFragment(b, now, |old(params.values)|).text
    ensures params.values == old(params.values) + ConditionBindings(b, now)
  {
    var parts := PushParts(b, now, params);
    text := if parts == [] then [Numeral(1)] else Joined(parts, And);
  }

  lemma AggregateText(kind: AggregateKind, key: nat, cond: Fragment)
    ensures CallOf(AggregateName(kind), AggregateArgs(kind, key, cond)).text
         == CallTokens(AggregateName(kind), if kind.Count? then [cond.text] else [Lookup(Bag(kind), key).text, cond.text])
  {
    assert Texts(AggregateArgs(kind, key, cond)) == if kind.Count? then [cond.text] else [Lookup(Bag(kind), key).text, cond.text];
  }

  method Aggregate(b: Behavior, now: int, params: Params) returns (text: seq<Token>)
    requires ValidBehavior(b)
    modifies params
    ensures text == AggregateFragment(b, now, |old(params.values)|).text
    ensures params.values == old(params.values) + AggregateBindings(b, now)
  {
    hide ConditionFragment, ConditionBindings;
    ghost var meant := ConditionFragment(b, now, |params.values|);
    var cond := Condition(b, now, params);
    AggregateText(b.aggregate, |params.values|, meant);
    if b.aggregate.Count? {
      text := CallTokens(AggregateName(b.aggregate), [cond]);
    } else {
      var key := params.Add(Str(b.property), ChString);
      text := CallTokens(AggregateName(b.aggregate), [[Name(Bag(b.aggregate))] + [OpenBracket] + [key] + [CloseBracket], cond]);
    }
  }

  // ---- The pass ----------------------------------------------------------------------------------------

  /** The earliest start any behaviour needs; `ever` anywhere removes the bound. */
  function Widest(bs: seq<Behavior>, now: int): Option<int>
    requires bs != []
  {
    var first := WindowStart(bs[0].window, now);
    if |bs| == 1 then first
    else
      var rest := Widest(bs[1..], now);
      if first.None? || rest.None? then None else Some(Min(first.value, rest.value))
  }

  function AggregatesBindings(bs: seq<Behavior>, now: int): seq<Binding>
    requires ValidBehaviors(bs)
  {
    if bs == [] then [] else AggregateBindings(bs[0], now) + AggregatesBindings(bs[1..], now)
  }

  function AggregateFragments(bs: seq<Behavior>, now: int, n: nat): (r: seq<Fragment>)
    requires ValidBehaviors(bs)
    ensures |r| == |bs|
  {
    if bs == [] then []
    else [AggregateFragment(bs[0], now, n)] + AggregateFragments(bs[1..], now, n + |AggregateBindings(bs[0], now)|)
  }

  /** `aliasFor.set(b, 'b' + i)` for each behaviour in turn. */
  function AliasesOf(bs: seq<Behavior>): Aliases {
    if bs == [] then map[] else AliasesOf(bs[..|bs| - 1])[bs[|bs| - 1] := |bs| - 1]
  }

  lemma {:induction false} AliasesName(bs: seq<Behavior>)
    ensures forall b :: b in AliasesOf(bs) <==> b in bs
    ensures forall b :: b in AliasesOf(bs) ==> AliasesOf(bs)[b] < |bs| && bs[AliasesOf(bs)[b]] == b
  {
    if bs != [] {
      var init := bs[..|bs| - 1];
      AliasesName(init);
      assert bs == init + [bs[|bs| - 1]];
    }
  }

  function ProjectBinding(project: nat): Binding { Binding(Num(project as real), ChUInt32) }

  /** What the pass binds ahead of its aggregates: the project, and the scan bound if there is one. */
  function ScanBindings(bs: seq<Behavior>, project: nat, now: int): seq<Binding>
    requires bs != []
  {
    [ProjectBinding(project)] + InstantBindings(Widest(bs, now))
  }

  function PassBindings(bs: seq<Behavior>, project: nat, now: int): seq<Binding>
    requires ValidBehaviors(bs)
  {
    if bs == [] then []
    else ScanBindings(bs, project, now) + (AggregatesBindings(bs, now) + [ProjectBinding(project)])
  }

  /** Where the aggregates' own parameters begin. */
  function PassStart(bs: seq<Behavior>, project: nat, now: int, n: nat): nat {
    if bs == [] then n else n + |ScanBindings(bs, project, now)|
  }

  ghost predicate AggregatePushed(bs: seq<Behavior>, i: nat, before: seq<Binding>, values: seq<Binding>, texts: seq<seq<Token>>, now: int)
    requires i <= |bs| && ValidBehaviors(bs)
  {
    && texts + Texts(AggregateFragments(bs[i..], now, |values|)) == Texts(AggregateFragments(bs, now, |before|))
    && values + AggregatesBindings(bs[i..], now) == before + AggregatesBindings(bs, now)
  }

  lemma AggregateRest(bs: seq<Behavior>, i: nat, n: nat, now: int)
    requires i < |bs| && ValidBehaviors(bs)
    ensures AggregateFragments(bs[i..], now, n)
         == [AggregateFragment(bs[i], now, n)] + AggregateFragments(bs[i + 1..], now, n + |AggregateBindings(bs[i], now)|)
    ensures AggregatesBindings(bs[i..], now) == AggregateBindings(bs[i], now) + AggregatesBindings(bs[i + 1..], now)
  {
    hide AggregateFragment, AggregateBindings;
    var rest := bs[i..];
    assert rest[0] == bs[i] && rest[1..] == bs[i + 1..];
  }

  lemma AggregatePushes(bs: seq<Behavior>, i: nat, before: seq<Binding>, values: seq<Binding>, texts: seq<seq<Token>>, now: int)
    requires i < |bs| && ValidBehaviors(bs) && AggregatePushed(bs, i, before, values, texts, now)
    ensures AggregatePushed(bs, i + 1, before, values + AggregateBindings(bs[i], now),
                            texts + [AggregateFragment(bs[i], now, |values|).text], now)
  {
    hide AggregateFragment, AggregateBindings;
    var f, bound := AggregateFragment(bs[i], now, |values|), AggregateBindings(bs[i], now);
    AggregateRest(bs, i, |values|, now);
    PartMoves(texts, f, AggregateFragments(bs[i + 1..], now, |values| + |bound|), Texts(AggregateFragments(bs, now, |before|)));
    BindingsMove(values, bound, AggregatesBindings(bs[i + 1..], now), before + AggregatesBindings(bs, now));
    assert |values + bound| == |values| + |bound|;
  }

  /** One aggregate per behaviour, each under its own alias. */
  method Aggregates(bs: seq<Behavior>, now: int, params: Params) returns (aggregates: seq<seq<Token>>, aliasFor: Aliases)
    requires ValidBehaviors(bs)
    modifies params
    ensures aliasFor == AliasesOf(bs)
    ensures params.values == old(params.values) + AggregatesBindings(bs, now)
    ensures aggregates == Texts(AggregateFragments(bs, now, |old(params.values)|))
  {
    hide AggregateFragment, AggregateBindings;
    aggregates, aliasFor := [], map[];
    ghost var before := params.values;
    assert bs[0..] == bs;
    for i := 0 to |bs|
      invariant aliasFor == AliasesOf(bs[..i])
      invariant AggregatePushed(bs, i, before, params.values, aggregates, now)
    {
      AggregatePushes(bs, i, before, params.values, aggregates, now);
      var text := Aggregate(bs[i], now, params);
      aggregates := aggregates + [text];
      aliasFor := aliasFor[bs[i] := i];
      assert bs[..i + 1][..i] == bs[..i];
    }
    assert bs[..|bs|] == bs;
  }

  /** The project, and the scan bound when there is one. */
  method OpenScan(bs: seq<Behavior>, project: nat, now: int, params: Params) returns (bound: Option<Token>)
    requires bs != []
    modifies params
    ensures params.values == old(params.values) + ScanBindings(bs, project, now)
    ensures bound == if Widest(bs, now).None? then None else Some(Param(|old(params.values)| + 1))
  {
    bound := None;
    var _ := params.Add(Num(project as real), ChUInt32);
    var widest := Widest(bs, now);
    if widest.Some? {
      var placeholder := params.Add(Moment(widest.value), ChDateTime);
      bound := Some(placeholder);
    }
  }

  lemma NothingToPass(now: int, n: nat)
    ensures AliasesOf([]) == map[] && Texts(AggregateFragments([], now, n)) == []
  {
  }

  /** The pass as it is built; no behaviours means no pass, and no parameters. */
  method BehaviourPass(bs: seq<Behavior>, project: nat, now: int, params: Params)
    returns (aggregates: seq<seq<Token>>, aliasFor: Aliases, bound: Option<Token>)
    requires ValidBehaviors(bs)
    modifies params
    ensures aliasFor == AliasesOf(bs)
    ensures params.values == old(params.values) + PassBindings(bs, project, now)
    ensures aggregates == Texts(AggregateFragments(bs, now, PassStart(bs, project, now, |old(params.values)|)))
    ensures bound == if bs == [] || Widest(bs, now).None? then None else Some(Param(|old(params.values)| + 1))
  {
    hide AggregatesBindings, AggregateFragments, Widest, AliasesOf, ScanBindings, Texts;
    aggregates, aliasFor, bound := [], map[], None;
    NothingToPass(now, |params.values|);
    if bs != [] {
      bound := OpenScan(bs, project, now, params);
      aggregates, aliasFor := Aggregates(bs, now, params);
      var _ := params.Add(Num(project as real), ChUInt32);
    }
  }

  // ---- The text is what was meant ------------------------------------------------------------------------

  lemma TimestampReads(at: Option<int>, op: Comparison, n: nat)
    ensures AllRead(InstantParts(at, op, n))
  {
    AtomsRead("timestamp", n, 0);
    ComparisonReads(ColumnRef("timestamp"), op, ParamRef(n));
  }

  lemma ConditionPartsRead(b: Behavior, now: int, n: nat)
    requires ValidBehavior(b)
    ensures AllRead(ConditionParts(b, now, n))
  {
    var wheres := WhereFragments(b.where, WheresAt(b, now, n), now);
    AtomsRead("event_name", n, 0);
    ComparisonReads(ColumnRef("event_name"), Eq, ParamRef(n));
    TimestampReads(WindowStart(b.window, now), Ge, FromAt(b, n));
    TimestampReads(WindowEnd(b.window), Le, UntilAt(b, now, n));
    WheresRead(b.where, WheresAt(b, now, n), now);
    AllReadConcat(UntilParts(b, now, n), wheres);
    AllReadConcat(FromParts(b, now, n), UntilParts(b, now, n) + wheres);
    AllReadConcat(EventParts(b, n), FromParts(b, now, n) + (UntilParts(b, now, n) + wheres));
  }

  lemma ConditionReads(b: Behavior, now: int, n: nat)
    requires ValidBehavior(b)
    ensures PredicatesRead.Reading(ConditionFragment(b, now, n), DISJUNCTION)
  {
    if ConditionParts(b, now, n) == [] {
      AtomsRead("", 0, 1);
    } else {
      ConditionPartsRead(b, now, n);
      JoinReads(ConditionParts(b, now, n), CONJUNCTION);
    }
  }

  lemma CallOnReads(kind: AggregateKind, key: nat, cond: Fragment)
    requires PredicatesRead.Reading(cond, DISJUNCTION)
    ensures PredicatesRead.Reading(CallOf(AggregateName(kind), AggregateArgs(kind, key, cond)), PRIMARY)
  {
    LookupReads(Bag(kind), key);
    CallReads(AggregateName(kind), AggregateArgs(kind, key, cond));
  }

  /** An aggregate's text is one call whose last argument is the whole condition. */
  lemma AggregateTextIsTheAggregate(b: Behavior, now: int, n: nat)
    requires ValidBehavior(b)
    ensures PredicatesRead.Reading(AggregateFragment(b, now, n), PRIMARY)
  {
    ConditionReads(b, now, n);
    CallOnReads(b.aggregate, n + |ConditionBindings(b, now)|, ConditionFragment(b, now, n));
  }
}
