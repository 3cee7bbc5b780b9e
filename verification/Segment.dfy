/**
  Compiling a filter tree into one query, and that what it selects is what the tree means
  (packages/core/src/segments/compile.ts).
 */
module Segments {
  import opened Basics
  import opened BehaviourMeaning
  import opened BehaviourPasses
  import opened Events
  import opened Filters
  import opened Predicates
  import opened PredicatesRead
  import opened SegmentMeaning
  import opened SqlEval
  import opened SqlGrammar
  import opened Suppression

  // ---- Bounds on a tree -----------------------------------------------------------------------------

  const MAX_TREE_DEPTH: nat := 10
  const MAX_TREE_NODES: nat := 100
  const MAX_BEHAVIOR_NODES: nat := 25

  function NodeCount(f: Filter): nat {
    match f
    case Group(_, children) => 1 + NodeCounts(children)
    case Negated(child) => 1 + NodeCount(child)
    case _ => 1
  }

  function NodeCounts(fs: seq<Filter>): nat { if fs == [] then 0 else NodeCount(fs[0]) + NodeCounts(fs[1..]) }

  /** How deep the deepest node sits, the root at 0. */
  function Depth(f: Filter): nat {
    match f
    case Group(_, children) => if children == [] then 0 else 1 + Depths(children)
    case Negated(child) => 1 + Depth(child)
    case _ => 0
  }

  function Depths(fs: seq<Filter>): nat { if fs == [] then 0 else Max(Depth(fs[0]), Depths(fs[1..])) }

  /** The behavioural nodes, left to right. */
  function BehaviorsOf(f: Filter): seq<Behavior> {
    match f
    case Group(_, children) => BehaviorsIn(children)
    case Negated(child) => BehaviorsOf(child)
    case Did(b) => [b]
    case _ => []
  }

  function BehaviorsIn(fs: seq<Filter>): seq<Behavior> { if fs == [] then [] else BehaviorsOf(fs[0]) + BehaviorsIn(fs[1..]) }

  /** What validation lets through to the compiler. */
  predicate WithinBounds(f: Filter) {
    Depth(f) < MAX_TREE_DEPTH && NodeCount(f) <= MAX_TREE_NODES && |BehaviorsOf(f)| <= MAX_BEHAVIOR_NODES
  }

  /** Every node, each before what is under it. */
  function Nodes(f: Filter): seq<Filter> {
    match f
    case Group(_, children) => [f] + NodesIn(children)
    case Negated(child) => [f] + Nodes(child)
    case _ => [f]
  }

  function NodesIn(fs: seq<Filter>): seq<Filter> { if fs == [] then [] else Nodes(fs[0]) + NodesIn(fs[1..]) }

  lemma {:induction false} NodeCountIs(f: Filter)
    ensures NodeCount(f) == |Nodes(f)|
  {
    match f
    case Group(_, children) =>
      forall i | 0 <= i < |children| ensures NodeCount(children[i]) == |Nodes(children[i])| { NodeCountIs(children[i]); }
      NodeCountsAre(children);
    case Negated(child) => NodeCountIs(child);
    case _ =>
  }

  lemma {:induction false} NodeCountsAre(fs: seq<Filter>)
    requires forall i :: 0 <= i < |fs| ==> NodeCount(fs[i]) == |Nodes(fs[i])|
    ensures NodeCounts(fs) == |NodesIn(fs)|
  {
    if fs != [] { NodeCountsAre(fs[1..]); }
  }

  function BehaviorsAmong(fs: seq<Filter>): seq<Behavior> {
    if fs == [] then [] else (if fs[0].Did? then [fs[0].behavior] else []) + BehaviorsAmong(fs[1..])
  }

  lemma {:induction false} AmongConcat(a: seq<Filter>, b: seq<Filter>)
    ensures BehaviorsAmong(a + b) == BehaviorsAmong(a) + BehaviorsAmong(b)
  {
    if a == [] {
      assert a + b == b;
    } else {
      assert (a + b)[1..] == a[1..] + b;
      AmongConcat(a[1..], b);
    }
  }

  /** What is collected is every behavioural node, in reading order. */
  lemma {:induction false} CollectedInOrder(f: Filter)
    ensures BehaviorsOf(f) == BehaviorsAmong(Nodes(f))
  {
    match f
    case Group(_, children) =>
      forall i | 0 <= i < |children| ensures BehaviorsOf(children[i]) == BehaviorsAmong(Nodes(children[i])) { CollectedInOrder(children[i]); }
      CollectedInEach(children);
      assert Nodes(f)[1..] == NodesIn(children);
    case Negated(child) =>
      CollectedInOrder(child);
      assert Nodes(f)[1..] == Nodes(child);
    case _ => assert Nodes(f)[1..] == [];
  }

  lemma {:induction false} CollectedInEach(fs: seq<Filter>)
    requires forall i :: 0 <= i < |fs| ==> BehaviorsOf(fs[i]) == BehaviorsAmong(Nodes(fs[i]))
    ensures BehaviorsIn(fs) == BehaviorsAmong(NodesIn(fs))
  {
    if fs != [] {
      CollectedInEach(fs[1..]);
      AmongConcat(Nodes(fs[0]), NodesIn(fs[1..]));
    }
  }

  /** A way down from the root, child by child. */
  predicate HasPath(f: Filter, path: seq<nat>) {
    path == [] || match f
      case Group(_, children) => path[0] < |children| && HasPath(children[path[0]], path[1..])
      case Negated(child) => path[0] == 0 && HasPath(child, path[1..])
      case _ => false
  }

  lemma {:induction false} PathsAreShort(f: Filter, path: seq<nat>)
    requires HasPath(f, path)
    ensures |path| <= Depth(f)
    decreases |path|
  {
    if path != [] {
      match f
      case Group(_, children) =>
        PathsAreShort(children[path[0]], path[1..]);
        DepthsCover(children, path[0]);
      case Negated(child) => PathsAreShort(child, path[1..]);
    }
  }

  lemma {:induction false} DepthsCover(fs: seq<Filter>, i: nat)
    requires i < |fs|
    ensures Depth(fs[i]) <= Depths(fs)
  {
    if i > 0 { DepthsCover(fs[1..], i - 1); }
  }

  lemma {:induction false} SomeDepth(fs: seq<Filter>) returns (i: nat)
    requires fs != []
    ensures i < |fs| && Depth(fs[i]) == Depths(fs)
  {
    i := 0;
    if |fs| > 1 && Depth(fs[0]) < Depths(fs[1..]) {
      var j := SomeDepth(fs[1..]);
      i := j + 1;
    }
  }

  /** The depth is the length of the longest way down. */
  lemma {:induction false} DepthIsAPath(f: Filter) returns (path: seq<nat>)
    ensures HasPath(f, path) && |path| == Depth(f)
  {
    path := [];
    match f
    case Group(_, children) =>
      if children != [] {
        var i := SomeDepth(children);
        var rest := DepthIsAPath(children[i]);
        path := [i] + rest;
        assert path[1..] == rest;
      }
    case Negated(child) =>
      var rest := DepthIsAPath(child);
      path := [0] + rest;
      assert path[1..] == rest;
    case _ =>
  }

  /** A tree is let through when no way down is ten long, it has at most a hundred nodes, and at most 25 are behavioural. */
  lemma WithinBoundsIs(f: Filter)
    ensures WithinBounds(f) <==> (forall path :: HasPath(f, path) ==> |path| < 10) && |Nodes(f)| <= 100 && |BehaviorsOf(f)| <= 25
  {
    NodeCountIs(f);
    forall path | HasPath(f, path) ensures |path| <= Depth(f) { PathsAreShort(f, path); }
    var longest := DepthIsAPath(f);
  }

  // ---- Collecting behaviours ----------------------------------------------------------------------------

  /** The array `collectBehaviors` pushes onto. */
  class Found {
    var behaviors: seq<Behavior>

    constructor ()
      ensures behaviors == []
    {
      behaviors := [];
    }
  }

  method CollectBehaviors(node: Filter, out: Found)
    modifies out
    ensures out.behaviors == old(out.behaviors) + BehaviorsOf(node)
    decreases node
  {
    if node.Group? {
      ghost var before := out.behaviors;
      for i := 0 to |node.children|
        invariant out.behaviors + BehaviorsIn(node.children[i..]) == before + BehaviorsIn(node.children)
      {
        assert node.children[i..][0] == node.children[i] && node.children[i..][1..] == node.children[i + 1..];
        CollectBehaviors(node.children[i], out);
      }
      assert node.children[|node.children|..] == [];
    } else if node.Negated? {
      CollectBehaviors(node.child, out);
    } else if node.Did? {
      out.behaviors := out.behaviors + [node.behavior];
    }
  }

  /** Every behaviour the tree reads was collected, so the compiler never meets an unregistered one. */
  lemma {:induction false} CollectedIsAliased(f: Filter, aliases: Aliases)
    requires forall b :: b in BehaviorsOf(f) ==> b in aliases
    ensures Aliased(f, aliases)
  {
    match f
    case Group(_, children) =>
      forall i | 0 <= i < |children| ensures Aliased(children[i], aliases) {
        BehaviorsInside(children, i);
        CollectedIsAliased(children[i], aliases);
      }
    case Negated(child) => CollectedIsAliased(child, aliases);
    case _ =>
  }

  lemma {:induction false} BehaviorsInside(fs: seq<Filter>, i: nat)
    requires i < |fs|
    ensures forall b :: b in BehaviorsOf(fs[i]) ==> b in BehaviorsIn(fs)
  {
    if i > 0 { BehaviorsInside(fs[1..], i - 1); }
  }

  lemma {:induction false} BehaviorsAreValid(f: Filter)
    requires ValidFilter(f)
    ensures ValidBehaviors(BehaviorsOf(f))
  {
    match f
    case Group(_, children) =>
      forall i | 0 <= i < |children| ensures ValidBehaviors(BehaviorsOf(children[i])) { BehaviorsAreValid(children[i]); }
      BehaviorsTogether(children);
    case Negated(child) => BehaviorsAreValid(child);
    case _ =>
  }

  lemma {:induction false} BehaviorsTogether(fs: seq<Filter>)
    requires forall i :: 0 <= i < |fs| ==> ValidBehaviors(BehaviorsOf(fs[i]))
    ensures ValidBehaviors(BehaviorsIn(fs))
  {
    if fs != [] { BehaviorsTogether(fs[1..]); }
  }

  ghost predicate AllFit(bs: seq<Behavior>, lib: Library) { forall b :: b in bs ==> FitsBehavior(b, lib) }

  lemma {:induction false} BehaviorsFit(f: Filter, lib: Library)
    requires ValidFilter(f) && FitsFilter(f, lib)
    ensures AllFit(BehaviorsOf(f), lib)
  {
    match f
    case Group(_, children) =>
      forall i | 0 <= i < |children| ensures AllFit(BehaviorsOf(children[i]), lib) { BehaviorsFit(children[i], lib); }
      AllFitTogether(children, lib);
    case Negated(child) => BehaviorsFit(child, lib);
    case _ =>
  }

  lemma {:induction false} AllFitTogether(fs: seq<Filter>, lib: Library)
    requires forall i :: 0 <= i < |fs| ==> AllFit(BehaviorsOf(fs[i]), lib)
    ensures AllFit(BehaviorsIn(fs), lib)
  {
    if fs != [] { AllFitTogether(fs[1..], lib); }
  }

  // ---- The query ---------------------------------------------------------------------------------------------

  datatype Select = CountPeople | Members | Persons

  datatype Cursor = Cursor(lastSeen: int, person: string)

  /** What the compiler emits, beside the parameters: the pass, its scan bound, the filter, the continuation. */
  datatype Compiled = Compiled(aggregates: seq<seq<Token>>, bound: Option<Token>, filter: seq<Token>, after: seq<Token>)

  function AfterBindings(select: Select, cursor: Option<Cursor>): seq<Binding> {
    if select.Members? && cursor.Some? then
      [Binding(Moment(cursor.value.lastSeen), ChDateTime), Binding(Moment(cursor.value.lastSeen), ChDateTime),
       Binding(Str(cursor.value.person), ChString)]
    else []
  }

  function Older(n: nat): Fragment { Comparing2(ColumnRef("last_seen"), Lt, ParamRef(n)) }

  function SameInstant(n: nat): Fragment { Comparing2(ColumnRef("last_seen"), Eq, ParamRef(n)) }

  function LaterPerson(n: nat): Fragment { Comparing2(ColumnRef("person_id"), Gt, ParamRef(n)) }

  /** `(last_seen < c OR (last_seen = c AND person_id > p))`, without the outermost AND. */
  function AfterFragment(n: nat): Fragment {
    Parens(JoinOf([Older(n), Parens(JoinOf([SameInstant(n + 1), LaterPerson(n + 2)], CONJUNCTION))], DISJUNCTION))
  }

  /** Everything bound before the tree: the base's project and the pass. */
  function BeforeTree(f: Filter, project: nat, now: int): seq<Binding>
    requires ValidFilter(f)
  {
    BehaviorsAreValid(f);
    [ProjectBinding(project)] + PassBindings(BehaviorsOf(f), project, now)
  }

  function TailBindings(project: nat, select: Select, cursor: Option<Cursor>): seq<Binding> {
    [ProjectBinding(project), ProjectBinding(project)] + AfterBindings(select, cursor)
  }

  function QueryBindings(f: Filter, project: nat, now: int, select: Select, cursor: Option<Cursor>): seq<Binding>
    requires ValidFilter(f)
  {
    BeforeTree(f, project, now) + TreeBindings(f, now) + TailBindings(project, select, cursor)
  }

  lemma TreeCompiles(f: Filter)
    requires ValidFilter(f)
    ensures Compilable(f, AliasesOf(BehaviorsOf(f))) && ValidBehaviors(BehaviorsOf(f))
  {
    AliasesName(BehaviorsOf(f));
    CollectedIsAliased(f, AliasesOf(BehaviorsOf(f)));
    BehaviorsAreValid(f);
  }

  /** The filter's text, as it stands in the WHERE clause. */
  function FilterFragment(f: Filter, project: nat, now: int, n: nat): Fragment
    requires ValidFilter(f)
  {
    TreeCompiles(f);
    Parens(TreeFragment(f, AliasesOf(BehaviorsOf(f)), now, n + |BeforeTree(f, project, now)|))
  }

  function AfterText(f: Filter, project: nat, now: int, select: Select, cursor: Option<Cursor>, n: nat): seq<Token>
    requires ValidFilter(f)
  {
    if select.Members? && cursor.Some? then AfterFragment(n + |BeforeTree(f, project, now) + TreeBindings(f, now)| + 2).text else []
  }

  function PassTexts(f: Filter, project: nat, now: int, n: nat): seq<seq<Token>>
    requires ValidFilter(f)
  {
    BehaviorsAreValid(f);
    Texts(AggregateFragments(BehaviorsOf(f), now, PassStart(BehaviorsOf(f), project, now, n + 1)))
  }

  function BoundText(f: Filter, now: int, n: nat): Option<Token> {
    if BehaviorsOf(f) == [] || Widest(BehaviorsOf(f), now).None? then None else Some(Param(n + 2))
  }

  /** The query, when its parameters begin at `n`. */
  function QueryText(f: Filter, project: nat, now: int, select: Select, cursor: Option<Cursor>, n: nat): Compiled
    requires ValidFilter(f)
  {
    Compiled(PassTexts(f, project, now, n), BoundText(f, now, n), FilterFragment(f, project, now, n).text,
             AfterText(f, project, now, select, cursor, n))
  }

  /** Only a list of members is paged: for a count, or a set of people, a cursor changes nothing. */
  lemma OnlyMembersContinue(f: Filter, project: nat, now: int, select: Select, cursor: Option<Cursor>, n: nat)
    requires ValidFilter(f)
    ensures var q, bound := QueryText(f, project, now, select, cursor, n), QueryBindings(f, project, now, select, cursor);
            && (!select.Members? || cursor.None? ==>
                  q == QueryText(f, project, now, CountPeople, None, n) && bound == QueryBindings(f, project, now, CountPeople, None))
            && (select.Members? && cursor.Some? ==> q.after != [] && |bound| == |QueryBindings(f, project, now, CountPeople, None)| + 3)
  {
    hide TreeBindings, BeforeTree, FilterFragment, PassTexts, BoundText, JoinOf;
  }

  /** Base, pass and tree: everything the filter itself needs. */
  method CompileFilter(f: Filter, project: nat, now: int, params: Params)
    returns (aggregates: seq<seq<Token>>, bound: Option<Token>, text: seq<Token>)
    requires ValidFilter(f)
    modifies params
    ensures params.values == old(params.values) + (BeforeTree(f, project, now) + TreeBindings(f, now))
    ensures text == FilterFragment(f, project, now, |old(params.values)|).text
    ensures aggregates == PassTexts(f, project, now, |old(params.values)|) && bound == BoundText(f, now, |old(params.values)|)
  {
    hide TreeBindings, PassBindings, TreeFragment, AliasesOf, BehaviorsOf, Texts, AggregateFragments;
    TreeCompiles(f);
    var _ := params.Add(Num(project as real), ChUInt32);
    var found := new Found();
    CollectBehaviors(f, found);
    assert found.behaviors == BehaviorsOf(f);
    var aliasFor;
    aggregates, aliasFor, bound := BehaviourPass(found.behaviors, project, now, params);
    assert params.values == old(params.values) + BeforeTree(f, project, now);
    var tree := TreeExpr(f, aliasFor, now, params);
    text := [Open] + tree + [Close];
  }

  /** The traits' project, suppression's project, then the continuation. */
  method CompileTail(project: nat, select: Select, cursor: Option<Cursor>, params: Params) returns (after: seq<Token>)
    modifies params
    ensures params.values == old(params.values) + TailBindings(project, select, cursor)
    ensures after == if select.Members? && cursor.Some? then AfterFragment(|old(params.values)| + 2).text else []
  {
    hide AfterFragment;
    var _ := params.Add(Num(project as real), ChUInt32);
    var _ := params.Add(Num(project as real), ChUInt32);
    after := [];
    if select.Members? && cursor.Some? { after := Continuation(cursor.value, params); }
  }

  /**
    The compiler as it runs, one parameter sequence threaded through every part. A tree past the
    bounds is refused before anything is bound.
   */
  method CompileSegment(f: Filter, project: nat, now: int, select: Select, cursor: Option<Cursor>, params: Params)
    returns (r: Option<Compiled>)
    requires ValidFilter(f)
    modifies params
    ensures r == if WithinBounds(f) then Some(QueryText(f, project, now, select, cursor, |old(params.values)|)) else None
    ensures params.values == old(params.values) + if r.None? then [] else QueryBindings(f, project, now, select, cursor)
  {
    hide TreeBindings, BeforeTree, FilterFragment, AfterFragment, TailBindings, WithinBounds, PassTexts, BoundText;
    if !WithinBounds(f) { return None; }
    var aggregates, bound, filter := CompileFilter(f, project, now, params);
    var after := CompileTail(project, select, cursor, params);
    r := Some(Compiled(aggregates, bound, filter, after));
  }

  method Continuation(cursor: Cursor, params: Params) returns (text: seq<Token>)
    modifies params
    ensures params.values == old(params.values) + AfterBindings(Members, Some(cursor))
    ensures text == AfterFragment(|old(params.values)|).text
  {
    var n := |params.values|;
    var _ := params.Add(Moment(cursor.lastSeen), ChDateTime);
    var _ := params.Add(Moment(cursor.lastSeen), ChDateTime);
    var _ := params.Add(Str(cursor.person), ChString);
    text := AfterFragment(n).text;
  }
}
