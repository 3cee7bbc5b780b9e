/**
  The compiled segment selects exactly the people its tree describes
  (packages/core/src/segments/compile.ts:225-303).
 */
module SegmentSelection {
  import opened Basics
  import opened BehaviourMeaning
  import opened BehaviourPasses
  import opened Events
  import opened Filters
  import opened Predicates
  import opened PredicatesRead
  import opened SegmentMeaning
  import opened Segments
  import opened SqlEval
  import opened SqlGrammar
  import opened Suppression

  /** Everything the database holds that the query reads, besides the base population itself. */
  datatype World = World(table: seq<Event>, suppressed: Boundaries, lib: Library)

  /** Each behaviour's own total for one person. */
  ghost function TotalFor(w: World, p: Person, now: int): Behavior -> real {
    (b: Behavior) => if ValidBehavior(b) then OwnTotal(b, w.table, p.id, w.suppressed, now, w.lib) else 0.0
  }

  /** The people the tree describes: not suppressed, and satisfying it. */
  ghost predicate Described(f: Filter, w: World, p: Person, now: int)
    requires ValidFilter(f)
  {
    Survives(w.suppressed, p.id, p.lastSeen) && Sat(f, p, TotalFor(w, p, now), now, w.lib)
  }

  /** Where the aggregates' parameters begin when the query's begin at `n`. */
  function PassAt(f: Filter, project: nat, now: int, n: nat): nat { PassStart(BehaviorsOf(f), project, now, n + 1) }

  function ScanEnv(params: seq<Binding>, lib: Library): Env { Env((_: string) => Null, (_: nat) => Null, (_: nat) => {}, params, lib) }

  /** One person's row of the joined query. */
  ghost function PersonEnv(f: Filter, project: nat, now: int, n: nat, w: World, p: Person, params: seq<Binding>): Env
    requires ValidFilter(f)
  {
    BehaviorsAreValid(f);
    var bs := BehaviorsOf(f);
    Env(PersonColumns(p),
        (i: nat) => if i < |bs| then JoinedValue(bs, i, PassAt(f, project, now, n), w.table, p.id, w.suppressed, now, ScanEnv(params, w.lib)) else Null,
        (_: nat) => {}, params, w.lib)
  }

  /** What the WHERE clause gives for the filter on that row. */
  ghost function FilterValue(f: Filter, project: nat, now: int, n: nat, w: World, p: Person, params: seq<Binding>): Value
    requires ValidFilter(f)
  {
    Eval(FilterFragment(f, project, now, n).meant, PersonEnv(f, project, now, n, w, p, params))
  }

  /** A row is selected when suppression lets it through and the filter is true of it. */
  ghost predicate Selected(f: Filter, project: nat, now: int, n: nat, w: World, p: Person, params: seq<Binding>)
    requires ValidFilter(f)
  {
    Survives(w.suppressed, p.id, p.lastSeen) && FilterValue(f, project, now, n, w, p, params) == Truth(true)
  }

  lemma QueryPlaced(f: Filter, project: nat, now: int, select: Select, cursor: Option<Cursor>, n: nat, params: seq<Binding>)
    requires ValidFilter(f) && Placed(params, n, QueryBindings(f, project, now, select, cursor))
    ensures ValidBehaviors(BehaviorsOf(f))
    ensures Placed(params, PassAt(f, project, now, n), AggregatesBindings(BehaviorsOf(f), now))
    ensures Placed(params, n + |BeforeTree(f, project, now)|, TreeBindings(f, now))
  {
    hide Placed, TreeBindings, AggregatesBindings, ScanBindings, BehaviorsOf;
    BehaviorsAreValid(f);
    var bs := BehaviorsOf(f);
    var before, tree := BeforeTree(f, project, now), TreeBindings(f, now);
    PlacedSplit(params, n, before + tree, TailBindings(project, select, cursor));
    PlacedSplit(params, n, before, tree);
    PlacedSplit(params, n, [ProjectBinding(project)], PassBindings(bs, project, now));
    if bs == [] {
      NothingPlaced(params, n + 1, now);
    } else {
      PlacedSplit(params, n + 1, ScanBindings(bs, project, now), AggregatesBindings(bs, now) + [ProjectBinding(project)]);
      PlacedSplit(params, n + 1 + |ScanBindings(bs, project, now)|, AggregatesBindings(bs, now), [ProjectBinding(project)]);
    }
  }

  lemma NothingPlaced(params: seq<Binding>, n: nat, now: int)
    requires Placed(params, n, [])
    ensures Placed(params, n, AggregatesBindings([], now))
  {
  }

  /** Under each alias, once coalesced, stands that behaviour's own total. */
  lemma AliasesHoldTotals(f: Filter, project: nat, now: int, n: nat, w: World, p: Person, params: seq<Binding>)
    requires ValidFilter(f) && FitsFilter(f, w.lib) && DistinctIds(w.table)
    requires ValidBehaviors(BehaviorsOf(f)) && Placed(params, PassAt(f, project, now, n), AggregatesBindings(BehaviorsOf(f), now))
    ensures AggregatesAre(PersonEnv(f, project, now, n, w, p, params), AliasesOf(BehaviorsOf(f)), TotalFor(w, p, now))
  {
    hide JoinedValue, OwnTotal, AggregatesBindings, Placed, DistinctIds, PassAt;
    var bs := BehaviorsOf(f);
    var aliases := AliasesOf(bs);
    BehaviorsAreValid(f);
    BehaviorsFit(f, w.lib);
    AliasesName(bs);
    forall b | b in aliases
      ensures var v := PersonEnv(f, project, now, n, w, p, params).aggregates(aliases[b]);
              (if v.Null? then Number(0.0) else v) == Number(TotalFor(w, p, now)(b))
    {
      SharedScanIsExact(bs, aliases[b], PassAt(f, project, now, n), w.table, p.id, w.suppressed, now, ScanEnv(params, w.lib));
    }
  }

  /**
    The filter is never NULL, and it is true of exactly the people who satisfy the tree: wherever the
    query's parameters begin, whatever was bound before them, whatever is bound after.
   */
  lemma FilterIsItsMeaning(f: Filter, project: nat, now: int, select: Select, cursor: Option<Cursor>, n: nat, w: World, p: Person, params: seq<Binding>)
    requires ValidFilter(f) && FitsFilter(f, w.lib) && DistinctIds(w.table)
    requires Placed(params, n, QueryBindings(f, project, now, select, cursor))
    ensures FilterValue(f, project, now, n, w, p, params) == Truth(Sat(f, p, TotalFor(w, p, now), now, w.lib))
    ensures Selected(f, project, now, n, w, p, params) <==> Described(f, w, p, now)
  {
    hide Placed, QueryBindings, BeforeTree, TreeBindings, AggregatesBindings, PassAt, DistinctIds, Sat, TotalFor, AggregatesAre;
    QueryPlaced(f, project, now, select, cursor, n, params);
    AliasesHoldTotals(f, project, now, n, w, p, params);
    TreeCompiles(f);
    var env := PersonEnv(f, project, now, n, w, p, params);
    TreeEvaluates(f, AliasesOf(BehaviorsOf(f)), now, env, p, TotalFor(w, p, now));
  }

  ghost function SelectedPeople(f: Filter, project: nat, now: int, n: nat, w: World, base: seq<Person>, params: seq<Binding>): seq<Person>
    requires ValidFilter(f)
  {
    Basics.Filter((p: Person) => Selected(f, project, now, n, w, p, params), base)
  }

  ghost function DescribedPeople(f: Filter, w: World, base: seq<Person>, now: int): seq<Person>
    requires ValidFilter(f)
  {
    Basics.Filter((p: Person) => Described(f, w, p, now), base)
  }

  /** The count the query returns is the number of people the tree describes. */
  lemma SegmentCountIsItsMeaning(f: Filter, project: nat, now: int, select: Select, cursor: Option<Cursor>, n: nat, w: World, base: seq<Person>, params: seq<Binding>)
    requires ValidFilter(f) && FitsFilter(f, w.lib) && DistinctIds(w.table)
    requires Placed(params, n, QueryBindings(f, project, now, select, cursor))
    ensures SelectedPeople(f, project, now, n, w, base, params) == DescribedPeople(f, w, base, now)
  {
    hide Selected, Described, QueryBindings;
    forall p: Person ensures Selected(f, project, now, n, w, p, params) <==> Described(f, w, p, now) {
      FilterIsItsMeaning(f, project, now, select, cursor, n, w, p, params);
    }
    FilterSame((p: Person) => Selected(f, project, now, n, w, p, params), (p: Person) => Described(f, w, p, now), base);
  }

  lemma {:induction false} PartitionCounts<T>(all: T -> bool, left: T -> bool, right: T -> bool, s: seq<T>)
    requires forall x :: x in s ==> (all(x) <==> left(x) || right(x)) && !(left(x) && right(x))
    ensures |Basics.Filter(left, s)| + |Basics.Filter(right, s)| == |Basics.Filter(all, s)|
  {
    if s != [] {
      assert s == [s[0]] + s[1..];
      PartitionCounts(all, left, right, s[1..]);
    }
  }

  /** A tree and its negation, each compiled on its own, split the unsuppressed base between them. */
  lemma NotIsAnExactComplement(f: Filter, project: nat, now: int, select: Select, cursor: Option<Cursor>, n: nat, w: World, base: seq<Person>,
                               params: seq<Binding>, notParams: seq<Binding>)
    requires ValidFilter(f) && FitsFilter(f, w.lib) && DistinctIds(w.table)
    requires Placed(params, n, QueryBindings(f, project, now, select, cursor))
    requires Placed(notParams, n, QueryBindings(Negated(f), project, now, select, cursor))
    ensures |SelectedPeople(f, project, now, n, w, base, params)| + |SelectedPeople(Negated(f), project, now, n, w, base, notParams)|
         == |Basics.Filter((p: Person) => Survives(w.suppressed, p.id, p.lastSeen), base)|
    ensures forall p: Person :: !(Selected(f, project, now, n, w, p, params) && Selected(Negated(f), project, now, n, w, p, notParams))
  {
    hide Survives, Selected, Sat, QueryBindings, SelectedPeople, DescribedPeople, TotalFor, Placed;
    SegmentCountIsItsMeaning(f, project, now, select, cursor, n, w, base, params);
    SegmentCountIsItsMeaning(Negated(f), project, now, select, cursor, n, w, base, notParams);
    NegatedPeople(f, w, base, now);
    forall p: Person
      ensures !(Selected(f, project, now, n, w, p, params) && Selected(Negated(f), project, now, n, w, p, notParams))
    {
      FilterIsItsMeaning(f, project, now, select, cursor, n, w, p, params);
      FilterIsItsMeaning(Negated(f), project, now, select, cursor, n, w, p, notParams);
      NegatedMeans(f, w, p, now);
    }
  }

  lemma NegatedMeans(f: Filter, w: World, p: Person, now: int)
    requires ValidFilter(f)
    ensures Described(Negated(f), w, p, now) <==> Survives(w.suppressed, p.id, p.lastSeen) && !Sat(f, p, TotalFor(w, p, now), now, w.lib)
  {
  }

  lemma NegatedPeople(f: Filter, w: World, base: seq<Person>, now: int)
    requires ValidFilter(f)
    ensures |DescribedPeople(f, w, base, now)| + |DescribedPeople(Negated(f), w, base, now)|
         == |Basics.Filter((p: Person) => Survives(w.suppressed, p.id, p.lastSeen), base)|
  {
    hide Survives, TotalFor;
    PartitionCounts((p: Person) => Survives(w.suppressed, p.id, p.lastSeen), (p: Person) => Described(f, w, p, now),
                    (p: Person) => Described(Negated(f), w, p, now), base);
  }

  // ---- The text --------------------------------------------------------------------------------------------

  /** The WHERE clause's two pieces read as one operand each, so joining them by AND changes neither. */
  lemma QueryTextIsTheQuery(f: Filter, project: nat, now: int, n: nat, m: nat)
    requires ValidFilter(f)
    ensures PredicatesRead.Reading(FilterFragment(f, project, now, n), PRIMARY)
    ensures PredicatesRead.Reading(AfterFragment(m), PRIMARY)
  {
    hide TreeFragment, BeforeTree, AfterFragment;
    TreeCompiles(f);
    var tree := TreeFragment(f, AliasesOf(BehaviorsOf(f)), now, n + |BeforeTree(f, project, now)|);
    TreeReads(f, AliasesOf(BehaviorsOf(f)), now, n + |BeforeTree(f, project, now)|);
    Loosen(tree, NEGATION, DISJUNCTION);
    ParensRead(tree);
    AfterReads(m);
  }

  lemma PartsOfAfterRead(m: nat)
    ensures PredicatesRead.Reading(Older(m), NEGATION) && PredicatesRead.Reading(SameInstant(m), NEGATION)
    ensures PredicatesRead.Reading(LaterPerson(m), NEGATION)
  {
    AtomsRead("last_seen", m, 0);
    AtomsRead("person_id", m, 0);
    ComparisonReads(ColumnRef("last_seen"), Lt, ParamRef(m));
    ComparisonReads(ColumnRef("last_seen"), Eq, ParamRef(m));
    ComparisonReads(ColumnRef("person_id"), Gt, ParamRef(m));
  }

  lemma PairReads(a: Fragment, b: Fragment, level: nat)
    requires CONJUNCTION <= level <= DISJUNCTION && PredicatesRead.Reading(a, NEGATION) && PredicatesRead.Reading(b, NEGATION)
    ensures PredicatesRead.Reading(Parens(JoinOf([a, b], level)), PRIMARY)
    ensures PredicatesRead.Reading(Parens(JoinOf([a, b], level)), NEGATION)
  {
    JoinReads([a, b], level);
    ParensRead(JoinOf([a, b], level));
  }

  lemma AfterReads(m: nat)
    ensures PredicatesRead.Reading(AfterFragment(m), PRIMARY)
  {
    hide PredicatesRead.Reading, JoinOf, Parens, Older, SameInstant, LaterPerson;
    PartsOfAfterRead(m);
    PartsOfAfterRead(m + 1);
    PartsOfAfterRead(m + 2);
    PairReads(SameInstant(m + 1), LaterPerson(m + 2), CONJUNCTION);
    PairReads(Older(m), Parens(JoinOf([SameInstant(m + 1), LaterPerson(m + 2)], CONJUNCTION)), DISJUNCTION);
  }

  lemma AfterPlaced(c: Cursor, m: nat, params: seq<Binding>)
    requires Placed(params, m, AfterBindings(Members, Some(c)))
    ensures m + 2 < |params| && params[m] == params[m + 1] == Binding(Moment(c.lastSeen), ChDateTime)
    ensures params[m + 2] == Binding(Str(c.person), ChString)
  {
    var bs := AfterBindings(Members, Some(c));
    assert params[m + 0] == bs[0] && params[m + 1] == bs[1] && params[m + 2] == bs[2];
  }

  lemma LastSeenAgainst(op: Comparison, at: int, n: nat, env: Env, p: Person)
    requires env.columns == PersonColumns(p) && n < |env.params| && env.params[n] == Binding(Moment(at), ChDateTime)
    ensures Eval(Comparing2(ColumnRef("last_seen"), op, ParamRef(n)).meant, env)
         == Truth(Ordered(op, p.lastSeen < at, p.lastSeen == at))
  {
  }

  lemma PersonIdAgainst(op: Comparison, person: string, n: nat, env: Env, p: Person)
    requires env.columns == PersonColumns(p) && n < |env.params| && env.params[n] == Binding(Str(person), ChString)
    ensures Eval(Comparing2(ColumnRef("person_id"), op, ParamRef(n)).meant, env)
         == Truth(Ordered(op, env.lib.before(p.id, person), p.id == person))
  {
  }

  lemma PartsOfAfter(c: Cursor, m: nat, env: Env, p: Person)
    requires env.columns == PersonColumns(p) && Placed(env.params, m, AfterBindings(Members, Some(c)))
    ensures Eval(Older(m).meant, env) == Truth(p.lastSeen < c.lastSeen)
    ensures Eval(SameInstant(m + 1).meant, env) == Truth(p.lastSeen == c.lastSeen)
    ensures Eval(LaterPerson(m + 2).meant, env) == Truth(PersonAfter(c, p, env.lib))
  {
    hide PersonColumns, Eval, Placed, AfterBindings, Comparing2;
    AfterPlaced(c, m, env.params);
    LastSeenAgainst(Lt, c.lastSeen, m, env, p);
    LastSeenAgainst(Eq, c.lastSeen, m + 1, env, p);
    PersonIdAgainst(Gt, c.person, m + 2, env, p);
  }

  predicate PersonAfter(c: Cursor, p: Person, lib: Library) { !lib.before(p.id, c.person) && p.id != c.person }

  /** The continuation is true of exactly the rows after the cursor in (last_seen DESC, person_id ASC). */
  lemma AfterIsAfter(c: Cursor, m: nat, env: Env, p: Person)
    requires env.columns == PersonColumns(p) && Placed(env.params, m, AfterBindings(Members, Some(c)))
    ensures Eval(AfterFragment(m).meant, env)
         == Truth(p.lastSeen < c.lastSeen || (p.lastSeen == c.lastSeen && PersonAfter(c, p, env.lib)))
  {
    hide Older, SameInstant, LaterPerson, AfterBindings, Placed, JoinOf;
    var later := PersonAfter(c, p, env.lib);
    PartsOfAfter(c, m, env, p);
    BothEvaluates(SameInstant(m + 1), LaterPerson(m + 2), CONJUNCTION, env, p.lastSeen == c.lastSeen, later);
    BothEvaluates(Older(m), Parens(JoinOf([SameInstant(m + 1), LaterPerson(m + 2)], CONJUNCTION)), DISJUNCTION, env,
                  p.lastSeen < c.lastSeen, p.lastSeen == c.lastSeen && later);
  }
}
