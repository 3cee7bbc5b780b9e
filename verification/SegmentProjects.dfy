/**
  Whose rows a compiled segment reads: every project id among its parameters is the one it was
  compiled for (packages/core/src/segments/compile.ts:225-300, packages/core/src/segments/behaviour.ts:98-160).
 */
module SegmentProjects {
  import opened Basics
  import opened BehaviourPasses
  import opened Filters
  import opened Predicates
  import opened Segments

  /** Project ids are the only unsigned parameters. */
  ghost predicate NamesNoProject(bs: seq<Binding>) { forall i :: 0 <= i < |bs| ==> !bs[i].type_.ChUInt32? }

  lemma NoneTogether(a: seq<Binding>, b: seq<Binding>)
    requires NamesNoProject(a) && NamesNoProject(b)
    ensures NamesNoProject(a + b)
  {
  }

  lemma LeavesNameNone(f: Filter, now: int)
    requires ValidFilter(f) && !f.Group? && !f.Negated?
    ensures NamesNoProject(TreeBindings(f, now))
  {
  }

  lemma {:induction false} TreesNameNone(f: Filter, now: int)
    requires ValidFilter(f)
    ensures NamesNoProject(TreeBindings(f, now))
  {
    hide NamesNoProject;
    match f
    case Group(_, children) =>
      forall i | 0 <= i < |children| ensures NamesNoProject(TreeBindings(children[i], now)) { TreesNameNone(children[i], now); }
      ChildrenNameNone(children, now);
    case Negated(child) => TreesNameNone(child, now);
    case _ => LeavesNameNone(f, now);
  }

  lemma {:induction false} ChildrenNameNone(children: seq<Filter>, now: int)
    requires forall i :: 0 <= i < |children| ==> ValidFilter(children[i]) && NamesNoProject(TreeBindings(children[i], now))
    ensures NamesNoProject(ChildBindings(children, now))
  {
    hide TreeBindings;
    if children != [] { ChildrenNameNone(children[1..], now); }
  }

  lemma {:induction false} WheresNameNone(wheres: seq<Where>, now: int)
    requires forall i :: 0 <= i < |wheres| ==> ValidWhere(wheres[i])
    ensures NamesNoProject(WheresBindings(wheres, now))
  {
    if wheres != [] {
      assert NamesNoProject(WhereBindings(wheres[0], now));
      WheresNameNone(wheres[1..], now);
    }
  }

  lemma {:induction false} AggregatesNameNone(bs: seq<Behavior>, now: int)
    requires ValidBehaviors(bs)
    ensures NamesNoProject(AggregatesBindings(bs, now))
  {
    hide WheresBindings, WindowStart, WindowEnd;
    if bs != [] {
      WheresNameNone(bs[0].where, now);
      assert NamesNoProject(AggregateBindings(bs[0], now));
      AggregatesNameNone(bs[1..], now);
    }
  }

  /** The base population, the events pass, its suppression, the traits and theirs: each is this project's. */
  lemma EveryProjectIsThisOne(f: Filter, project: nat, now: int, select: Select, cursor: Option<Cursor>)
    requires ValidFilter(f)
    ensures var q, mine := QueryBindings(f, project, now, select, cursor), Binding(Num(project as real), ChUInt32);
            var before := |BeforeTree(f, project, now)|; var tree := before + |TreeBindings(f, now)|;
            && (forall b :: b in q && b.type_.ChUInt32? ==> b == mine)
            && tree + 1 < |q| && q[0] == mine && q[tree] == mine && q[tree + 1] == mine
            && (BehaviorsOf(f) != [] ==> before >= 3 && q[1] == mine && q[before - 1] == mine)
  {
    hide TreeBindings, AggregatesBindings, BehaviorsOf, Widest;
    var bs := BehaviorsOf(f);
    BehaviorsAreValid(f);
    TreesNameNone(f, now);
    AggregatesNameNone(bs, now);
    var q, mine := QueryBindings(f, project, now, select, cursor), Binding(Num(project as real), ChUInt32);
    forall i | 0 <= i < |q| && q[i].type_.ChUInt32? ensures q[i] == mine {
    }
  }
}
