/**
  What a funnel definition is refused for, and in what order: its shape first, then each step's
  audience by the segment validator, then all audiences together
  (packages/core/src/funnels/validate.ts:160-213).
 */
module FunnelValidation {
  import opened Basics
  import opened Events
  import opened Filters
  import opened Segments
  import C = FunnelCompile
  import F = FunnelAst

  /** A step as it is saved: its audience is still a filter tree. */
  datatype SavedStep = SavedStep(event: string, where: seq<Event -> bool>, audience: Option<Filter>, optional: bool)

  datatype Saved = Saved(steps: seq<SavedStep>, windowSeconds: nat)

  /** The error's code, and for an audience of its own the step it names. */
  datatype Refusal = BadSteps | BadWindow | BadAudience(step: nat) | TooManyConditions

  const MAX_FUNNEL_BEHAVIOR_NODES: nat := 25

  /** The definition with each audience resolved to the people it selects. */
  function Resolved(def: Saved, people: Filter -> set<string>): F.Definition {
    F.Definition(seq(|def.steps|, i requires 0 <= i < |def.steps| => ResolvedStep(def.steps[i], people)), def.windowSeconds)
  }

  function ResolvedStep(s: SavedStep, people: Filter -> set<string>): F.Step {
    F.Step(s.event, s.where, if s.audience.None? then None else Some(people(s.audience.value)), s.optional)
  }

  /** The definition without its audiences: all the shape checks look at. */
  function Shape(def: Saved): F.Definition { Resolved(def, (_: Filter) => {}) }

  predicate AudienceFits(s: SavedStep) { s.audience.Some? ==> WithinBounds(s.audience.value) }

  function StepBehaviors(s: SavedStep): seq<Behavior> { if s.audience.None? then [] else BehaviorsOf(s.audience.value) }

  /** Every behavioural condition the run would compute, audience after audience. */
  function AllBehaviors(steps: seq<SavedStep>): seq<Behavior> {
    if steps == [] then [] else AllBehaviors(steps[..|steps| - 1]) + StepBehaviors(steps[|steps| - 1])
  }

  /** What the schema lets through to validation. */
  predicate SchemaValid(def: Saved) { |def.steps| >= 2 && def.windowSeconds > 0 }

  /** The step checks, before the audiences. */
  predicate StepsFit(def: Saved)
    requires SchemaValid(def)
  {
    && |def.steps| <= F.MAX_FUNNEL_STEPS && !def.steps[0].optional && !def.steps[|def.steps| - 1].optional
    && F.OptionalCount(Shape(def).steps) <= F.MAX_OPTIONAL_STEPS
  }

  method CountOptional(steps: seq<SavedStep>) returns (n: nat)
    ensures n == F.OptionalCount(Shape(Saved(steps, 0)).steps)
  {
    n := 0;
    for i := 0 to |steps|
      invariant n == OptionalBefore(steps, i)
    {
      OneMore(steps, i);
      if steps[i].optional { n := n + 1; }
    }
    SameCount(steps);
  }

  lemma SameCount(steps: seq<SavedStep>)
    ensures OptionalBefore(steps, |steps|) == F.OptionalCount(Shape(Saved(steps, 0)).steps)
  {
    var all := Shape(Saved(steps, 0)).steps;
    assert (set j | 0 <= j < |steps| && steps[j].optional) == set j | 0 <= j < |all| && all[j].optional;
  }

  ghost function OptionalBefore(steps: seq<SavedStep>, i: nat): nat
    requires i <= |steps|
  {
    |set j | 0 <= j < i && steps[j].optional|
  }

  lemma OneMore(steps: seq<SavedStep>, i: nat)
    requires i < |steps|
    ensures OptionalBefore(steps, i + 1) == OptionalBefore(steps, i) + if steps[i].optional then 1 else 0
  {
    var before := set j | 0 <= j < i && steps[j].optional;
    assert (set j | 0 <= j < i + 1 && steps[j].optional) == before + if steps[i].optional then {i} else {};
  }

  predicate AudiencesFit(steps: seq<SavedStep>) { forall i :: 0 <= i < |steps| ==> AudienceFits(steps[i]) }

  /** A step whose own audience is past the bounds is named, the first one; conditions are counted only when each fits. */
  method CheckAudiences(steps: seq<SavedStep>) returns (r: Option<Refusal>)
    ensures r.Some? ==> r.value.BadAudience? || r.value.TooManyConditions?
    ensures forall i: nat :: r == Some(BadAudience(i)) <==> i < |steps| && !AudienceFits(steps[i]) && AudiencesFit(steps[..i])
    ensures r == Some(TooManyConditions) <==> AudiencesFit(steps) && |AllBehaviors(steps)| > MAX_FUNNEL_BEHAVIOR_NODES
    ensures r.None? <==> AudiencesFit(steps) && |AllBehaviors(steps)| <= MAX_FUNNEL_BEHAVIOR_NODES
  {
    hide WithinBounds, BehaviorsOf;
    var behaviours := 0;
    for i := 0 to |steps|
      invariant behaviours == |AllBehaviors(steps[..i])|
      invariant forall j :: 0 <= j < i ==> AudienceFits(steps[j])
    {
      assert steps[..i + 1][..i] == steps[..i];
      if steps[i].audience.Some? {
        if !WithinBounds(steps[i].audience.value) { return Some(BadAudience(i)); }
        behaviours := behaviours + |BehaviorsOf(steps[i].audience.value)|;
      }
    }
    assert steps[..|steps|] == steps;
    return if behaviours > MAX_FUNNEL_BEHAVIOR_NODES then Some(TooManyConditions) else None;
  }

  /** A definition that may be saved and run. */
  predicate Accepted(def: Saved) {
    F.ValidFunnel(Shape(def)) && AudiencesFit(def.steps) && |AllBehaviors(def.steps)| <= MAX_FUNNEL_BEHAVIOR_NODES
  }

  /** In numbers: two to eight steps, thirty days, neither end optional, two optional steps, 25 conditions in all. */
  lemma AcceptedIs(def: Saved)
    ensures Accepted(def)
       <==> 2 <= |def.steps| <= 8 && 0 < def.windowSeconds <= 30 * 24 * 3600
            && !def.steps[0].optional && !def.steps[|def.steps| - 1].optional
            && |set i | 0 <= i < |def.steps| && def.steps[i].optional| <= 2
            && (forall i :: 0 <= i < |def.steps| ==> AudienceFits(def.steps[i]))
            && |AllBehaviors(def.steps)| <= 25
  {
    hide AudienceFits, AllBehaviors;
    var steps := Shape(def).steps;
    assert (set i | 0 <= i < |steps| && steps[i].optional) == set i | 0 <= i < |def.steps| && def.steps[i].optional;
  }

  /** And of ranges: from before until, at most ninety days. */
  lemma ValidRangeIs(range: F.Range)
    ensures F.ValidRange(range) <==> 0 < range.until - range.since <= 90 * 24 * 3600 * 1000
  {
  }

  /** Nothing when the definition is accepted; otherwise the first refusal in the order the checks are made. */
  method ValidateFunnel(def: Saved) returns (r: Option<Refusal>)
    requires SchemaValid(def)
    ensures r.None? <==> Accepted(def)
    ensures r == Some(BadWindow) <==> |def.steps| <= F.MAX_FUNNEL_STEPS && def.windowSeconds > F.MAX_WINDOW_SECONDS
    ensures r == Some(BadSteps) <==> |def.steps| > F.MAX_FUNNEL_STEPS || (def.windowSeconds <= F.MAX_WINDOW_SECONDS && !StepsFit(def))
    ensures forall i: nat :: r == Some(BadAudience(i)) <==>
      F.ValidFunnel(Shape(def)) && i < |def.steps| && !AudienceFits(def.steps[i]) && AudiencesFit(def.steps[..i])
    ensures r == Some(TooManyConditions) <==>
      F.ValidFunnel(Shape(def)) && AudiencesFit(def.steps) && |AllBehaviors(def.steps)| > MAX_FUNNEL_BEHAVIOR_NODES
  {
    hide AudiencesFit, AllBehaviors, AudienceFits;
    if |def.steps| > F.MAX_FUNNEL_STEPS { return Some(BadSteps); }
    if def.windowSeconds > F.MAX_WINDOW_SECONDS { return Some(BadWindow); }
    if def.steps[0].optional || def.steps[|def.steps| - 1].optional { return Some(BadSteps); }
    var optional := CountOptional(def.steps);
    assert Shape(Saved(def.steps, 0)).steps == Shape(def).steps;
    if optional > F.MAX_OPTIONAL_STEPS { return Some(BadSteps); }
    r := CheckAudiences(def.steps);
  }

  lemma OptionalCountSame(a: seq<F.Step>, b: seq<F.Step>)
    requires |a| == |b| && forall i :: 0 <= i < |a| ==> a[i].optional == b[i].optional
    ensures F.OptionalCount(a) == F.OptionalCount(b)
  {
    assert (set i | 0 <= i < |a| && a[i].optional) == set i | 0 <= i < |b| && b[i].optional;
  }

  /** An accepted definition compiles: resolving the audiences changes nothing the compiler checks again. */
  lemma ResolvedIsValid(def: Saved, people: Filter -> set<string>)
    ensures F.ValidFunnel(Resolved(def, people)) <==> F.ValidFunnel(Shape(def))
  {
    OptionalCountSame(Resolved(def, people).steps, Shape(def).steps);
  }

  /** Compiling refuses exactly what validation refuses, and otherwise plans the definition with its audiences resolved. */
  method CompileSaved(def: Saved, range: F.Range, now: int, people: Filter -> set<string>) returns (plan: Option<C.Plan>)
    requires SchemaValid(def)
    ensures plan.Some? <==> Accepted(def) && F.ValidRange(range)
    ensures plan.Some? ==> plan.value == C.PlanOf(Resolved(def, people), range, now)
  {
    hide Accepted, F.ValidFunnel, C.PlanOf, Resolved, Shape;
    var refusal := ValidateFunnel(def);
    if refusal.Some? { return None; }
    AcceptedShape(def);
    ResolvedIsValid(def, people);
    plan := C.CompileFunnel(Resolved(def, people), range, now);
  }

  lemma AcceptedShape(def: Saved)
    requires Accepted(def)
    ensures F.ValidFunnel(Shape(def))
  {
  }
}
