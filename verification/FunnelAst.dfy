/**
  Funnel definitions
  (packages/core/src/funnels/ast.ts, packages/core/src/funnels/validate.ts).
 */
module FunnelAst {
  import opened Basics
  import opened Events

  /**
    One step. `where` lists claims about the one event; `audience`, when present, is the set of
    people its filter tree compiled to.
   */
  datatype Step = Step(event: string, where: seq<Event -> bool>, audience: Option<set<string>>, optional: bool)

  datatype Definition = Definition(steps: seq<Step>, windowSeconds: nat)

  datatype Range = Range(since: int, until: int)

  const MAX_FUNNEL_STEPS := 8
  const MAX_OPTIONAL_STEPS := 2
  const MAX_WINDOW_SECONDS := 2_592_000
  const MAX_RANGE_MS := 90 * 86_400_000

  function OptionalCount(steps: seq<Step>): nat { |set i | 0 <= i < |steps| && steps[i].optional| }

  /** What the schema and `validateFunnel` let through. */
  predicate ValidFunnel(def: Definition) {
    && 2 <= |def.steps| <= MAX_FUNNEL_STEPS
    && 0 < def.windowSeconds <= MAX_WINDOW_SECONDS
    && !def.steps[0].optional
    && !def.steps[|def.steps| - 1].optional
    && OptionalCount(def.steps) <= MAX_OPTIONAL_STEPS
  }

  predicate ValidRange(range: Range) {
    range.since < range.until <= range.since + MAX_RANGE_MS
  }

  /** The event satisfies the step: its name, every `where`, and the audience gate. */
  predicate Matches(step: Step, e: Event) {
    && e.name == step.event
    && (forall i :: 0 <= i < |step.where| ==> step.where[i](e))
    && (step.audience.Some? ==> e.person in step.audience.value)
  }
}
