/** The one suppression predicate every read path shares (packages/core/src/privacy/suppression.ts:55-72). */
module Suppression {

  /** Person to the instant of their deletion request; absent means never suppressed. */
  type Boundaries = map<string, int>

  /** Only what happened strictly after the request is seen again. */
  predicate Survives(suppressed: Boundaries, person: string, instant: int): (seen: bool)
    ensures person !in suppressed ==> seen
    ensures person in suppressed ==> (seen <==> suppressed[person] < instant)
  {
    !(person in suppressed && instant <= suppressed[person])
  }
}
