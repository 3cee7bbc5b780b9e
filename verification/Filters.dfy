/**
  Filter trees and event predicates, as the schema admits them
  (packages/core/src/segments/ast.ts).
 */
module Filters {
  import opened Basics
  import opened SqlGrammar

  /** A scalar a comparison may carry; an instant is what a datetime string resolves to. */
  datatype Scalar = Str(s: string) | Num(r: real) | Flag(b: bool) | Nil | Moment(at: int)

  datatype TextOperator = Contains | StartsWith | EndsWith

  /** How far back a relative window looks. */
  datatype Span = Span(n: nat, hours: bool)

  function SpanMs(s: Span): int { if s.hours then s.n * 3_600_000 else s.n * 86_400_000 }

  /** The five operator families; `negated` and `set` carry the `not_` and `is_not_set` forms. */
  datatype Clause =
    | Compares(op: Comparison, value: Scalar)
    | Between(low: Scalar, high: Scalar)
    | Matches(operator: TextOperator, negated: bool, needle: string)
    | Presence(set_: bool)
    | Boolean(flag: bool)
    | Relative(inLast: bool, span: Span)

  /** A claim about one event: a key in its property bags, or one of its columns. */
  datatype Where = Property(key: string, clause: Clause) | Attribute(column: string, clause: Clause)

  /** The columns of `events` a predicate may name. */
  const EVENT_COLUMN_FIELDS: set<string> :=
    {"country", "region", "city", "device_type", "os", "browser", "referrer", "utm_source", "utm_medium",
     "utm_campaign", "path", "url", "utm_term", "utm_content"}

  datatype ContextField = Country | Region | City | DeviceType | Os | Browser | Referrer | UtmSource | UtmMedium | UtmCampaign

  /** The device-index column behind a field; referrer and the UTM trio keep only the first touch. */
  function ContextColumn(field: ContextField, latest: bool): string {
    match field
    case Country => if latest then "latest_country" else "first_country"
    case Region => if latest then "latest_region" else "first_region"
    case City => if latest then "latest_city" else "first_city"
    case DeviceType => if latest then "latest_device" else "first_device"
    case Os => if latest then "latest_os" else "first_os"
    case Browser => if latest then "latest_browser" else "first_browser"
    case Referrer => "first_referrer"
    case UtmSource => "first_source"
    case UtmMedium => "first_medium"
    case UtmCampaign => "first_campaign"
  }

  datatype Window = Last(span: Span) | Absolute(from: int, until: int) | Ever

  datatype AggregateKind = Count | Sum | Minimum | Maximum | DistinctValues

  /** `event` absent is `*`. `property` is what every aggregate but a count reads. */
  datatype Behavior = Behavior(event: Option<string>, where: seq<Where>, aggregate: AggregateKind, property: string,
                               window: Window, clause: Clause)

  datatype LifecycleField = FirstSeen | LastSeen

  datatype Filter =
    | Group(conjunction: bool, children: seq<Filter>)
    | Negated(child: Filter)
    | Trait(key: string, clause: Clause)
    | Context(field: ContextField, latest: bool, clause: Clause)
    | Lifecycle(which: LifecycleField, clause: Clause)
    | Did(behavior: Behavior)

  /** A comparison clause. */
  predicate Comparing(c: Clause) { c.Compares? || c.Between? }

  /** The families a column admits. */
  predicate ColumnClause(c: Clause) { Comparing(c) || c.Matches? || c.Presence? }

  predicate ValidWhere(w: Where) { w.Attribute? ==> w.column in EVENT_COLUMN_FIELDS && ColumnClause(w.clause) }

  predicate Instants(c: Clause) {
    (c.Compares? ==> c.value.Moment?) && (c.Between? ==> c.low.Moment? && c.high.Moment?)
  }

  /** What the schema lets through, node by node: no empty group, and each leaf its own families. */
  predicate ValidFilter(f: Filter) {
    match f
    case Group(_, children) => children != [] && forall i :: 0 <= i < |children| ==> ValidFilter(children[i])
    case Negated(child) => ValidFilter(child)
    case Trait(_, _) => true
    case Context(_, _, clause) => ColumnClause(clause)
    case Lifecycle(_, clause) => (Comparing(clause) || clause.Relative?) && Instants(clause)
    case Did(b) => Comparing(b.clause) && forall i :: 0 <= i < |b.where| ==> ValidWhere(b.where[i])
  }

  // ---- What a comparison can be bound to ---------------------------------------------------------

  /** The database type the compiler picks: numbers compare as numbers, everything else as text. */
  predicate Numeric(c: Clause) { (c.Compares? && c.value.Num?) || (c.Between? && c.low.Num?) }

  predicate BindsAsText(v: Scalar) { v.Str? || v.Num? || v.Flag? }

  /**
    The bounds are plain values of the chosen type: no null, and no text where a number is expected.
    The schema admits both; `ComparableFitsAlways` says what this check buys.
   */
  predicate Comparable(c: Clause, numeric: bool) {
    && (c.Compares? ==> if numeric then c.value.Num? else BindsAsText(c.value))
    && (c.Between? ==> if numeric then c.low.Num? && c.high.Num? else BindsAsText(c.low) && BindsAsText(c.high))
  }

  predicate ComparableWhere(w: Where) { Comparable(w.clause, w.Property? && Numeric(w.clause)) }

  predicate ComparableFilter(f: Filter) {
    match f
    case Group(_, children) => forall i :: 0 <= i < |children| ==> ComparableFilter(children[i])
    case Negated(child) => ComparableFilter(child)
    case Trait(_, clause) => Comparable(clause, Numeric(clause))
    case Context(_, _, clause) => Comparable(clause, false)
    case Lifecycle(_, _) => true
    case Did(b) => Comparable(b.clause, true) && forall i :: 0 <= i < |b.where| ==> ComparableWhere(b.where[i])
  }
}
