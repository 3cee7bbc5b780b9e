# Lyraflow, verified in Dafny

A model of the product's report engine (`packages/core`), its browser SDK (`packages/sdk-browser`) and its
migrator (`packages/db`), with proofs of what those parts are for. `dafny verify dfyconfig.toml` checks all of it.

The model follows the source's own shape: what the source computes by expressions is a function, what it updates
in place is a class or a method with a loop, and each such method is proved equal to a function whose properties
are then proved for every input or every run.

## The parts

**Funnels** (`FunnelAst`, `WindowFunnel`, `FunnelSpine`, `FunnelCompile`, `FunnelLevels`, `FunnelMeaning`,
`FunnelTheorems`, `FunnelCounts`, `FunnelRows`, `FunnelSteps`, `FunnelValidation`). A step list is split into a required spine and optional
branches, compiled to one "longest chain in the window" aggregate per chain, grouped into a histogram by level,
and turned back into counts by a suffix sum. The main results say that each number reported is the size of the set
of people who did the corresponding steps in order, inside the window, over their whole history. `windowFunnel` is
given the declarative meaning its documentation states: the greatest `k` such that rows in order meet the first
`k` conditions inside the window.

**Segments** (`Filters`, `SqlGrammar`, `Predicates`, `PredicatesRead`, `SqlEval`, `SegmentMeaning`, `Behaviour`,
`BehaviourMeaning`, `Projection`, `Segment`, `SegmentProjects`, `SegmentSelection`, `SegmentPages`). A filter tree becomes SQL tokens
and positional parameters. Two layers are proved. The tokens, read by a precedence parser (OR below AND below NOT below
comparison), are the tree's own boolean structure. And the expression they denote, evaluated in three-valued
logic, is the tree's own meaning, including one shared scan standing for a scan per behaviour and the LEFT JOIN
that brings back people the scan never saw. Following the compiled pages of a segment's members reads out exactly
the people the tree describes, in order.

**Retention** (`Calendar`, `Retention`, `RetentionSides`), **identity tiling** (`IdentityRanges`), **paging** (`Keyset`),
**canonical JSON** (`CanonicalJson`, `CanonicalJsonProofs`).

**Browser SDK** (`EventQueue`, `QueueTabs`, `QueueLists`, `Transport`, `TransportRuns`, `TransportBackoff`, `TransportDrain`,
`Consent`, `Sdk`, `SdkConsent`, `SdkGrant`, `SdkIdentity`, `SdkDelivery`, `SdkRestart`, `SdkClient`). The queue, sender, gate and client are classes updated in
place; each method's effect is a function, and the theorems range over every interleaving of calls, tabs, responses
(late ones to a sender that a second `init` retired included), storage failures and cookie failures.

**Migrations** (`StatementSplitter`, `StatementSplitterProofs`, `SqlPieces`, `Migrator`, `MigratorProofs`,
`MigrateRun`). The splitter loop, what every file says piece by piece (regions, dollar bodies, comments, semicolons,
and whatever it breaks off in) and that the loop reads exactly that; and any number of processes crashing and
retrying under one lock and one ledger.

## Where the code and its documentation part

The code is followed, the failing input is given as a lemma, and the exact condition is proved.

- A comparison may carry `null`, and text where the compiler declares a number
  (`packages/core/src/segments/ast.ts:244`, `packages/core/src/segments/params.ts:34-39`). What the database makes of
  such a bound is a parameter of the model. A comparison is two-valued on every left-hand side if and only if its
  bounds read as values of the declared type: `SegmentMeaning.ComparisonIsDefinite`, for numbers, text and dates
  alike. Every theorem about segments asks for that and no other condition on values; bounds the schema calls plain
  meet it under every database, and only they do: `SegmentMeaning.ComparableFitsAlways`. For a null bound on a trait,
  what follows from each reading is `SegmentMeaning.NullBoundLosesEveryone`: read as NULL, the predicate and its
  negation are both never true.
- The queue says it degrades to memory only when storage refuses writes
  (`packages/sdk-browser/src/queue.ts:62-68`). If the key can still be read, every removal folds the delivered
  events back in. Against a server that accepts everything the queue then empties if and only if the key holds at
  most one batch and the next batch carries all of it or none of it: `TransportDrain.ReadOnlyStorageDrainsIff`. With
  all of the key in memory, as adding an event leaves it, only the key's size decides, whatever else memory holds:
  `TransportDrain.WholeKeyDrainsIff`. Two stored events of which memory holds one swap places for ever:
  `TransportDrain.TwoStoredOneInMemory`.
- A second `init` says it fully retires the earlier sender (`packages/sdk-browser/src/index.ts:270-276`). `stop()`
  ends its timer and listeners and not its request: with the new gate open, the new sender's first flush sends a
  request beside it if and only if the key holds anything inside the window, and it may carry the same events
  (`SdkRestart.RestartAsksBeside`, `SdkRestart.RestartResends`). The late verdict reaches the shared key as another
  tab's removal would, and nothing else of the page: `SdkRestart.LateVerdictKeepsTheRest`.
- A quoted region still open at the end of a file loses trailing whitespace to the final trim:
  `StatementSplitterProofs.OpenRegionIsTrimmed`. In every file such a region is the last lexeme, and the last
  statement ends in all of it if and only if its last character is not whitespace:
  `StatementSplitterProofs.OpenRegionKeptIff`.
- `undefined` and non-finite numbers in an array print as `null`, so canonical text is injective on what they
  stand for rather than on what they are: `CanonicalJsonProofs.NonPlainValuesCollide`, and exactly:
  `CanonicalJsonProofs.CanonicalIsInjective`.

## Assumptions

- Rows reach `windowFunnel` in time order, no event lies at or after `now`, and event ids are distinct (so
  `LIMIT 1 BY event_id` keeps every row; for segments that step is modelled and proved to be the identity).
- A row's person is given with it; suppression is one boundary instant per person.
- A missing map key reads as its type's default, a LEFT JOIN without a match gives NULL under an alias and an
  empty map under a trait map, and conditional aggregates over no rows give 0.
- Case folding, date parsing, number printing, text order, and what the database makes of a bound its declared type
  does not plainly hold (null, or text as a number), are parameters, any functions at all. Paging alone asks that the
  order on people be a strict total one.
- A ClickHouse statement is `CREATE ... IF NOT EXISTS` of one name: running it again changes nothing. Load-time
  validation also lets other statements through (`ALTER TABLE ... ADD COLUMN`, `DROP`, `INSERT`); that they are
  idempotent and additive is assumed.
- One holder at a time for the migration lock; a lost session releases it; a Postgres transaction is atomic.
- Each public call of the SDK is one atomic step, cut only where the source awaits: at the request, and where a
  finished attempt has still to return before the in-flight flag comes down.

## Model

| member | source | states |
|---|---|---|
| Spines.FunnelSpine | packages/core/src/funnels/spine.ts:57-82 | the loop's three lists are the required positions, the optional positions, and each step's placement |
| Spines.SpineIsConsistent | packages/core/src/funnels/spine.ts:40-82 | a required step stands where its rank says; an optional one has the required steps before it, and only those, below its rank, and its branch level is one more |
| FunnelCompile.EventNames | packages/core/src/funnels/compile.ts:148-155 | each event name once, in first-use order |
| FunnelCompile.NamesAreTheEvents | packages/core/src/funnels/compile.ts:148-155 | the names are exactly the steps' events, each once, ascending by first use |
| FunnelCompile.CompileSide | packages/core/src/funnels/compile.ts:234-260 | an optional step's branch chain and full chain, absent when no required step follows |
| FunnelCompile.CompileFunnel | packages/core/src/funnels/compile.ts:137-260 | refuses a shape or a range past the limits; otherwise bounds, names, window, chains and partial boundary |
| FunnelValidation.ValidateFunnel | packages/core/src/funnels/validate.ts:160-213 | refused for the first of: step count, window, ends and optional count, the first audience past the segment bounds, more than 25 conditions over all audiences |
| FunnelValidation.AcceptedIs | packages/core/src/funnels/validate.ts:30-213 | in numbers, what may be saved: two to eight steps, thirty days, required ends, two optional steps, 25 conditions |
| FunnelValidation.ValidRangeIs | packages/core/src/funnels/validate.ts:219-226 | a range is from before until, at most ninety days |
| FunnelValidation.CompileSaved | packages/core/src/funnels/compile.ts:137-260 | compiles exactly the definitions and ranges that validation accepts, to the plan with each audience resolved to its people |
| FunnelSteps.EventPlaceholder | packages/core/src/funnels/compile.ts:148-155 | one parameter per distinct event name, never rebound |
| FunnelSteps.StepCondition | packages/core/src/funnels/compile.ts:37-49 | the text built part by part is closed under AND, and under any database that can read the bounds is on every event the truth of the step: name, predicates, audience |
| FunnelSteps.Conditions | packages/core/src/funnels/compile.ts:220-226 | what every chain is built from means its step, the first with the entry bound, whatever is bound later |
| FunnelSteps.EntryMeans | packages/core/src/funnels/compile.ts:220-226 | the entry bound restricts step 1 to events before the range's end, and nothing else |
| WindowFunnel.LevelAtLeast | packages/core/src/funnels/compile.ts:68-71 | the aggregate reaches `k` exactly when a chain of length `k` exists |
| WindowFunnel.SharedPrefix | packages/core/src/funnels/spine.ts:52-55 | chains sharing their first `m` conditions agree on reaching `m` |
| WindowFunnel.DropOne | packages/core/src/funnels/compile.ts:236-260 | leaving out one condition after the first keeps a chain through the others |
| FunnelMeaning.ScanLosesNothing | packages/core/src/funnels/compile.ts:157-175 | a chain over the bounded, name-filtered scan exists exactly when one exists over the whole history with entry in the range |
| FunnelMeaning.ScanIsTight | packages/core/src/funnels/compile.ts:157-175 | and no row is scanned that no step names, or that lies outside the range and its last window, or in the future |
| FunnelTheorems.RankIsPath | packages/core/src/funnels/compile.ts:227-240 | reaching a required step's rank is having done the required steps up to it |
| FunnelTheorems.TookIsPath | packages/core/src/funnels/compile.ts:236-242 | reaching a branch level is having done the required prefix and then the optional step |
| FunnelTheorems.CarriedOnIsPath | packages/core/src/funnels/compile.ts:243-260 | reaching a full chain's end is having gone on to the next required step through it |
| FunnelCounts.FunnelCountsPeople | packages/core/src/funnels/levels.ts:116-195 | step `i` reports the number of people who did the required steps before it and then it, in order, in one window |
| FunnelCounts.FunnelTotals | packages/core/src/funnels/levels.ts:148-156 | entered, converted and partial-window entrants are the sizes of those sets of people |
| FunnelCounts.ReportedStep | packages/core/src/funnels/levels.ts:155-192 | every entry carries its own place and event; `from_start` is out of those who entered, `from_previous` out of those who did every required step before it |
| FunnelCounts.ConversionIsRatio | packages/core/src/funnels/levels.ts:148-154 | `conversion_rate` is those who did every required step out of those who entered, 0 when nobody did |
| FunnelCounts.RequiredNeverIncreases | packages/core/src/funnels/levels.ts:142-146 | required counts never increase along the spine |
| FunnelCounts.StoppedSumsToEntered | packages/core/src/funnels/levels.ts:134-148 | the people stopped at each spine level sum to `entered`, for any rows at all |
| FunnelCounts.SharedPrefixTheorem | packages/core/src/funnels/levels.ts:161-177 | `skipped` is the people at the branch point who did not do the step, so never negative; `continued` is within both neighbours |
| FunnelCounts.ReachedListMatchesCount | packages/core/src/funnels/compile.ts:389-416 | the `reached` list is exactly the people counted |
| FunnelCounts.SkippedListMatchesCount | packages/core/src/funnels/compile.ts:396-402 | the `skipped` list is the branch point without those who did the step, and has that size |
| FunnelCounts.DroppedListIsTheDifference | packages/core/src/funnels/compile.ts:404-411 | the `dropped` list is those who reached a required step and not the next required one |
| FunnelCounts.DeletingOptionalKeepsSpine | packages/core/src/funnels/compile.ts:227-260 | deleting an optional step changes neither entered, converted nor any required count |
| FunnelLevels.SumColumns | packages/core/src/funnels/levels.ts:124-133 | the accumulators are the column sums over every row |
| FunnelLevels.SuffixCounts | packages/core/src/funnels/levels.ts:134-146 | `atLeast[r]` is the people at spine rank `r` or beyond, levels past the end folded into the last |
| FunnelLevels.StepEntry | packages/core/src/funnels/levels.ts:157-193 | one entry of the result: an optional step against its branch point, a required one by rank |
| FunnelLevels.Summarise | packages/core/src/funnels/levels.ts:116-195 | the loops compute the summary function the counting theorems are about |
| FunnelRows.RowOrderDoesNotMatter | packages/core/src/funnels/levels.ts:114-152 | the rows may come back in any order |
| FunnelRows.LevelsPastTheEndFold | packages/core/src/funnels/levels.ts:100-104 | a level past the spine counts as its last step |
| FunnelRows.LevelZeroEntersNothing | packages/core/src/funnels/levels.ts:122-137 | a level 0 row adds to no total and no required step, and to an optional one exactly its own column |
| Predicates.Params.Add | packages/core/src/segments/params.ts:31-40 | the placeholder is the next position, and every earlier binding stays |
| Predicates.TreeExpr | packages/core/src/segments/predicates.ts:377-396 | threading one parameter sequence through the recursion emits the tree's text and its bindings in order |
| SqlEval.LaterParamsDoNotMatter | packages/core/src/segments/params.ts:31-40 | adding parameters later never changes what an expression over the earlier ones evaluates to |
| SqlEval.TreeWithin | packages/core/src/segments/predicates.ts:377-396 | a compiled tree reads no parameter but those bound before it and its own |
| SqlEval.TreeIgnoresLaterParams | packages/core/src/segments/params.ts:31-40 | whatever is bound after it, a compiled tree evaluates to the same value |
| PredicatesRead.TextReads | packages/core/src/segments/predicates.ts:94-113 | every text operator's piece, `NOT f(..)` included, is read back as meant wherever a negation may stand |
| PredicatesRead.CompareReads | packages/core/src/segments/predicates.ts:56-68 | a comparison or unparenthesised BETWEEN is read back as meant, its AND not taken for a conjunction |
| PredicatesRead.WhereReads | packages/core/src/segments/predicates.ts:216-248 | every event predicate is closed: joined by AND to anything, it is still one operand |
| PredicatesRead.TreeTextIsTheTree | packages/core/src/segments/predicates.ts:377-396 | the emitted text parses to exactly the tree's boolean structure and nothing is left over |
| PredicatesRead.StepTextIsTheStep | packages/core/src/funnels/compile.ts:37-49 | a step's text parses to the conjunction of its parts, and with the entry bound to one more conjunction |
| SegmentMeaning.ComparisonIsDefinite | packages/core/src/segments/predicates.ts:56-68 | for every declared type, a comparison is two-valued on every left-hand side of it if and only if its bounds read as values of it |
| SegmentMeaning.ComparableFitsAlways | packages/core/src/segments/ast.ts:244-244 | plain bounds, and only they, read as the declared type under every database |
| SegmentMeaning.NullBoundLosesEveryone | packages/core/src/segments/predicates.ts:279-306 | with a null bound a trait predicate and its negation are both NULL, both two-valued, or fail, exactly as the database reads null under a text parameter |
| SegmentMeaning.TextEvaluates | packages/core/src/segments/predicates.ts:94-113 | the six text operators mean occurs, starts or ends after folding both sides, and each negation is the complement |
| SegmentMeaning.RelativeEvaluates | packages/core/src/segments/predicates.ts:155-167 | `in_last` is false and `not_in_last` true of a date that does not parse; they are complements |
| SegmentMeaning.WhereEvaluates | packages/core/src/segments/predicates.ts:216-248 | an event predicate's expression is the truth of the claim about the event, from either property bag or a column |
| SegmentMeaning.TraitEvaluates | packages/core/src/segments/predicates.ts:279-306 | a numeric comparison holds only of a numeric trait; presence is over one key set for both kinds |
| SegmentMeaning.LifecycleEvaluates | packages/core/src/segments/predicates.ts:327-346 | lifecycle bounds compare instants, both ends of `between` included |
| SegmentMeaning.BehaviorEvaluates | packages/core/src/segments/predicates.ts:365-374 | a coalesced alias compared is the behaviour's total compared, no row being zero |
| SegmentMeaning.TreeEvaluates | packages/core/src/segments/predicates.ts:377-396 | every tree evaluates to the truth of its own meaning, never NULL, so NOT is exact at every depth |
| Projection.AttributeColumns | packages/core/src/segments/predicates.ts:273-277 | exactly the columns some predicate names, ascending |
| Projection.ProjectionIgnoresOrder | packages/core/src/segments/predicates.ts:266-272 | the same predicates in another order project the same list |
| Projection.ConditionReadsOnlyWhatIsProjected | packages/core/src/segments/behaviour.ts:130-138 | a behaviour's condition reads no column its scan did not select |
| BehaviourPasses.Condition | packages/core/src/segments/behaviour.ts:25-48 | parts pushed in order and joined, or `1` when there are none |
| BehaviourPasses.Aggregate | packages/core/src/segments/behaviour.ts:59-75 | the aggregate's text, its key bound after its condition |
| BehaviourPasses.BehaviourPass | packages/core/src/segments/behaviour.ts:97-181 | aggregates, aliases, scan bound and the whole parameter order; no behaviours, no parameters |
| BehaviourPasses.AliasesName | packages/core/src/segments/behaviour.ts:122-128 | each alias stands for a behaviour equal to the one it was given for |
| BehaviourPasses.AggregateTextIsTheAggregate | packages/core/src/segments/behaviour.ts:59-75 | an aggregate's text parses to one call whose last argument is the whole condition |
| BehaviourMeaning.ConditionEvaluates | packages/core/src/segments/behaviour.ts:25-48 | the condition is true of exactly the events in the behaviour's own window that satisfy every predicate |
| BehaviourMeaning.AggregateEvaluates | packages/core/src/segments/behaviour.ts:59-75 | count, sum, min, max and distinct over any rows are those of the rows counted, 0 for none |
| BehaviourMeaning.WidestCovers | packages/core/src/segments/behaviour.ts:111-122 | every instant some behaviour's window admits, read straight from its hours, days or dates, is at or after the scan bound |
| BehaviourMeaning.WidestIsTight | packages/core/src/segments/behaviour.ts:111-122 | the bound is one some window admits, and there is none only when some window admits every instant |
| BehaviourMeaning.SharedScanIsExact | packages/core/src/segments/behaviour.ts:78-181 | for any behaviours and any person, in the scan or absent from it, the coalesced alias is that behaviour's own total over the whole unsuppressed history |
| Segments.CollectBehaviors | packages/core/src/segments/compile.ts:20-24 | pushes every behavioural node, left to right |
| Segments.CollectedInOrder | packages/core/src/segments/compile.ts:20-24 | what is collected is every behavioural node of the tree, in reading order |
| Segments.WithinBoundsIs | packages/core/src/segments/validate.ts:47-70 | a tree is let through when no way down is ten long, it has at most a hundred nodes and 25 behavioural ones |
| Segments.CollectedIsAliased | packages/core/src/segments/predicates.ts:365-373 | a tree whose behaviours were all collected never meets an unregistered one |
| Segments.CompileSegment | packages/core/src/segments/compile.ts:199-307 | refuses a tree past the bounds before binding anything; otherwise the texts and the exact parameter order |
| Segments.OnlyMembersContinue | packages/core/src/segments/compile.ts:271-293 | a cursor changes the text and the parameters of a list of members only |
| SegmentSelection.FilterIsItsMeaning | packages/core/src/segments/compile.ts:225-303 | the compiled filter is definite and true of exactly the people who satisfy the tree, wherever its parameters begin |
| SegmentSelection.SegmentCountIsItsMeaning | packages/core/src/segments/compile.ts:225-303 | the people selected are exactly those not suppressed who satisfy the tree, in order |
| SegmentSelection.NotIsAnExactComplement | packages/core/src/segments/predicates.ts:385-387 | a tree and its negation, compiled separately, split the unsuppressed base with none in both |
| SegmentSelection.QueryTextIsTheQuery | packages/core/src/segments/compile.ts:271-303 | the filter and the continuation each parse as one operand of the WHERE clause |
| SegmentSelection.AfterIsAfter | packages/core/src/segments/compile.ts:271-282 | the continuation is true of exactly the rows after the cursor |
| SegmentPages.PageIsKeysetPage | packages/core/src/segments/compile.ts:271-303 | a compiled page, whatever its cursor, is the keyset page of the people the tree describes |
| SegmentPages.PagesAreTheSegment | packages/core/src/segments/compile.ts:266-303 | after `k` compiled pages a reader has the first 100k people the tree describes, in order, none skipped, repeated or added |
| SegmentProjects.EveryProjectIsThisOne | packages/core/src/segments/compile.ts:222-268 | every project id bound, in each of its five places, is the one the segment was compiled for |
| Keyset.Remaining | packages/core/src/segments/compile.ts:271-293 | what the continuation leaves after a row is exactly the rest of the sorted list |
| Keyset.Walk | packages/core/src/segments/compile.ts:271-293 | following pages to the end yields the sorted population and stops |
| Keyset.WalkIsExact | packages/core/src/funnels/compile.ts:377-387 | the walk holds each person once and no one else, in order |
| Calendar.InPeriod | packages/core/src/retention/compile.ts:30-34 | an instant is in a period exactly when it lies between that period's start and the next |
| Calendar.MonthStartIsCivil | packages/core/src/retention/compile.ts:30-34 | every month starts on the day the civil calendar's closed form says, before and after 1970 |
| Calendar.PeriodsStartWhere | packages/core/src/retention/compile.ts:30-34 | days from the epoch, weeks on Mondays, months on the calendar's first days |
| Calendar.DateUtcUndoesCivilDate | packages/core/src/retention/compile.ts:282-289 | an instant's date, built again, is midnight of its own day |
| Calendar.WithinPeriods | packages/core/src/retention/compile.ts:45-49 | `k` periods on is never more than `k + 1` of the longest periods later, months included |
| Calendar.PeriodEndIncreases | packages/core/src/retention/compile.ts:282-289 | `periodEnd` is strictly increasing across month lengths and leap years |
| Calendar.PeriodEndIsAStart | packages/core/src/retention/compile.ts:282-289 | from a cohort's start it lands on the starts of later periods |
| Retention.PeriodIsScanned | packages/core/src/retention/compile.ts:103-109 | every measured period of every cohort lies inside the extended scan |
| Retention.ScanIsTight | packages/core/src/retention/compile.ts:103-135 | no row is scanned from before the range, from the future, or by a name neither side asks for |
| Retention.ValidQueryIs | packages/core/src/retention/ast.ts:108-121 | in numbers, what may be run: at most 26 periods over sixty of the shortest days, weeks or months |
| Retention.CohortsAreBounded | packages/core/src/retention/ast.ts:108-121 | a range let through touches at most sixty-one periods |
| RetentionSides.Clause | packages/core/src/retention/compile.ts:142-155 | a side's clause as built reads as one conjunction and, under any database that can read its bounds, is true of exactly the side's events |
| Retention.ExactlyOneCohort | packages/core/src/retention/compile.ts:207-214 | whoever qualifies is in exactly one cohort |
| Retention.GridCountsPeople | packages/core/src/retention/compile.ts:191-243 | cohort sizes and retained cells are the sizes of the sets of people they name |
| Retention.MeasurableCells | packages/core/src/retention/compile.ts:267-279 | one flag per period, true exactly when the period has finished |
| Retention.MeasurableIsAPrefix | packages/core/src/retention/compile.ts:267-279 | the flags are a run of true and then a run of false |
| Retention.MeasurableCellIsFinal | packages/core/src/retention/compile.ts:248-279 | a measurable cell reads the same at every later instant |
| Basics.BeforeIs | packages/core/src/identity/ranges.ts:120-120 | one string is before another when its unit at the first difference is smaller, or it is a proper prefix |
| IdentityRanges.ResolveTies | packages/core/src/identity/ranges.ts:114-123 | one person per instant, the least, in the instants' order |
| IdentityRanges.DeriveTiling | packages/core/src/identity/ranges.ts:114-137 | the tiling of the resolved binds |
| IdentityRanges.TilingDependsOnTheSet | packages/core/src/identity/ranges.ts:40-73 | any order and any repeats of the same binds give the same tiling |
| IdentityRanges.EveryInstantHasOneOwner | packages/core/src/identity/ranges.ts:125-136 | each instant is in exactly one tile, held by the latest bind at or before it, the earliest owning all time before |
| IdentityRanges.OwnerIsUnique | packages/core/src/identity/ranges.ts:63-67 | ownership is a function of the instant |
| IdentityRanges.MergeOne | packages/core/src/identity/ranges.ts:103-110 | extends the last tile in place or appends a copy |
| IdentityRanges.CoalesceContiguous | packages/core/src/identity/ranges.ts:101-112 | returns only tiles it made, so the caller's are untouched |
| IdentityRanges.CoalescingKeepsOwners | packages/core/src/identity/ranges.ts:78-96 | merging keeps the holder of every instant |
| IdentityRanges.CoalescedIsSeparate | packages/core/src/identity/ranges.ts:92-96 | no neighbouring touching tiles of one person are left |
| IdentityRanges.CoalescingIsIdempotent | packages/core/src/identity/ranges.ts:101-112 | merging again changes nothing |
| IdentityRanges.MergedTilingOwners | packages/core/src/identity/ranges.ts:101-137 | after both passes each instant is held by its owner and no one else |
| CanonicalJsonProofs.StringReadsBack | packages/core/src/segments/hash.ts:23-23 | an escaped string is read back from its text and any continuation (section 7 of RFC 8259) |
| CanonicalJsonProofs.EscapedIsWellFormed | packages/core/src/segments/hash.ts:23-23 | what is written of any string is well-formed UTF-16 without control characters |
| CanonicalJsonProofs.PlainIsItself | packages/core/src/segments/hash.ts:23-23 | a well-formed string with nothing to escape is written as it is |
| CanonicalJsonProofs.SpelledAsJson | packages/core/src/segments/hash.ts:22-35 | literals, punctuation and hexadecimal digits are spelled as RFC 8259 and the printer spell them |
| CanonicalJsonProofs.KeysArePrintedInOrder | packages/core/src/segments/hash.ts:30-34 | an object's keys are printed ascending by code units |
| CanonicalJsonProofs.ValueReadsBack | packages/core/src/segments/hash.ts:22-35 | the text followed by any valid continuation is read back as the value's meaning |
| CanonicalJsonProofs.CanonicalIsInjective | packages/core/src/segments/hash.ts:22-35 | two printable values share a text if and only if they mean the same, objects being unordered |
| CanonicalJsonProofs.NonPlainValuesCollide | packages/core/src/segments/hash.ts:23-24 | distinct values outside plain JSON that share a text |
| EventQueues.EventQueue.Prune | packages/sdk-browser/src/queue.ts:117-134 | age cap then size cap, each dropped event counted once under its reason |
| EventQueues.EventQueue.MergeStored | packages/sdk-browser/src/queue.ts:164-172 | stored events first, then this tab's that storage does not hold |
| EventQueues.EventQueue.Add | packages/sdk-browser/src/queue.ts:174-179 | the array and the key after merging, pushing, pruning and writing |
| EventQueues.EventQueue.Peek | packages/sdk-browser/src/queue.ts:181-185 | the oldest events of the pruned array, left in place |
| EventQueues.EventQueue.Remove | packages/sdk-browser/src/queue.ts:187-197 | the array and the key after merging, removing, pruning and writing |
| QueueTabs.CapsAre | packages/sdk-browser/src/queue.ts:117-134 | in numbers: an event stays if stamped within 23 hours either way, and of those the newest 500 |
| QueueTabs.EachDropIsCounted | packages/sdk-browser/src/queue.ts:117-134 | every event is kept by the age cap or counted once, as expired or as undated |
| QueueTabs.ReadAccepts | packages/sdk-browser/src/queue.ts:50-60 | a read of the key accepts exactly events with an id and a date |
| QueueTabs.MergeKeepsEverything | packages/sdk-browser/src/queue.ts:138-172 | merging loses no id from either side and keeps stored events as they are |
| QueueTabs.StoredStays | packages/sdk-browser/src/queue.ts:117-197 | in one step a stored event goes only if named for removal, outside the window, or before the newest 500 |
| QueueTabs.NothingIsLost | packages/sdk-browser/src/queue.ts:138-197 | over any run of any tabs, the same three reasons are the only ones |
| QueueTabs.StoreIsBounded | packages/sdk-browser/src/queue.ts:117-139 | every successful write leaves at most 500 events, all inside the window, none of those removed |
| QueueTabs.AddedIsStored | packages/sdk-browser/src/queue.ts:174-179 | an added event is in the key whatever another tab had written |
| QueueTabs.NewInStoreHasASource | packages/sdk-browser/src/queue.ts:149-172 | an id new to the key was added by this step or comes from the stepping tab's own array |
| Transports.Poisoned | packages/sdk-browser/src/transport.ts:181-188 | exactly the ids that do not serialise on their own, in order |
| Transports.Transport.BeginRun | packages/sdk-browser/src/transport.ts:138-212 | the guards, the peeked batch, the serialisation failure, or one request begun; the flag stays up until the run resumes |
| Transports.Transport.Respond | packages/sdk-browser/src/transport.ts:214-299 | what each verdict does to queue, backoff and flags |
| TransportRuns.AtMostOneInFlight | packages/sdk-browser/src/transport.ts:138-157 | in every state of every run at most one request is unanswered |
| TransportRuns.RequestIsTheHeadOfTheQueue | packages/sdk-browser/src/transport.ts:138-161 | a step that begins a request finds an idle, unstopped sender past its backoff and sends the first 20 queued events in order |
| TransportRuns.EveryRequestWasAHead | packages/sdk-browser/src/transport.ts:138-212 | over every run, whatever is in flight was the first 20 events of the queue when it was begun |
| TransportRuns.LeavesOnlyForAReason | packages/sdk-browser/src/transport.ts:159-299 | an event leaves only by 202, 400 or 413 on its batch, a serialisation failure, or the caps |
| TransportRuns.NoEventIsLost | packages/sdk-browser/src/transport.ts:159-299 | the same over every run |
| TransportRuns.UnauthorisedIsFinal | packages/sdk-browser/src/transport.ts:242-249 | after a 401 no request is ever begun again, restarts and unloads included |
| TransportRuns.DelayIsBounded | packages/sdk-browser/src/transport.ts:395-408 | a wait is between one second and five minutes, whatever is advised |
| TransportRuns.NoHotLoop | packages/sdk-browser/src/transport.ts:276-299 | over any run whose triggers are ordinary and within a second of a retried verdict, nothing is sent |
| TransportBackoff.BeginsIff | packages/sdk-browser/src/transport.ts:145-161 | a trigger begins a request if and only if the sender is unstopped, idle, past its wait or told to bypass it, with something to send |
| TransportBackoff.PoisonLeaves | packages/sdk-browser/src/transport.ts:167-197 | events that throw when serialised are dropped, all of the batch when none does, and nothing is sent |
| TransportBackoff.VerdictDecides | packages/sdk-browser/src/transport.ts:234-299 | 202, 400 and 413 drop the batch and nothing else touches the queue; only 401 stops the sender and its timer; a refusal leaves the wait as it was |
| TransportBackoff.RetriedVerdictWaits | packages/sdk-browser/src/transport.ts:276-299 | over every run, the wait after a retried verdict is the advised one between one second and five minutes, or doubles from one second to thirty and less than a fifth more; until then no ordinary trigger begins anything |
| TransportBackoff.FailuresAreTheStreak | packages/sdk-browser/src/transport.ts:235-237 | what doubles the wait is the retried verdicts since the last 202 |
| TransportBackoff.AcceptedClearsTheWait | packages/sdk-browser/src/transport.ts:234-241 | a 202 leaves no wait and no failures |
| TransportDrain.FlushTakesTwenty | packages/sdk-browser/src/transport.ts:159-241 | an accepted flush sends the first 20 and leaves the rest, ready for the next |
| TransportDrain.DrainsInOrder | packages/sdk-browser/src/transport.ts:159-241 | an accepting server gets `n` events in `n / 20` flushes, rounded up, first in first out |
| TransportDrain.ReadOnlyStorageDrainsIff | packages/sdk-browser/src/queue.ts:62-68 | with a readable key that refuses writes, and any memory, the queue drains if and only if the key holds at most one batch and the next batch carries all of it or none |
| TransportDrain.WholeKeyDrainsIff | packages/sdk-browser/src/queue.ts:62-68 | with all of the key in memory and any events of its own behind, it drains if and only if the key holds at most one batch |
| TransportDrain.TwoStoredOneInMemory | packages/sdk-browser/src/queue.ts:164-197 | a key of two events of which memory holds one never drains |
| Consenting.ConsentGate.Hold | packages/sdk-browser/src/consent.ts:85-90 | the last hundred held events are kept |
| Consenting.ConsentGate.Decide | packages/sdk-browser/src/consent.ts:93-98 | releases what was held once, and only on a grant |
| Consenting.HoldKeepsTheLastHundred | packages/sdk-browser/src/consent.ts:79-90 | held one by one, what is kept is the last hundred of all of them, in order |
| Consenting.LastHeldIs | packages/sdk-browser/src/consent.ts:85-90 | at most a hundred are kept, and what is forgotten came before all of them |
| SdkClient.Client.Activate | packages/sdk-browser/src/index.ts:122-142 | queue, identity, pending user id, transport and timer in that order, stopping where a cookie call throws |
| SdkClient.Client.EnqueueOrHold | packages/sdk-browser/src/index.ts:162-193 | drops, queues or holds by the gate's state, retrying a failed activation |
| SdkClient.Client.Identify | packages/sdk-browser/src/index.ts:332-355 | cookie and identity by the gate's state, then the event |
| SdkClient.Client.Grant | packages/sdk-browser/src/index.ts:376-393 | queues what was held before anything can throw, activates, then rotates each event |
| SdkClient.Client.RotateReleased | packages/sdk-browser/src/index.ts:389-393 | the remove-then-add loop is the rotation the grant theorem is about |
| SdkClient.Client.Consent | packages/sdk-browser/src/index.ts:357-397 | a refusal stops the sender and forgets the pending user id; a grant ends in a flush |
| SdkClient.Client.Reset | packages/sdk-browser/src/index.ts:399-415 | flushes under the old identity, then takes a new one |
| SdkClient.Client.Flush | packages/sdk-browser/src/index.ts:428-452 | does nothing behind a closed gate; otherwise activates if needed and runs the sender |
| SdkClient.Init | packages/sdk-browser/src/index.ts:268-308 | disarms an earlier sender, which keeps its queue and its unanswered request, and starts from a new record, activating only if allowed, the automatic page view last |
| SdkClient.Client.AnsweredLate | packages/sdk-browser/src/transport.ts:214-299 | a verdict on a retired sender's request changes its own queue and the shared key, and nothing of the new record |
| SdkConsent.CallIsGood | packages/sdk-browser/src/index.ts:122-193 | one call keeps the sender armed only behind a granted gate, and has no effect when it leaves the gate closed |
| SdkConsent.ConsentIsRespected | packages/sdk-browser/src/index.ts:268-452 | over every run, restarts included, no request is begun, cookie written or queue made unless the gate is granted at that moment, and no sender, retired ones included, has more than one request out |
| SdkConsent.ClosedGateIsSilent | packages/sdk-browser/src/index.ts:357-375 | from a closed gate nothing happens at all until a grant or a new start |
| SdkGrant.RotationRestampsInPlace | packages/sdk-browser/src/index.ts:389-393 | removing and re-adding each event in turn leaves the same events in the same order under the new id |
| SdkGrant.GrantReleasesTheHeldEvents | packages/sdk-browser/src/index.ts:376-393 | the queue's tail is exactly the held events in order, changed only in `anonymous_id`, with storage writable, read-only or denied |
| SdkGrant.ConsentReleasesTheHeldEvents | packages/sdk-browser/src/index.ts:357-397 | the flush that ends the call leaves that tail in the queue |
| SdkGrant.FailedGrantKeepsTheEvents | packages/sdk-browser/src/index.ts:376-397 | a grant whose cookie calls fail leaves the held events at the end of the queue as recorded, and no sender |
| SdkGrant.FlushRetriesActivation | packages/sdk-browser/src/index.ts:144-160 | a later flush brings the sender up, as whom the cookies say |
| SdkGrant.PendingEventsAreHeld | packages/sdk-browser/src/consent.ts:79-90 | over every run from a pending gate that neither decides nor restarts, what is held is the last hundred of all events recorded, in order, each under the identity of its moment |
| SdkIdentity.OpenRunNames | packages/sdk-browser/src/index.ts:332-415 | over every run behind an open gate, the identity is what the last successful identify or reset left |
| SdkIdentity.OpenRunQueues | packages/sdk-browser/src/index.ts:162-193 | after every such run, a track, page or identify queues last an event carrying exactly that identity, and stores it when storage can be written |
| SdkIdentity.ResetForgets | packages/sdk-browser/src/index.ts:399-415 | a reset leaves a fresh anonymous id, no user id and nothing pending; what is queued keeps the ids it was stamped with |
| SdkIdentity.FlushAndResetSend | packages/sdk-browser/src/index.ts:398-452 | a flush, and a reset before it forgets, sends the first 20 recent events when the sender is free, and loses nothing recent |
| SdkIdentity.GrantKeepsThePendingUser | packages/sdk-browser/src/index.ts:122-142 | after any pending run, a grant takes the cookie's anonymous id and the user last identified since a reset |
| SdkIdentity.GrantSends | packages/sdk-browser/src/index.ts:357-396 | a grant ends by sending the head of the queue, the held events included |
| SdkIdentity.RefusalForgets | packages/sdk-browser/src/index.ts:362-374 | a refusal forgets what was held and who was pending, and nothing is gathered again until a grant or a restart |
| SdkIdentity.RefusedRecordsNothing | packages/sdk-browser/src/index.ts:162-175 | behind a refused gate a track, identify or flush changes nothing |
| SdkIdentity.PendingTouchesNothing | packages/sdk-browser/src/index.ts:180-193 | behind a pending gate calls change only what is held and who the visitor is |
| SdkIdentity.RequiredConsentIsSilent | packages/sdk-browser/src/index.ts:268-308 | with consent required, over every run without a grant no effect happens at all |
| SdkIdentity.OpenFromTheStart | packages/sdk-browser/src/index.ts:296-296 | without it, `init` brings sending up as whom the cookies say |
| SdkIdentity.AutoPageIsRecorded | packages/sdk-browser/src/index.ts:268-308 | the automatic page view is held while consent is pending, dropped once refused, and otherwise queued last under the visitor's identity |
| SdkIdentity.TrackRetriesActivation | packages/sdk-browser/src/index.ts:144-193 | recording brings a failed sender up and queues the event as it was built; failing again, it stores nothing |
| SdkIdentity.WakeSends | packages/sdk-browser/src/transport.ts:70-96 | an armed idle sender sends at a tick exactly when its wait is over, and when the page goes away in any case |
| SdkDelivery.PageIsASender | packages/sdk-browser/src/index.ts:310-452 | every run of the page behind an open gate is a run of the sender: each call, tick, answer and outside write is one step of it, or none |
| SdkDelivery.PageLosesNoEvent | packages/sdk-browser/src/index.ts:162-193 | so over every run of the page an event leaves its queue only for one of the sender's reasons |
| SdkDelivery.RejectedKeyIsFinal | packages/sdk-browser/src/transport.ts:242-249 | after a 401 no later call of the page sends anything |
| SdkRestart.RestartAsksBeside | packages/sdk-browser/src/index.ts:268-308 | after a restart the old request stays out, and a new one joins it if and only if the key holds anything inside the window |
| SdkRestart.RestartResends | packages/sdk-browser/src/index.ts:270-283 | a queue written in full is then asked for twice, both requests carrying the same events |
| SdkRestart.LateVerdictKeepsTheRest | packages/sdk-browser/src/transport.ts:214-299 | a late verdict touches only the retired sender and the key, where a stored event goes only if its batch names it or by the caps |
| SdkDelivery.LateVerdictDecides | packages/sdk-browser/src/transport.ts:214-299 | and it decides: the request is no longer out, and a batch that is done with is gone from the retired queue, and from a writable key |
| StatementSplitter.ScanQuoted | packages/db/src/migrator.ts:80-98 | the index after a quoted region, doubled quotes honoured |
| StatementSplitter.ScanOne | packages/db/src/migrator.ts:60-124 | which branch one turn takes and where it leaves the index |
| StatementSplitter.SplitStatements | packages/db/src/migrator.ts:54-130 | the loop terminates with the split its lexemes define |
| StatementSplitterProofs.SplitUndoesJoin | packages/db/src/migrator.ts:54-130 | read by its own scan, splitting undoes joining by `;` for any trimmed, closed statements |
| StatementSplitterProofs.LexIsLossless | packages/db/src/migrator.ts:60-124 | the scan's lexemes spell out the whole file |
| StatementSplitterProofs.ClosedRegionsCopiedWhole | packages/db/src/migrator.ts:78-112 | on every input each closed region is whole inside one statement |
| StatementSplitterProofs.OpenRegionIsTrimmed | packages/db/src/migrator.ts:126-127 | an unterminated region can lose trailing whitespace |
| StatementSplitterProofs.OpenRegionKeptIff | packages/db/src/migrator.ts:126-127 | in every file an open region is the last lexeme, and the last statement ends in all of it if and only if its last character is not whitespace |
| SqlPieces.SplitReadsPieces | packages/db/src/migrator.ts:54-130 | for any file of characters, regions, dollar bodies, comments and semicolons that stand apart: the text between semicolons, comments dropped, trimmed, blank parts dropped |
| SqlPieces.EveryFileIsRead | packages/db/src/migrator.ts:54-130 | every file is such pieces and perhaps something never closed, so that account covers all of them |
| SqlPieces.CommentsVanish | packages/db/src/migrator.ts:64-76 | a comment between any pieces and any text might as well not be there |
| SqlPieces.LastCommentVanishes | packages/db/src/migrator.ts:64-76 | so might one the file ends in, closed or not |
| SqlPieces.SplitUndoesJoinWithComments | packages/db/src/migrator.ts:54-130 | splitting undoes joining with comments inside statements and between them |
| SqlPieces.TrimIs | packages/db/src/migrator.ts:115-127 | trimming takes whitespace off both ends and nothing else |
| Migrator.LoadMigrations | packages/db/src/migrator.ts:225-238 | refuses a version used twice across stores; otherwise the same migrations, ascending |
| MigratorProofs.NoVersionTwice | packages/db/src/migrator.ts:262-338 | in every history the ledger is the list's versions in order, none twice |
| MigratorProofs.RecordedMeansRan | packages/db/src/migrator.ts:282-324 | a version is in the ledger only if all its statements ran |
| MigratorProofs.EmptyIsNeverRecorded | packages/db/src/migrator.ts:132-144 | in no history is a file without statements recorded, nor anything after it |
| MigratorProofs.CompletedRunsConverge | packages/db/src/migrator.ts:262-338 | any completed run, after any crashes and retries, ends as one uninterrupted run does |
| MigratorProofs.NewerSchemaIsUntouched | packages/db/src/migrator.ts:279-280 | over every run, an application older than the ledger writes nothing |
| MigrateRun.Database.Migrate | packages/db/src/migrator.ts:262-338 | applies exactly what the ledger lacked, leaves a state a retry can continue from on any failure, records no file without statements, and refuses a newer schema |

## Left out

- SegmentSelection.FilterIsItsMeaning: asks that the database can read each comparison bound as the type declared for it, because the schema admits bounds it may not and the comparison is then not two-valued (`SegmentMeaning.ComparisonIsDefinite`); so do the other theorems that ask for `FitsFilter` or `FitsWheres`.
- BehaviourPasses.AliasesName: the source keys aliases by node object, the model by value, so two equal behaviours share the later alias; both aggregates have the same value.
- Segments.CompileSegment: which of the three bounds a refused tree is reported under, and the text of the base, trait and suppression expressions, are not modelled; suppression is a predicate on the row.
- CanonicalJsonProofs.CanonicalIsInjective: a number is its printed text, so `0` and `-0` are one number, as they are to the printer.
- SdkClient.Init: the replay of calls queued by the snippet stub is the same calls made one after another, and is not a member of its own.
- TransportRuns.AtMostOneInFlight: a response body that never settles keeps the sender in flight for good, as the source says; no step ends it.
- FunnelSteps.StepCondition: an audience enters as the set of people its subquery selects; that set is the subject of `SegmentSelection.SegmentCountIsItsMeaning`.
- RetentionSides.Clause: the bound on `until` and the segment gate that the cohort clause adds are modelled as meaning only.
- `validateClickHouseStatement` and the migration file-name pattern: regular expressions over text, not modelled; see the assumption on statements above.
- Member projections, trait truncation at fifty, context columns' two aggregation levels and the byte guard on a compiled funnel query.
- Identity dictionary lookups, the alias writer, the project cache, ingest, purge and retention workers, and every route.
- Rates are over reals; SHA-256 of the canonical text, cookie and uuid primitives, warnings and debug output.
- Event validation and context shortening on the way into the queue change only an event's body, which the model does not look into.
- The CLI, the UI, the demo seeder and configuration.
