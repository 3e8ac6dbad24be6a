# Verified models of SveltyCMS

Dafny models of the parts of SveltyCMS whose correctness does not show from reading one function: the content tree and
the write path, the request dispatcher, test selection, trend statistics, the row sampler and the scheduler of the
benchmark matrix. Each model takes the branches, constants and order of the code it cites, and the lemmas state what
that code is for.

`dafny verify dfyconfig.toml` checks the project.

## The modules

- **Content.** `ContentTree` is the theory of parent links: chains from a root, the forest they unfold into, cycles.
  `ContentStructure` is `getContentStructure` on shallow copies linked in place; `NavigationTree` and `NavigationLaws`
  are the depth-limited tree, its index and its agreement with the full one; `Descendants` is the worklist search;
  `Categories` and `CategoryLaws` are the category nodes derived from file paths; `FirstCollection` is the redirect
  target; `StableSort` is the sort they share; `TreeResults` is what the two trees show, in terms of the stored nodes,
  the tenant, the depth limit and the expanded ids. `FieldPrep` and `FieldPrepLaws` are the write path: compiled plans, their
  cache, the lazily cloned result. `FieldEffects` says when two sequences of steps do the same to a field, `PlanLaws`
  when two plans, or a plan and a loop over the schema, do the same to every record, `FieldResults` what preparation
  leaves of each value by the types of its fields, and `PlanCache` when the cache can be noticed.
- **Requests.** `Dispatcher` holds the module variables of `hooks.server.ts` and the stretches of code between awaits;
  `DispatcherRuns` is the transition system of all interleavings, with failing imports, setup flips and a clock at
  every step that reads the setup flag; the server's methods are composed into `handle` there. `RequestLaws` says who is
  answered without a pipeline, who asks for the setup state and which hooks the others pass.
- **Test selection.** `Glob` models the staged replacements and a regular expression matcher; `TestSelection` and
  `SuiteSelection` are the dependency index, transitive dependents, synthetic edges and the choice of suites by
  patterns and by the graph. `OwnEdges` and `OwnRules` are about the program's own tables.
- **Benchmarks.** `Regression` and `Trends` are the statistics over exact reals; `RegressionReport` is the report of
  one adapter, and `ReportValues` what it says in terms of the measured values; `RowSampler` is the generator of row indices and batch ids; `TestOrder` and `MatrixRun` are the order of
  the test files and the loop that runs them.
- `Options` and `Sequences` hold what the others share.

## Where the code and its descriptions differ

Where a promise fails, the entry names the lemma that holds the input and the one that holds the exact condition.

- `scripts/test-smart.ts:442-450`: the placeholder `§§GLOBSTAR§§` can also appear by accident, from a pattern that
  does not contain it: `§§GLOBSTAR**` is read as a wildcard followed by `GLOBSTAR§§` (`MisreadPattern`, exactly when:
  `MatchesPatternIsGlob`). `.` in the expression stops at line terminators, so `**` is any text for exactly the names on
  one line (`OneLineIff`).
- `scripts/test-smart.ts:279-417`: patterns with a folder `(app)` are read without the parentheses, and in
  `[...path]` the brackets stand for one character, so that none of them matches a file below the folder it names, and
  the rules with no other pattern are never selected by the pages they are for (`AppPatternMisses`, `ApiPatternMisses`,
  `PageRulesNeverWanted`; matched as documented exactly when: `GroupedAgreesIff`).
- `src/content/content-utils.ts:114-138` and `207-222`: a parent id that names no stored node makes a root of the full
  tree and hides the node from the navigation tree; the text `null` is a parent id for one and no parent for the other.
  `ProgressiveAgreesWithFull` has agreement exactly when neither occurs (`OrphanDisagrees`, `NullParentDisagrees`).
- `src/content/content-utils.ts:640-657`: the comment promises one loop over the schema. The code runs one loop for each
  kind of step, which differs when two fields have the same name (`DuplicateNamesDiffer`); sanitizing differs exactly
  when a text field comes before a rich-text field of its name (`SanitizeIsOneLoopIff`), the constraints never
  (`ConstraintsAreOneLoop`), and `PassesAreOneLoopIff` covers every mode.
- `src/content/content-utils.ts:509-515`: a cached plan is used even after its schema's fields have changed
  (`PrepareAfterEdit`, `StalePlanDiffers`, unnoticed exactly when: `StaleAgreesIff`).
- `src/content/content-utils.ts:612-625`: a negative `maxLength` cuts from the end on every call. The pass is idempotent
  exactly when each field's lengths take nothing from the end or leave nothing at all (`NegativeLengthTwice`,
  `ConstraintsIdempotentIff`).
- `src/content/content-utils.ts:41-64`: a folder named `collection` below the top restarts the path but keeps the parent,
  so that categories are no longer prefixes (`BuriedCollection`, exactly when: `CategoriesAreProperPrefixes`). A folder
  `a/b` and a folder `a_b` get the same id (`UnderscoreClash`, exactly when: `DistinctIdsIff`).
- `src/hooks.server.ts:90-119`: the setup value is meant to be less than 60 s old. A request that waits for imports may
  use an older one (`StaleAfterWait`, exactly when: `FreshWhenServedIff`), and one that waits in the hot swap may use
  the answer given to another request (`FlippedWhileWaiting`, exactly when: `OwnValueIff`).
- `src/hooks.server.ts:200-203`: dropping `cachedPipelineReady` at the first installation is never what keeps
  pass-through handlers out; no such pipeline exists then (`FirstInstallDropsNothing`).
- `scripts/benchmark-matrix/utils.ts:35-41`: histories are newest first, so a trend is degrading or critical exactly when
  its values have been falling over time, and improving exactly when they have been rising (`DirectionIsReversed`,
  `FallingReportedDegrading`). "Significant" means a fit that explains more than `(n + 1) / 48` of the spread
  (`SignificantIff`), which no history of 47 runs or more can (`LongHistoriesAreStable`). A breach of the budget is forecast for falling values only (`FallingForecast`, exactly
  when: `ForecastIsReversed`).
- `scripts/benchmark-matrix/regression-detector.ts:606-610`: flapping is judged on the history stored under the metric's
  name, the trend itself on the one stored under `histKey`. The two verdicts agree exactly when the names do
  (`FlappingOfOwnHistoryIff`), and they do for none of the program's checks (`OwnChecks`, `SteadyMarkedFlapping`).
- `scripts/benchmark-matrix/regression-detector.ts:412-439`: a metric over its budget is not reported as severe when its
  title is listed already, by a flapping alert, by an improvement of more than 20% or by an alert that its history is
  still too short, nor when the adapter counts as warming up, as it does when its collections have become more than 30%
  slower (`HiddenByFlapping`, `HiddenByImprovement`, `HiddenByBaseline`, `HiddenByWarmUp`, exactly when:
  `OverBudgetReported`).
- `scripts/benchmark-matrix/index.ts:756-768`: tests in no group are ordered and counted in the total but never run
  (`UngroupedNeverRuns`; each counted test runs once exactly when: `RunsEachOnce`).

## Model

| member | source | states |
|---|---|---|
| Glob.TranslationParses | scripts/test-smart.ts:444-449 | for every plain pattern the four replacements leave a well-formed expression: the one obtained by reading the pattern's tokens, spelled out with the placeholder, once more |
| Glob.TranslateIsRestore | scripts/test-smart.ts:444-448 | the placeholder survives the later replacement of `*`: after three stages the text is the tokens of the pattern, each spelled in its own way |
| Glob.MatchesPatternIsGlob | scripts/test-smart.ts:442-450 | the translated expression accepts exactly the files the recursive glob reader accepts, for all files, if and only if the pattern holds none of three clashing texts |
| Glob.OneLineFilesMatchGlob | scripts/test-smart.ts:442-450 | on names without line terminators: `**` is any text, `*` any text without a slash, all else is literal |
| Glob.OneLineIff | scripts/test-smart.ts:442-450 | a name is matched as documented by every plain pattern without a clash if and only if it holds none of the four line terminators |
| Glob.PlainIff | scripts/test-smart.ts:442-450 | plain patterns are those without the punctuation of expressions, dots and stars apart |
| Glob.GreedyIsBest | scripts/test-smart.ts:448-448 | replacing placeholders greedily from the left never leaves a longer literal skeleton than any other reading, the reason the condition is exact |
| Glob.SkeletonShortest | scripts/test-smart.ts:442-450 | whatever a glob accepts is at least as long as its literal characters, and only they themselves are that short |
| Glob.MisreadPattern | scripts/test-smart.ts:446-448 | a pattern without the placeholder in it that accepts a file its glob does not |
| TestSelection.DependencyGraph.constructor | scripts/test-smart.ts:202-203 | both indexes start empty |
| TestSelection.DependencyGraph.AddImport | scripts/test-smart.ts:217-222 | one resolved import adds one pair, and the two indexes stay each other's converse |
| TestSelection.DependencyGraph.AddFile | scripts/test-smart.ts:211-224 | the pairs of one file are added, unresolved imports skipped, converse kept |
| TestSelection.BuildDependencyGraph | scripts/test-smart.ts:201-228 | `imports` is exactly the relation of resolved imports and `importedBy` its converse |
| TestSelection.FindTransitiveDependents | scripts/test-smart.ts:230-253 | the least set that holds the changed files and is closed under `importedBy`, on cyclic graphs too |
| TestSelection.LeastUnique | scripts/test-smart.ts:230-253 | that set is unique: order of the queue and of the sets does not matter |
| TestSelection.DependentsDistribute | scripts/test-smart.ts:230-253 | dependents of a union of changes are the union of the dependents |
| TestSelection.ExpandRound | scripts/test-smart.ts:498-509 | one round adds what every edge triggered at its start adds, and nothing that a closed set would not hold |
| TestSelection.ExpandSyntheticEdges | scripts/test-smart.ts:492-512 | terminates with the least superset closed under the trigger rules, for any edge table, without repetitions and the changed files first |
| TestSelection.ExpansionUnique | scripts/test-smart.ts:492-512 | the least expansion is unique |
| TestSelection.ExpansionMonotone | scripts/test-smart.ts:492-512 | a larger change expands to no less |
| TestSelection.ExpansionIdempotent | scripts/test-smart.ts:492-512 | expanding an expansion adds nothing |
| SuiteSelection.SelectSuites | scripts/test-smart.ts:553-577 | every wanted label once, by the first rule that wants it and with all its files; the full core suite exactly when there are changes and no rule wants any |
| SuiteSelection.MatchingInOrder | scripts/test-smart.ts:557-560 | the files of a suite are the changed files that match, each as often as it was given and in their order |
| SuiteSelection.SomeSelected | scripts/test-smart.ts:568-574 | the rules select nothing exactly when no rule wants a file, so failing closed never hides a match |
| SuiteSelection.SelectForChange | scripts/test-smart.ts:758-860 | the rules are asked about the expanded change set, or the plain one when everything runs: every suite wanted there is selected, no label twice, a change never selects nothing, and unless everything runs, a configuration file changed or the core suite was chosen, the tests of the three areas that depend on the change are all added, each area for its gate, and no others |
| SuiteSelection.AddAreas | scripts/test-smart.ts:797-858 | one suite for each area with affected tests: earlier suites stay, every affected test of an area is covered, nothing else is added |
| SuiteSelection.WantedIsGlob | scripts/test-smart.ts:442-456 | with the translated patterns as matcher, a rule wants its suite exactly when one of its globs matches a changed file |
| SuiteSelection.SelectionMonotone | scripts/test-smart.ts:772-790 | a larger change wants every suite a smaller one wants |
| OwnEdges.OwnExpansion | scripts/test-smart.ts:479-512 | with the program's own two edges the expanded change is exactly the change, with the generated types when a schema below `config/collections/` is in it and the types module when either is |
| OwnEdges.BelowMatch | scripts/test-smart.ts:442-450 | literal text followed by `**` matches exactly the one-line continuations of the text |
| OwnEdges.TestIff | scripts/test-smart.ts:797-799 | tests are the files below `tests/` that end in `.test.ts` or `.spec.ts` |
| OwnEdges.ConfigIff | scripts/test-smart.ts:759-769 | six files at the top and everything below `.github/` keep the graph from being asked |
| OwnEdges.AreaIff | scripts/test-smart.ts:806-808 | the areas the graph adds are told apart by their folder |
| OwnRules.GroupIsReadWithout | scripts/test-smart.ts:442-450 | a pattern with a literal group is matched as the pattern without the parentheses |
| OwnRules.GroupNeverMatchesItself | scripts/test-smart.ts:442-450 | no file below a folder in parentheses matches a pattern that names this folder, whatever the pattern goes on with |
| OwnRules.GroupedAgreesIff | scripts/test-smart.ts:442-450 | a pattern for everything below a folder is matched as documented on all one-line names if and only if the folder is not in parentheses |
| OwnRules.BracketsNeverMatchThemselves | scripts/test-smart.ts:442-450 | the same for a folder in brackets |
| OwnRules.AppPatternMisses | scripts/test-smart.ts:279-417 | no file below `src/routes/(app)/` matches a page pattern; what matches is below `src/routes/app/` |
| OwnRules.ApiPatternMisses | scripts/test-smart.ts:280-293 | no file below `src/routes/api/[...path]/` matches a pattern for that folder |
| OwnRules.AppRulesNeverWanted | scripts/test-smart.ts:382-417 | a rule with page patterns only is not wanted by any change within the pages |
| OwnRules.PageRulesNeverWanted | scripts/test-smart.ts:402-420 | this is so for three of the end-to-end rules |
| RowSampler.StepIsExact | scripts/benchmark-matrix/raw-db-ceiling.ts:239-239 | the unreduced value stays below 2^53, so the double arithmetic is exact |
| RowSampler.StepInNumbers | scripts/benchmark-matrix/raw-db-ceiling.ts:239-240 | one step with its three numbers |
| RowSampler.ClosedForm | scripts/benchmark-matrix/raw-db-ceiling.ts:238-241 | n draws move the state by a geometric sum times the first step, modulo 2^32 |
| RowSampler.GeometricDivides | scripts/benchmark-matrix/raw-db-ceiling.ts:239-239 | for a multiplier that is 1 modulo 4, the geometric sum of n terms is divisible by exactly the powers of two that divide n |
| RowSampler.FullPeriod | scripts/benchmark-matrix/raw-db-ceiling.ts:237-241 | from every state, the state returns after n draws if and only if n is a multiple of 2^32 |
| RowSampler.NoRepeatWithinPeriod | scripts/benchmark-matrix/raw-db-ceiling.ts:237-241 | two draws of one period give different states |
| RowSampler.StepIsPermutation | scripts/benchmark-matrix/raw-db-ceiling.ts:239-239 | the step is a permutation of the states, undone by 2^32 - 1 more steps |
| RowSampler.EveryStateVisited | scripts/benchmark-matrix/raw-db-ceiling.ts:237-241 | every state occurs in every period |
| RowSampler.RowIsQuotient | scripts/benchmark-matrix/raw-db-ceiling.ts:481-481 | the row named by a state is the exact integer quotient |
| RowSampler.RowIsExactIff | scripts/benchmark-matrix/raw-db-ceiling.ts:481-481 | the product that is floored is below 2^53 for every state, so exact in doubles, if and only if there are at most 2^21 rows |
| RowSampler.RowInRange | scripts/benchmark-matrix/raw-db-ceiling.ts:481-481 | it is always one of the seeded rows |
| RowSampler.EveryRowNamed | scripts/benchmark-matrix/raw-db-ceiling.ts:476-482 | every seeded row is named within one period |
| RowSampler.Workers.constructor | scripts/benchmark-matrix/raw-db-ceiling.ts:237-244 | 64 workers, all at the seed, all counters at zero |
| RowSampler.Workers.NextRand | scripts/benchmark-matrix/raw-db-ceiling.ts:238-241 | draw n of a worker is the n-th iterate of the seed over 2^32; the other workers' states are untouched |
| RowSampler.Workers.NextRow | scripts/benchmark-matrix/raw-db-ceiling.ts:480-482 | the index used in the query names a seeded row |
| RowSampler.Workers.NextBatch | scripts/benchmark-matrix/raw-db-ceiling.ts:243-248 | the counter of this worker alone grows by one, and the ids of its batches of 100 never overlap an earlier batch |
| Regression.EnoughPoints | scripts/benchmark-matrix/utils.ts:58-65 | for two or more values the denominator of the slope is positive |
| Regression.ErrorExpands | scripts/benchmark-matrix/utils.ts:60-69 | the squared error of any line in terms of the sums the code computes |
| Regression.LeastSquares | scripts/benchmark-matrix/utils.ts:52-74 | the returned line has the smallest squared error of all lines, and is the only one that has it |
| Regression.DeterminationIsProportion | scripts/benchmark-matrix/utils.ts:68-71 | r2 lies between 0 and 1 for every history |
| Regression.DeterminationIsShare | scripts/benchmark-matrix/utils.ts:68-71 | the line leaves the share `1 - r2` of the squared distances from the mean |
| Regression.PerfectFitIff | scripts/benchmark-matrix/utils.ts:52-74 | r2 is 1 if and only if all values lie on the line and are not all the same |
| Regression.DeterminationOfSlope | scripts/benchmark-matrix/utils.ts:52-74 | twelve times r2 times the squared distances from the mean is the squared slope times n(n^2 - 1) |
| Regression.MeanIsAverage | scripts/benchmark-matrix/utils.ts:76-80 | the mean is the one value that makes up the same total |
| Regression.FewOnLine | scripts/benchmark-matrix/utils.ts:57-58 | with fewer than two values the line is level, passes through what there is and explains nothing |
| Regression.ReversedSlope | scripts/benchmark-matrix/utils.ts:52-74 | reading the values backwards negates the slope |
| Trends.ForecastIsFirstBreach | scripts/benchmark-matrix/regression-detector.ts:256-269 | the forecast is the first run that reaches the budget on the trend line; there is none exactly when no run up to 1000 does |
| Trends.CriticalWithinFive | scripts/benchmark-matrix/regression-detector.ts:80-103 | a significant slope above zero, on the history as stored, is critical exactly when five more runs reach the budget, otherwise degrading |
| Trends.DirectionMatchesForecast | scripts/benchmark-matrix/regression-detector.ts:80-103 | critical exactly when the forecast names one of the next five runs, degrading exactly when it names a later one or none |
| Trends.DirectionIsReversed | scripts/benchmark-matrix/utils.ts:35-41 | with histories newest first, a trend is degrading or critical if and only if the values fell significantly over time, and improving if and only if they rose significantly |
| Trends.FallingReportedDegrading | scripts/benchmark-matrix/utils.ts:35-41 | values that fell from 3 to 1 are reported as degrading, values that rose from 1 to 3 as improving |
| Trends.ForecastIsReversed | scripts/benchmark-matrix/regression-detector.ts:256-269 | below the budget a forecast exists if and only if the values have been falling over time, at a rate that reaches the budget in 1000 runs once the fall is read as a rise |
| Trends.FallingForecast | scripts/benchmark-matrix/regression-detector.ts:256-269 | values that fell from 3 to 1 are forecast to reach 100 in 99 runs, values that rose from 1 to 3 never |
| Trends.ConfidentIsNotStable | scripts/benchmark-matrix/regression-detector.ts:80-103 | the confidence is a proportion and no more than r2, and above a half it rules out a stable trend |
| Trends.SignificantIff | scripts/benchmark-matrix/regression-detector.ts:88-90 | a slope is significant if and only if r2 is more than (n + 1) / 48 |
| Trends.DirectionByFit | scripts/benchmark-matrix/regression-detector.ts:80-103 | each direction, if and only if, by slope, r2 and the value five runs on: 0.0001 is the least slope that counts |
| Trends.LongHistoriesAreStable | scripts/benchmark-matrix/regression-detector.ts:88-94 | from 47 runs on every history is stable |
| Trends.DetectFlapping | scripts/benchmark-matrix/regression-detector.ts:221-252 | the flips counted by the loop are the turns of the sequence of counted moves; flapping is at least four runs, two turns and turns at three fifths of the moves |
| Trends.FlapsIff | scripts/benchmark-matrix/regression-detector.ts:221-252 | a history flaps if and only if it swings: of the changes of more than half a percent and a thousandth, at least two and three in five turn |
| Trends.TurnsAre | scripts/benchmark-matrix/regression-detector.ts:241-249 | turns are the positions where the direction of the counted moves changes |
| Trends.TurnsBound | scripts/benchmark-matrix/regression-detector.ts:241-249 | fewer turns than moves, so the ratio is less than one |
| RegressionReport.BuildAdapterTrends | scripts/benchmark-matrix/regression-detector.ts:340-376 | one new object for each check with a value and three runs of history, in order, with the slope, baseline, squared deviation, r2, size, direction and confidence of that history, and without a forecast |
| RegressionReport.ForecastOnlyWhenFalling | scripts/benchmark-matrix/regression-detector.ts:630-637 | only a trend whose values have been falling over time gets a forecast |
| RegressionReport.MarkFlapping | scripts/benchmark-matrix/regression-detector.ts:605-628 | overwrites the direction of exactly the trends that flap, nothing else of them, and emits one alert for each |
| RegressionReport.AddForecasts | scripts/benchmark-matrix/regression-detector.ts:630-637 | sets the forecast of exactly the trends with a slope above zero that have one and are neither stable nor flapping |
| RegressionReport.EmitRegressions | scripts/benchmark-matrix/regression-detector.ts:639-671 | one entry for each degrading or critical trend, in order |
| RegressionReport.EmitImprovements | scripts/benchmark-matrix/regression-detector.ts:673-701 | one entry for each other trend that is more than 20% below its baseline and does not flap |
| RegressionReport.EmitBaselineAlerts | scripts/benchmark-matrix/regression-detector.ts:380-408 | one entry for each check with too short a history and a change of more than 15% |
| RegressionReport.EmitBudgetViolations | scripts/benchmark-matrix/regression-detector.ts:412-439 | one entry for each check over budget whose title is not listed yet, appended in order |
| RegressionReport.EmitRatios | scripts/benchmark-matrix/regression-detector.ts:144-180 | one entry for each metric whose latest cold/warm ratio is more than 20% above the median of the earlier ones |
| RegressionReport.ReportAdapter | scripts/benchmark-matrix/regression-detector.ts:584-704 | the stages over mutable trends emit what the stages over values emit, in order |
| RegressionReport.ReportTurn | scripts/benchmark-matrix/regression-detector.ts:574-704 | nothing for an adapter that is warming up, else what the stages emit for its seven checks |
| ReportValues.TurnSays | scripts/benchmark-matrix/regression-detector.ts:574-704 | all a turn says of a check, if and only if, in its value, history and budget: short-history alerts beyond 15% of the mean, flapping alerts, climbing trends with severity and forecast, improvements below 80% of the mean, and else the violation of its budget; percentages by cross-multiplication |
| ReportValues.TurnSaysOnce | scripts/benchmark-matrix/regression-detector.ts:574-704 | a turn has at most one entry for each check |
| ReportValues.TurnSaysRatios | scripts/benchmark-matrix/regression-detector.ts:144-180 | the other entries are exactly those of ratios more than 20% above the earlier ones |
| ReportValues.WarmingIs | scripts/benchmark-matrix/utils.ts:136-141 | warming up is fewer than two runs, or more than 30% above the mean of the newest three |
| ReportValues.TrendHolds | scripts/benchmark-matrix/regression-detector.ts:353-374 | the deviation, r2, size, category and confidence a trend holds |
| ReportValues.OwnHistories | scripts/benchmark-matrix/regression-detector.ts:277-329 | under which name each of the program's checks keeps its history |
| ReportValues.TitleIsFirst | scripts/benchmark-matrix/regression-detector.ts:331-336 | an entry is titled after the first check with its metric, or after the metric |
| RegressionReport.SeverityMatchesForecast | scripts/benchmark-matrix/regression-detector.ts:630-671 | a trend's entry is severe exactly when its forecast names one of the next five runs, though two stages computed the two |
| RegressionReport.EmittedSeverity | scripts/benchmark-matrix/regression-detector.ts:586-704 | over everything an adapter emits: a severe entry has a forecast within five runs or is a budget violation, and a forecast within five runs makes its entry severe |
| RegressionReport.ReportIsPartition | scripts/benchmark-matrix/regression-detector.ts:719-721 | regressions, improvements and flapping alerts share out all entries |
| RegressionReport.TitledEntries | scripts/benchmark-matrix/regression-detector.ts:331-336 | before the budget stage, the entries under a check's title are those the check itself leads to |
| RegressionReport.EmittedTitled | scripts/benchmark-matrix/regression-detector.ts:412-439 | after it, they are the same, or the violation of its budget when there are none |
| RegressionReport.OverBudgetEmitted | scripts/benchmark-matrix/regression-detector.ts:412-439 | a check over its budget has a severe entry if and only if no flapping, improvement or short-history alert stands under its title, and an entry among the regressions if and only if neither of the first two does |
| RegressionReport.OverBudgetReported | scripts/benchmark-matrix/regression-detector.ts:574-704 | over a whole turn of the program's checks: a check over its budget has a severe entry if and only if the adapter is not warming up and none of the three alerts stands under its title |
| RegressionReport.HiddenByImprovement | scripts/benchmark-matrix/regression-detector.ts:412-439 | one of the program's checks at twice its budget that is reported as an improvement only |
| RegressionReport.HiddenByFlapping | scripts/benchmark-matrix/regression-detector.ts:412-439 | the same hidden by the flapping alert of another series |
| RegressionReport.HiddenByBaseline | scripts/benchmark-matrix/regression-detector.ts:380-439 | the same check after a single stored run: all entries under its title are informational and say it is no regression |
| RegressionReport.HiddenByWarmUp | scripts/benchmark-matrix/regression-detector.ts:579-582 | collections at twice their budget and history, with nothing emitted at all |
| RegressionReport.OwnChecks | scripts/benchmark-matrix/regression-detector.ts:277-329 | the seven checks have distinct titles and metrics, each budget is looked up under one key, and none keeps its history under its metric |
| RegressionReport.FlappingOfOwnHistoryIff | scripts/benchmark-matrix/regression-detector.ts:606-610 | the verdict on a metric is that on its own history, for all stored histories, if and only if both are stored under one name |
| RegressionReport.SteadyMarkedFlapping | scripts/benchmark-matrix/regression-detector.ts:606-610 | for every check of the program there are histories with which its steady trend is marked as flapping |
| TestOrder.TestNameDropsFirst | scripts/benchmark-matrix/index.ts:302-304 | the name is the file name without its first `.test.ts` and with everything else |
| TestOrder.TestNameWithoutSuffix | scripts/benchmark-matrix/index.ts:302-304 | a file without it keeps its name |
| TestOrder.TestNameOf | scripts/benchmark-matrix/index.ts:302-304 | `name.test.ts` is the file of the test `name` |
| TestOrder.OrderTests | scripts/benchmark-matrix/index.ts:469-487 | the loops compute the grouped files in order of their names, then the ungrouped files in order of discovery |
| TestOrder.OrderedMember | scripts/benchmark-matrix/index.ts:473-487 | a file is ordered exactly when no group names it or it is the first file of its name |
| TestOrder.OrderedDistinct | scripts/benchmark-matrix/index.ts:476-478 | no file is ordered twice |
| TestOrder.PickedInNameOrder | scripts/benchmark-matrix/index.ts:473-480 | grouped files come in the order in which their names first occur in the groups |
| TestOrder.OrderedIsPermutation | scripts/benchmark-matrix/index.ts:469-487 | the ordered list is a permutation of the discovered files if and only if no two files share a grouped name |
| TestOrder.RunCount | scripts/benchmark-matrix/index.ts:766-768 | a file runs as often as groups name it |
| TestOrder.GroupRunsInOrder | scripts/benchmark-matrix/index.ts:756-768 | a group runs exactly its tests that are not skipped, in the order of the files |
| TestOrder.GroupsInOrder | scripts/benchmark-matrix/index.ts:756-768 | groups run one after the other |
| TestOrder.RunsEachOnce | scripts/benchmark-matrix/index.ts:755-771 | the tests counted in the total run exactly once each if and only if exactly one group names each of them |
| TestOrder.UngroupedNeverRuns | scripts/benchmark-matrix/index.ts:482-487 | a test in no group is counted and never run |
| MatrixRun.TestRun.constructor | scripts/benchmark-matrix/index.ts:743-764 | nothing queued, running or counted; everything counted still remains |
| MatrixRun.TestRun.StartNext | scripts/benchmark-matrix/index.ts:821-832 | takes the head of the queue, marks it running and no longer remaining, appends its promise; queued, running and finished files still partition the group and the bound holds |
| MatrixRun.TestRun.TestEnds | scripts/benchmark-matrix/index.ts:839-912 | one more completed, one more passed or failed, never both; the process exits exactly on a failure in fail-fast mode |
| MatrixRun.TestRun.Settles | scripts/benchmark-matrix/index.ts:914-918 | removes this promise and no other |
| MatrixRun.TestRun.StartTests | scripts/benchmark-matrix/index.ts:821-919 | afterwards the bound is reached or the queue is empty |
| MatrixRun.TestRun.AwaitRace | scripts/benchmark-matrix/index.ts:921-923 | whatever happens during the await, in any order, the invariant holds and the work left has shrunk |
| MatrixRun.TestRun.Drain | scripts/benchmark-matrix/index.ts:820-924 | the loop terminates for every interleaving, with nothing queued and nothing active unless the process exited |
| MatrixRun.TestRun.RunGroup | scripts/benchmark-matrix/index.ts:780-928 | every file of the group is started once, in order, and finishes once; with concurrency 1 they finish in order |
| MatrixRun.TestRun.Tally | scripts/benchmark-matrix/index.ts:744-750 | completed is passed plus failed; in fail-fast mode failed is 0 while running and 1 on exit |
| MatrixRun.TestRun.RunAll | scripts/benchmark-matrix/index.ts:743-929 | in continue-on-error mode the run always completes; what was run is the run list, and passed plus failed is its length |
| MatrixRun.UngroupedRemain | scripts/benchmark-matrix/index.ts:756-771 | what still counts as remaining at the end is exactly the unskipped tests no group names |
| StableSort.SortIsStable | src/content/content-utils.ts:77-81 | the sort orders by order number, then name, and keeps the order of ties |
| StableSort.StableSortUnique | src/content/content-utils.ts:248-248 | there is one stable sort of a sequence, so the model stands for any implementation |
| ContentTree.ChainUnique | src/content/content-utils.ts:224-249 | walking up from a node leaves no choice |
| ContentTree.ChainDistinct | src/content/content-utils.ts:224-249 | no node occurs twice on a way from a root |
| ContentTree.ChainBounded | src/content/content-utils.ts:224-249 | the recursion is no deeper than the store is large, so it terminates on cyclic stores too |
| ContentTree.OccurrencesUnfold | src/content/content-utils.ts:224-249 | a node occurs below the end of a chain exactly once if a loaded way leads to it and never otherwise |
| ContentTree.FullTreePlaced | src/content/content-utils.ts:129-137 | every node of the full tree hangs under its own parent if that is present and is a root otherwise |
| ContentTree.FullTreeOccurrences | src/content/content-utils.ts:114-138 | a stored node occurs once if its ancestors lead to a root, and not at all otherwise |
| ContentTree.FullTreeConserves | src/content/content-utils.ts:114-138 | the full tree holds every node once if and only if every node's ancestors lead to a root |
| ContentTree.RootedIffAcyclic | src/content/content-utils.ts:129-137 | which is the case if and only if the parent links have no cycle |
| ContentTree.FullTreeConservesIffAcyclic | src/content/content-utils.ts:114-138 | conservation of nodes, exactly for acyclic parent links |
| ContentTree.CycleUnrooted | src/content/content-utils.ts:129-137 | nodes on a cycle are in neither tree |
| ContentStructure.CopyNodes | src/content/content-utils.ts:120-127 | one fresh copy for each node, with no children |
| ContentStructure.LinkOne | src/content/content-utils.ts:130-137 | a copy is pushed to its parent's copy or to the roots, and every other list is unchanged |
| ContentStructure.GetContentStructure | src/content/content-utils.ts:108-139 | the linked copies spell out the full forest of the tenant's nodes; nothing while initializing; the store is not written |
| TreeResults.FullTreeShows | src/content/content-utils.ts:108-138 | the forest in terms of the store: every node is a stored node of the tenant, under the parent it names or on top when that is not stored for the tenant, siblings in store order, each node once when a way leads to it from the top and else not |
| TreeResults.OfTenantMember | src/content/content-utils.ts:114-117 | with a tenant named the nodes are exactly the stored ones with its id, else all |
| NavigationTree.BuildIndex | src/content/content-utils.ts:207-222 | the single pass, with other tenants skipped, leaves the index of the tenant's nodes |
| NavigationTree.IndexFromIndexes | src/content/content-utils.ts:215-221 | which holds, under each key, exactly the nodes with that parent, in store order, and no key without nodes |
| NavigationTree.BuildTreeShape | src/content/content-utils.ts:224-249 | `buildTree` is the loaded part of the forest with every sibling list stably sorted |
| NavigationTree.StripShapes | src/content/content-utils.ts:160-172 | stripping keeps the tree, each node with its own fields |
| TreeResults.StripIs | src/content/content-utils.ts:160-172 | each stripped node has its own fields, no empty list of children and no `hasChildren` |
| NavigationTree.GetNavigationStructureProgressive | src/content/content-utils.ts:198-252 | index and recursion together give the navigation tree of the tenant's nodes |
| TreeResults.NavigationShows | src/content/content-utils.ts:198-252 | the tree in terms of the store: children are present if and only if the level is below `maxDepth` or the id is expanded, every node is a stored node of the tenant with its own fields under the parent it names, `hasChildren` tells of children not shown, siblings are sorted by order (999 without one) and name, and each node of the tenant is shown once when a way leads to it and else not; with nothing expanded there are at most max(1, maxDepth) levels |
| TreeResults.DefaultIsRoots | src/content/content-utils.ts:203-231 | by default the tree is the roots, none with its children |
| NavigationLaws.ProgressiveShows | src/content/content-utils.ts:224-249 | a node is shown, and then once, exactly when its parent chain reaches a root and every ancestor is above the depth limit or expanded |
| NavigationLaws.ProgressiveHasChildren | src/content/content-utils.ts:231-244 | every shown node loads its children by depth and expansion, and `hasChildren` is set exactly when it has children that were not loaded |
| NavigationLaws.HeightCovers | src/content/content-utils.ts:203-231 | a depth limit of at least the height stops short of nothing |
| NavigationLaws.ExpandedCovers | src/content/content-utils.ts:204-231 | nor does expanding every id |
| NavigationLaws.ProgressiveAgreesWithFull | src/content/content-utils.ts:198-252 | when nothing is cut off, the navigation tree is the stripped full tree with sibling lists stably sorted, if and only if every named parent resolves |
| NavigationLaws.OrphanDisagrees | src/content/content-utils.ts:207-222 | one node with an unknown parent, on which the two trees differ |
| NavigationLaws.NullParentDisagrees | src/content/content-utils.ts:207-222 | a node under a node with the id `null`, on which they differ |
| Descendants.GetDescendants | src/content/content-utils.ts:258-276 | terminates on every parent graph and returns the nodes reachable by one or more child links, and no others |
| Descendants.ClosedHoldsReached | src/content/content-utils.ts:264-274 | a set that holds the start and is closed under child links holds everything below the start |
| Descendants.DescendantsOnce | src/content/content-utils.ts:258-276 | with unique ids each of them is returned exactly once |
| Categories.GenerateCategoryNodes | src/content/content-utils.ts:23-72 | the loops over files and segments build, for each path asked for, the node that asked first |
| Categories.AddFile | src/content/content-utils.ts:36-69 | the inner loop adds the nodes one path asks for and keeps its walk in step with the path |
| CategoryLaws.GeneratedIsFirstOfEach | src/content/content-utils.ts:49-66 | one node for each path, the first that was asked for, in the order of asking |
| CategoryLaws.GeneratedParentsFirst | src/content/content-utils.ts:39-69 | whatever the paths, a parent is null or the id of a node emitted earlier, and ids are those of the paths |
| CategoryLaws.GeneratedNames | src/content/content-utils.ts:49-55 | each category is named after a folder of some file, with a capital, and its path ends in that folder in lower case |
| CategoryLaws.CategoriesAreProperPrefixes | src/content/content-utils.ts:41-70 | the emitted paths are exactly the lower-cased proper prefixes, less `/collection` itself, if and only if no file has a folder `collection` below the top |
| CategoryLaws.BuriedCollection | src/content/content-utils.ts:41-70 | for `/a/collection/b/f.ts`, the folder `/a/collection` has no node and that of `b` is `/collection/b` with the node of `/a` as parent |
| CategoryLaws.GeneratedUnderPrefix | src/content/content-utils.ts:57-68 | then each node's parent is null at the top and the immediate prefix's node elsewhere |
| CategoryLaws.PartsOfJoined | src/content/content-utils.ts:34-34 | splitting undoes joining for every list of non-empty segments |
| CategoryLaws.DistinctIdsIff | src/content/content-utils.ts:51-51 | ids are distinct if and only if the folders of the files spell no two paths that are the same up to slash and underscore |
| CategoryLaws.DistinctIdsOnTop | src/content/content-utils.ts:51-51 | with `collection` on top only, these paths are the proper prefixes of the file paths |
| CategoryLaws.IdsDistinctWithoutUnderscores | src/content/content-utils.ts:51-51 | ids are distinct when no folder holds an underscore |
| CategoryLaws.UnderscoreClash | src/content/content-utils.ts:51-51 | any folders a/b and a_b share an id |
| CategoryLaws.CategoriesMakeAForest | src/content/content-utils.ts:23-72 | stored as content nodes, categories with distinct ids make a forest that shows each exactly once |
| FirstCollection.CompareIsTotalPreorder | src/content/first-collection.ts:77-89 | the comparator is antisymmetric in sign and transitive for every order map |
| FirstCollection.CompareIsKeyOrder | src/content/first-collection.ts:77-89 | it compares by effective order, then effective name |
| FirstCollection.FirstCollectionIsEarliestLeast | src/content/first-collection.ts:99-106 | null exactly when no node is user-facing; otherwise a minimum of the user-facing nodes, and the earliest of its ties |
| FirstCollection.FirstIsEarliestLeast | src/content/first-collection.ts:99-106 | filter, stable sort and head is a linear scan for the earliest minimum, for any elements and keys |
| FirstCollection.EarliestLeastUnique | src/content/first-collection.ts:99-106 | there is only one such position |
| FirstCollection.HeadOfAnyStableSort | src/content/first-collection.ts:103-105 | any stable sort gives the same answer |
| FirstCollection.FirstIgnoresOrder | src/content/first-collection.ts:99-106 | without ties the order of the input does not matter |
| FirstCollection.KeyIsFirstText | src/content/first-collection.ts:32-41 | the key is the lower-cased first that is not empty of: the definition's id, its slug, the node's id, its slug, its name |
| FirstCollection.ChosenIsUserFacing | src/content/first-collection.ts:43-57 | what is chosen is a collection with a definition and a key that is not reserved |
| FirstCollection.ReservedIff | src/content/first-collection.ts:43-48 | reserved are the empty key, five names and everything under five prefixes |
| FirstCollection.OrderPrecedence | src/content/first-collection.ts:83-84 | an order given for the id counts first, then one for the key, then the node's own, then 999 |
| FirstCollection.NamePrecedence | src/content/first-collection.ts:87-87 | equal orders are told apart by name, or by key where there is none |
| FieldPrep.CompilePlan | src/content/content-utils.ts:513-544 | the four lists hold, in schema order, the fields that ask for each step |
| FieldPrep.PrepPlanCache.GetOrCompilePrepPlan | src/content/content-utils.ts:509-551 | the cached plan if there is one, else a new one, which is then cached; other entries are untouched and a current entry stays current |
| FieldPrep.RunSteps | src/content/content-utils.ts:574-590 | one loop: the clone is made at the first write and only then, and the data object is never written |
| FieldPrep.RunPlan | src/content/content-utils.ts:570-625 | the four loops have the effect of their steps in order on at most one clone |
| FieldPrep.PrepareFieldsCore | src/content/content-utils.ts:562-628 | the input itself when no step writes, else a fresh clone with the steps applied; the cache changes for this schema only |
| FieldPrep.PrepareCollectionFields | src/content/content-utils.ts:657-678 | the same by flags; with neither flag the input itself, and the cache is not asked; the plans of other schemas stay |
| FieldResults.RecordIsPrepared | src/content/content-utils.ts:562-628 | in terms of types and values: array fields keep every row that is neither null nor undefined, as often as it occurs and in order; texts are cleaned by type and cut to the first maxLength (255) characters; every other value, and every field no schema field names, is unchanged |
| FieldResults.TouchesIff | src/content/content-utils.ts:562-628 | nothing is written, and the input returned, if and only if no field has a text to clean, a gap to drop or a text over its length |
| FieldResults.RowsStay | src/content/content-utils.ts:594-601 | the rows that stay |
| FieldPrep.LegacyChain | src/content/content-utils.ts:408-479 | sanitize, strip nulls and truncate as three calls give the data of one call with both flags, the input itself when nothing is written, and the same for no data or no fields |
| FieldPrep.ChainIsOnePass | src/content/content-utils.ts:643-651 | the three passes compose to the one pass, for every plan and record |
| FieldPrep.UntouchedSame | src/content/content-utils.ts:553-561 | when no step writes, nothing differs, so returning the input is right |
| FieldPrepLaws.FieldByField | src/content/content-utils.ts:572-625 | no field is added or removed, and each field's value depends on its own steps only |
| FieldPrepLaws.UntargetedUnchanged | src/content/content-utils.ts:559-561 | a field the plan does not mention is unchanged |
| FieldPrepLaws.DuplicateNamesDiffer | src/content/content-utils.ts:640-645 | an input with two fields of one name on which the passes and one loop over the schema differ |
| FieldPrepLaws.ConstraintsHold | src/content/content-utils.ts:593-625 | afterwards no array field holds a null row and no text is over its limit, whichever passes share a field |
| FieldPrepLaws.ConstraintsIdempotent | src/content/content-utils.ts:593-625 | with no negative length the constraints pass is idempotent and its second run returns its input |
| FieldEffects.TrailText | src/content/content-utils.ts:574-625 | after any steps a text is what its last sanitizer left, less what the later cuts take |
| FieldEffects.WordAgreesIff | src/content/content-utils.ts:570-625 | a sequence of steps on one field does what its four passes do, for all sanitizers and values, if and only if it is in pass order or its last cuts leave nothing |
| PlanLaws.RecordsAgreeIff | src/content/content-utils.ts:572-625 | two lists of steps agree on all records and sanitizers if and only if they agree field by field |
| PlanLaws.PlanSortsWord | src/content/content-utils.ts:513-544 | for each field the compiled plan runs the steps of the loop over the schema, sorted by pass |
| PlanLaws.WordOrder | src/content/content-utils.ts:513-544 | they were in pass order already if and only if no two fields of that name come in the wrong order |
| PlanLaws.PassesAreOneLoopIff | src/content/content-utils.ts:640-645 | in every mode, the exact condition on the schema for the compiled passes to equal one loop over its fields, on all records and sanitizers |
| PlanLaws.SanitizeIsOneLoopIff | src/content/content-utils.ts:640-645 | sanitizing equals one loop if and only if no text field comes before a rich-text field of the same name |
| PlanLaws.ConstraintsAreOneLoop | src/content/content-utils.ts:640-645 | the constraints equal one loop for every schema |
| PlanLaws.PlanIsFieldLoop | src/content/content-utils.ts:640-645 | with distinct field names every mode equals one loop |
| PlanLaws.PlansAgreeIff | src/content/content-utils.ts:562-628 | two plans agree on all records and sanitizers if and only if they ask the same of every field: as many sanitizers of each kind, null rows or not, and lengths that leave as much |
| PlanLaws.ConstraintsIdempotentIff | src/content/content-utils.ts:612-625 | for any plan, the constraints pass is idempotent on every record if and only if each field's lengths take nothing from the end or leave nothing at all |
| PlanLaws.NegativeLengthTwice | src/content/content-utils.ts:612-625 | a length of -1 takes a character on the first call and another on the second |
| PlanCache.PrepareEach | src/content/content-utils.ts:509-678 | over any sequence of calls on any schemas whose cached plans are current, every call gives its result without a cache, which is what the types of the schema ask of the record |
| PlanCache.PrepareAfterEdit | src/content/content-utils.ts:509-515 | after an edit of the fields the next call runs the plan of the old ones |
| PlanCache.StaleAgreesIff | src/content/content-utils.ts:509-515 | the edit goes unnoticed on all records and sanitizers if and only if old and new fields ask the same of every name |
| PlanCache.StalePlanDiffers | src/content/content-utils.ts:509-515 | a length raised from 1 to 3 after a call, with which the old plan gives another result |
| Dispatcher.Server.constructor | src/hooks.server.ts:85-145 | the module variables after evaluation: pass-through handlers, nothing cached |
| Dispatcher.Server.CurrentSetupStateWithMemo | src/hooks.server.ts:97-119 | asks on bypassing paths, without a memo, or after 60 s, and remembers the answer; otherwise the memo |
| Dispatcher.Server.HotSwap | src/hooks.server.ts:616-631 | a changed setup state is stored and drops all three cached pipelines; loading follows exactly when setup has become complete |
| Dispatcher.Server.InstallMiddleware | src/hooks.server.ts:184-203 | all fourteen handlers become real at once |
| Dispatcher.Server.GetSetupPipeline | src/hooks.server.ts:577-583 | the cached setup pipeline, or one built now |
| Dispatcher.Server.GetFullPipeline | src/hooks.server.ts:524-575 | the cached pipeline of the lane, or one built from the handlers of this moment |
| Dispatcher.Server.Proceed | src/hooks.server.ts:633-728 | fast returns, the counter, and the choice of pipeline up to the next await |
| Dispatcher.Server.Leave | src/hooks.server.ts:743-745 | the counter loses one and no other variable changes |
| DispatcherRuns.NextOk | src/hooks.server.ts:601-798 | every step of every request keeps the invariant |
| DispatcherRuns.AlwaysInv | src/hooks.server.ts:601-798 | the invariant holds after every run |
| DispatcherRuns.NoPassThrough | src/hooks.server.ts:513-585 | in every interleaving, with failing imports and setup flips, no cached full pipeline holds a pass-through handler, and a request that read setup as complete runs the full pipeline of its lane |
| DispatcherRuns.InFlightCounts | src/hooks.server.ts:640-797 | the counter is the number of requests between their increment and their `finally` |
| DispatcherRuns.Handle | src/hooks.server.ts:601-745 | `handle` up to its first await, composed from the server's methods, makes exactly the arrival step and serves its pipeline |
| DispatcherRuns.Perform | src/hooks.server.ts:601-798 | so does every later stretch: the methods, called as the code calls them, make every step of the transition system |
| DispatcherRuns.SetupValueFresh | src/hooks.server.ts:90-119 | in every run, a request that did not wait in the hot swap selects its pipeline by the value of its own check: an answer less than 60 s old, and a new one on bypassing paths |
| RequestLaws.ArrivalRoutes | src/hooks.server.ts:601-728 | the arrival of any request, in full: what it is told, what is asked and remembered, and whether it is done, waits, or is served |
| RequestLaws.AnsweredAtOnceIff | src/hooks.server.ts:606-655 | a request is answered on arrival if and only if it is a static file, or a favicon or plain health check that need not wait in the hot swap |
| RequestLaws.DoneBecause | src/hooks.server.ts:601-798 | in every run a finished request was one of these, or was served a pipeline, or had its imports fail, or was a diagnostic health check |
| RequestLaws.RequestArrived | src/hooks.server.ts:601-798 | the request a phase carries is the one that arrived |
| RequestLaws.AsksIff | src/hooks.server.ts:97-119 | a request asks if and only if its path bypasses the memo, none has asked before, or the latest answer is 60 s old; otherwise it is told that answer |
| RequestLaws.ServedInOrder | src/hooks.server.ts:513-585 | in every run a served request passes every hook of its kind, in the one order, none a pass-through; API lanes leave out three hooks, an incomplete setup all but two |
| RequestLaws.ChangeDropsPipelines | src/hooks.server.ts:616-623 | after an arrival that finds setup incomplete again no full pipeline is cached |
| RequestLaws.LazyHooks | src/hooks.server.ts:129-145 | which hooks are pass-throughs until the imports arrive |
| RequestLaws.BootLoadsIff | src/hooks.server.ts:205-208 | the middleware loads with the module if and only if setup is complete then |
| DispatcherRuns.ReadsLatestAnswer | src/hooks.server.ts:616-728 | every request selects its pipeline by the latest answer given before it reads the flag; one that waited in the hot swap had been given a new answer itself |
| DispatcherRuns.FreshWhenServedIff | src/hooks.server.ts:90-119 | when its pipeline is served, the value is less than 60 s old if and only if the latest answer before the request read the flag is; that answer is the one of its own check unless it waited in the hot swap, and without any wait it always is |
| DispatcherRuns.StaleAfterWait | src/hooks.server.ts:616-631 | a run in which a request uses an answer that is 60 s old |
| DispatcherRuns.FlippedWhileWaiting | src/hooks.server.ts:616-631 | a run in which a request waiting in the hot swap gets the setup pipeline although its own check said complete |
| DispatcherRuns.OwnValueIff | src/hooks.server.ts:616-631 | a request goes by the value of its own check if and only if it did not wait in the hot swap or the latest answer when it read the flag was again that setup is complete |
| DispatcherRuns.SetupFlagIsLatestAnswer | src/hooks.server.ts:616-623 | the flag is always the latest answer |
| DispatcherRuns.FirstInstallDropsNothing | src/hooks.server.ts:199-203 | before the first installation no full pipeline is cached |
| DispatcherRuns.ApiSkipsPageHooks | src/hooks.server.ts:528-573 | the API pipeline is the full one without its three page-only hooks, in the same order; the security gates precede the API handlers |

## Left out

- Bodies of the individual hooks, tracing, security headers, background services and shutdown: handlers are opaque tags, `isSetupComplete()` and the clock are inputs. A build-time override of the setup flag counts as an answer.
- DispatcherRuns.FreshWhenServedIff: requires that the clock does not run backwards; no other lemma requires it.
- Static, favicon and health answers beyond their effect on the counter.
- Patterns with quantified groups, `{`, `?`, `|`, `^`, `$`, a backslash, or ranges and complements in brackets, which the translation does not escape: the regular expression reader of the model rejects them. None of the program's patterns has any.
- OwnRules.PageRulesNeverWanted: is about the three rules whose only pattern is a page folder; rules with further patterns can be wanted through those.
- SuiteSelection.SelectForChange: the order of the files in a suite of the graph and its command are not stated; narrowing the unit suite to changed identifiers is not part of this model.
- Import extraction and resolution, git, command strings, the retry cache and the whole table of suites: the model takes any table.
- TestSelection.FindTransitiveDependents: returns a set; the insertion order of the JavaScript Set is not stated, because the order in which neighbours are visited depends on Set iteration.
- `localeCompare`, `toLowerCase`, `toUpperCase`, `sanitizeHtml` and `stripHtml` are parameters; characters are not split into UTF-16 units.
- Floating-point rounding in the statistics: `real`, with squares compared instead of square roots. `weightedAverage` with weights, `classifyTrend` and the computations of the exponential model are not part of this model.
- RegressionReport.EmitRatios: the latest ratio and the median of the earlier ones are inputs; the query over stored runs and their grouping by metric and phase are not part of this model.
- RegressionReport.ReportAdapter: an entry is modelled without its database, reason, root cause, confidence and previous average, which is the value `changePct` is relative to; over a budget of zero the percentage is 0 where the program has Infinity. The additions across databases after the loop are not part of this model.
- The concurrency bound is 1 in the program and any positive number here. Server restarts, health gates, timers, the progress display and reports of the benchmark matrix; console output is taken not to throw.
- ContentStructure.GetContentStructure: requires unique ids within the tenant, because the store keys its nodes by id; duplicate ids would overwrite each other in the Map.
- The content store itself, the navigation cache, breadcrumbs, sibling-name checks, numeric range checks, content metrics, schema variants of first-collection selection and path building.
- Timestamps, icons and other constant fields of category nodes.
- Network, file system, processes, linters, scanners, report generation and configuration: effects or heuristics with no crisp specification.
- Eviction from the WeakMap of plans: an evicted plan is compiled again, which changes no result while the schema's fields stay as they are.
