# cucumberEventListener, modelled in Dafny

This is a model of the event correlator of wdio-cucumber-framework, `CucumberEventListener`.

The listener subscribes to the cucumber-js event stream. It keeps two arrays:

- `gherkinDocEvents`: every parsed Gherkin document, oldest first.
- `testCasePreparedEvents`: every prepared test case.

Most runner events name a test case only by its feature file's uri and a line number. The listener resolves each such event back to the feature, the scenario and the step it means, then re-emits it as a lifecycle event:

- `before-feature`
- `before-scenario`
- `before-step`
- `after-step`
- `after-scenario`
- `after-feature`

A scenario outline's test case is named by the line of one of its example rows. Hooks show up only as prepared steps that have no `sourceLocation`. When a case is prepared, the listener splices a synthetic `Hook` step into the scenario at the hook's index, and gives the prepared step the hook's action line as its `sourceLocation`. A later step event for that index then resolves to the first step of the document at that line. The lookup compares lines only, not uris. So this is the hook only when no earlier step of the document sits on the same line.

## Modules

- `Wrappers`: `Option` and `Result`.
- `JsArray`: the array operations the listener is built from, with lemmas about them:
  - searching for the first match;
  - filtering;
  - concatenating a list of lists from the left;
  - insertion with a clamped start index.
- `Gherkin`: the document tree, made of feature, children (background, scenario or outline), steps, example tables and rows.
- `Events`: the inbound runner events, the outbound lifecycle events, and `ListenerError`. `ListenerError` covers the `TypeError`s the JavaScript throws when a lookup comes back `undefined` and is then dereferenced.
- `Lookup`: the pure lookups:
  - `findScenarioByExampleLocation`;
  - the two-tier scenario lookup shared by the handlers;
  - `findStepOrExampleByLocation`.
- `Hooks`: the hook splicing of `onTestCasePrepared` as a specification function `Prepare`, with its guard, its effect on the scenario and its idempotence.
- `Listener`: the class `CucumberEventListener`.
  - Its two arrays are `seq` fields.
  - There is one method per handler. Each returns the event it would emit, or the error it would throw.
  - `OnTestCasePrepared` is proved against `Hooks.Prepare`. Its `forEach` loop is the method `SpliceHookSteps`, whose invariants tie each iteration to `Hooks.SpliceHooks`.
- `ReporterFixture`: the feature file from the reporter's tests, with the resolutions those tests expect.

## Model

| member | source | states |
|---|---|---|
| JsArray.FindIndex | lib/cucumberEventListener.js:16 | the result is the first index whose element satisfies the predicate; it is None exactly when no element does |
| JsArray.Filter | lib/cucumberEventListener.js:144 | the result is no longer than the input; every element that satisfies the predicate is kept, and every kept element comes from the input and satisfies it |
| JsArray.Flatten | lib/cucumberEventListener.js:18-20 | the left fold gives the same list as concatenating the lists first list first (`Concat`) |
| JsArray.FlattenMembers | lib/cucumberEventListener.js:18 | every element of every inner list is in the result, and every element of the result comes from one of the inner lists |
| JsArray.Splice | lib/cucumberEventListener.js:158 | inserting grows the array by exactly one |
| JsArray.SpliceAt | lib/cucumberEventListener.js:158 | the element lands at the insertion point, which is the index clamped to the length; the elements before it are unchanged and the rest move up by one |
| JsArray.FindIndexFlatten | lib/cucumberEventListener.js:22 | searching the concatenated lists finds the first match in (list, position) order, and finds nothing exactly when no list holds a match |
| Lookup.FindDocument | lib/cucumberEventListener.js:102 | the earliest stored document with the uri; None exactly when no stored document has that uri |
| Lookup.OutlineRowFound | lib/cucumberEventListener.js:6-10 | the nested search over example tables succeeds exactly when some table of the child has a data row at the line |
| Lookup.FindScenarioByExampleLocation | lib/cucumberEventListener.js:3-12 | the first child that has examples with a data row at the line; None exactly when no child has one |
| Lookup.FindScenario | lib/cucumberEventListener.js:121 | a child declared at the line is always preferred, and the first such child is returned; only when no child is at the line, the first outline with a row at the line is returned, and None only when there is no such outline either |
| Lookup.ScenarioAt | lib/cucumberEventListener.js:143 | a scenario is found exactly when some child is at the line or has a row at it, and the one found is a child of the feature that is at the line or holds such a row |
| Lookup.FindPreparedCase | lib/cucumberEventListener.js:16 | the earliest prepared case with the same uri and line; None exactly when no stored case has them |
| Lookup.TargetLine | lib/cucumberEventListener.js:21 | the line is the prepared step's `sourceLocation` line when it has one, and its `actionLocation` line otherwise |
| Lookup.AllSteps | lib/cucumberEventListener.js:18 | every step of every child is in the list, and every element of the list is a step of some child |
| Lookup.AllExamples | lib/cucumberEventListener.js:19 | every example table of every child is in the list, and every element of the list is a table of some child; a child without examples contributes nothing |
| Lookup.AllExampleRows | lib/cucumberEventListener.js:20 | every data row of every collected example table is in the list, and every element of the list is a row of one of those tables |
| Lookup.FindStepAtLine | lib/cucumberEventListener.js:18-22 | None exactly when no step (declared or an inserted hook) of any child is at the line; otherwise a step at that line with no earlier one, children in order |
| Lookup.FindStepAtLineFirst | lib/cucumberEventListener.js:18-22 | searching the concatenated step lists finds the first step at the line in (child, step) order |
| Lookup.FindExampleRowAtLine | lib/cucumberEventListener.js:19-23 | None exactly when no child has an example row at the line; otherwise the first such row over all example tables in order |
| Lookup.FindExampleRowAtLineFirst | lib/cucumberEventListener.js:19-23 | searching the concatenated rows finds the first row at the line in (table, row) order |
| Lookup.ExampleRowsCover | lib/cucumberEventListener.js:19-20 | a row at the line exists among all example tables exactly when some child has one |
| Lookup.LocateStepOrRow | lib/cucumberEventListener.js:21-23 | any result is at the line; it is a step (declared or an inserted hook) exactly when one is at the line, and an example row exactly when no step and some row is at the line |
| Lookup.FindStepOrExampleByLocation | lib/cucumberEventListener.js:14-24 | no case with the uri and line is an error, and so is an index outside the found case's steps; otherwise the result is the step or row at the prepared step's `sourceLocation` line, or else at its `actionLocation` line |
| Hooks.HookFor | lib/cucumberEventListener.js:151-157 | the synthesized step has type and keyword `Hook`, empty text, the action's line and column 0 |
| Hooks.HasHooks | lib/cucumberEventListener.js:144 | the scenario counts as having hooks exactly when one of its steps has type `Hook` |
| Hooks.FillSourceLocations | lib/cucumberEventListener.js:150-151 | the same number of prepared steps, each now with a `sourceLocation` and with its `actionLocation` and resolved line unchanged; a step that already had a `sourceLocation` is unchanged |
| Hooks.Prepare | lib/cucumberEventListener.js:137-161 | only scenario steps change; the stored case keeps its location, its length and every step's resolved line; on an error nothing changes and the case is stored as given; no document for the uri is a `NoDocument` error, and a found document with no scenario at the line is a `NoScenario` error |
| Hooks.SpliceHooks | lib/cucumberEventListener.js:149-160 | splicing adds exactly one step per prepared step without a `sourceLocation` |
| Hooks.SpliceHooksKeepsDeclared | lib/cucumberEventListener.js:149-160 | the declared steps stay the same, in the same order |
| Hooks.SpliceHooksAddsHooks | lib/cucumberEventListener.js:152-158 | starting from a scenario without hooks, the hooks present afterwards are exactly those the prepared steps call for, in order, all at positions below the number of prepared steps |
| Hooks.SpliceHookAfterHooks | lib/cucumberEventListener.js:158 | inserting a hook behind all existing hooks appends it to the scenario's list of hooks |
| Hooks.SpliceHooksAtIndex | lib/cucumberEventListener.js:158 | a prepared step without `sourceLocation` at an index no later than the number of declared steps gets its hook at exactly that index, with the action's line and column 0 |
| Hooks.HooksForNone | lib/cucumberEventListener.js:150 | a case whose steps all have a `sourceLocation` calls for no hook |
| Hooks.SpliceHooksNone | lib/cucumberEventListener.js:149-160 | with no hook called for, the scenario's steps are left as they were |
| Hooks.LookupsIgnoreSteps | lib/cucumberEventListener.js:142-143 | changing only scenario steps changes neither which document a uri finds nor which child a line finds |
| Hooks.FindScenarioIgnoresSteps | lib/cucumberEventListener.js:143 | two documents whose children differ only in their steps resolve every line to the same child |
| Hooks.ReplacingStepsOnlyChangesSteps | lib/cucumberEventListener.js:158 | replacing one child's steps in one stored document changes nothing but steps |
| Hooks.PrepareGuard | lib/cucumberEventListener.js:144-147 | a scenario that already holds a hook is left untouched and the case is stored as given |
| Hooks.PrepareLocatedCase | lib/cucumberEventListener.js:148-160 | a case whose steps all have a `sourceLocation` changes no document and is stored as given |
| Hooks.PrepareSplicesHooks | lib/cucumberEventListener.js:148-160 | otherwise the scenario keeps its declared steps in order, gains exactly the hooks called for and grows by their number; every other document and child stays as it was |
| Hooks.PrepareIdempotent | lib/cucumberEventListener.js:144-147 | preparing the same case a second time changes no document and gives the same outcome |
| Listener.CucumberEventListener.constructor | lib/cucumberEventListener.js:27-28 | both arrays start empty |
| Listener.CucumberEventListener.OnGherkinDocument | lib/cucumberEventListener.js:77-85 | appends exactly the event to the documents, leaves the prepared cases alone, and emits `before-feature` with the event's uri and feature |
| Listener.CucumberEventListener.OnPickleAccepted | lib/cucumberEventListener.js:100-107 | emits `before-scenario` with the earliest stored feature for the uri and the pickle unchanged; no stored document is an error |
| Listener.CucumberEventListener.OnTestStepStarted | lib/cucumberEventListener.js:115-124 | emits `before-step` with the stored feature, the scenario found at the case's line and the resolved step or row; a missing document, prepared case or prepared step is an error |
| Listener.CucumberEventListener.OnTestCasePrepared | lib/cucumberEventListener.js:137-161 | the new documents and the outcome are those of `Prepare`; the case is appended, with its filled-in source locations when hooks were spliced |
| Listener.CucumberEventListener.OnTestStepFinished | lib/cucumberEventListener.js:170-180 | emits `after-step` with the same resolution as the step start and with the result unchanged |
| Listener.CucumberEventListener.OnTestCaseFinished | lib/cucumberEventListener.js:186-195 | emits `after-scenario` with the stored feature and the scenario at the case's line; no stored document is an error |
| Listener.CucumberEventListener.OnTestRunFinished | lib/cucumberEventListener.js:200-207 | removes exactly the newest document and emits `after-feature` with its uri and feature; with no document left it is an error and nothing changes |
| Listener.SpliceHookSteps | lib/cucumberEventListener.js:149-160 | the loop returns the scenario's steps with every called-for hook spliced in, and the prepared steps with their source locations filled in, as `Hooks.SpliceHooks` and `Hooks.FillSourceLocations` specify |
| Listener.PushThenPop | lib/cucumberEventListener.js:200-207 | a document pushed and then popped leaves both arrays as they were, and both events name the pushed feature |
| Listener.PrepareTwice | lib/cucumberEventListener.js:144-147 | a second identical prepare reports the same outcome, and the documents are as after one prepare |
| Listener.StepEventsAgree | lib/cucumberEventListener.js:170-180 | the start and the finish of the same step of the same case fail alike or resolve to the same uri, feature, scenario and step, and the finish carries the result unchanged |
| ReporterFixture.ScenarioLookups | test/reporter.spec.js:180-267 | line 133 finds the plain scenario, example row 131 finds its outline, and line 130 finds nothing |
| ReporterFixture.ScenarioStepsResolve | test/reporter.spec.js:180-224 | steps 1 and 2 of the case at 133 resolve to the declared steps at 134 and 135; index 3 and an unknown case are errors |
| ReporterFixture.OutlineStepResolves | test/reporter.spec.js:226-267 | step 1 of the case of example row 131 resolves to the outline step at 127 |
| ReporterFixture.HookLineMeetsDeclaredStep | lib/cucumberEventListener.js:21-22 | a hook's `actionLocation` line in a code file is compared with feature-file lines without its uri, so line 134 of the hook file resolves to the declared step at 134 |
| ReporterFixture.RowResolves | lib/cucumberEventListener.js:22-23 | a line held by no step but by the second example row resolves to that row |
| ReporterFixture.NothingResolves | lib/cucumberEventListener.js:22-23 | a line held by neither step nor row resolves to no step, which is not an error |
| ReporterFixture.HooksAroundScenario | lib/cucumberEventListener.js:149-160 | a before hook goes in first; an after hook whose index lies past the end by then is appended |
| ReporterFixture.ScenarioEvents133 | test/reporter.spec.js:180-224 | with the document and the case at 133 stored, step 1 starts at step 134, step 2 finishes at step 135 with its result, and the case ends in the plain scenario |
| ReporterFixture.PrepareCase133 | test/reporter.spec.js:182-200 | preparing the case at 133 changes no document and stores the case as given |
| ReporterFixture.ReporterSpecRun | test/reporter.spec.js:180-504 | as in the tests of `test-step-started`, failing `test-step-finished`, `test-case-finished` and `test-run-finished`, the whole run of the scenario at 133 emits `before-feature`, `before-step` for step 134, `after-step` for step 135 with its failed result, `after-scenario` and `after-feature` with the expected entities |

## Left out

- The `EventEmitter` subscription wiring in the constructor (lib/cucumberEventListener.js:30-42) is left out. Each handler returns the event it would emit instead of emitting it.
- `attachEventLogger` (lib/cucumberEventListener.js:211-235) only writes debug output, so it is not modelled.
- lib/reporter.js is not part of this model: uid formatting, status mapping, the failure counter, `send` and the acknowledgement-based `waitUntilSettled`.
- Object identity is not modelled, because documents, scenarios and cases are values here. In JavaScript, the same document object pushed twice, or a scenario object shared between documents, is updated in every place it is referenced. The model updates only the earliest stored document with the uri, which is the one every lookup reads.
- The synthetic hook's location keeps the line, with column 0. It does not keep the uri that the JavaScript copies onto it. No lookup compares that uri.
- A prepared step's `actionLocation` is always present. A prepared step with neither location, which makes the JavaScript throw at line 21 or 151, cannot be expressed.
- A child's `steps` and an example table's `tableBody` are always lists. The crashes the JavaScript would hit on a missing list are not modelled. A missing `examples` is `None`, and it is treated as an empty list, as the JavaScript does.
- Fields the listener never reads are dropped: comments, descriptions, language, pickle steps, and the results of `test-case-finished` and `test-run-finished`. A step without a type has the empty string as its type.
