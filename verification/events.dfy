/**
 * The cucumber-js event protocol as the listener consumes it, the lifecycle
 * events it emits, and the errors its handlers can raise.
 */
module Events {
  import opened Wrappers
  import opened Gherkin

  /** A reference to a test case or step by file and line: `{ uri, line }`. */
  datatype SourceRef = SourceRef(uri: string, line: int)

  /** `gherkin-document`: one parsed feature file. */
  datatype GherkinDocEvent = GherkinDocEvent(uri: string, document: Document)

  /** The runner's own summary of a scenario; the listener passes it through untouched. */
  datatype Pickle = Pickle(name: string, tags: seq<Tag>, locations: seq<Location>)

  /** `pickle-accepted`. */
  datatype PickleEvent = PickleEvent(uri: string, pickle: Pickle)

  /**
   * One step execution of a prepared case: a declared step has a
   * `sourceLocation`; a hook has only the `actionLocation` of its code.
   */
  datatype PreparedStep = PreparedStep(sourceLocation: Option<SourceRef>, actionLocation: SourceRef)

  /** `test-case-prepared`. */
  datatype TestCasePrepared = TestCasePrepared(sourceLocation: SourceRef, steps: seq<PreparedStep>)

  /** `test-step-started`: step `index` of the case at `testCase`. */
  datatype TestStepStarted = TestStepStarted(index: int, testCase: SourceRef)

  datatype StepResult = StepResult(duration: int, status: string, exception: Option<string>)

  /** `test-step-finished`. */
  datatype TestStepFinished = TestStepFinished(index: int, result: StepResult, testCase: SourceRef)

  /** `test-case-finished`. */
  datatype TestCaseFinished = TestCaseFinished(sourceLocation: SourceRef)

  /** What a step lookup can find: a declared (or synthesized) step, or an example row. */
  datatype StepOrRow = FoundStep(step: Step) | ExampleRow(row: TableRow)
  {
    function Line(): int
    {
      match this
      case FoundStep(s) => s.location.line
      case ExampleRow(r) => r.location.line
    }
  }

  /** The resolved lifecycle events. `None` stands for a JS `undefined` argument. */
  datatype Outbound =
    | BeforeFeature(uri: string, feature: Feature)
    | BeforeScenario(uri: string, feature: Feature, pickle: Pickle)
    | BeforeStep(uri: string, feature: Feature, scenario: Option<Child>, step: Option<StepOrRow>)
    | AfterStep(uri: string, feature: Feature, scenario: Option<Child>, step: Option<StepOrRow>, result: StepResult)
    | AfterScenario(uri: string, feature: Feature, scenario: Option<Child>)
    | AfterFeature(uri: string, feature: Feature)

  /** The TypeErrors a handler throws when a lookup comes back `undefined` and is dereferenced. */
  datatype ListenerError =
    | NoDocument(uri: string)          // no stored document has this uri
    | NoPreparedCase(ref: SourceRef)   // no prepared case has this uri and line
    | NoPreparedStep(index: int)       // the prepared case has no step at this index
    | NoScenario(ref: SourceRef)       // no child and no example row at this line
    | NoDocumentToPop                  // the run finished with no document stored
}
