/**
 * `CucumberEventListener`: the two arrays it keeps and one method per
 * cucumber-js event it subscribes to. Each handler returns the lifecycle event
 * it would emit (or the error it would throw) instead of calling `emit`.
 */
module Listener {
  import opened Wrappers
  import opened JsArray
  import opened Gherkin
  import opened Events
  import opened Lookup
  import opened Hooks

  class CucumberEventListener {
    /** The parsed documents, oldest first; the newest is popped when a run finishes. */
    var gherkinDocEvents: seq<GherkinDocEvent>
    /** Every prepared case, in arrival order. */
    var testCasePreparedEvents: seq<TestCasePrepared>

    constructor ()
      ensures gherkinDocEvents == [] && testCasePreparedEvents == []
    {
      gherkinDocEvents := [];
      testCasePreparedEvents := [];
    }

    /** `gherkin-document`: store the document last and announce its feature. */
    method OnGherkinDocument(ev: GherkinDocEvent) returns (out: Outbound)
      modifies this
      ensures gherkinDocEvents == old(gherkinDocEvents) + [ev]
      ensures testCasePreparedEvents == old(testCasePreparedEvents)
      ensures out == BeforeFeature(ev.uri, ev.document.feature)
    {
      gherkinDocEvents := gherkinDocEvents + [ev];
      var doc := ev.document;
      out := BeforeFeature(ev.uri, doc.feature);
    }

    /** `pickle-accepted`: the stored feature for the uri, with the pickle passed through. */
    method OnPickleAccepted(ev: PickleEvent) returns (r: Result<Outbound, ListenerError>)
      ensures FindDocument(gherkinDocEvents, ev.uri).None? ==> r == Err(NoDocument(ev.uri))
      ensures forall d :: FindDocument(gherkinDocEvents, ev.uri) == Some(d) ==>
        r == Ok(BeforeScenario(ev.uri, gherkinDocEvents[d].document.feature, ev.pickle))
    {
      var d := FindDocument(gherkinDocEvents, ev.uri);
      if d.None? {
        return Err(NoDocument(ev.uri));
      }
      var feature := gherkinDocEvents[d.value].document.feature;
      r := Ok(BeforeScenario(ev.uri, feature, ev.pickle));
    }

    /** `test-step-started`: resolve feature, scenario and step of step `index` of the case. */
    method OnTestStepStarted(ev: TestStepStarted) returns (r: Result<Outbound, ListenerError>)
      ensures FindDocument(gherkinDocEvents, ev.testCase.uri).None? ==> r == Err(NoDocument(ev.testCase.uri))
      ensures forall d :: FindDocument(gherkinDocEvents, ev.testCase.uri) == Some(d) ==>
        var doc := gherkinDocEvents[d].document;
        match FindStepOrExampleByLocation(doc, testCasePreparedEvents, ev.index, ev.testCase)
        case Err(e) => r == Err(e)
        case Ok(step) => r == Ok(BeforeStep(ev.testCase.uri, doc.feature, ScenarioAt(doc, ev.testCase.line), step))
    {
      var sourceLocation := ev.testCase;
      var uri := sourceLocation.uri;
      var d := FindDocument(gherkinDocEvents, uri);
      if d.None? {
        return Err(NoDocument(uri));
      }
      var doc := gherkinDocEvents[d.value].document;
      var scenario := ScenarioAt(doc, sourceLocation.line);
      var step := FindStepOrExampleByLocation(doc, testCasePreparedEvents, ev.index, sourceLocation);
      if step.Err? {
        return Err(step.error);
      }
      r := Ok(BeforeStep(uri, doc.feature, scenario, step.value));
    }

    /**
     * `test-case-prepared`: store the case, then splice a hook into the resolved scenario for every
     * prepared step without a `sourceLocation`, unless the scenario already holds a hook.
     */
    method OnTestCasePrepared(ev: TestCasePrepared) returns (r: Result<(), ListenerError>)
      modifies this
      ensures var p := Prepare(old(gherkinDocEvents), ev);
        r == p.result && gherkinDocEvents == p.docs &&
        testCasePreparedEvents == old(testCasePreparedEvents) + [p.stored]
    {
      var earlier := testCasePreparedEvents;
      testCasePreparedEvents := earlier + [ev];
      var sourceLocation := ev.sourceLocation;
      var uri := sourceLocation.uri;
      var d := FindDocument(gherkinDocEvents, uri);
      if d.None? {
        return Err(NoDocument(uri));
      }
      var docEvent := gherkinDocEvents[d.value];
      var k := FindScenario(docEvent.document, sourceLocation.line);
      if k.None? {
        return Err(NoScenario(sourceLocation));
      }
      var scenario := docEvent.document.feature.children[k.value];
      if HasHooks(scenario.steps) {
        return Ok(());
      }
      var steps, prepared := SpliceHookSteps(scenario.steps, ev.steps);
      PrepareSplices(gherkinDocEvents, ev, d.value, k.value);
      gherkinDocEvents := gherkinDocEvents[d.value := WithScenarioSteps(docEvent, k.value, steps)];
      // the case pushed above is the object whose steps the loop filled in
      testCasePreparedEvents := earlier + [ev.(steps := prepared)];
      r := Ok(());
    }

    /** `test-step-finished`: the same resolution as `test-step-started`, with the result passed through. */
    method OnTestStepFinished(ev: TestStepFinished) returns (r: Result<Outbound, ListenerError>)
      ensures FindDocument(gherkinDocEvents, ev.testCase.uri).None? ==> r == Err(NoDocument(ev.testCase.uri))
      ensures forall d :: FindDocument(gherkinDocEvents, ev.testCase.uri) == Some(d) ==>
        var doc := gherkinDocEvents[d].document;
        match FindStepOrExampleByLocation(doc, testCasePreparedEvents, ev.index, ev.testCase)
        case Err(e) => r == Err(e)
        case Ok(step) => r == Ok(AfterStep(ev.testCase.uri, doc.feature, ScenarioAt(doc, ev.testCase.line), step, ev.result))
    {
      var sourceLocation := ev.testCase;
      var uri := sourceLocation.uri;
      var d := FindDocument(gherkinDocEvents, uri);
      if d.None? {
        return Err(NoDocument(uri));
      }
      var doc := gherkinDocEvents[d.value].document;
      var scenario := ScenarioAt(doc, sourceLocation.line);
      var step := FindStepOrExampleByLocation(doc, testCasePreparedEvents, ev.index, sourceLocation);
      if step.Err? {
        return Err(step.error);
      }
      r := Ok(AfterStep(uri, doc.feature, scenario, step.value, ev.result));
    }

    /** `test-case-finished`: the stored feature and the scenario at the case's line. */
    method OnTestCaseFinished(ev: TestCaseFinished) returns (r: Result<Outbound, ListenerError>)
      ensures FindDocument(gherkinDocEvents, ev.sourceLocation.uri).None? ==> r == Err(NoDocument(ev.sourceLocation.uri))
      ensures forall d :: FindDocument(gherkinDocEvents, ev.sourceLocation.uri) == Some(d) ==>
        var doc := gherkinDocEvents[d].document;
        r == Ok(AfterScenario(ev.sourceLocation.uri, doc.feature, ScenarioAt(doc, ev.sourceLocation.line)))
    {
      var sourceLocation := ev.sourceLocation;
      var uri := sourceLocation.uri;
      var d := FindDocument(gherkinDocEvents, uri);
      if d.None? {
        return Err(NoDocument(uri));
      }
      var doc := gherkinDocEvents[d.value].document;
      var scenario := ScenarioAt(doc, sourceLocation.line);
      r := Ok(AfterScenario(uri, doc.feature, scenario));
    }

    /** `test-run-finished`: pop the newest document and announce the end of its feature. */
    method OnTestRunFinished() returns (r: Result<Outbound, ListenerError>)
      modifies this
      ensures old(gherkinDocEvents) == [] ==> r == Err(NoDocumentToPop) && gherkinDocEvents == []
      ensures old(gherkinDocEvents) != [] ==>
        var last := old(gherkinDocEvents)[|old(gherkinDocEvents)| - 1];
        gherkinDocEvents == old(gherkinDocEvents)[..|old(gherkinDocEvents)| - 1] &&
        r == Ok(AfterFeature(last.uri, last.document.feature))
      ensures testCasePreparedEvents == old(testCasePreparedEvents)
    {
      if |gherkinDocEvents| == 0 {
        return Err(NoDocumentToPop);
      }
      var gherkinDocEvent := gherkinDocEvents[|gherkinDocEvents| - 1];
      gherkinDocEvents := gherkinDocEvents[..|gherkinDocEvents| - 1];
      r := Ok(AfterFeature(gherkinDocEvent.uri, gherkinDocEvent.document.feature));
    }
  }

  /**
   * The `forEach` of `test-case-prepared`: for each prepared step without a `sourceLocation`, in order,
   * give it its `actionLocation` and splice a hook for it into the steps at its index.
   */
  method SpliceHookSteps(scenarioSteps: seq<Step>, preparedSteps: seq<PreparedStep>) returns (steps: seq<Step>, prepared: seq<PreparedStep>)
    ensures steps == SpliceHooks(scenarioSteps, preparedSteps)
    ensures prepared == FillSourceLocations(preparedSteps)
  {
    steps, prepared := scenarioSteps, preparedSteps;
    var idx := 0;
    while idx < |prepared|
      invariant 0 <= idx <= |preparedSteps| == |prepared|
      invariant steps == SpliceHooks(scenarioSteps, preparedSteps[..idx])
      invariant forall i :: 0 <= i < idx ==> prepared[i] == FillSourceLocation(preparedSteps[i])
      invariant forall i :: idx <= i < |preparedSteps| ==> prepared[i] == preparedSteps[i]
    {
      var step := prepared[idx];
      assert preparedSteps[..idx + 1][..idx] == preparedSteps[..idx];
      if step.sourceLocation.None? {
        var location := step.actionLocation;
        prepared := prepared[idx := step.(sourceLocation := Some(location))];
        steps := Splice(steps, idx, HookFor(location));
      }
      idx := idx + 1;
    }
    assert preparedSteps[..idx] == preparedSteps;
  }

  /** A document pushed and then popped leaves the stored documents as they were, and both events name its feature. */
  method PushThenPop(l: CucumberEventListener, ev: GherkinDocEvent) returns (before: Outbound, after: Result<Outbound, ListenerError>)
    modifies l
    ensures l.gherkinDocEvents == old(l.gherkinDocEvents)
    ensures l.testCasePreparedEvents == old(l.testCasePreparedEvents)
    ensures before == BeforeFeature(ev.uri, ev.document.feature)
    ensures after == Ok(AfterFeature(ev.uri, ev.document.feature))
  {
    before := l.OnGherkinDocument(ev);
    after := l.OnTestRunFinished();
  }

  /** Preparing the same case twice leaves the documents as preparing it once. */
  method PrepareTwice(l: CucumberEventListener, ev: TestCasePrepared) returns (first: Result<(), ListenerError>, second: Result<(), ListenerError>)
    modifies l
    ensures second == first
    ensures l.gherkinDocEvents == Prepare(old(l.gherkinDocEvents), ev).docs
  {
    first := l.OnTestCasePrepared(ev);
    second := l.OnTestCasePrepared(ev);
    PrepareIdempotent(old(l.gherkinDocEvents), ev);
  }

  /**
   * The start and the finish of the same step of the same case resolve to the same feature, scenario
   * and step, or fail alike; the finish carries the result unchanged.
   */
  method StepEventsAgree(l: CucumberEventListener, index: int, testCase: SourceRef, result: StepResult)
    returns (started: Result<Outbound, ListenerError>, finished: Result<Outbound, ListenerError>)
    ensures started.Err? <==> finished.Err?
    ensures started.Err? ==> started.error == finished.error
    ensures started.Ok? ==>
      started.value.BeforeStep? && finished.value.AfterStep? &&
      started.value.uri == finished.value.uri == testCase.uri &&
      started.value.feature == finished.value.feature &&
      started.value.scenario == finished.value.scenario &&
      started.value.step == finished.value.step &&
      finished.value.result == result
  {
    started := l.OnTestStepStarted(TestStepStarted(index, testCase));
    finished := l.OnTestStepFinished(TestStepFinished(index, result, testCase));
  }
}
