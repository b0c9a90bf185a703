/**
 * The feature file of the reporter's tests: a background at line 124, an outline at
 * 126 with steps at 127 and 128 and example rows at 131 and 132, and a scenario at
 * 133 with steps at 134 and 135, and the cases the runner prepares for it.
 */
module ReporterFixture {
  import opened Wrappers
  import opened JsArray
  import opened Gherkin
  import opened Events
  import opened Lookup
  import opened Hooks
  import opened Listener

  const URI: string := "./any.feature"

  const Background: Child :=
    Child("Background", [], Location(124, 0), "background",
      [Step("", Location(125, 1), "Given ", "background-title")], None)

  const OutlineStep127: Step := Step("Step", Location(127, 1), "When ", "I click on link \"=<link>\"")

  const Outline: Child :=
    Child("ScenarioOutline", [], Location(126, 0), "A passing scenario",
      [OutlineStep127, Step("Step", Location(128, 1), "Then ", "should the title of the page be \"Google\"")],
      Some([Examples(Location(129, 1), [TableRow(Location(131, 2), ["Google"]), TableRow(Location(132, 2), ["Also Google"])])]))

  const Step134: Step := Step("", Location(134, 1), "Given ", "step-title-passing")
  const Step135: Step := Step("", Location(135, 1), "When ", "step-title-failing")

  const Scenario: Child :=
    Child("Scenario", [Tag("@scenario-tag1"), Tag("@scenario-tag2")], Location(133, 0), "scenario", [Step134, Step135], None)

  const TheFeature: Feature :=
    Feature([Tag("@feature-tag1"), Tag("@feature-tag2")], Location(123, 1), "feature", [Background, Outline, Scenario])

  const Doc: Document := Document(TheFeature)

  /** The case at line 133: background step, then the two scenario steps. */
  const Case133: TestCasePrepared :=
    TestCasePrepared(SourceRef(URI, 133), [
      PreparedStep(Some(SourceRef(URI, 125)), SourceRef(URI, 133)),
      PreparedStep(Some(SourceRef(URI, 134)), SourceRef(URI, 133)),
      PreparedStep(Some(SourceRef(URI, 135)), SourceRef(URI, 133))])

  /** The case of example row 131: background step, then the outline's steps, with actions in a code file. */
  const Case131: TestCasePrepared :=
    TestCasePrepared(SourceRef(URI, 131), [
      PreparedStep(Some(SourceRef(URI, 125)), SourceRef("a code file", -1)),
      PreparedStep(Some(SourceRef(URI, 127)), SourceRef("a code file", -1)),
      PreparedStep(Some(SourceRef(URI, 128)), SourceRef("a code file", -1))])

  /** No two declared steps of the fixture share a line. */
  lemma StepAtUnique(line: int, i: int, j: int, i': int, j': int)
    requires StepAt(Doc, i, j, line) && StepAt(Doc, i', j', line)
    ensures i == i' && j == j'
  {
    assert Doc.feature.children == [Background, Outline, Scenario];
    assert |Background.steps| == 1 && |Outline.steps| == 2 && |Scenario.steps| == 2;
  }

  /** The fixture's only example table, as the flattened list of all example tables. */
  lemma AllExamplesOfDoc()
    ensures AllExamples(Doc) == Outline.examples.value
  {
    var lists := ExampleLists(Doc);
    assert lists == [[], Outline.examples.value, []];
    assert lists[..2] == [[], Outline.examples.value];
    assert lists[..2][..1] == [[]];
    assert lists[..2][..1][..0] == [];
    assert Flatten(lists[..2][..1]) == [];
    assert Flatten(lists[..2]) == Outline.examples.value;
    assert Flatten(lists) == Outline.examples.value + [];
  }

  /** The scenario at line 133 is found directly; example row 131 leads to its outline. */
  lemma ScenarioLookups()
    ensures ScenarioAt(Doc, 133) == Some(Scenario)
    ensures ScenarioAt(Doc, 131) == Some(Outline)
    ensures ScenarioAt(Doc, 130) == None
  {
    ScenarioAt133();
    ScenarioAt131();
    ScenarioAt130();
  }

  lemma ScenarioAt133()
    ensures FindScenario(Doc, 133) == Some(2)
    ensures ScenarioAt(Doc, 133) == Some(Scenario)
  {
    var children := Doc.feature.children;
    assert children[2].location.line == 133;
    assert children[0].location.line != 133 && children[1].location.line != 133;
  }

  lemma ScenarioAt131()
    ensures ScenarioAt(Doc, 131) == Some(Outline)
  {
    var children := Doc.feature.children;
    assert |children| == 3;
    assert children[0].location.line != 131 && children[1].location.line != 131 && children[2].location.line != 131;
    assert Outline.examples.value[0].tableBody[0].location.line == 131;
    assert HasExampleRowAt(children[1], 131);
    assert children[0].examples.None?;
  }

  lemma ScenarioAt130()
    ensures ScenarioAt(Doc, 130) == None
  {
    var children := Doc.feature.children;
    assert |children| == 3;
    assert children[0].location.line != 130 && children[1].location.line != 130 && children[2].location.line != 130;
    assert Outline.examples.value[0].tableBody[0].location.line != 130;
    assert Outline.examples.value[0].tableBody[1].location.line != 130;
    assert !HasExampleRowAt(children[1], 130);
    assert children[0].examples.None? && children[2].examples.None?;
  }

  /** Step 1 of the case at 133 is the declared step at line 134; step 2 the one at 135. */
  lemma ScenarioStepsResolve()
    ensures FindStepOrExampleByLocation(Doc, [Case133], 1, SourceRef(URI, 133)) == Ok(Some(FoundStep(Step134)))
    ensures FindStepOrExampleByLocation(Doc, [Case133], 2, SourceRef(URI, 133)) == Ok(Some(FoundStep(Step135)))
    ensures FindStepOrExampleByLocation(Doc, [Case133], 3, SourceRef(URI, 133)) == Err(NoPreparedStep(3))
    ensures FindStepOrExampleByLocation(Doc, [Case133], 1, SourceRef(URI, 131)) == Err(NoPreparedCase(SourceRef(URI, 131)))
  {
    assert FindPreparedCase([Case133], SourceRef(URI, 133)) == Some(0);
    assert TargetLine(Case133.steps[1]) == 134 && TargetLine(Case133.steps[2]) == 135;
    DeclaredStepResolves(2, 0, 134);
    DeclaredStepResolves(2, 1, 135);
  }

  /** A line held by exactly one declared step resolves to that step. */
  lemma DeclaredStepResolves(i: int, j: int, line: int)
    requires StepAt(Doc, i, j, line)
    ensures LocateStepOrRow(Doc, line) == Some(FoundStep(Doc.feature.children[i].steps[j]))
  {
    var r := FindStepAtLine(Doc, line);
    var i', j' :| StepAt(Doc, i', j', line) && r.value == Doc.feature.children[i'].steps[j'];
    StepAtUnique(line, i, j, i', j');
  }

  /** Step 1 of the case of example row 131 is the outline's step at line 127. */
  lemma OutlineStepResolves()
    ensures FindStepOrExampleByLocation(Doc, [Case133, Case131], 1, SourceRef(URI, 131)) == Ok(Some(FoundStep(OutlineStep127)))
  {
    var cases := [Case133, Case131];
    assert cases[0].sourceLocation != SourceRef(URI, 131);
    assert cases[1].sourceLocation == SourceRef(URI, 131);
    assert FindPreparedCase(cases, SourceRef(URI, 131)) == Some(1);
    assert TargetLine(Case131.steps[1]) == 127;
    DeclaredStepResolves(1, 0, 127);
  }

  /**
   * Lines are compared without their uri: a hook whose code sits at line 134 of a
   * code file resolves to the feature file's declared step at line 134.
   */
  lemma HookLineMeetsDeclaredStep()
    ensures
      var hookCase := TestCasePrepared(SourceRef(URI, 133), [PreparedStep(None, SourceRef("hooks.js", 134))]);
      FindStepOrExampleByLocation(Doc, [hookCase], 0, SourceRef(URI, 133)) == Ok(Some(FoundStep(Step134)))
  {
    var hookCase := TestCasePrepared(SourceRef(URI, 133), [PreparedStep(None, SourceRef("hooks.js", 134))]);
    assert FindPreparedCase([hookCase], SourceRef(URI, 133)) == Some(0);
    assert TargetLine(hookCase.steps[0]) == 134;
    DeclaredStepResolves(2, 0, 134);
  }

  /** The lines the fixture's declared steps are at. */
  lemma DeclaredStepLines(i: int, j: int, line: int)
    requires StepAt(Doc, i, j, line)
    ensures line in {125, 127, 128, 134, 135}
  {
    assert Doc.feature.children == [Background, Outline, Scenario];
  }

  /** A line with no declared step resolves to the example row there. */
  lemma RowResolves()
    ensures LocateStepOrRow(Doc, 132) == Some(ExampleRow(TableRow(Location(132, 2), ["Also Google"])))
  {
    forall i, j ensures !StepAt(Doc, i, j, 132) {
      if StepAt(Doc, i, j, 132) {
        DeclaredStepLines(i, j, 132);
      }
    }
    SecondRowFound();
  }

  /** The outline's two data rows are all the example rows of the document. */
  lemma AllExampleRowsOfDoc()
    ensures AllExampleRows(Doc) == [TableRow(Location(131, 2), ["Google"]), TableRow(Location(132, 2), ["Also Google"])]
  {
    AllExamplesOfDoc();
    var lists := RowLists(AllExamples(Doc));
    assert lists == [Outline.examples.value[0].tableBody];
    assert lists[1..] == [];
    assert Concat(lists) == lists[0] + Concat(lists[1..]);
  }

  /** The example-row search at line 132 finds the outline's second row. */
  lemma SecondRowFound()
    ensures FindExampleRowAtLine(Doc, 132) == Some(TableRow(Location(132, 2), ["Also Google"]))
  {
    AllExampleRowsOfDoc();
    var rows := AllExampleRows(Doc);
    var p := (row: TableRow) => row.location.line == 132;
    assert rows[1..][0] == rows[1];
    assert FindIndex(rows, p) == Some(1);
  }

  /** A line with neither a declared step nor an example row resolves to nothing. */
  lemma NothingResolves()
    ensures LocateStepOrRow(Doc, 129) == None
  {
    var children := Doc.feature.children;
    assert children == [Background, Outline, Scenario];
    forall i, j ensures !StepAt(Doc, i, j, 129) {
      if StepAt(Doc, i, j, 129) {
        DeclaredStepLines(i, j, 129);
      }
    }
    assert Outline.examples.value[0].tableBody[0].location.line != 129;
    assert Outline.examples.value[0].tableBody[1].location.line != 129;
    assert !HasExampleRowAt(Outline, 129);
    assert forall i :: 0 <= i < 3 ==> !HasExampleRowAt(children[i], 129);
  }

  /**
   * A before hook and an after hook around the background and scenario steps: the before hook goes in
   * first, and the after hook's index is past the end by then, so it is appended.
   */
  lemma HooksAroundScenario()
    ensures SpliceHooks([Step134, Step135], [
        PreparedStep(None, SourceRef("hooks.js", 10)),
        PreparedStep(Some(SourceRef(URI, 125)), SourceRef(URI, 133)),
        PreparedStep(Some(SourceRef(URI, 134)), SourceRef(URI, 133)),
        PreparedStep(Some(SourceRef(URI, 135)), SourceRef(URI, 133)),
        PreparedStep(None, SourceRef("hooks.js", 20))])
      == [HookFor(SourceRef("hooks.js", 10)), Step134, Step135, HookFor(SourceRef("hooks.js", 20))]
  {
    var ps := [
        PreparedStep(None, SourceRef("hooks.js", 10)),
        PreparedStep(Some(SourceRef(URI, 125)), SourceRef(URI, 133)),
        PreparedStep(Some(SourceRef(URI, 134)), SourceRef(URI, 133)),
        PreparedStep(Some(SourceRef(URI, 135)), SourceRef(URI, 133)),
        PreparedStep(None, SourceRef("hooks.js", 20))];
    var s := [Step134, Step135];
    var h1, h2 := HookFor(SourceRef("hooks.js", 10)), HookFor(SourceRef("hooks.js", 20));
    var p1, p2, p3, p4 := ps[..1], ps[..2], ps[..3], ps[..4];
    assert p1[..0] == [] && p2[..1] == p1 && p3[..2] == p2 && p4[..3] == p3 && ps[..4] == p4;
    assert SpliceHooks(s, p1) == [h1] + s;
    assert SpliceHooks(s, p2) == [h1] + s;
    assert SpliceHooks(s, p3) == [h1] + s;
    assert SpliceHooks(s, p4) == [h1] + s;
    assert Splice([h1] + s, 4, h2) == [h1] + s + [h2];
  }

  const DocEvent: GherkinDocEvent := GherkinDocEvent(URI, Doc)

  /** Preparing the case at 133 changes nothing: every step of it has its location. */
  lemma PrepareCase133()
    ensures Prepare([DocEvent], Case133) == PrepareOutcome(Ok(()), [DocEvent], Case133)
  {
    assert FindDocument([DocEvent], URI) == Some(0);
    ScenarioAt133();
    PrepareLocatedCase([DocEvent], Case133, 0, 2);
  }

  /** The reporter's test run for the scenario at line 133, event by event. */
  method ReporterSpecRun() returns (
    feature: Outbound,
    prepared: Result<(), ListenerError>,
    started: Result<Outbound, ListenerError>,
    finished: Result<Outbound, ListenerError>,
    scenarioEnd: Result<Outbound, ListenerError>,
    featureEnd: Result<Outbound, ListenerError>)
    ensures feature == BeforeFeature(URI, TheFeature)
    ensures prepared == Ok(())
    ensures started == Ok(BeforeStep(URI, TheFeature, Some(Scenario), Some(FoundStep(Step134))))
    ensures finished == Ok(AfterStep(URI, TheFeature, Some(Scenario), Some(FoundStep(Step135)), StepResult(10, "failed", Some("exception-error"))))
    ensures scenarioEnd == Ok(AfterScenario(URI, TheFeature, Some(Scenario)))
    ensures featureEnd == Ok(AfterFeature(URI, TheFeature))
  {
    var l := new CucumberEventListener();
    feature := l.OnGherkinDocument(DocEvent);
    PrepareCase133();
    prepared := l.OnTestCasePrepared(Case133);
    started, finished, scenarioEnd := ScenarioEvents133(l);
    featureEnd := l.OnTestRunFinished();
  }

  /** The step and case events of the scenario at line 133, once its document and case are stored. */
  method ScenarioEvents133(l: CucumberEventListener) returns (
    started: Result<Outbound, ListenerError>,
    finished: Result<Outbound, ListenerError>,
    scenarioEnd: Result<Outbound, ListenerError>)
    requires l.gherkinDocEvents == [DocEvent] && l.testCasePreparedEvents == [Case133]
    ensures started == Ok(BeforeStep(URI, TheFeature, Some(Scenario), Some(FoundStep(Step134))))
    ensures finished == Ok(AfterStep(URI, TheFeature, Some(Scenario), Some(FoundStep(Step135)), StepResult(10, "failed", Some("exception-error"))))
    ensures scenarioEnd == Ok(AfterScenario(URI, TheFeature, Some(Scenario)))
  {
    assert FindDocument([DocEvent], URI) == Some(0);
    ScenarioAt133();
    ScenarioStepsResolve();
    var ref := SourceRef(URI, 133);
    started := l.OnTestStepStarted(TestStepStarted(1, ref));
    finished := l.OnTestStepFinished(TestStepFinished(2, StepResult(10, "failed", Some("exception-error")), ref));
    scenarioEnd := l.OnTestCaseFinished(TestCaseFinished(ref));
  }
}
