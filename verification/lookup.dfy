/**
 * The pure lookups of the listener: which stored document, which feature child
 * (directly or through an outline's example row), which prepared case, and which
 * declared step or example row an event's line refers to.
 */
module Lookup {
  import opened Wrappers
  import opened JsArray
  import opened Gherkin
  import opened Events

  /** The earliest stored document whose uri is `uri`, as an index. */
  function FindDocument(docs: seq<GherkinDocEvent>, uri: string): (r: Option<nat>)
    ensures r.Some? ==> r.value < |docs| && docs[r.value].uri == uri
    ensures r.Some? ==> forall j :: 0 <= j < r.value ==> docs[j].uri != uri
    ensures r.None? ==> forall j :: 0 <= j < |docs| ==> docs[j].uri != uri
  {
    FindIndex(docs, (d: GherkinDocEvent) => d.uri == uri)
  }

  /** Some data row of one of the child's example tables is at `line`. */
  predicate HasExampleRowAt(child: Child, line: int)
  {
    child.examples.Some? &&
    exists e, k :: 0 <= e < |child.examples.value| && 0 <= k < |child.examples.value[e].tableBody| &&
      child.examples.value[e].tableBody[k].location.line == line
  }

  /**
   * The nested search over an outline's example tables, as a truth value: it succeeds exactly when
   * some example table of the child has a data row at `line`.
   */
  function OutlineRowFound(child: Child, line: int): (b: bool)
    ensures b <==> HasExampleRowAt(child, line)
  {
    child.examples.Some? &&
    FindIndex(child.examples.value,
      (ex: Examples) => FindIndex(ex.tableBody, (row: TableRow) => row.location.line == line).Some?).Some?
  }

  /**
   * `findScenarioByExampleLocation`: the first child that has examples with a data row at `line`.
   * The model searches all children, with the test for examples folded into the search condition.
   */
  function FindScenarioByExampleLocation(doc: Document, line: int): (r: Option<nat>)
    ensures r.Some? ==> r.value < |doc.feature.children| && HasExampleRowAt(doc.feature.children[r.value], line)
    ensures r.Some? ==> forall j :: 0 <= j < r.value ==> !HasExampleRowAt(doc.feature.children[j], line)
    ensures r.None? ==> forall j :: 0 <= j < |doc.feature.children| ==> !HasExampleRowAt(doc.feature.children[j], line)
  {
    FindIndex(doc.feature.children, (c: Child) => OutlineRowFound(c, line))
  }

  /**
   * The two-tier scenario lookup of every handler: the first child declared at `line`, or else the
   * child `findScenarioByExampleLocation` finds.
   * A child at the line wins; only when there is none does an outline with a row at the line count.
   */
  function FindScenario(doc: Document, line: int): (r: Option<nat>)
    ensures r.Some? ==> r.value < |doc.feature.children|
    ensures (exists k :: 0 <= k < |doc.feature.children| && doc.feature.children[k].location.line == line) ==>
      r.Some? && doc.feature.children[r.value].location.line == line &&
      forall j :: 0 <= j < r.value ==> doc.feature.children[j].location.line != line
    ensures (forall k :: 0 <= k < |doc.feature.children| ==> doc.feature.children[k].location.line != line) ==>
      (r.Some? <==> exists k :: 0 <= k < |doc.feature.children| && HasExampleRowAt(doc.feature.children[k], line)) &&
      (r.Some? ==>
         HasExampleRowAt(doc.feature.children[r.value], line) &&
         forall j :: 0 <= j < r.value ==> !HasExampleRowAt(doc.feature.children[j], line))
  {
    match FindIndex(doc.feature.children, (c: Child) => c.location.line == line)
    case Some(k) => Some(k)
    case None => FindScenarioByExampleLocation(doc, line)
  }

  /** The scenario object the handlers emit: the child `FindScenario` picks, or `undefined`. */
  function ScenarioAt(doc: Document, line: int): (r: Option<Child>)
    ensures r.Some? <==>
      (exists k :: 0 <= k < |doc.feature.children| && doc.feature.children[k].location.line == line) ||
      (exists k :: 0 <= k < |doc.feature.children| && HasExampleRowAt(doc.feature.children[k], line))
    ensures r.Some? ==> r.value in doc.feature.children && (r.value.location.line == line || HasExampleRowAt(r.value, line))
  {
    match FindScenario(doc, line)
    case Some(k) => Some(doc.feature.children[k])
    case None => None
  }

  /** The earliest prepared case whose source location has the uri and line of `ref`, as an index. */
  function FindPreparedCase(cases: seq<TestCasePrepared>, ref: SourceRef): (r: Option<nat>)
    ensures r.Some? ==> r.value < |cases| && cases[r.value].sourceLocation == ref
    ensures r.Some? ==> forall j :: 0 <= j < r.value ==> cases[j].sourceLocation != ref
    ensures r.None? ==> forall j :: 0 <= j < |cases| ==> cases[j].sourceLocation != ref
  {
    FindIndex(cases, (c: TestCasePrepared) => c.sourceLocation == ref)
  }

  /** Where a prepared step points: the line of its `sourceLocation`, or of its `actionLocation` when it has none. */
  function TargetLine(step: PreparedStep): (line: int)
    ensures step.sourceLocation.Some? ==> line == step.sourceLocation.value.line
    ensures step.sourceLocation.None? ==> line == step.actionLocation.line
  {
    match step.sourceLocation
    case Some(loc) => loc.line
    case None => step.actionLocation.line
  }

  /** The step lists of the children, in order. */
  function StepLists(doc: Document): (ss: seq<seq<Step>>)
    ensures |ss| == |doc.feature.children|
    ensures forall i :: 0 <= i < |ss| ==> ss[i] == doc.feature.children[i].steps
  {
    seq(|doc.feature.children|, i requires 0 <= i < |doc.feature.children| => doc.feature.children[i].steps)
  }

  /** `allSteps`: every declared step of every child, children in order. */
  function AllSteps(doc: Document): (r: seq<Step>)
    ensures forall i, j :: 0 <= i < |doc.feature.children| && 0 <= j < |doc.feature.children[i].steps| ==>
      doc.feature.children[i].steps[j] in r
    ensures forall k :: 0 <= k < |r| ==> exists i :: 0 <= i < |doc.feature.children| && r[k] in doc.feature.children[i].steps
  {
    FlattenMembers(StepLists(doc));
    Flatten(StepLists(doc))
  }

  /** The example lists of the children, in order, an empty list for a child without examples. */
  function ExampleLists(doc: Document): (ss: seq<seq<Examples>>)
    ensures |ss| == |doc.feature.children|
    ensures forall i :: 0 <= i < |ss| ==>
      ss[i] == if doc.feature.children[i].examples.Some? then doc.feature.children[i].examples.value else []
  {
    seq(|doc.feature.children|, i requires 0 <= i < |doc.feature.children| =>
      match doc.feature.children[i].examples
      case Some(exs) => exs
      case None => [])
  }

  /** `allExamples`: every example table of every outline, in document order. */
  function AllExamples(doc: Document): (r: seq<Examples>)
    ensures forall i, e ::
      (0 <= i < |doc.feature.children| && doc.feature.children[i].examples.Some? &&
       0 <= e < |doc.feature.children[i].examples.value|) ==> doc.feature.children[i].examples.value[e] in r
    ensures forall k :: 0 <= k < |r| ==>
      exists i :: (0 <= i < |doc.feature.children| && doc.feature.children[i].examples.Some? &&
                   r[k] in doc.feature.children[i].examples.value)
  {
    var lists := ExampleLists(doc);
    FlattenMembers(lists);
    var r := Flatten(lists);
    forall k | 0 <= k < |r|
      ensures exists i :: (0 <= i < |doc.feature.children| && doc.feature.children[i].examples.Some? &&
                           r[k] in doc.feature.children[i].examples.value)
    {
      var i :| 0 <= i < |lists| && r[k] in lists[i];
      assert doc.feature.children[i].examples.Some?;
    }
    r
  }

  /** The data rows of each example table, in order. */
  function RowLists(exs: seq<Examples>): (ss: seq<seq<TableRow>>)
    ensures |ss| == |exs|
    ensures forall e :: 0 <= e < |ss| ==> ss[e] == exs[e].tableBody
  {
    seq(|exs|, e requires 0 <= e < |exs| => exs[e].tableBody)
  }

  /** `allExampleRows`: every data row of every example table, in document order. */
  function AllExampleRows(doc: Document): (r: seq<TableRow>)
    ensures forall e, j :: 0 <= e < |AllExamples(doc)| && 0 <= j < |AllExamples(doc)[e].tableBody| ==>
      AllExamples(doc)[e].tableBody[j] in r
    ensures forall k :: 0 <= k < |r| ==> exists e :: 0 <= e < |AllExamples(doc)| && r[k] in AllExamples(doc)[e].tableBody
  {
    FlattenMembers(RowLists(AllExamples(doc)));
    Flatten(RowLists(AllExamples(doc)))
  }

  /** Step `j` of child `i` is at `line`. */
  predicate StepAt(doc: Document, i: int, j: int, line: int)
  {
    0 <= i < |doc.feature.children| && 0 <= j < |doc.feature.children[i].steps| &&
    doc.feature.children[i].steps[j].location.line == line
  }

  /** Row `k` of example table `e` (counted over all outlines) is at `line`. */
  predicate RowAt(exs: seq<Examples>, e: int, k: int, line: int)
  {
    0 <= e < |exs| && 0 <= k < |exs[e].tableBody| && exs[e].tableBody[k].location.line == line
  }

  /** The first declared step at `line`, children in order. */
  function FindStepAtLine(doc: Document, line: int): (r: Option<Step>)
    ensures r.None? <==> forall i, j :: !StepAt(doc, i, j, line)
    ensures r.Some? ==>
      exists i, j ::
        StepAt(doc, i, j, line) && r.value == doc.feature.children[i].steps[j] &&
        forall i', j' :: StepAt(doc, i', j', line) ==> i < i' || (i == i' && j <= j')
  {
    var p := (s: Step) => s.location.line == line;
    FindStepAtLineFirst(doc, line, p);
    match FindIndex(AllSteps(doc), p)
    case Some(k) => Some(AllSteps(doc)[k])
    case None => None
  }

  lemma FindStepAtLineFirst(doc: Document, line: int, p: Step -> bool)
    requires forall s :: p(s) <==> s.location.line == line
    ensures FindIndex(AllSteps(doc), p).None? <==> forall i, j :: !StepAt(doc, i, j, line)
    ensures FindIndex(AllSteps(doc), p).Some? ==> exists i, j ::
      StepAt(doc, i, j, line) && AllSteps(doc)[FindIndex(AllSteps(doc), p).value] == doc.feature.children[i].steps[j] &&
      forall i', j' :: StepAt(doc, i', j', line) ==> i < i' || (i == i' && j <= j')
  {
    var ss := StepLists(doc);
    FindIndexFlatten(ss, p);
    assert forall i, j :: At2(ss, p, i, j) <==> StepAt(doc, i, j, line);
    if FindIndex(AllSteps(doc), p).Some? {
      var i, j :| First2(ss, p, i, j) && AllSteps(doc)[FindIndex(AllSteps(doc), p).value] == ss[i][j];
      assert StepAt(doc, i, j, line);
    }
  }

  /**
   * The first data row at `line`, example tables in document order.
   */
  function FindExampleRowAtLine(doc: Document, line: int): (r: Option<TableRow>)
    ensures r.None? <==> forall i :: 0 <= i < |doc.feature.children| ==> !HasExampleRowAt(doc.feature.children[i], line)
    ensures r.Some? ==>
      exists e, k ::
        RowAt(AllExamples(doc), e, k, line) && r.value == AllExamples(doc)[e].tableBody[k] &&
        forall e', k' :: RowAt(AllExamples(doc), e', k', line) ==> e < e' || (e == e' && k <= k')
  {
    var p := (row: TableRow) => row.location.line == line;
    FindExampleRowAtLineFirst(doc, line, p);
    match FindIndex(AllExampleRows(doc), p)
    case Some(k) => Some(AllExampleRows(doc)[k])
    case None => None
  }

  lemma FindExampleRowAtLineFirst(doc: Document, line: int, p: TableRow -> bool)
    requires forall row :: p(row) <==> row.location.line == line
    ensures FindIndex(AllExampleRows(doc), p).None? <==>
      forall i :: 0 <= i < |doc.feature.children| ==> !HasExampleRowAt(doc.feature.children[i], line)
    ensures FindIndex(AllExampleRows(doc), p).Some? ==> exists e, k ::
      RowAt(AllExamples(doc), e, k, line) &&
      AllExampleRows(doc)[FindIndex(AllExampleRows(doc), p).value] == AllExamples(doc)[e].tableBody[k] &&
      forall e', k' :: RowAt(AllExamples(doc), e', k', line) ==> e < e' || (e == e' && k <= k')
  {
    var exs := AllExamples(doc);
    var ss := RowLists(exs);
    FindIndexFlatten(ss, p);
    assert forall e, k :: At2(ss, p, e, k) <==> RowAt(exs, e, k, line);
    if FindIndex(AllExampleRows(doc), p).Some? {
      var e, k :| First2(ss, p, e, k) && AllExampleRows(doc)[FindIndex(AllExampleRows(doc), p).value] == ss[e][k];
      assert RowAt(exs, e, k, line);
    }
    ExampleRowsCover(doc, line);
  }

  /** Some example table of the flattened list has a row at `line` exactly when some child has one. */
  lemma ExampleRowsCover(doc: Document, line: int)
    ensures (exists e, k :: RowAt(AllExamples(doc), e, k, line)) <==>
      exists i :: 0 <= i < |doc.feature.children| && HasExampleRowAt(doc.feature.children[i], line)
  {
    if e, k :| RowAt(AllExamples(doc), e, k, line) {
      FlattenedRowInChild(doc, line, e, k);
    }
    if i :| 0 <= i < |doc.feature.children| && HasExampleRowAt(doc.feature.children[i], line) {
      ChildRowFlattened(doc, line, i);
    }
  }

  /** A row of the flattened example tables belongs to a child's examples. */
  lemma FlattenedRowInChild(doc: Document, line: int, e: int, k: int)
    requires RowAt(AllExamples(doc), e, k, line)
    ensures exists i :: 0 <= i < |doc.feature.children| && HasExampleRowAt(doc.feature.children[i], line)
  {
    var exs, lists := AllExamples(doc), ExampleLists(doc);
    var ex := exs[e];
    assert ex.tableBody[k].location.line == line;
    FlattenMembers(lists);
    var i :| 0 <= i < |lists| && ex in lists[i];
    var e' :| 0 <= e' < |lists[i]| && lists[i][e'] == ex;
    var child := doc.feature.children[i];
    assert child.examples.value[e'] == ex;
    assert HasExampleRowAt(child, line);
  }

  /** A row of a child's examples is a row of the flattened example tables. */
  lemma ChildRowFlattened(doc: Document, line: int, i: int)
    requires 0 <= i < |doc.feature.children| && HasExampleRowAt(doc.feature.children[i], line)
    ensures exists e, k :: RowAt(AllExamples(doc), e, k, line)
  {
    var exs, lists := AllExamples(doc), ExampleLists(doc);
    var own := doc.feature.children[i].examples.value;
    var e', k :| 0 <= e' < |own| && 0 <= k < |own[e'].tableBody| && own[e'].tableBody[k].location.line == line;
    assert lists[i][e'] == own[e'];
    FlattenMembers(lists);
    assert own[e'] in exs;
    var e :| 0 <= e < |exs| && exs[e] == own[e'];
    assert RowAt(exs, e, k, line);
  }

  /**
   * A declared step at `line` if there is one, otherwise a data row at `line`, otherwise nothing.
   */
  function LocateStepOrRow(doc: Document, line: int): (r: Option<StepOrRow>)
    ensures r.Some? ==> r.value.Line() == line
    ensures r.Some? && r.value.FoundStep? <==> exists i, j :: StepAt(doc, i, j, line)
    ensures r.Some? && r.value.ExampleRow? <==>
      (forall i, j :: !StepAt(doc, i, j, line)) &&
      exists i :: 0 <= i < |doc.feature.children| && HasExampleRowAt(doc.feature.children[i], line)
  {
    match FindStepAtLine(doc, line)
    case Some(s) => Some(FoundStep(s))
    case None =>
      match FindExampleRowAtLine(doc, line)
      case Some(row) => Some(ExampleRow(row))
      case None => None
  }

  /**
   * `findStepOrExampleByLocation`: step `index` of the first prepared case for `ref`, looked up by the
   * line it points to. A missing case or index throws; a line that matches nothing gives `undefined`.
   */
  function FindStepOrExampleByLocation(doc: Document, cases: seq<TestCasePrepared>, index: int, ref: SourceRef)
    : (r: Result<Option<StepOrRow>, ListenerError>)
    ensures (forall j :: 0 <= j < |cases| ==> cases[j].sourceLocation != ref) ==> r == Err(NoPreparedCase(ref))
    ensures forall c :: FindPreparedCase(cases, ref) == Some(c) ==>
      if 0 <= index < |cases[c].steps| then r == Ok(LocateStepOrRow(doc, TargetLine(cases[c].steps[index])))
      else r == Err(NoPreparedStep(index))
  {
    match FindPreparedCase(cases, ref)
    case None => Err(NoPreparedCase(ref))
    case Some(c) =>
      if 0 <= index < |cases[c].steps| then Ok(LocateStepOrRow(doc, TargetLine(cases[c].steps[index])))
      else Err(NoPreparedStep(index))
  }
}
