/**
 * The parsed Gherkin document as the listener reads it. Only the fields the
 * listener inspects or re-emits are kept; comments, descriptions, languages,
 * table headers and cell locations are dropped.
 */
module Gherkin {
  import opened Wrappers

  datatype Location = Location(line: int, column: int)

  datatype Tag = Tag(name: string)

  /**
   * A step of a scenario, background or outline. `stepType` is `"Step"` for a
   * declared step (the empty string where the parser left it out) and `"Hook"`
   * for a step the listener synthesized.
   */
  datatype Step = Step(stepType: string, location: Location, keyword: string, text: string)

  datatype TableRow = TableRow(location: Location, cells: seq<string>)

  /** One `Examples:` block of an outline; `tableBody` holds its data rows. */
  datatype Examples = Examples(location: Location, tableBody: seq<TableRow>)

  /**
   * A child of the feature: a `Scenario`, `Background` or `ScenarioOutline`
   * (`childType`). Only outlines carry `examples`; the others have `None`.
   */
  datatype Child = Child(
    childType: string,
    tags: seq<Tag>,
    location: Location,
    name: string,
    steps: seq<Step>,
    examples: Option<seq<Examples>>)

  datatype Feature = Feature(tags: seq<Tag>, location: Location, name: string, children: seq<Child>)

  datatype Document = Document(feature: Feature)

  const HOOK: string := "Hook"

  predicate IsHook(s: Step)
  {
    s.stepType == HOOK
  }
}
