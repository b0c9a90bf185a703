/**
 * What `onTestCasePrepared` does to the stored documents: for every prepared
 * step without a `sourceLocation` it splices a synthesized `Hook` step into the
 * resolved scenario at that step's index, unless the scenario already holds a
 * hook. The listener's loop is proved against `SpliceHooks` and
 * `FillSourceLocations`; `Prepare` is the whole handler as a function of the
 * stored documents.
 */
module Hooks {
  import opened Wrappers
  import opened JsArray
  import opened Gherkin
  import opened Events
  import opened Lookup

  /** `{ type: 'Hook', location: { line, column: 0 }, keyword: 'Hook', text: '' }` for a hook's action location. */
  function HookFor(action: SourceRef): (h: Step)
    ensures IsHook(h) && h.keyword == HOOK && h.text == ""
    ensures h.location.line == action.line && h.location.column == 0
  {
    Step(HOOK, Location(action.line, 0), HOOK, "")
  }

  predicate IsDeclared(s: Step)
  {
    !IsHook(s)
  }

  /** The scenario already holds at least one step of type `Hook`. */
  function HasHooks(steps: seq<Step>): (b: bool)
    ensures b <==> exists q :: 0 <= q < |steps| && IsHook(steps[q])
  {
    var hooks := Filter(steps, IsHook);
    assert |hooks| > 0 ==> hooks[0] in steps;
    |hooks| > 0
  }

  /** The hooks the prepared steps call for, in order: one for each step without a `sourceLocation`. */
  function HooksFor(prepared: seq<PreparedStep>): seq<Step>
  {
    if |prepared| == 0 then []
    else
      var idx := |prepared| - 1;
      HooksFor(prepared[..idx]) +
        if prepared[idx].sourceLocation.None? then [HookFor(prepared[idx].actionLocation)] else []
  }

  /**
   * The scenario's steps after the `forEach` over `prepared`: at every index `idx` whose prepared
   * step has no `sourceLocation`, its hook inserted at position `idx` of the steps as they are by then.
   */
  function SpliceHooks(steps: seq<Step>, prepared: seq<PreparedStep>): (r: seq<Step>)
    ensures |r| == |steps| + |HooksFor(prepared)|
  {
    if |prepared| == 0 then steps
    else
      var idx := |prepared| - 1;
      var before := SpliceHooks(steps, prepared[..idx]);
      if prepared[idx].sourceLocation.None? then Splice(before, idx, HookFor(prepared[idx].actionLocation))
      else before
  }

  /** A prepared step given its `actionLocation` as `sourceLocation` where it had none. */
  function FillSourceLocation(step: PreparedStep): PreparedStep
  {
    if step.sourceLocation.None? then step.(sourceLocation := Some(step.actionLocation)) else step
  }

  /** The prepared steps after the `forEach`: every one has a `sourceLocation`, and each still points at the same line. */
  function FillSourceLocations(prepared: seq<PreparedStep>): (r: seq<PreparedStep>)
    ensures |r| == |prepared|
    ensures forall i :: 0 <= i < |r| ==>
      r[i].sourceLocation.Some? && r[i].actionLocation == prepared[i].actionLocation && TargetLine(r[i]) == TargetLine(prepared[i])
    ensures forall i :: 0 <= i < |r| && prepared[i].sourceLocation.Some? ==> r[i] == prepared[i]
  {
    seq(|prepared|, i requires 0 <= i < |prepared| => FillSourceLocation(prepared[i]))
  }

  /** The stored document with child `k`'s steps replaced, as the in-place splice leaves it. */
  function WithScenarioSteps(d: GherkinDocEvent, k: nat, steps: seq<Step>): GherkinDocEvent
    requires k < |d.document.feature.children|
  {
    var f := d.document.feature;
    d.(document := d.document.(feature := f.(children := f.children[k := f.children[k].(steps := steps)])))
  }

  /** Two stored document lists that differ at most in the steps of their features' children. */
  ghost predicate OnlyStepsDiffer(docs: seq<GherkinDocEvent>, docs': seq<GherkinDocEvent>)
  {
    |docs| == |docs'| &&
    forall i :: 0 <= i < |docs| ==>
      docs[i].uri == docs'[i].uri &&
      docs[i].document.feature.(children := []) == docs'[i].document.feature.(children := []) &&
      |docs[i].document.feature.children| == |docs'[i].document.feature.children| &&
      forall k :: 0 <= k < |docs[i].document.feature.children| ==>
        docs[i].document.feature.children[k].(steps := []) == docs'[i].document.feature.children[k].(steps := [])
  }

  /** Replacing the steps of one child of one stored document changes nothing but steps. */
  lemma ReplacingStepsOnlyChangesSteps(docs: seq<GherkinDocEvent>, d: nat, k: nat, steps: seq<Step>)
    requires d < |docs| && k < |docs[d].document.feature.children|
    ensures OnlyStepsDiffer(docs, docs[d := WithScenarioSteps(docs[d], k, steps)])
  {
    var docs' := docs[d := WithScenarioSteps(docs[d], k, steps)];
    var cs, cs' := docs[d].document.feature.children, docs'[d].document.feature.children;
    assert cs' == cs[k := cs[k].(steps := steps)];
    assert cs'[k].(steps := []) == cs[k].(steps := []);
  }

  /** What `onTestCasePrepared` leaves behind: its outcome, the stored documents, and the case it stored. */
  datatype PrepareOutcome = PrepareOutcome(result: Result<(), ListenerError>, docs: seq<GherkinDocEvent>, stored: TestCasePrepared)

  /**
   * `onTestCasePrepared` on the stored documents `docs`. The case is stored whatever happens (the push
   * comes first); a missing document or scenario throws after it; a scenario that already holds a hook
   * is left alone; otherwise the hooks are spliced in and the stored case gets its source locations.
   */
  function Prepare(docs: seq<GherkinDocEvent>, ev: TestCasePrepared): (p: PrepareOutcome)
    ensures OnlyStepsDiffer(docs, p.docs)
    ensures p.stored.sourceLocation == ev.sourceLocation && |p.stored.steps| == |ev.steps|
    ensures forall i :: 0 <= i < |ev.steps| ==> TargetLine(p.stored.steps[i]) == TargetLine(ev.steps[i])
    ensures p.result.Err? ==> p.docs == docs && p.stored == ev
    ensures FindDocument(docs, ev.sourceLocation.uri).None? ==> p.result == Err(NoDocument(ev.sourceLocation.uri))
    ensures forall d :: FindDocument(docs, ev.sourceLocation.uri) == Some(d) && FindScenario(docs[d].document, ev.sourceLocation.line).None? ==>
              p.result == Err(NoScenario(ev.sourceLocation))
  {
    var uri, line := ev.sourceLocation.uri, ev.sourceLocation.line;
    match FindDocument(docs, uri)
    case None => PrepareOutcome(Err(NoDocument(uri)), docs, ev)
    case Some(d) =>
      var doc := docs[d].document;
      match FindScenario(doc, line)
      case None => PrepareOutcome(Err(NoScenario(ev.sourceLocation)), docs, ev)
      case Some(k) =>
        var steps := doc.feature.children[k].steps;
        if HasHooks(steps) then PrepareOutcome(Ok(()), docs, ev)
        else
          var docs' := docs[d := WithScenarioSteps(docs[d], k, SpliceHooks(steps, ev.steps))];
          ReplacingStepsOnlyChangesSteps(docs, d, k, SpliceHooks(steps, ev.steps));
          PrepareOutcome(Ok(()), docs', ev.(steps := FillSourceLocations(ev.steps)))
  }

  /** Splicing never drops, reorders or alters a declared step. */
  lemma {:induction false} SpliceHooksKeepsDeclared(steps: seq<Step>, prepared: seq<PreparedStep>)
    ensures Filter(SpliceHooks(steps, prepared), IsDeclared) == Filter(steps, IsDeclared)
  {
    if |prepared| > 0 {
      var idx := |prepared| - 1;
      SpliceHooksKeepsDeclared(steps, prepared[..idx]);
      if prepared[idx].sourceLocation.None? {
        FilterSpliceRejected(SpliceHooks(steps, prepared[..idx]), idx, HookFor(prepared[idx].actionLocation), IsDeclared);
      }
    }
  }

  /**
   * Starting from a scenario without hooks, the hooks of the result are exactly the ones the prepared
   * steps call for, in order, and none sits at or after position `|prepared|`.
   */
  lemma {:induction false} SpliceHooksAddsHooks(steps: seq<Step>, prepared: seq<PreparedStep>)
    requires !HasHooks(steps)
    ensures Filter(SpliceHooks(steps, prepared), IsHook) == HooksFor(prepared)
    ensures forall q :: 0 <= q < |SpliceHooks(steps, prepared)| && IsHook(SpliceHooks(steps, prepared)[q]) ==> q < |prepared|
  {
    if |prepared| == 0 {
      FilterRejectsAll(steps, IsHook);
    } else {
      var idx := |prepared| - 1;
      var before := SpliceHooks(steps, prepared[..idx]);
      SpliceHooksAddsHooks(steps, prepared[..idx]);
      if prepared[idx].sourceLocation.None? {
        SpliceHookAfterHooks(before, idx, HookFor(prepared[idx].actionLocation));
      }
    }
  }

  /** Splicing a hook in at `idx` when every hook already sits before `idx` appends it to the hooks. */
  lemma SpliceHookAfterHooks(before: seq<Step>, idx: nat, h: Step)
    requires IsHook(h)
    requires forall q :: 0 <= q < |before| && IsHook(before[q]) ==> q < idx
    ensures Filter(Splice(before, idx, h), IsHook) == Filter(before, IsHook) + [h]
    ensures forall q :: 0 <= q < |Splice(before, idx, h)| && IsHook(Splice(before, idx, h)[q]) ==> q <= idx
  {
    var at := SplicePoint(before, idx);
    forall q | 0 <= q < |before[at..]| ensures !IsHook(before[at..][q]) {
      assert before[at..][q] == before[at + q];
    }
    FilterRejectsAll(before[at..], IsHook);
    FilterSpliceAccepted(before, idx, h, IsHook);
    SpliceAt(before, idx, h);
    var after := Splice(before, idx, h);
    forall q | at < q < |after| ensures !IsHook(after[q]) {
      assert after[q] == before[q - 1];
    }
  }

  /** A prepared step without a `sourceLocation` at an index within the declared steps gets its hook at exactly that index. */
  lemma {:induction false} SpliceHooksAtIndex(steps: seq<Step>, prepared: seq<PreparedStep>)
    ensures forall j :: 0 <= j < |prepared| && j <= |steps| && prepared[j].sourceLocation.None? ==>
      j < |SpliceHooks(steps, prepared)| && SpliceHooks(steps, prepared)[j] == HookFor(prepared[j].actionLocation)
  {
    if |prepared| > 0 {
      var idx := |prepared| - 1;
      var init := prepared[..idx];
      var before := SpliceHooks(steps, init);
      SpliceHooksAtIndex(steps, init);
      assert forall j :: 0 <= j < idx ==> init[j] == prepared[j];
      if prepared[idx].sourceLocation.None? {
        var h := HookFor(prepared[idx].actionLocation);
        SpliceAt(before, idx, h);
      }
    }
  }

  /** A case whose every step has a `sourceLocation` calls for no hook. */
  lemma {:induction false} HooksForNone(prepared: seq<PreparedStep>)
    requires forall i :: 0 <= i < |prepared| ==> prepared[i].sourceLocation.Some?
    ensures HooksFor(prepared) == []
  {
    if |prepared| > 0 {
      HooksForNone(prepared[..|prepared| - 1]);
    }
  }

  /** Nothing to splice leaves the steps as they were. */
  lemma {:induction false} SpliceHooksNone(steps: seq<Step>, prepared: seq<PreparedStep>)
    requires HooksFor(prepared) == []
    ensures SpliceHooks(steps, prepared) == steps
  {
    if |prepared| > 0 {
      SpliceHooksNone(steps, prepared[..|prepared| - 1]);
    }
  }

  /** Lookups of later events go to the same document and child when only steps changed. */
  lemma LookupsIgnoreSteps(docs: seq<GherkinDocEvent>, docs': seq<GherkinDocEvent>, uri: string, line: int)
    requires OnlyStepsDiffer(docs, docs')
    ensures FindDocument(docs', uri) == FindDocument(docs, uri)
    ensures forall d :: FindDocument(docs, uri) == Some(d) ==>
      FindScenario(docs'[d].document, line) == FindScenario(docs[d].document, line)
  {
    forall d | FindDocument(docs, uri) == Some(d)
      ensures FindScenario(docs'[d].document, line) == FindScenario(docs[d].document, line)
    {
      FindScenarioIgnoresSteps(docs[d].document, docs'[d].document, line);
    }
  }

  /** The scenario lookup reads the children's locations and examples, never their steps. */
  lemma FindScenarioIgnoresSteps(doc: Document, doc': Document, line: int)
    requires |doc.feature.children| == |doc'.feature.children|
    requires forall k :: 0 <= k < |doc.feature.children| ==>
      doc.feature.children[k].(steps := []) == doc'.feature.children[k].(steps := [])
    ensures FindScenario(doc', line) == FindScenario(doc, line)
  {
    var cs, cs' := doc.feature.children, doc'.feature.children;
    forall k | 0 <= k < |cs| ensures cs[k].location == cs'[k].location && cs[k].examples == cs'[k].examples {
      assert cs[k].(steps := []) == cs'[k].(steps := []);
    }
    if exists k :: 0 <= k < |cs| && cs[k].location.line == line {
      SameDirectScenario(cs, cs', doc, doc', line);
    } else {
      SameOutlineScenario(cs, cs', doc, doc', line);
    }
  }

  lemma SameDirectScenario(cs: seq<Child>, cs': seq<Child>, doc: Document, doc': Document, line: int)
    requires cs == doc.feature.children && cs' == doc'.feature.children && |cs| == |cs'|
    requires forall k :: 0 <= k < |cs| ==> cs[k].location == cs'[k].location
    requires exists k :: 0 <= k < |cs| && cs[k].location.line == line
    ensures FindScenario(doc', line) == FindScenario(doc, line)
  {
    assert exists k :: 0 <= k < |cs'| && cs'[k].location.line == line;
    FirstMatchUnique(FindScenario(doc, line), FindScenario(doc', line), |cs|, k => 0 <= k < |cs| && cs[k].location.line == line);
  }

  lemma SameOutlineScenario(cs: seq<Child>, cs': seq<Child>, doc: Document, doc': Document, line: int)
    requires cs == doc.feature.children && cs' == doc'.feature.children && |cs| == |cs'|
    requires forall k :: 0 <= k < |cs| ==> cs[k].location == cs'[k].location && cs[k].examples == cs'[k].examples
    requires forall k :: 0 <= k < |cs| ==> cs[k].location.line != line
    ensures FindScenario(doc', line) == FindScenario(doc, line)
  {
    assert forall k :: 0 <= k < |cs| ==> HasExampleRowAt(cs[k], line) == HasExampleRowAt(cs'[k], line);
    FirstMatchUnique(FindScenario(doc, line), FindScenario(doc', line), |cs|, k => 0 <= k < |cs| && HasExampleRowAt(cs[k], line));
  }

  /** Two first matches of the same condition below `n` are the same. */
  lemma FirstMatchUnique(a: Option<nat>, b: Option<nat>, n: nat, p: int -> bool)
    requires a.Some? ==> a.value < n && p(a.value) && forall j :: 0 <= j < a.value ==> !p(j)
    requires a.None? ==> forall j :: 0 <= j < n ==> !p(j)
    requires b.Some? ==> b.value < n && p(b.value) && forall j :: 0 <= j < b.value ==> !p(j)
    requires b.None? ==> forall j :: 0 <= j < n ==> !p(j)
    ensures a == b
  {
  }

  /** When the resolved scenario already holds a hook, preparing changes no document. */
  lemma PrepareGuard(docs: seq<GherkinDocEvent>, ev: TestCasePrepared, d: nat, k: nat)
    requires FindDocument(docs, ev.sourceLocation.uri) == Some(d)
    requires FindScenario(docs[d].document, ev.sourceLocation.line) == Some(k)
    requires HasHooks(docs[d].document.feature.children[k].steps)
    ensures Prepare(docs, ev) == PrepareOutcome(Ok(()), docs, ev)
  {
  }

  /** Without a hook in the resolved scenario, the outcome of preparing is the splice and the filled-in case. */
  lemma PrepareSplices(docs: seq<GherkinDocEvent>, ev: TestCasePrepared, d: nat, k: nat)
    requires FindDocument(docs, ev.sourceLocation.uri) == Some(d)
    requires FindScenario(docs[d].document, ev.sourceLocation.line) == Some(k)
    requires !HasHooks(docs[d].document.feature.children[k].steps)
    ensures Prepare(docs, ev) == PrepareOutcome(Ok(()),
      docs[d := WithScenarioSteps(docs[d], k, SpliceHooks(docs[d].document.feature.children[k].steps, ev.steps))],
      ev.(steps := FillSourceLocations(ev.steps)))
  {
  }

  /** A case whose every step already has a `sourceLocation` changes no document and is stored as given. */
  lemma PrepareLocatedCase(docs: seq<GherkinDocEvent>, ev: TestCasePrepared, d: nat, k: nat)
    requires FindDocument(docs, ev.sourceLocation.uri) == Some(d)
    requires FindScenario(docs[d].document, ev.sourceLocation.line) == Some(k)
    requires forall i :: 0 <= i < |ev.steps| ==> ev.steps[i].sourceLocation.Some?
    ensures Prepare(docs, ev) == PrepareOutcome(Ok(()), docs, ev)
  {
    var s := docs[d].document.feature.children[k].steps;
    HooksForNone(ev.steps);
    SpliceHooksNone(s, ev.steps);
    assert WithScenarioSteps(docs[d], k, s) == docs[d];
    assert FillSourceLocations(ev.steps) == ev.steps;
  }

  /**
   * Otherwise the resolved scenario keeps its declared steps in order and gains exactly the hooks the
   * prepared steps call for, and every other scenario and document stays as it was.
   */
  lemma PrepareSplicesHooks(docs: seq<GherkinDocEvent>, ev: TestCasePrepared, d: nat, k: nat)
    requires FindDocument(docs, ev.sourceLocation.uri) == Some(d)
    requires FindScenario(docs[d].document, ev.sourceLocation.line) == Some(k)
    requires !HasHooks(docs[d].document.feature.children[k].steps)
    ensures var p := Prepare(docs, ev);
      var old_steps := docs[d].document.feature.children[k].steps;
      var new_steps := p.docs[d].document.feature.children[k].steps;
      p.result == Ok(()) &&
      Filter(new_steps, IsDeclared) == old_steps &&
      Filter(new_steps, IsHook) == HooksFor(ev.steps) &&
      |new_steps| == |old_steps| + |HooksFor(ev.steps)| &&
      (forall i :: 0 <= i < |docs| && i != d ==> p.docs[i] == docs[i]) &&
      (forall j :: 0 <= j < |docs[d].document.feature.children| && j != k ==>
        p.docs[d].document.feature.children[j] == docs[d].document.feature.children[j])
  {
    var s := docs[d].document.feature.children[k].steps;
    SpliceHooksKeepsDeclared(s, ev.steps);
    SpliceHooksAddsHooks(s, ev.steps);
    FilterKeepsAll(s, IsDeclared);
  }

  /** Preparing the same case twice changes the documents no more than preparing it once. */
  lemma PrepareIdempotent(docs: seq<GherkinDocEvent>, ev: TestCasePrepared)
    ensures Prepare(Prepare(docs, ev).docs, ev).docs == Prepare(docs, ev).docs
    ensures Prepare(Prepare(docs, ev).docs, ev).result == Prepare(docs, ev).result
  {
    var p := Prepare(docs, ev);
    var uri, line := ev.sourceLocation.uri, ev.sourceLocation.line;
    if FindDocument(docs, uri).Some? {
      var d := FindDocument(docs, uri).value;
      if FindScenario(docs[d].document, line).Some? {
        var k := FindScenario(docs[d].document, line).value;
        var s := docs[d].document.feature.children[k].steps;
        if !HasHooks(s) {
          LookupsIgnoreSteps(docs, p.docs, uri, line);
          if HooksFor(ev.steps) == [] {
            SpliceHooksNone(s, ev.steps);
            assert WithScenarioSteps(docs[d], k, s) == docs[d];
            assert p.docs == docs;
          } else {
            SpliceHooksAddsHooks(s, ev.steps);
            assert HasHooks(p.docs[d].document.feature.children[k].steps);
          }
        }
      }
    }
  }
}
