/** The evaluation phase: a coherence note read off the generated file's length, and
    the list of per-unit issues collected from the units' status flags. Whether a
    revision is required depends on the issues alone. */
module Evaluator {
  import opened Common
  import opened Models

  /** Below this many characters the document is reported incomplete. */
  const MinCompleteLength := 1000

  const FileNotFound := "HTML file not found"
  const Incomplete := "HTML document appears incomplete"
  const LooksValid := "Document structure appears valid"

  /** `check_coherence`: the generated file's content, or None when it does not exist,
      yields one of three fixed notes. */
  function CheckCoherence(htmlFile: Option<string>): (note: string)
    ensures note == FileNotFound <==> htmlFile.None?
    ensures note == Incomplete <==> htmlFile.Some? && |htmlFile.value| < MinCompleteLength
    ensures note == LooksValid <==> htmlFile.Some? && |htmlFile.value| >= MinCompleteLength
  {
    match htmlFile
    case None => FileNotFound
    case Some(content) => if |content| < MinCompleteLength then Incomplete else LooksValid
  }

  function Stage1Issue(id: string): string { id + ": " + "Stage 1 (text content) not completed" }
  function Stage2Issue(id: string): string { id + ": " + "Stage 2 (interactive content) not completed" }
  function ValidationIssue(id: string): string { id + ": " + "HTML validation failed" }

  function Stage1Part(ku: KnowledgeUnitState): seq<string>
  {
    if !ku.stage1Completed then [Stage1Issue(ku.id)] else []
  }

  function Stage2Part(ku: KnowledgeUnitState): seq<string>
  {
    if !ku.stage2Completed then [Stage2Issue(ku.id)] else []
  }

  function ValidationPart(ku: KnowledgeUnitState): seq<string>
  {
    if !ku.validated then [ValidationIssue(ku.id)] else []
  }

  /** A unit's issues, in the order they are checked. */
  function UnitIssues(ku: KnowledgeUnitState): seq<string>
  {
    Stage1Part(ku) + Stage2Part(ku) + ValidationPart(ku)
  }

  /** The lists f gives for the elements of xs, one after the other. */
  function Collect<T>(xs: seq<T>, f: T -> seq<string>): seq<string>
  {
    if xs == [] then [] else Collect(xs[..|xs| - 1], f) + f(xs[|xs| - 1])
  }

  /** Every unit's issues, unit after unit. */
  function Issues(units: seq<KnowledgeUnitState>): seq<string>
  {
    Collect(units, UnitIssues)
  }

  /** A unit with nothing to report: both stages done and validated. */
  predicate Clean(ku: KnowledgeUnitState)
  {
    ku.stage1Completed && ku.stage2Completed && ku.validated
  }

  /** `check_components`: walks the units in order and appends each failing check. */
  method CheckComponents(doc: GeneratedDocument) returns (issues: seq<string>)
    ensures issues == Issues(doc.knowledgeUnits)
  {
    var units := doc.knowledgeUnits;
    issues := [];
    var i := 0;
    while i < |units|
      invariant 0 <= i <= |units|
      invariant issues == Issues(units[..i])
    {
      IssuesStep(units, i);
      issues := AppendUnitIssues(issues, units[i]);
      i := i + 1;
    }
    assert units[..i] == units;
  }

  /** The body of the loop: one unit's three checks, each appending its issue. */
  method AppendUnitIssues(issues: seq<string>, ku: KnowledgeUnitState) returns (r: seq<string>)
    ensures r == issues + UnitIssues(ku)
  {
    r := issues;
    if !ku.stage1Completed {
      r := r + [Stage1Issue(ku.id)];
    }
    assert r == issues + Stage1Part(ku);
    if !ku.stage2Completed {
      r := r + [Stage2Issue(ku.id)];
    }
    assert r == issues + Stage1Part(ku) + Stage2Part(ku);
    if !ku.validated {
      r := r + [ValidationIssue(ku.id)];
    }
    assert r == issues + Stage1Part(ku) + Stage2Part(ku) + ValidationPart(ku);
    AppendThree(issues, Stage1Part(ku), Stage2Part(ku), ValidationPart(ku));
  }

  lemma AppendThree(x: seq<string>, a: seq<string>, b: seq<string>, c: seq<string>)
    ensures x + a + b + c == x + (a + b + c)
  {
  }

  /** The issues of one more unit follow those of the units before it. */
  lemma IssuesStep(units: seq<KnowledgeUnitState>, i: nat)
    requires i < |units|
    ensures Issues(units[..i + 1]) == Issues(units[..i]) + UnitIssues(units[i])
  {
    CollectStep(units, UnitIssues, i);
  }

  lemma CollectStep<T>(xs: seq<T>, f: T -> seq<string>, i: nat)
    requires i < |xs|
    ensures Collect(xs[..i + 1], f) == Collect(xs[..i], f) + f(xs[i])
  {
    assert xs[..i + 1][..i] == xs[..i];
  }

  /** `run`: the coherence note, the issues, and a revision flag that is set exactly
      when there is at least one issue, whatever the note says. */
  method Run(htmlFile: Option<string>, doc: GeneratedDocument) returns (feedback: EvaluationFeedback)
    ensures feedback.overallCoherence == CheckCoherence(htmlFile)
    ensures feedback.componentIssues == Issues(doc.knowledgeUnits)
    ensures feedback.requiresRevision <==> feedback.componentIssues != []
    ensures feedback.requiresRevision <==> exists i :: 0 <= i < |doc.knowledgeUnits| && !Clean(doc.knowledgeUnits[i])
  {
    var coherence := CheckCoherence(htmlFile);
    var issues := CheckComponents(doc);
    IssuesEmptyIff(doc.knowledgeUnits);
    feedback := EvaluationFeedback(coherence, issues, |issues| > 0);
  }

  // ---------------------------------------------------------------------------
  // Properties of the issue list

  /** Collecting a concatenation collects its parts one after the other. */
  lemma {:induction false} CollectAppend<T>(a: seq<T>, b: seq<T>, f: T -> seq<string>)
    ensures Collect(a + b, f) == Collect(a, f) + Collect(b, f)
    decreases |b|
  {
    if b == [] {
      assert a + b == a;
    } else {
      var init, last := b[..|b| - 1], b[|b| - 1];
      CollectAppend(a, init, f);
      assert (a + b)[..|a + b| - 1] == a + init && (a + b)[|a + b| - 1] == last;
    }
  }

  /** Issues keep the units' order: the issues of a concatenation are the issues of
      its parts, one after the other. */
  lemma IssuesAppend(a: seq<KnowledgeUnitState>, b: seq<KnowledgeUnitState>)
    ensures Issues(a + b) == Issues(a) + Issues(b)
  {
    CollectAppend(a, b, UnitIssues);
  }

  /** With at most k entries per element, at most k times as many in all. */
  lemma {:induction false} CollectBound<T>(xs: seq<T>, f: T -> seq<string>, k: nat)
    requires forall i :: 0 <= i < |xs| ==> |f(xs[i])| <= k
    ensures |Collect(xs, f)| <= k * |xs|
  {
    if xs != [] {
      var init := xs[..|xs| - 1];
      assert forall i :: 0 <= i < |init| ==> init[i] == xs[i];
      CollectBound(init, f, k);
    }
  }

  /** At most three issues per unit. */
  lemma IssuesBound(units: seq<KnowledgeUnitState>)
    ensures |Issues(units)| <= 3 * |units|
  {
    forall i | 0 <= i < |units| ensures |UnitIssues(units[i])| <= 3 {
    }
    CollectBound(units, UnitIssues, 3);
  }

  /** Nothing is collected exactly when every element gives nothing. */
  lemma {:induction false} CollectEmptyIff<T>(xs: seq<T>, f: T -> seq<string>)
    ensures Collect(xs, f) == [] <==> forall i :: 0 <= i < |xs| ==> f(xs[i]) == []
  {
    if xs != [] {
      var init := xs[..|xs| - 1];
      CollectEmptyIff(init, f);
      assert forall i :: 0 <= i < |init| ==> init[i] == xs[i];
    }
  }

  /** No issue at all exactly when every unit is clean. */
  lemma IssuesEmptyIff(units: seq<KnowledgeUnitState>)
    ensures Issues(units) == [] <==> forall i :: 0 <= i < |units| ==> Clean(units[i])
  {
    CollectEmptyIff(units, UnitIssues);
    forall i | 0 <= i < |units| ensures UnitIssues(units[i]) == [] <==> Clean(units[i]) {
      UnitIssuesEmptyIff(units[i]);
    }
  }

  /** A unit adds no issue exactly when it is clean. */
  lemma UnitIssuesEmptyIff(ku: KnowledgeUnitState)
    ensures UnitIssues(ku) == [] <==> Clean(ku)
  {
  }

  /** Each of a unit's issues starts with its id. */
  lemma UnitIssuesNameUnit(ku: KnowledgeUnitState, x: string)
    requires x in UnitIssues(ku)
    ensures StartsWith(x, ku.id + ": ")
  {
    var p := ku.id + ": ";
    if x == Stage1Issue(ku.id) {
      assert (p + "Stage 1 (text content) not completed")[..|p|] == p;
    } else if x == Stage2Issue(ku.id) {
      assert (p + "Stage 2 (interactive content) not completed")[..|p|] == p;
    } else {
      assert (p + "HTML validation failed")[..|p|] == p;
    }
  }

  /** Every collected entry comes from one element. */
  lemma {:induction false} CollectFrom<T>(xs: seq<T>, f: T -> seq<string>, k: nat)
    requires k < |Collect(xs, f)|
    ensures exists i :: 0 <= i < |xs| && Collect(xs, f)[k] in f(xs[i])
  {
    var init := xs[..|xs| - 1];
    if k < |Collect(init, f)| {
      CollectFrom(init, f, k);
      var i :| 0 <= i < |init| && Collect(init, f)[k] in f(init[i]);
      assert init[i] == xs[i];
    } else {
      assert Collect(xs, f)[k] in f(xs[|xs| - 1]);
    }
  }

  /** Every entry an element gives is collected. */
  lemma {:induction false} CollectHas<T>(xs: seq<T>, f: T -> seq<string>, i: nat, y: string)
    requires i < |xs| && y in f(xs[i])
    ensures y in Collect(xs, f)
  {
    var init := xs[..|xs| - 1];
    if i < |xs| - 1 {
      assert xs[i] == init[i];
      CollectHas(init, f, i, y);
    }
  }

  /** Every issue comes from one unit's checks: it names a unit that failed the
      corresponding check, and starts with that unit's id. */
  lemma IssueNamesUnit(units: seq<KnowledgeUnitState>, k: nat)
    requires k < |Issues(units)|
    ensures exists i :: 0 <= i < |units| && Issues(units)[k] in UnitIssues(units[i]) &&
                        StartsWith(Issues(units)[k], units[i].id + ": ")
  {
    CollectFrom(units, UnitIssues, k);
    var i :| 0 <= i < |units| && Issues(units)[k] in UnitIssues(units[i]);
    UnitIssuesNameUnit(units[i], Issues(units)[k]);
  }

  /** A unit that failed validation is named in the issue list. */
  lemma UnvalidatedIsReported(units: seq<KnowledgeUnitState>, i: nat)
    requires i < |units| && !units[i].validated
    ensures ValidationIssue(units[i].id) in Issues(units)
  {
    assert ValidationIssue(units[i].id) in UnitIssues(units[i]);
    CollectHas(units, UnitIssues, i, ValidationIssue(units[i].id));
  }

  /** For a document the executor produced (both stages done for every unit), a
      revision is required exactly when some unit failed validation. */
  lemma ExecutedDocumentIssues(units: seq<KnowledgeUnitState>, specs: seq<KnowledgeUnitSpec>)
    requires Processed(units, specs)
    ensures Issues(units) == [] <==> forall i :: 0 <= i < |units| ==> units[i].validated
  {
    IssuesEmptyIff(units);
    forall i | 0 <= i < |units| ensures units[i].stage1Completed && units[i].stage2Completed {
      ProcessedAt(units, specs, i);
    }
  }
}
