/** The pipeline's records: the planner's specification of a document and its
    knowledge units, the per-unit generation state, the generated document and the
    evaluator's feedback. */
module Models {
  import opened Common

  datatype KnowledgeUnitSpec = KnowledgeUnitSpec(
    id: string,
    unitContent: string,
    textDescription: string,
    interactionDescription: string)

  datatype DocumentSpec = DocumentSpec(topic: string, knowledgeUnits: seq<KnowledgeUnitSpec>)

  /** Status flags of one unit; no HTML is kept in it. */
  datatype KnowledgeUnitState = KnowledgeUnitState(
    id: string,
    unitContent: string,
    stage1Completed: bool,
    stage2Completed: bool,
    validated: bool)

  datatype GeneratedDocument = GeneratedDocument(
    topic: string,
    htmlFilePath: string,
    knowledgeUnits: seq<KnowledgeUnitState>)

  datatype EvaluationFeedback = EvaluationFeedback(
    overallCoherence: string,
    componentIssues: seq<string>,
    requiresRevision: bool)

  /** A fresh unit state: only the id and summary are known, every flag is false. */
  function InitialState(ku: KnowledgeUnitSpec): (st: KnowledgeUnitState)
    ensures st.id == ku.id && st.unitContent == ku.unitContent
    ensures !st.stage1Completed && !st.stage2Completed && !st.validated
  {
    KnowledgeUnitState(ku.id, ku.unitContent, false, false, false)
  }

  /** The HTML scope id of the idx-th unit (1-based): `f"ku{idx}"`. */
  function ScopeId(idx: nat): string
  {
    "ku" + NatToString(idx)
  }

  /** Different positions get different scope ids. */
  lemma ScopeIdInjective(i: nat, j: nat)
    requires ScopeId(i) == ScopeId(j)
    ensures i == j
  {
    assert NatToString(i) == ScopeId(i)[2..] == ScopeId(j)[2..] == NatToString(j);
    NatToStringInjective(i, j);
  }

  /** A unit state that went through both stages for the given spec unit. */
  predicate Copies(st: KnowledgeUnitState, ku: KnowledgeUnitSpec)
  {
    st.id == ku.id && st.unitContent == ku.unitContent && st.stage1Completed && st.stage2Completed
  }

  /** `units[i]` went through both stages for `specs[i]`, for every i. */
  predicate Processed(units: seq<KnowledgeUnitState>, specs: seq<KnowledgeUnitSpec>)
    decreases |units|
  {
    |units| == |specs| &&
    (|units| == 0 ||
     (Processed(units[..|units| - 1], specs[..|specs| - 1]) && Copies(units[|units| - 1], specs[|specs| - 1])))
  }

  lemma ProcessedStep(units: seq<KnowledgeUnitState>, specs: seq<KnowledgeUnitSpec>,
                      st: KnowledgeUnitState, ku: KnowledgeUnitSpec)
    requires Processed(units, specs) && Copies(st, ku)
    ensures Processed(units + [st], specs + [ku])
  {
    assert (units + [st])[..|units|] == units && (specs + [ku])[..|specs|] == specs;
  }

  /** The per-unit reading of `Processed`. */
  lemma {:induction false} ProcessedAt(units: seq<KnowledgeUnitState>, specs: seq<KnowledgeUnitSpec>, i: nat)
    requires Processed(units, specs) && i < |units|
    ensures |units| == |specs| && Copies(units[i], specs[i])
    decreases |units|
  {
    if i < |units| - 1 {
      ProcessedAt(units[..|units| - 1], specs[..|specs| - 1], i);
    }
  }
}
