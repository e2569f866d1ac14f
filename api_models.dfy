/** The conversions between the planner's spec records and the records the web API
    exchanges. The API unit has a title and one description where the planner's unit
    has a summary and two descriptions, and it carries learning objectives and
    prerequisites the planner's unit does not have: both directions lose something,
    and the round-trip lemmas say exactly what. */
module ApiModels {
  import opened Common
  import opened Models

  datatype KnowledgeUnitApi = KnowledgeUnitApi(
    id: string,
    title: string,
    description: string,
    learningObjectives: seq<string>,
    prerequisites: seq<string>)

  /** `DocumentSpecAPI`; `metadata` is optional and maps names to timestamps. */
  datatype DocumentSpecApi = DocumentSpecApi(
    id: string,
    topic: string,
    knowledgeUnits: seq<KnowledgeUnitApi>,
    metadata: Option<map<string, string>>)

  /** `ku_spec_to_api`: summary becomes title, text description becomes description,
      and the lists the planner does not produce are empty. */
  function KuSpecToApi(ku: KnowledgeUnitSpec): KnowledgeUnitApi
  {
    KnowledgeUnitApi(ku.id, ku.unitContent, ku.textDescription, [], [])
  }

  /** `api_to_ku_spec`: the one description serves as both descriptions. */
  function ApiToKuSpec(ku: KnowledgeUnitApi): KnowledgeUnitSpec
  {
    KnowledgeUnitSpec(ku.id, ku.title, ku.description, ku.description)
  }

  /** `[ku_spec_to_api(ku) for ku in kus]`. */
  function KusToApi(kus: seq<KnowledgeUnitSpec>): (r: seq<KnowledgeUnitApi>)
    ensures |r| == |kus|
    ensures forall i :: 0 <= i < |kus| ==> r[i] == KuSpecToApi(kus[i])
  {
    if kus == [] then [] else KusToApi(kus[..|kus| - 1]) + [KuSpecToApi(kus[|kus| - 1])]
  }

  /** `[api_to_ku_spec(ku) for ku in kus]`. */
  function KusFromApi(kus: seq<KnowledgeUnitApi>): (r: seq<KnowledgeUnitSpec>)
    ensures |r| == |kus|
    ensures forall i :: 0 <= i < |kus| ==> r[i] == ApiToKuSpec(kus[i])
  {
    if kus == [] then [] else KusFromApi(kus[..|kus| - 1]) + [ApiToKuSpec(kus[|kus| - 1])]
  }

  /** `doc_spec_to_api`: the spec id and the two timestamps are supplied by the caller
      (the running system reads the clock twice). */
  function DocSpecToApi(doc: DocumentSpec, specId: string, createdAt: string, updatedAt: string): DocumentSpecApi
  {
    DocumentSpecApi(specId, doc.topic, KusToApi(doc.knowledgeUnits),
                    Some(map["created_at" := createdAt, "updated_at" := updatedAt]))
  }

  /** `api_to_doc_spec`: id and metadata are dropped. */
  function ApiToDocSpec(api: DocumentSpecApi): DocumentSpec
  {
    DocumentSpec(api.topic, KusFromApi(api.knowledgeUnits))
  }

  /** The planner's unit after a trip through the API: its interaction description
      is replaced by its text description, and nothing else changes. */
  lemma KuSpecRoundTrip(ku: KnowledgeUnitSpec)
    ensures ApiToKuSpec(KuSpecToApi(ku)) == ku.(interactionDescription := ku.textDescription)
    ensures ApiToKuSpec(KuSpecToApi(ku)) == ku <==> ku.interactionDescription == ku.textDescription
  {
  }

  /** The API unit after a trip through the planner's record: its learning
      objectives and prerequisites are emptied, and nothing else changes. */
  lemma KuApiRoundTrip(ku: KnowledgeUnitApi)
    ensures KuSpecToApi(ApiToKuSpec(ku)) == ku.(learningObjectives := [], prerequisites := [])
  {
  }

  /** A whole spec after a trip through the API: same topic, same units in the same
      order, each with its interaction description replaced by its text description. */
  lemma {:induction false} DocSpecRoundTrip(doc: DocumentSpec, specId: string, createdAt: string, updatedAt: string)
    ensures var back := ApiToDocSpec(DocSpecToApi(doc, specId, createdAt, updatedAt));
            && back.topic == doc.topic
            && |back.knowledgeUnits| == |doc.knowledgeUnits|
            && forall i :: 0 <= i < |doc.knowledgeUnits| ==>
                 back.knowledgeUnits[i] == doc.knowledgeUnits[i].(interactionDescription := doc.knowledgeUnits[i].textDescription)
  {
    var back := ApiToDocSpec(DocSpecToApi(doc, specId, createdAt, updatedAt));
    forall i | 0 <= i < |doc.knowledgeUnits|
      ensures back.knowledgeUnits[i] == doc.knowledgeUnits[i].(interactionDescription := doc.knowledgeUnits[i].textDescription)
    {
      KuSpecRoundTrip(doc.knowledgeUnits[i]);
    }
  }

  /** A spec whose units use one description for both stages survives the trip
      through the API unchanged. */
  lemma DocSpecRoundTripExact(doc: DocumentSpec, specId: string, createdAt: string, updatedAt: string)
    requires forall i :: 0 <= i < |doc.knowledgeUnits| ==>
               doc.knowledgeUnits[i].interactionDescription == doc.knowledgeUnits[i].textDescription
    ensures ApiToDocSpec(DocSpecToApi(doc, specId, createdAt, updatedAt)) == doc
  {
    DocSpecRoundTrip(doc, specId, createdAt, updatedAt);
    var back := ApiToDocSpec(DocSpecToApi(doc, specId, createdAt, updatedAt));
    assert back.knowledgeUnits == doc.knowledgeUnits;
  }

  /** An API spec after a trip through the planner's record: the given id and fresh
      metadata replace its own, and its units keep their order with objectives and
      prerequisites emptied. */
  lemma {:induction false} DocApiRoundTrip(api: DocumentSpecApi, createdAt: string, updatedAt: string)
    ensures var back := DocSpecToApi(ApiToDocSpec(api), api.id, createdAt, updatedAt);
            && back.id == api.id && back.topic == api.topic
            && back.metadata == Some(map["created_at" := createdAt, "updated_at" := updatedAt])
            && |back.knowledgeUnits| == |api.knowledgeUnits|
            && forall i :: 0 <= i < |api.knowledgeUnits| ==>
                 back.knowledgeUnits[i] == api.knowledgeUnits[i].(learningObjectives := [], prerequisites := [])
  {
  }
}
