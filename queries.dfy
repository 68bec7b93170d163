/** The search request the client sends (IGCSearch, which is not part of this
    model, is represented by the record it carries) and the search service. */
module Queries {
  import opened Wrappers
  import opened Json
  import opened SearchConditions
  import opened SearchConditionSets
  import opened Assets

  /** types to search, properties to return, compiled criteria (None when the search
      has no condition set), page size and the development-glossary flag. */
  datatype Query = Query(
    types: seq<Option<string>>,
    properties: seq<string>,
    conditions: Option<Json>,
    pageSize: int,
    devGlossary: bool)

  /** The compiled criteria `_id = id`: a fresh condition set holding one leaf. */
  function IdCondition(id: Option<string>): (j: Json)
    ensures j == SetObject([ConditionObject(WithValue(Some("_id"), Some("="), id))], AND)
  {
    CompileChain([Level([ConditionObject(WithValue(Some("_id"), Some("="), id))], AND)]).result.value
  }

  /** The lookup by id that MainObject and Reference issue: one type, the `_id`
      condition, page size 2. */
  function IdLookup(typ: Option<string>, id: Option<string>, properties: seq<string>): (q: Query)
    ensures q.types == [typ] && q.properties == properties && q.pageSize == 2 && !q.devGlossary
    ensures q.conditions == Some(IdCondition(id))
  {
    Query([typ], properties, Some(IdCondition(id)), 2, false)
  }

  /** The remote search as seen by the model objects: answer(q) is the first page
      of results the client's search returns (None when it returns null). */
  class SearchService {
    const answer: Query -> Option<seq<Asset>>
    /** Every query issued, oldest first. */
    ghost var log: seq<Query>

    constructor (answer: Query -> Option<seq<Asset>>)
      ensures this.answer == answer && log == []
    {
      this.answer := answer;
      log := [];
    }

    method Search(q: Query) returns (r: Option<seq<Asset>>)
      modifies this`log
      ensures r == answer(q) && log == old(log) + [q]
    {
      r := answer(q);
      log := log + [q];
    }
  }
}
