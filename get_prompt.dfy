/**
 * The `get_prompt` tool: validates `prompt_id` as a UUID, fetches that one
 * prompt by id, hides a prompt the caller may not see behind the same
 * not-found error as a missing one, and returns the prompt with the content,
 * number and variables of its latest version. The fetch-and-check part is
 * shared with `resolve_prompt`, which repeats it.
 */
module GetPrompt {
  import opened Wrappers
  import opened Json
  import opened Zod
  import opened McpTypes
  import opened Store
  import opened PromptRows
  import VariableParser

  const UuidMessage := "prompt_id must be a valid UUID"

  /** `z.string().uuid({message})`; `isUuid` stands for zod's UUID pattern. */
  function PromptIdRules(isUuid: string -> bool): seq<StringRule>
  {
    [Format(isUuid, UuidMessage)]
  }

  /** The `prompt_id` property of an object, as the schema checks it. */
  function PromptIdIssues(params: Json, isUuid: string -> bool): (issues: seq<Issue>)
    requires params.JObj?
    ensures issues == [] <==>
      Field(params, "prompt_id").Some? && Field(params, "prompt_id").value.JStr? && isUuid(Field(params, "prompt_id").value.s)
    ensures Field(params, "prompt_id").Some? && Field(params, "prompt_id").value.JStr? && !isUuid(Field(params, "prompt_id").value.s)
      ==> issues == [Issue(["prompt_id"], UuidMessage)]
  {
    var v := Field(params, "prompt_id");
    var rules := PromptIdRules(isUuid);
    assert rules[1..] == [];
    if v.Some? && v.value.JStr? then
      assert ApplyRules(["prompt_id"], v.value.s, rules).1 ==
        if isUuid(v.value.s) then [] else [Issue(["prompt_id"], UuidMessage)];
      ApplyRules(["prompt_id"], v.value.s, rules).1
    else [Issue(["prompt_id"], InvalidType("string", v))]
  }

  /** `getPromptParamsSchema.safeParse(params)`: the prompt id, or the issues. */
  function ParsePromptId(params: Json, isUuid: string -> bool): (r: Result<string, seq<Issue>>)
    ensures !params.JObj? ==> r == Failure(NotObject([], Some(params)))
    ensures r.Success? <==> params.JObj? && PromptIdIssues(params, isUuid) == []
    ensures r.Success? ==> Field(params, "prompt_id") == Some(JStr(r.value)) && isUuid(r.value)
    ensures r.Failure? ==> |r.error| >= 1
  {
    if !params.JObj? then Failure(NotObject([], Some(params)))
    else
      var issues := PromptIdIssues(params, isUuid);
      if issues != [] then Failure(issues) else Success(Field(params, "prompt_id").value.s)
  }

  /** `from('prompts').select(...).eq('id', prompt_id).maybeSingle()`. */
  function FetchQuery(id: string): Query
  {
    Query("prompts", [Eq("id", SStr(id))], [], None, None, true)
  }

  /** Fetching by id reads no archive column: an archived prompt is served like any other. */
  lemma FetchIgnoresArchive(id: string, row: Row, archivedAt: Scalar)
    ensures Admits(FetchQuery(id), row) <==> Admits(FetchQuery(id), row["archived_at" := archivedAt])
    ensures Admits(FetchQuery(id), row) <==> "id" in row && row["id"] == SStr(id)
  {
    var q := FetchQuery(id);
    assert Admits(q, row) <==> Holds(q.filters[0], row);
    assert Admits(q, row["archived_at" := archivedAt]) <==> Holds(q.filters[0], row["archived_at" := archivedAt]);
  }

  /**
   * The stored prompt when the caller may see it: a store error is reported
   * with the given prefix, and a missing row and a row of someone else's
   * private prompt both give the same not-found error.
   */
  function FetchVisible(id: string, userId: Option<string>, fetch: Query -> DbResult<PromptRow>): (r: ToolResult<PromptRow>)
    ensures fetch(FetchQuery(id)).DbErr? ==> r == Fail(StoreFailure("Failed to fetch prompt: ", fetch(FetchQuery(id)).message))
    ensures r.Done? <==>
      fetch(FetchQuery(id)).DbOk? && fetch(FetchQuery(id)).data.Some?
      && Visible(userId, fetch(FetchQuery(id)).data.value.userId, fetch(FetchQuery(id)).data.value.isPublic)
    ensures r.Done? ==> fetch(FetchQuery(id)) == DbOk(Some(r.value))
    ensures fetch(FetchQuery(id)).DbOk? && r.Fail? ==> r.error == PromptNotFound
  {
    match fetch(FetchQuery(id))
    case DbErr(m) => Fail(StoreFailure("Failed to fetch prompt: ", m))
    case DbOk(None) => Fail(PromptNotFound)
    case DbOk(Some(row)) => if Visible(userId, row.userId, row.isPublic) then Done(row) else Fail(PromptNotFound)
  }

  /** A private prompt of someone else cannot be told apart from a missing one. */
  lemma HiddenLikeMissing(id: string, userId: Option<string>, f1: Query -> DbResult<PromptRow>, f2: Query -> DbResult<PromptRow>)
    requires f1(FetchQuery(id)) == DbOk(None)
    requires f2(FetchQuery(id)).DbOk? && f2(FetchQuery(id)).data.Some?
    requires var row := f2(FetchQuery(id)).data.value; !row.isPublic && userId != Some(row.userId)
    ensures FetchVisible(id, userId, f1) == FetchVisible(id, userId, f2) == Fail(PromptNotFound)
  {
  }

  /** An anonymous caller is served public prompts only; an owner is served their private ones. */
  lemma AccessRule(id: string, userId: Option<string>, fetch: Query -> DbResult<PromptRow>)
    requires fetch(FetchQuery(id)).DbOk? && fetch(FetchQuery(id)).data.Some?
    ensures var row := fetch(FetchQuery(id)).data.value;
      && (userId.None? ==> (FetchVisible(id, userId, fetch).Done? <==> row.isPublic))
      && (userId == Some(row.userId) ==> FetchVisible(id, userId, fetch) == Done(row))
  {
  }

  /** The result of `get_prompt`: the row's metadata with its latest version. */
  datatype PromptDetail = PromptDetail(
    id: string,
    title: string,
    description: Option<string>,
    content: string,
    isPublic: bool,
    variables: seq<string>,
    versionNumber: int,
    createdAt: string,
    updatedAt: string)

  /** The detail of a row: content and number of the highest-numbered version, `''` and 0 without versions. */
  function Detail(row: PromptRow): (d: PromptDetail)
    ensures d.id == row.id && d.title == row.title && d.description == row.description
    ensures d.isPublic == row.isPublic && d.createdAt == row.createdAt && d.updatedAt == row.updatedAt
    ensures row.versions == [] ==> d.content == "" && d.versionNumber == 0
    ensures row.versions != [] ==>
      && (forall i :: 0 <= i < |row.versions| ==> row.versions[i].versionNumber <= d.versionNumber)
      && var k := LatestIndex(row.versions);
         d.content == row.versions[k].content && d.versionNumber == row.versions[k].versionNumber
    ensures d.variables == VariableParser.Variables(d.content)
  {
    var latest := LatestVersion(row.versions);
    var content := LatestContent(row.versions);
    var number := if latest.Some? then latest.value.versionNumber else 0;
    PromptDetail(row.id, row.title, row.description, content, row.isPublic,
                 VariableParser.Variables(content), number, row.createdAt, row.updatedAt)
  }

  /** The result object, fields in the handler's order. */
  function DetailToJson(d: PromptDetail): (j: Json)
    ensures j.JObj? && Keys(j.members) ==
      ["id", "title", "description", "content", "is_public", "variables", "version_number", "created_at", "updated_at"]
  {
    JObj([("id", JStr(d.id)), ("title", JStr(d.title)), ("description", TextOrNull(d.description)),
          ("content", JStr(d.content)), ("is_public", JBool(d.isPublic)), ("variables", Strings(d.variables)),
          ("version_number", JNum(d.versionNumber as real)), ("created_at", JStr(d.createdAt)),
          ("updated_at", JStr(d.updatedAt))])
  }

  /** `handleGetPrompt`; `fetch` is the database's answer to the single-row query. */
  function GetPrompt(params: Json, userId: Option<string>, isUuid: string -> bool, fetch: Query -> DbResult<PromptRow>)
    : (r: ToolResult<PromptDetail>)
    ensures ParsePromptId(params, isUuid).Failure? ==> r == Fail(InvalidParams(ParsePromptId(params, isUuid).error))
    ensures ParsePromptId(params, isUuid).Success? ==>
      var id := ParsePromptId(params, isUuid).value;
      && (FetchVisible(id, userId, fetch).Fail? ==> r == Fail(FetchVisible(id, userId, fetch).error))
      && (FetchVisible(id, userId, fetch).Done? ==> r == Done(Detail(FetchVisible(id, userId, fetch).value)))
  {
    match ParsePromptId(params, isUuid)
    case Failure(issues) => Fail(InvalidParams(issues))
    case Success(id) =>
      match FetchVisible(id, userId, fetch)
      case Fail(e) => Fail(e)
      case Done(row) => Done(Detail(row))
  }

  /** Parameters that fail validation are reported before any query. */
  lemma GetInvalidBeforeQuery(params: Json, userId: Option<string>, isUuid: string -> bool,
                              f1: Query -> DbResult<PromptRow>, f2: Query -> DbResult<PromptRow>)
    requires ParsePromptId(params, isUuid).Failure?
    ensures GetPrompt(params, userId, isUuid, f1) == GetPrompt(params, userId, isUuid, f2)
    ensures GetPrompt(params, userId, isUuid, f1).Fail? && GetPrompt(params, userId, isUuid, f1).error.code == INVALID_PARAMS
  {
  }

  /** A missing `prompt_id`, and `null` parameters, are invalid parameters. */
  lemma MissingPromptId(params: Json, isUuid: string -> bool)
    requires params.JNull? || (params.JObj? && Field(params, "prompt_id").None?)
    ensures ParsePromptId(params, isUuid).Failure?
    ensures params.JNull? ==> Messages(ParsePromptId(params, isUuid).error) == [InvalidType("object", Some(JNull))]
    ensures params.JObj? ==> Messages(ParsePromptId(params, isUuid).error) == ["Required"]
  {
    if params.JObj? {
      assert PromptIdIssues(params, isUuid) == [Issue(["prompt_id"], InvalidType("string", None))];
    } else {
      var e := Issue([], InvalidType("object", Some(params)));
      assert ParsePromptId(params, isUuid).error == [e];
      assert Messages([e]) == [e.message];
    }
  }
}
