/**
 * The `list_prompts` tool: validates `limit` (an integer in 1..100,
 * default 20) and `offset` (an integer from 0, default 0), queries the
 * non-archived prompts the caller may see, newest update first, in the
 * window `[offset, offset + limit - 1]`, and returns each row's metadata
 * with the variables of its latest version.
 */
module ListPrompts {
  import opened Wrappers
  import opened Json
  import opened Zod
  import opened McpTypes
  import opened Store
  import opened PromptRows
  import VariableParser

  const MinLimit := 1
  const MaxLimit := 100
  const DefaultLimit := 20
  const MinOffset := 0
  const DefaultOffset := 0

  datatype ListParams = ListParams(limit: int, offset: int)

  /** `listPromptsParamsSchema.safeParse(params ?? {})`. */
  function ParseParams(params: Json): (r: Result<ListParams, seq<Issue>>)
    ensures r.Success? <==>
      var p := if params.JNull? then JObj([]) else params;
      && p.JObj?
      && (Field(p, "limit").Some? ==> BoundedInt(["limit"], Field(p, "limit").value, MinLimit, Some(MaxLimit)).Success?)
      && (Field(p, "offset").Some? ==> BoundedInt(["offset"], Field(p, "offset").value, MinOffset, None).Success?)
    ensures r.Success? ==> MinLimit <= r.value.limit <= MaxLimit && MinOffset <= r.value.offset
    ensures r.Success? && Field(params, "limit").None? ==> r.value.limit == DefaultLimit
    ensures r.Success? && Field(params, "offset").None? ==> r.value.offset == DefaultOffset
    ensures r.Success? && Field(params, "limit").Some? ==> r.value.limit as real == Field(params, "limit").value.n
    ensures r.Success? && Field(params, "offset").Some? ==> r.value.offset as real == Field(params, "offset").value.n
    ensures r.Failure? ==> |r.error| >= 1
  {
    var p := if params.JNull? then JObj([]) else params;
    if !p.JObj? then Failure(NotObject([], Some(p)))
    else
      var limit := OptionalBoundedInt(["limit"], Field(p, "limit"), MinLimit, Some(MaxLimit));
      var offset := OptionalBoundedInt(["offset"], Field(p, "offset"), MinOffset, None);
      if limit.Failure? || offset.Failure? then Failure(IssuesOf(limit) + IssuesOf(offset))
      else Success(ListParams(limit.value.OrElse(DefaultLimit), offset.value.OrElse(DefaultOffset)))
  }

  /** `if (userId)`: the empty string counts as no caller. */
  function Caller(userId: Option<string>): Option<string>
  {
    if userId.Some? && userId.value != "" then userId else None
  }

  /** The query the handler builds: non-archived, visible, newest update first, one window. */
  function ListQuery(userId: Option<string>, p: ListParams): Query
  {
    var visibility :=
      if Caller(userId).Some? then AnyOf([Eq("user_id", SStr(userId.value)), Eq("is_public", SBool(true))])
      else Eq("is_public", SBool(true));
    Query("prompts", [Is("archived_at", SNull), visibility], [], Some(Order("updated_at", false)),
          Some((p.offset, p.offset + p.limit - 1)), false)
  }

  /** The columns the filters read, taken from a prompt row and its archive time. */
  function RowOf(row: PromptRow, archivedAt: Option<string>): Row
  {
    map["user_id" := SStr(row.userId), "is_public" := SBool(row.isPublic),
        "archived_at" := if archivedAt.Some? then SStr(archivedAt.value) else SNull]
  }

  /** The filters admit exactly the non-archived rows the owner-or-public rule lets the caller see. */
  lemma ListQueryAdmitsVisible(userId: Option<string>, p: ListParams, row: PromptRow, archivedAt: Option<string>)
    ensures Admits(ListQuery(userId, p), RowOf(row, archivedAt)) <==>
      archivedAt.None? && Visible(Caller(userId), row.userId, row.isPublic)
  {
    var q := ListQuery(userId, p);
    var r := RowOf(row, archivedAt);
    assert Admits(q, r) <==> Holds(q.filters[0], r) && Holds(q.filters[1], r);
    if Caller(userId).Some? {
      var fs := [Eq("user_id", SStr(userId.value)), Eq("is_public", SBool(true))];
      assert Holds(AnyOf(fs), r) <==> Holds(fs[0], r) || Holds(fs[1], r);
    }
  }

  /** The window has room for exactly `limit` rows and starts at `offset`; without parameters it is rows 0..19. */
  lemma ListWindow(userId: Option<string>, params: Json)
    requires ParseParams(params).Success?
    ensures var p := ParseParams(params).value;
      var q := ListQuery(userId, p);
      q.range.Some? && q.range.value.0 == p.offset && WindowSize(q.range.value) == p.limit
    ensures params.JNull? ==> ListQuery(userId, ParseParams(params).value).range == Some((0, 19))
  {
  }

  /** The entry for one row: its metadata and the variables of its latest version. */
  function Entry(row: PromptRow): PromptEntry
  {
    PromptEntry(row.id, row.title, row.description, VariableParser.Variables(LatestContent(row.versions)))
  }

  /** `handleListPrompts`; `fetch` is the database's answer to a query. */
  function ListPrompts(params: Json, userId: Option<string>, fetch: Query -> DbResult<seq<PromptRow>>)
    : (r: ToolResult<seq<PromptEntry>>)
    ensures ParseParams(params).Failure? ==> r == Fail(InvalidParams(ParseParams(params).error))
    ensures ParseParams(params).Success? ==>
      match fetch(ListQuery(userId, ParseParams(params).value))
      case DbErr(m) => r == Fail(StoreFailure("Failed to fetch prompts: ", m))
      case DbOk(data) =>
        var rows := data.OrElse([]);
        && r.Done? && |r.value| == |rows|
        && forall i :: 0 <= i < |rows| ==>
             && r.value[i].id == rows[i].id && r.value[i].title == rows[i].title
             && r.value[i].description == rows[i].description
             && r.value[i].variables == VariableParser.Variables(LatestContent(rows[i].versions))
  {
    match ParseParams(params)
    case Failure(issues) => Fail(InvalidParams(issues))
    case Success(p) =>
      match fetch(ListQuery(userId, p))
      case DbErr(m) => Fail(StoreFailure("Failed to fetch prompts: ", m))
      case DbOk(data) =>
        var rows := data.OrElse([]);
        Done(seq(|rows|, i requires 0 <= i < |rows| => Entry(rows[i])))
  }

  /** Invalid parameters are reported before any query: the answer does not depend on the database. */
  lemma InvalidBeforeQuery(params: Json, userId: Option<string>, f1: Query -> DbResult<seq<PromptRow>>, f2: Query -> DbResult<seq<PromptRow>>)
    requires ParseParams(params).Failure?
    ensures ListPrompts(params, userId, f1) == ListPrompts(params, userId, f2)
    ensures ListPrompts(params, userId, f1).Fail? && ListPrompts(params, userId, f1).error.code == INVALID_PARAMS
  {
  }
}
