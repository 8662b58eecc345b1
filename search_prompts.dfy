/**
 * The `search_prompts` tool: validates a non-empty `query` (checked before it
 * is trimmed) and `limit` (an integer in 1..50, default 10), runs the
 * database's full-text search over every non-archived prompt, keeps the rows
 * the caller may see, and returns the metadata of the first `limit` of them.
 */
module SearchPrompts {
  import opened Wrappers
  import opened Json
  import opened Zod
  import opened McpTypes
  import opened Store
  import opened PromptRows
  import Text
  import VariableParser

  const MinLimit := 1
  const MaxLimit := 50
  const DefaultLimit := 10
  const QueryMinLength: nat := 1
  const QueryMessage := "query must be at least 1 character"

  const QueryRules: seq<StringRule> := [MinLength(QueryMinLength, QueryMessage)]

  datatype SearchParams = SearchParams(query: string, limit: int)

  /** The issues of the `query` property. */
  function QueryIssues(v: Option<Json>): (issues: seq<Issue>)
    ensures issues == [] <==> v.Some? && v.value.JStr? && |v.value.s| >= QueryMinLength
    ensures v.Some? && v.value.JStr? && |v.value.s| < QueryMinLength ==> issues == [Issue(["query"], QueryMessage)]
  {
    assert QueryRules[1..] == [];
    if v.Some? && v.value.JStr? then
      assert ApplyRules(["query"], v.value.s, QueryRules).1 ==
        if |v.value.s| < QueryMinLength then [Issue(["query"], QueryMessage)] else [];
      ApplyRules(["query"], v.value.s, QueryRules).1
    else [Issue(["query"], InvalidType("string", v))]
  }

  /** `searchPromptsParamsSchema.safeParse(params)`, then the trim and the default. */
  function ParseParams(params: Json): (r: Result<SearchParams, seq<Issue>>)
    ensures !params.JObj? ==> r == Failure(NotObject([], Some(params)))
    ensures r.Success? <==>
      && params.JObj? && QueryIssues(Field(params, "query")) == []
      && (Field(params, "limit").Some? ==> BoundedInt(["limit"], Field(params, "limit").value, MinLimit, Some(MaxLimit)).Success?)
    ensures r.Success? ==> r.value.query == Text.Trim(Field(params, "query").value.s)
    ensures r.Success? ==> MinLimit <= r.value.limit <= MaxLimit
    ensures r.Success? && Field(params, "limit").None? ==> r.value.limit == DefaultLimit
    ensures r.Success? && Field(params, "limit").Some? ==> r.value.limit as real == Field(params, "limit").value.n
    ensures r.Failure? ==> |r.error| >= 1
  {
    if !params.JObj? then Failure(NotObject([], Some(params)))
    else
      var q := QueryIssues(Field(params, "query"));
      var limit := OptionalBoundedInt(["limit"], Field(params, "limit"), MinLimit, Some(MaxLimit));
      if q != [] || limit.Failure? then Failure(q + (if limit.Failure? then limit.error else []))
      else Success(SearchParams(Text.Trim(Field(params, "query").value.s), limit.value.OrElse(DefaultLimit)))
  }

  /** A blank query passes the length check, which precedes the trim, and is sent as the empty string. */
  lemma BlankQuerySent(params: Json)
    requires params.JObj? && Field(params, "limit").None?
    requires Field(params, "query").Some? && Field(params, "query").value.JStr?
    requires |Field(params, "query").value.s| >= 1 && Text.AllSpace(Field(params, "query").value.s)
    ensures ParseParams(params) == Success(SearchParams("", DefaultLimit))
  {
    assert Text.Trim(Field(params, "query").value.s) == "";
  }

  /** The call to the `search_prompts` procedure: no owner or collection filter, archived rows excluded. */
  function SearchCall(query: string): Rpc
  {
    Rpc("search_prompts", [("query_text", SStr(query)), ("filter_user_id", SNull),
                           ("filter_collection_id", SNull), ("filter_archived", SBool(false))])
  }

  /** The columns of a search result the handler reads; `latest_content` may be null. */
  datatype SearchRow = SearchRow(
    id: string,
    userId: string,
    title: string,
    description: Option<string>,
    isPublic: bool,
    latestContent: Option<string>)

  /** `rows.filter(...)` with the owner-or-public rule. */
  function VisibleRows(userId: Option<string>, rows: seq<SearchRow>): (vs: seq<SearchRow>)
    ensures |vs| <= |rows|
    ensures forall i :: 0 <= i < |vs| ==> vs[i] in rows && Visible(userId, vs[i].userId, vs[i].isPublic)
  {
    if |rows| == 0 then []
    else
      var rest := VisibleRows(userId, rows[1..]);
      assert forall r :: r in rows[1..] ==> r in rows;
      (if Visible(userId, rows[0].userId, rows[0].isPublic) then [rows[0]] else []) + rest
  }

  /** No visible row is dropped, and a list of visible rows passes through unchanged. */
  lemma {:induction false} VisibleRowsComplete(userId: Option<string>, rows: seq<SearchRow>)
    ensures forall r :: r in rows && Visible(userId, r.userId, r.isPublic) ==> r in VisibleRows(userId, rows)
    ensures (forall i :: 0 <= i < |rows| ==> Visible(userId, rows[i].userId, rows[i].isPublic)) ==> VisibleRows(userId, rows) == rows
    decreases |rows|
  {
    if |rows| > 0 {
      VisibleRowsComplete(userId, rows[1..]);
      assert rows == [rows[0]] + rows[1..];
    }
  }

  /** The kept rows appear in the store's order: `idx` gives the increasing position of each in `rows`. */
  lemma {:induction false} VisibleRowsInOrder(userId: Option<string>, rows: seq<SearchRow>) returns (idx: seq<nat>)
    ensures Positions(rows, VisibleRows(userId, rows), idx)
    decreases |rows|
  {
    if |rows| == 0 {
      idx := [];
    } else {
      var rest := VisibleRows(userId, rows[1..]);
      var tail := VisibleRowsInOrder(userId, rows[1..]);
      var shifted := PositionsShift(rows, rest, tail);
      if Visible(userId, rows[0].userId, rows[0].isPublic) {
        idx := [0] + shifted;
        PositionsCons(rows, rest, shifted);
      } else {
        idx := shifted;
      }
    }
  }

  /** The list entry of a search row, variables from `latest_content ?? ''`. */
  function SearchEntry(row: SearchRow): PromptEntry
  {
    PromptEntry(row.id, row.title, row.description, VariableParser.Variables(row.latestContent.OrElse("")))
  }

  function Min(a: int, b: int): int
  {
    if a <= b then a else b
  }

  /** `handleSearchPrompts`; `rpc` is the database's answer to the procedure call. */
  function SearchPrompts(params: Json, userId: Option<string>, rpc: Rpc -> DbResult<seq<SearchRow>>)
    : (r: ToolResult<seq<PromptEntry>>)
    ensures ParseParams(params).Failure? ==> r == Fail(InvalidParams(ParseParams(params).error))
    ensures ParseParams(params).Success? && rpc(SearchCall(ParseParams(params).value.query)).DbErr? ==>
      r == Fail(StoreFailure("Search failed: ", rpc(SearchCall(ParseParams(params).value.query)).message))
    ensures ParseParams(params).Success? && rpc(SearchCall(ParseParams(params).value.query)).DbOk? ==>
      var visible := VisibleRows(userId, rpc(SearchCall(ParseParams(params).value.query)).data.OrElse([]));
      && r.Done? && |r.value| == Min(ParseParams(params).value.limit, |visible|)
      && forall i :: 0 <= i < |r.value| ==> r.value[i] == SearchEntry(visible[i])
  {
    match ParseParams(params)
    case Failure(issues) => Fail(InvalidParams(issues))
    case Success(p) =>
      match rpc(SearchCall(p.query))
      case DbErr(m) => Fail(StoreFailure("Search failed: ", m))
      case DbOk(data) =>
        var visible := VisibleRows(userId, data.OrElse([]));
        var limited := visible[..Min(p.limit, |visible|)];
        Done(seq(|limited|, i requires 0 <= i < |limited| => SearchEntry(limited[i])))
  }

  /** `e` is the entry of one of `rows` that the caller may see. */
  ghost predicate FromVisibleRow(e: PromptEntry, userId: Option<string>, rows: seq<SearchRow>)
  {
    exists row :: row in rows && Visible(userId, row.userId, row.isPublic) && e == SearchEntry(row)
  }

  /**
   * Every entry returned comes from a row of the search the caller may see,
   * and there are at most `limit` of them, never more than 50.
   */
  lemma SearchReturnsVisible(params: Json, userId: Option<string>, rpc: Rpc -> DbResult<seq<SearchRow>>)
    requires SearchPrompts(params, userId, rpc).Done?
    ensures rpc(SearchCall(ParseParams(params).value.query)).DbOk?
    ensures |SearchPrompts(params, userId, rpc).value| <= ParseParams(params).value.limit <= MaxLimit
    ensures var p := ParseParams(params).value;
      var out := SearchPrompts(params, userId, rpc).value;
      forall i :: 0 <= i < |out| ==> FromVisibleRow(out[i], userId, rpc(SearchCall(p.query)).data.OrElse([]))
  {
    var p := ParseParams(params).value;
    var visible := VisibleRows(userId, rpc(SearchCall(p.query)).data.OrElse([]));
    var out := SearchPrompts(params, userId, rpc).value;
    assert rpc(SearchCall(p.query)).DbOk?;
    assert |out| == Min(p.limit, |visible|);
    forall i | 0 <= i < |out| ensures FromVisibleRow(out[i], userId, rpc(SearchCall(p.query)).data.OrElse([])) {
      var row := visible[i];
      assert row in rpc(SearchCall(p.query)).data.OrElse([]) && Visible(userId, row.userId, row.isPublic);
      assert out[i] == SearchEntry(row);
    }
  }

  /** Parameters that fail validation are reported before the search runs. */
  lemma SearchInvalidBeforeQuery(params: Json, userId: Option<string>,
                                 f1: Rpc -> DbResult<seq<SearchRow>>, f2: Rpc -> DbResult<seq<SearchRow>>)
    requires ParseParams(params).Failure?
    ensures SearchPrompts(params, userId, f1) == SearchPrompts(params, userId, f2)
    ensures SearchPrompts(params, userId, f1).error.code == INVALID_PARAMS
    ensures Field(params, "query") == Some(JStr("")) ==> Issue(["query"], QueryMessage) in ParseParams(params).error
  {
    if params.JObj? && Field(params, "query") == Some(JStr("")) {
      assert QueryIssues(Field(params, "query")) == [Issue(["query"], QueryMessage)];
    }
  }
}
