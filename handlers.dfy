/**
 * The concrete handlers behind `DISPATCH_MAP`: `initialize`, the tool
 * catalogue, the `tools/call` adapter, and the four prompt tools, each
 * turning its result into JSON or throwing its error object.
 */
module Handlers {
  import opened Wrappers
  import opened Json
  import opened McpTypes
  import opened Store
  import opened PromptRows
  import opened Dispatcher
  import ListPrompts
  import GetPrompt
  import ResolvePrompt
  import SearchPrompts
  import ListTools

  /** The service-role client: the database's answers to the queries the tools make. */
  datatype Database = Database(
    prompts: Query -> DbResult<seq<PromptRow>>,
    prompt: Query -> DbResult<PromptRow>,
    search: Rpc -> DbResult<seq<SearchPrompts.SearchRow>>)

  /** Library code the handlers call: zod's UUID test, `resolvePrompt`, `JSON.stringify`, Number-to-String. */
  datatype Runtime = Runtime(
    isUuid: string -> bool,
    resolve: (string, map<string, string>) -> string,
    stringify: Json -> string,
    numberText: real -> string)

  const ProtocolVersion := "2024-11-05"
  const ServerName := "prompt-repo"
  const ServerVersion := "1.0.0"

  /** `handleInitialize()`. */
  function InitializeResult(): Json
  {
    JObj([
      ("protocolVersion", JStr(ProtocolVersion)),
      ("capabilities", JObj([("tools", JObj([]))])),
      ("serverInfo", JObj([("name", JStr(ServerName)), ("version", JStr(ServerVersion))]))])
  }

  /** The `initialize` answer names the protocol version, the (tool-only) capabilities and the server, in that order. */
  lemma InitializeShape(j: Json)
    requires j == InitializeResult()
    ensures j.JObj? && Keys(j.members) == ["protocolVersion", "capabilities", "serverInfo"]
    ensures Field(j, "protocolVersion") == Some(JStr(ProtocolVersion))
    ensures Field(j, "capabilities") == Some(JObj([("tools", JObj([]))]))
    ensures Field(j, "serverInfo") == Some(JObj([("name", JStr(ServerName)), ("version", JStr(ServerVersion))]))
  {
    InitializeKeys(j);
    InitializeFields(j);
  }

  lemma InitializeKeys(j: Json)
    requires j == InitializeResult()
    ensures j.JObj? && Keys(j.members) == ["protocolVersion", "capabilities", "serverInfo"]
  {
  }

  lemma InitializeFields(j: Json)
    requires j == InitializeResult()
    ensures Field(j, "protocolVersion") == Some(JStr(ProtocolVersion))
    ensures Field(j, "capabilities") == Some(JObj([("tools", JObj([]))]))
    ensures Field(j, "serverInfo") == Some(JObj([("name", JStr(ServerName)), ("version", JStr(ServerVersion))]))
  {
    GetFirst(j.members, 0);
    GetFirst(j.members, 1);
    GetFirst(j.members, 2);
  }

  /** A tool's result returned as JSON, or its error thrown as an error object. */
  function Settle<T>(r: ToolResult<T>, toJson: T -> Json): (out: Outcome)
    ensures r.Done? ==> out == Returned(toJson(r.value))
    ensures r.Fail? ==> out.Threw? && ErrorOf(out.thrown) == Some(r.error)
  {
    match r
    case Done(v) => Returned(toJson(v))
    case Fail(e) => ErrorRoundTrip(e); Threw(ErrorToJson(e))
  }

  function RunTool(rt: Runtime, t: Tool, params: Json, userId: Option<string>, db: Database): Outcome
  {
    match t
    case ListPromptsHandler =>
      Settle(ListPrompts.ListPrompts(params, userId, db.prompts), EntriesToJson)
    case GetPromptHandler =>
      Settle(GetPrompt.GetPrompt(params, userId, rt.isUuid, db.prompt), GetPrompt.DetailToJson)
    case ResolvePromptHandler =>
      Settle(ResolvePrompt.ResolvePrompt(params, userId, rt.isUuid, rt.resolve, db.prompt), ResolvePrompt.ResolveResultToJson)
    case SearchPromptsHandler =>
      Settle(SearchPrompts.SearchPrompts(params, userId, db.search), EntriesToJson)
  }

  /** The handler `DISPATCH_MAP` holds for each entry, run on its arguments. */
  function Run(rt: Runtime, h: Handler, params: Json, userId: Option<string>, db: Database): Outcome
  {
    match h
    case InitializeHandler => Returned(InitializeResult())
    case ListToolsHandler => Returned(ListTools.ListToolsResult())
    case ToolsCallHandler =>
      ToolsCall(params, userId, db, (t, p, u, d) => RunTool(rt, t, p, u, d), rt.stringify, rt.numberText)
    case PromptHandler(t) => RunTool(rt, t, params, userId, db)
  }

  /** `dispatch` with the handlers of this server. */
  function Serve(rt: Runtime, req: Envelope.McpRequest, userId: Option<string>, client: ClientResult<Database>): DispatchOutcome
  {
    Dispatch(req, userId, client, (h, p, u, d) => Run(rt, h, p, u, d))
  }
}
