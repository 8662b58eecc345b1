/**
 * The JSON-RPC dispatcher: routes a validated request by method name,
 * obtains the service-role database client, runs the handler and turns its
 * result, or the error it throws, into a response envelope that echoes the
 * request id. `tools/call` routes once more, by tool name, to the same four
 * prompt handlers that the `prompts/...` methods reach.
 *
 * Handlers are a parameter `run` (their concrete definitions live in
 * `Handlers`), so that each property below holds for whatever they do.
 */
module Dispatcher {
  import opened Wrappers
  import opened Json
  import opened McpTypes
  import opened Envelope
  import opened Store
  import ListTools

  /** The four prompt tools. */
  datatype Tool = ListPromptsHandler | GetPromptHandler | ResolvePromptHandler | SearchPromptsHandler

  /** The handlers `DISPATCH_MAP` holds. */
  datatype Handler = InitializeHandler | ListToolsHandler | ToolsCallHandler | PromptHandler(tool: Tool)

  const DispatchMap: map<string, Handler> := map[
    "initialize" := InitializeHandler,
    "tools/list" := ListToolsHandler,
    "tools/call" := ToolsCallHandler,
    "prompts/list" := PromptHandler(ListPromptsHandler),
    "prompts/get" := PromptHandler(GetPromptHandler),
    "prompts/resolve" := PromptHandler(ResolvePromptHandler),
    "prompts/search" := PromptHandler(SearchPromptsHandler)]

  const ToolHandlerMap: map<string, Tool> := map[
    "list_prompts" := ListPromptsHandler,
    "get_prompt" := GetPromptHandler,
    "resolve_prompt" := ResolvePromptHandler,
    "search_prompts" := SearchPromptsHandler]

  /** Exactly seven methods are routed. */
  lemma RoutedMethods()
    ensures DispatchMap.Keys ==
      {"initialize", "tools/list", "tools/call", "prompts/list", "prompts/get", "prompts/resolve", "prompts/search"}
    ensures |DispatchMap.Keys| == 7
  {
  }

  /**
   * Each `prompts/...` method reaches the handler `tools/call` reaches under
   * the tool's name, and every tool handler is reachable that way.
   */
  lemma PromptMethodsMatchTools()
    ensures DispatchMap["prompts/list"] == PromptHandler(ToolHandlerMap["list_prompts"])
    ensures DispatchMap["prompts/get"] == PromptHandler(ToolHandlerMap["get_prompt"])
    ensures DispatchMap["prompts/resolve"] == PromptHandler(ToolHandlerMap["resolve_prompt"])
    ensures DispatchMap["prompts/search"] == PromptHandler(ToolHandlerMap["search_prompts"])
    ensures forall t :: t in ToolHandlerMap.Values ==> PromptHandler(t) in DispatchMap.Values
  {
    assert forall t :: t in ToolHandlerMap.Values ==>
      (t == ListPromptsHandler || t == GetPromptHandler || t == ResolvePromptHandler || t == SearchPromptsHandler);
    assert PromptHandler(ListPromptsHandler) == DispatchMap["prompts/list"];
    assert PromptHandler(GetPromptHandler) == DispatchMap["prompts/get"];
    assert PromptHandler(ResolvePromptHandler) == DispatchMap["prompts/resolve"];
    assert PromptHandler(SearchPromptsHandler) == DispatchMap["prompts/search"];
  }

  /** The tools `tools/call` routes are exactly the ones the catalogue lists. */
  lemma ToolsMatchCatalogue()
    ensures forall n :: n in ToolHandlerMap <==> n in ListTools.Names(ListTools.Catalogue)
  {
    ListTools.CatalogueShape();
    var names := ListTools.Names(ListTools.Catalogue);
    assert forall n :: n in names <==> n == names[0] || n == names[1] || n == names[2] || n == names[3];
  }

  /** What running a handler does: it returns a result, or throws a value. */
  datatype Outcome = Returned(value: Json) | Threw(thrown: Json)

  /** `isMCPError`: an object whose `code` is a number and whose `message` is a string. */
  predicate IsMcpError(v: Json)
  {
    && Field(v, "code").Some? && Field(v, "code").value.JNum?
    && Field(v, "message").Some? && Field(v, "message").value.JStr?
  }

  const InternalMessage := "An internal server error occurred."

  /** The error object the `catch` block makes of a thrown value. */
  function Caught(thrown: Json): McpError
  {
    if IsMcpError(thrown) then McpError(Field(thrown, "code").value.n, Field(thrown, "message").value.s, Field(thrown, "data"))
    else McpError(INTERNAL_ERROR, InternalMessage, None)
  }

  /**
   * A thrown MCP error reaches the caller with its code, its message, and
   * its `data` exactly when that is defined; anything else becomes the
   * opaque internal error without data.
   */
  lemma CaughtErrors(thrown: Json)
    ensures IsMcpError(thrown) <==> ErrorOf(thrown).Some?
    ensures IsMcpError(thrown) ==>
      var j := ErrorToJson(Caught(thrown));
      && Field(j, "code") == Field(thrown, "code") && Field(j, "message") == Field(thrown, "message")
      && Field(j, "data") == Field(thrown, "data")
    ensures !IsMcpError(thrown) ==> Caught(thrown) == McpError(INTERNAL_ERROR, InternalMessage, None)
    ensures forall e: McpError :: Caught(ErrorToJson(e)) == e
  {
    forall e: McpError ensures Caught(ErrorToJson(e)) == e {
      ErrorRoundTrip(e);
    }
  }

  /** A response, or a rejection of the dispatch promise. */
  datatype DispatchOutcome = Answered(response: McpResponse) | Rejected(reason: string)

  function MethodNotFound(name: string): McpError
  {
    McpError(METHOD_NOT_FOUND, "Method not found: " + name, None)
  }

  /** `dispatch(request, userId)`. */
  function Dispatch<C>(req: McpRequest, userId: Option<string>, client: ClientResult<C>,
                       run: (Handler, Json, Option<string>, C) -> Outcome): (r: DispatchOutcome)
    ensures r.Answered? ==> r.response.id == req.id
    ensures req.name !in DispatchMap ==> r == Answered(ErrorResponse(req.id, MethodNotFound(req.name)))
    ensures r.Rejected? <==> req.name in DispatchMap && client.ClientFailure?
    ensures req.name in DispatchMap && client.Client? ==>
      match run(DispatchMap[req.name], req.params.OrElse(JNull), userId, client.client)
      case Returned(v) => r == Answered(ResultResponse(req.id, v))
      case Threw(t) => r == Answered(ErrorResponse(req.id, Caught(t)))
  {
    if req.name !in DispatchMap then Answered(ErrorResponse(req.id, MethodNotFound(req.name)))
    else
      match client
      case ClientFailure(m) => Rejected(m)
      case Client(c) =>
        match run(DispatchMap[req.name], req.params.OrElse(JNull), userId, c)
        case Returned(v) => Answered(ResultResponse(req.id, v))
        case Threw(t) => Answered(ErrorResponse(req.id, Caught(t)))
  }

  /** An unknown method is answered without a client and without running anything. */
  lemma UnknownMethodNeedsNoClient<C>(req: McpRequest, userId: Option<string>,
                                      c1: ClientResult<C>, c2: ClientResult<C>,
                                      run1: (Handler, Json, Option<string>, C) -> Outcome,
                                      run2: (Handler, Json, Option<string>, C) -> Outcome)
    requires req.name !in DispatchMap
    ensures Dispatch(req, userId, c1, run1) == Dispatch(req, userId, c2, run2)
    ensures Dispatch(req, userId, c1, run1).response.error.code == METHOD_NOT_FOUND
  {
  }

  /** With a client, dispatch always answers, and the handler sees `params ?? null` and the caller unchanged. */
  lemma DispatchAnswers<C>(req: McpRequest, userId: Option<string>, c: C,
                           run: (Handler, Json, Option<string>, C) -> Outcome)
    ensures Dispatch(req, userId, Client(c), run).Answered?
    ensures req.name in DispatchMap && req.params.None? ==>
      var out := run(DispatchMap[req.name], JNull, userId, c);
      out.Returned? ==> Dispatch(req, userId, Client(c), run).response == ResultResponse(req.id, out.value)
    ensures var j := ResponseToJson(Dispatch(req, userId, Client(c), run).response);
      Field(j, "jsonrpc") == Some(JStr("2.0")) && Field(j, "id") == Some(IdToJson(req.id))
  {
    ResponseShape(Dispatch(req, userId, Client(c), run).response);
  }

  /** The lookup as written, `DISPATCH_MAP[request.method]`, also finds what every object inherits. */
  predicate HandlerFoundAsWritten(name: string)
  {
    JsIn(name, DispatchMap.Keys)
  }

  /** The method `toString` is not routed, yet the lookup as written finds a handler for it. */
  lemma PrototypeMethodFound()
    ensures "toString" !in DispatchMap
    ensures HandlerFoundAsWritten("toString")
    ensures forall name :: name in DispatchMap ==> HandlerFoundAsWritten(name)
  {
    assert "toString" in ObjectPrototypeKeys;
  }

  const NameRequired := "tools/call requires a \"name\" parameter."

  /** The thrown value `{code, message}`. */
  function Throw(code: real, message: string): Outcome
  {
    Threw(ErrorToJson(McpError(code, message, None)))
  }

  /** `{content: [{type: 'text', text}], isError: false}`. */
  function ContentBlock(text: string): Json
  {
    JObj([("content", JArr([JObj([("type", JStr("text")), ("text", JStr(text))])])), ("isError", JBool(false))])
  }

  /**
   * The `tools/call` adapter. The tool name is used as a property key, so a
   * non-string name is converted with `String(...)`; `stringify` is
   * `JSON.stringify(result, null, 2)`.
   */
  function ToolsCall<C>(params: Json, userId: Option<string>, c: C, runTool: (Tool, Json, Option<string>, C) -> Outcome,
                        stringify: Json -> string, numberText: real -> string): (r: Outcome)
    ensures Field(params, "name").None? || !Truthy(Field(params, "name").value) ==> r == Throw(INVALID_PARAMS, NameRequired)
    ensures Field(params, "name").Some? && Truthy(Field(params, "name").value) ==>
      var key := ToJsString(Field(params, "name").value, numberText);
      && (key !in ToolHandlerMap ==> r == Throw(METHOD_NOT_FOUND, "Unknown tool: " + key))
      && (key in ToolHandlerMap ==>
            match runTool(ToolHandlerMap[key], Field(params, "arguments").OrElse(JNull), userId, c)
            case Returned(v) => r == Returned(ContentBlock(stringify(v)))
            case Threw(t) => r == Threw(t))
  {
    var name := Field(params, "name");
    if name.None? || !Truthy(name.value) then Throw(INVALID_PARAMS, NameRequired)
    else
      var key := ToJsString(name.value, numberText);
      if key !in ToolHandlerMap then Throw(METHOD_NOT_FOUND, "Unknown tool: " + key)
      else
        match runTool(ToolHandlerMap[key], Field(params, "arguments").OrElse(JNull), userId, c)
        case Returned(v) => Returned(ContentBlock(stringify(v)))
        case Threw(t) => Threw(t)
  }

  /** The content block holds exactly one text item, and `isError` is false. */
  lemma ContentBlockShape(text: string)
    ensures var j := ContentBlock(text);
      && Keys(j.members) == ["content", "isError"]
      && Field(j, "content") == Some(JArr([JObj([("type", JStr("text")), ("text", JStr(text))])]))
      && Field(j, "isError") == Some(JBool(false))
  {
    var ms := ContentBlock(text).members;
    assert ms[1..] == [("isError", JBool(false))];
    assert Get(ms, "isError") == Get(ms[1..], "isError");
  }

  /** A missing or empty tool name is reported as invalid parameters. */
  lemma MissingToolName<C>(params: Json, userId: Option<string>, c: C, runTool: (Tool, Json, Option<string>, C) -> Outcome,
                           stringify: Json -> string, numberText: real -> string)
    requires Field(params, "name").None? || Field(params, "name") == Some(JStr(""))
    ensures var r := ToolsCall(params, userId, c, runTool, stringify, numberText);
      r.Threw? && Caught(r.thrown) == McpError(INVALID_PARAMS, NameRequired, None)
  {
    var e := McpError(INVALID_PARAMS, NameRequired, None);
    assert ToolsCall(params, userId, c, runTool, stringify, numberText) == Threw(ErrorToJson(e));
    CaughtErrors(ErrorToJson(e));
  }

  /** A string naming no tool is reported as an unknown method, with the name in the message. */
  lemma UnknownToolName<C>(params: Json, userId: Option<string>, c: C, runTool: (Tool, Json, Option<string>, C) -> Outcome,
                           stringify: Json -> string, numberText: real -> string, name: string)
    requires Field(params, "name") == Some(JStr(name)) && name != "" && name !in ToolHandlerMap
    ensures var r := ToolsCall(params, userId, c, runTool, stringify, numberText);
      r.Threw? && Caught(r.thrown) == McpError(METHOD_NOT_FOUND, "Unknown tool: " + name, None)
  {
    assert Truthy(JStr(name)) && ToJsString(JStr(name), numberText) == name;
    var e := McpError(METHOD_NOT_FOUND, "Unknown tool: " + name, None);
    assert ToolsCall(params, userId, c, runTool, stringify, numberText) == Threw(ErrorToJson(e));
    CaughtErrors(ErrorToJson(e));
  }

  /** A call naming a tool runs that tool on the call's `arguments`. */
  lemma ToolsCallByName<C>(name: string, args: Json, userId: Option<string>, c: C,
                           runTool: (Tool, Json, Option<string>, C) -> Outcome,
                           stringify: Json -> string, numberText: real -> string)
    requires name in ToolHandlerMap
    ensures var r := ToolsCall(JObj([("name", JStr(name)), ("arguments", args)]), userId, c, runTool, stringify, numberText);
      match runTool(ToolHandlerMap[name], args, userId, c)
      case Returned(v) => r == Returned(ContentBlock(stringify(v)))
      case Threw(t) => r == Threw(t)
  {
    var params := JObj([("name", JStr(name)), ("arguments", args)]);
    assert params.members[1..] == [("arguments", args)];
    assert Field(params, "name") == Some(JStr(name));
    assert Get(params.members, "arguments") == Get(params.members[1..], "arguments") == Some(args);
    assert "" !in ToolHandlerMap;
  }

  /** The tool-name lookup as written, `TOOL_HANDLER_MAP[toolName]`, also finds inherited properties. */
  predicate ToolFoundAsWritten(key: string)
  {
    JsIn(key, ToolHandlerMap.Keys)
  }

  /** The tool name `constructor` names no tool, yet the lookup as written finds a handler for it. */
  lemma PrototypeToolFound()
    ensures "constructor" !in ToolHandlerMap
    ensures ToolFoundAsWritten("constructor")
  {
    assert "constructor" in ObjectPrototypeKeys;
  }
}
