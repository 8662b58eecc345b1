/**
 * The JSON-RPC 2.0 shapes the MCP endpoint exchanges: request ids, error
 * objects, response envelopes, and the error codes it uses (section 5.1 of
 * the JSON-RPC 2.0 Specification plus two application codes).
 */
module McpTypes {
  import opened Wrappers
  import opened Json
  import Zod

  const PARSE_ERROR: real := -32700.0
  const INVALID_REQUEST: real := -32600.0
  const METHOD_NOT_FOUND: real := -32601.0
  const INVALID_PARAMS: real := -32602.0
  const INTERNAL_ERROR: real := -32603.0
  const INVALID_API_KEY: real := -32001.0
  const PROMPT_NOT_FOUND: real := -32002.0

  /** Every code of the endpoint, in declaration order. */
  const ErrorCodes: seq<real> :=
    [PARSE_ERROR, INVALID_REQUEST, METHOD_NOT_FOUND, INVALID_PARAMS, INTERNAL_ERROR, INVALID_API_KEY, PROMPT_NOT_FOUND]

  /** The codes JSON-RPC 2.0 (section 5.1) reserves for pre-defined errors. */
  predicate IsReservedCode(c: real)
  {
    -32768.0 <= c <= -32000.0
  }

  /** The part of the reserved range left to implementation-defined server errors. */
  predicate IsServerErrorCode(c: real)
  {
    -32099.0 <= c <= -32000.0
  }

  /** The five standard codes are the ones section 5.1 assigns; the two application codes are server errors; all are reserved. */
  lemma ErrorCodesConform()
    ensures PARSE_ERROR == -32700.0 && INVALID_REQUEST == -32600.0 && METHOD_NOT_FOUND == -32601.0
    ensures INVALID_PARAMS == -32602.0 && INTERNAL_ERROR == -32603.0
    ensures IsServerErrorCode(INVALID_API_KEY) && IsServerErrorCode(PROMPT_NOT_FOUND)
    ensures forall i :: 0 <= i < 5 ==> !IsServerErrorCode(ErrorCodes[i])
    ensures forall i :: 0 <= i < |ErrorCodes| ==> IsReservedCode(ErrorCodes[i])
  {
  }

  lemma ErrorCodesDistinct()
    ensures forall i, j :: 0 <= i < j < |ErrorCodes| ==> ErrorCodes[i] != ErrorCodes[j]
  {
  }

  /** A request id: a string, a number or null. */
  datatype Id = StrId(s: string) | NumId(n: real) | NullId

  function IdToJson(id: Id): Json
  {
    match id
    case StrId(s) => JStr(s)
    case NumId(n) => JNum(n)
    case NullId => JNull
  }

  /** The id a JSON value denotes, when it is one. */
  function IdOf(v: Json): (r: Option<Id>)
    ensures r.Some? <==> v.JStr? || v.JNum? || v.JNull?
    ensures r.Some? ==> IdToJson(r.value) == v
  {
    match v
    case JStr(s) => Some(StrId(s))
    case JNum(n) => Some(NumId(n))
    case JNull => Some(NullId)
    case _ => None
  }

  lemma IdRoundTrip(id: Id)
    ensures IdOf(IdToJson(id)) == Some(id)
  {
  }

  /** An error object; `data` is `None` when it is undefined. */
  datatype McpError = McpError(code: real, message: string, data: Option<Json>)

  /** The error object, `data` only when it is defined. */
  function ErrorToJson(e: McpError): (j: Json)
    ensures j.JObj? && |j.members| == if e.data.Some? then 3 else 2
    ensures Field(j, "code") == Some(JNum(e.code)) && Field(j, "message") == Some(JStr(e.message))
    ensures Field(j, "data") == e.data
  {
    var head := [("code", JNum(e.code)), ("message", JStr(e.message))];
    match e.data
    case None =>
      assert Get(head, "message") == Get(head[1..], "message");
      JObj(head)
    case Some(d) =>
      var ms := head + [("data", d)];
      assert ms[1..][1..] == [("data", d)];
      assert Get(ms[1..][1..], "data") == Some(d);
      assert Get(ms, "data") == Get(ms[1..], "data");
      assert Get(ms, "message") == Get(ms[1..], "message");
      JObj(ms)
  }

  /** The error object's keys, in order: `code`, `message`, then `data` when it is defined. */
  lemma ErrorKeys(e: McpError)
    ensures Keys(ErrorToJson(e).members) == ["code", "message"] + (if e.data.Some? then ["data"] else [])
  {
    var ms := ErrorToJson(e).members;
    assert ms[1..][1..] == (if e.data.Some? then [("data", e.data.value)] else []);
  }

  /** Reads an error object back. */
  function ErrorOf(v: Json): Option<McpError>
  {
    match (Field(v, "code"), Field(v, "message"))
    case (Some(JNum(c)), Some(JStr(m))) => Some(McpError(c, m, Field(v, "data")))
    case _ => None
  }

  lemma ErrorRoundTrip(e: McpError)
    ensures ErrorOf(ErrorToJson(e)) == Some(e)
  {
  }

  /** A response envelope: a result, or an error. */
  datatype McpResponse =
    | ResultResponse(id: Id, result: Json)
    | ErrorResponse(id: Id, error: McpError)

  /** `{jsonrpc: '2.0', id, result}` or `{jsonrpc: '2.0', id, error}`. */
  function ResponseToJson(r: McpResponse): Json
  {
    match r
    case ResultResponse(id, result) => JObj([("jsonrpc", JStr("2.0")), ("id", IdToJson(id)), ("result", result)])
    case ErrorResponse(id, error) => JObj([("jsonrpc", JStr("2.0")), ("id", IdToJson(id)), ("error", ErrorToJson(error))])
  }

  /**
   * Both kinds of response carry `jsonrpc: '2.0'` and the id; a result
   * response carries `result` and no `error`, an error response the reverse.
   */
  lemma ResponseShape(r: McpResponse)
    ensures var j := ResponseToJson(r);
      && j.JObj? && Field(j, "jsonrpc") == Some(JStr("2.0"))
      && Field(j, "id") == Some(IdToJson(r.id))
      && (r.ResultResponse? <==> Field(j, "result").Some?)
      && (r.ErrorResponse? <==> Field(j, "error").Some?)
      && (r.ResultResponse? ==> Field(j, "result") == Some(r.result))
      && (r.ErrorResponse? ==> Field(j, "error") == Some(ErrorToJson(r.error)))
  {
    var ms := ResponseToJson(r).members;
    var body := ms[2];
    assert ms[1..] == [ms[1], body] && ms[1..][1..] == [body] && [body][1..] == [];
    assert Get(ms, "id") == Get(ms[1..], "id") == Some(IdToJson(r.id));
    assert Get(ms, "result") == Get(ms[1..], "result") == Get([body], "result");
    assert Get(ms, "error") == Get(ms[1..], "error") == Get([body], "error");
  }

  /** Reads a response envelope back. */
  function ResponseOf(v: Json): Option<McpResponse>
  {
    if Field(v, "jsonrpc") != Some(JStr("2.0")) || Field(v, "id").None? then None
    else match IdOf(Field(v, "id").value)
      case None => None
      case Some(id) =>
        match (Field(v, "result"), Field(v, "error"))
        case (Some(result), None) => Some(ResultResponse(id, result))
        case (None, Some(e)) => (match ErrorOf(e) case Some(err) => Some(ErrorResponse(id, err)) case None => None)
        case _ => None
  }

  lemma ResponseRoundTrip(r: McpResponse)
    ensures ResponseOf(ResponseToJson(r)) == Some(r)
  {
    IdRoundTrip(r.id);
    ResponseShape(r);
    if r.ErrorResponse? {
      ErrorRoundTrip(r.error);
    }
  }

  /** What a tool handler does: it returns its result, or throws an error object. */
  datatype ToolResult<T> = Done(value: T) | Fail(error: McpError)

  /** The parameter error every tool throws: the zod issue messages after a fixed prefix. */
  function InvalidParams(issues: seq<Zod.Issue>): McpError
  {
    McpError(INVALID_PARAMS, "Invalid parameters: " + Zod.Summary(issues), None)
  }

  /** Thrown both for a missing prompt and for one the caller may not see. */
  const PromptNotFound := McpError(PROMPT_NOT_FOUND, "Prompt not found.", None)

  /** A store failure, reported after the tool's own prefix. */
  function StoreFailure(prefix: string, message: string): McpError
  {
    McpError(INTERNAL_ERROR, prefix + message, None)
  }

  /** A string that may be null. */
  function TextOrNull(s: Option<string>): Json
  {
    if s.Some? then JStr(s.value) else JNull
  }

  function Strings(xs: seq<string>): (j: Json)
    ensures j.JArr? && |j.items| == |xs| && forall i :: 0 <= i < |xs| ==> j.items[i] == JStr(xs[i])
  {
    if |xs| == 0 then JArr([]) else JArr([JStr(xs[0])] + Strings(xs[1..]).items)
  }

  /** The metadata of one prompt that listing and searching return: no content. */
  datatype PromptEntry = PromptEntry(id: string, title: string, description: Option<string>, variables: seq<string>)

  function EntryToJson(e: PromptEntry): Json
  {
    JObj([("id", JStr(e.id)), ("title", JStr(e.title)), ("description", TextOrNull(e.description)),
          ("variables", Strings(e.variables))])
  }

  /** `{prompts: [...]}`. */
  function EntriesToJson(es: seq<PromptEntry>): (j: Json)
    ensures j.JObj? && Keys(j.members) == ["prompts"]
  {
    JObj([("prompts", JArr(seq(|es|, i requires 0 <= i < |es| => EntryToJson(es[i]))))])
  }

  /** An entry's object carries its id, title, description and variables. */
  lemma EntryJsonFields(e: PromptEntry)
    ensures var item := EntryToJson(e);
      && Field(item, "id") == Some(JStr(e.id)) && Field(item, "title") == Some(JStr(e.title))
      && Field(item, "description") == Some(TextOrNull(e.description))
      && Field(item, "variables") == Some(Strings(e.variables))
  {
    var d, v := TextOrNull(e.description), Strings(e.variables);
    var ms := [("id", JStr(e.id)), ("title", JStr(e.title)), ("description", d), ("variables", v)];
    assert EntryToJson(e) == JObj(ms);
    GetFirst(ms, 1);
    GetFirst(ms, 2);
    GetFirst(ms, 3);
  }

  /** Listing never sends a prompt's content: the entry object has no `content` property. */
  lemma EntryOmitsContent(e: PromptEntry)
    ensures Field(EntryToJson(e), "content").None?
  {
    var ms := EntryToJson(e).members;
    assert forall j :: 0 <= j < |ms| ==> |ms[j].0| != |"content"|;
  }

  /** Entry `i` of the list is the object of prompt `i`. */
  lemma EntryFields(es: seq<PromptEntry>, i: nat)
    requires i < |es|
    ensures var ps := Field(EntriesToJson(es), "prompts");
      && ps.Some? && ps.value.JArr? && |ps.value.items| == |es|
      && ps.value.items[i] == EntryToJson(es[i])
  {
  }
}
