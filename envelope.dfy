/**
 * The request envelope validator (`mcpRequestSchema`): a JSON-RPC 2.0
 * request object (section 4 of the JSON-RPC 2.0 Specification) whose
 * `jsonrpc` is exactly "2.0", whose `id` is present and a string, number or
 * null, whose `method` is a non-empty string, and whose `params` may be
 * anything or absent. Properties the schema does not name are dropped.
 */
module Envelope {
  import opened Wrappers
  import opened Json
  import opened Zod
  import opened McpTypes

  /** A validated request: its id, its method name, and `params` (`None` when absent). */
  datatype McpRequest = McpRequest(id: Id, name: string, params: Option<Json>)

  function JsonrpcIssues(v: Option<Json>): seq<Issue>
  {
    if v == Some(JStr("2.0")) then [] else [Issue(["jsonrpc"], InvalidLiteral("2.0"))]
  }

  /** The union string | number | null reports one issue when no member accepts. */
  function IdIssues(v: Option<Json>): seq<Issue>
  {
    if v.Some? && IdOf(v.value).Some? then [] else [Issue(["id"], InvalidUnion)]
  }

  const MethodRules: seq<StringRule> := [MinLength(1, "method is required")]

  function MethodIssues(v: Option<Json>): seq<Issue>
  {
    match CheckString(["method"], v, MethodRules)
    case Success(_) => []
    case Failure(e) => e
  }

  /** The conditions the schema checks, stated directly. */
  predicate IsValidEnvelope(body: Json)
  {
    && body.JObj?
    && Field(body, "jsonrpc") == Some(JStr("2.0"))
    && Field(body, "id").Some? && IdOf(Field(body, "id").value).Some?
    && Field(body, "method").Some? && Field(body, "method").value.JStr?
    && |Field(body, "method").value.s| >= 1
  }

  /** `mcpRequestSchema.safeParse(body)`: the request, or zod's issues in field order. */
  function ValidateEnvelope(body: Json): (r: Result<McpRequest, seq<Issue>>)
    ensures r.Success? <==> IsValidEnvelope(body)
    ensures r.Success? ==>
      && IdToJson(r.value.id) == Field(body, "id").value
      && JStr(r.value.name) == Field(body, "method").value
      && r.value.params == Field(body, "params")
    ensures r.Failure? ==> |r.error| >= 1
  {
    if !body.JObj? then Failure(NotObject([], Some(body)))
    else
      var m := Field(body, "method");
      var issues := JsonrpcIssues(Field(body, "jsonrpc")) + IdIssues(Field(body, "id")) + MethodIssues(m);
      if issues != [] then Failure(issues)
      else
        assert m.Some? && m.value.JStr? && |m.value.s| >= 1;
        Success(McpRequest(IdOf(Field(body, "id").value).value, m.value.s, Field(body, "params")))
  }

  /** A request without `id` (a JSON-RPC notification) is refused with the union's issue. */
  lemma NotificationRejected(body: Json)
    requires body.JObj? && Field(body, "id").None?
    ensures ValidateEnvelope(body).Failure?
    ensures Issue(["id"], InvalidUnion) in ValidateEnvelope(body).error
  {
  }

  /** A batch (a JSON array, section 6 of JSON-RPC 2.0) and any other non-object are refused with one issue. */
  lemma NonObjectRejected(body: Json)
    requires !body.JObj?
    ensures ValidateEnvelope(body) == Failure([Issue([], InvalidType("object", Some(body)))])
    ensures body.JArr? ==> Summary(ValidateEnvelope(body).error) == "Expected object, received array"
  {
  }

  /** Each failing field contributes its own message, in the schema's field order. */
  lemma EnvelopeMessages(body: Json)
    requires body.JObj?
    requires !IsValidEnvelope(body)
    ensures Messages(ValidateEnvelope(body).error) ==
      Messages(JsonrpcIssues(Field(body, "jsonrpc")))
      + Messages(IdIssues(Field(body, "id")))
      + Messages(MethodIssues(Field(body, "method")))
  {
    MessagesAppend(JsonrpcIssues(Field(body, "jsonrpc")), IdIssues(Field(body, "id")));
    MessagesAppend(JsonrpcIssues(Field(body, "jsonrpc")) + IdIssues(Field(body, "id")), MethodIssues(Field(body, "method")));
  }

  /** The three ways `method` fails, and their messages. */
  lemma MethodMessages(v: Option<Json>)
    ensures v.None? ==> Messages(MethodIssues(v)) == ["Required"]
    ensures v.Some? && !v.value.JStr? ==> Messages(MethodIssues(v)) == [InvalidType("string", v)]
    ensures v == Some(JStr("")) ==> Messages(MethodIssues(v)) == ["method is required"]
    ensures v.Some? && v.value.JStr? && v.value.s != "" ==> MethodIssues(v) == []
  {
    assert MethodRules[1..] == [];
    if v.Some? && v.value.JStr? {
      var issues := ApplyRules(["method"], v.value.s, MethodRules).1;
      assert issues == if |v.value.s| < 1 then [Issue(["method"], "method is required")] else [];
      assert MethodIssues(v) == issues;
    } else {
      var e := Issue(["method"], InvalidType("string", v));
      assert MethodIssues(v) == [e];
      assert Messages([e]) == [e.message];
    }
  }
}
