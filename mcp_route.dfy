/**
 * The HTTP endpoint `POST /api/mcp`: picks the API key from the headers,
 * verifies it, parses and validates the JSON-RPC envelope, and hands the
 * request to the dispatcher. Every answer is HTTP 200 with JSON and the CORS
 * headers; JSON-RPC errors travel inside the body. `OPTIONS` answers the
 * CORS preflight.
 */
module McpRoute {
  import opened Wrappers
  import opened Json
  import opened Zod
  import opened McpTypes
  import opened Envelope
  import opened Dispatcher
  import opened ApiKeyVerify
  import Text

  /** A response: status, headers in order, and the body (`None` for `null`). The body is the value `JSON.stringify` is given. */
  datatype HttpResponse = HttpResponse(status: int, headers: seq<(string, string)>, body: Option<Json>)

  /** What the handler's promise settles to: a response, or a rejection. */
  datatype PostOutcome = Responded(response: HttpResponse) | Failed(reason: string)

  const CorsHeaders: seq<(string, string)> := [
    ("Access-Control-Allow-Origin", "*"),
    ("Access-Control-Allow-Methods", "POST, OPTIONS"),
    ("Access-Control-Allow-Headers", "Content-Type, Authorization, x-api-key")
  ]

  const JsonHeaders: seq<(string, string)> := [("Content-Type", "application/json")] + CorsHeaders

  const BearerPrefix := "Bearer "
  const InvalidKeyMessage := "Invalid API key."
  const ParseErrorMessage := "Parse error: request body is not valid JSON."
  const InvalidRequestPrefix := "Invalid Request: "

  /** The response allows any origin, both methods and the three request headers. */
  predicate HasCors(headers: seq<(string, string)>)
  {
    forall i :: 0 <= i < |CorsHeaders| ==> CorsHeaders[i] in headers
  }

  /** `jsonResponse(body)` with the default status. */
  function JsonResponse(body: Json): (r: HttpResponse)
    ensures r.status == 200 && r.body == Some(body)
    ensures |r.headers| == 4 && r.headers[0] == ("Content-Type", "application/json") && HasCors(r.headers)
  {
    HttpResponse(200, JsonHeaders, Some(body))
  }

  /** The body `rpcError` sends: `{jsonrpc: '2.0', id, error: {code, message}}`. */
  function RpcErrorBody(id: Json, code: real, message: string): Json
  {
    JObj([("jsonrpc", JStr("2.0")), ("id", id), ("error", JObj([("code", JNum(code)), ("message", JStr(message))]))])
  }

  function RpcError(id: Json, code: real, message: string): HttpResponse
  {
    JsonResponse(RpcErrorBody(id, code, message))
  }

  /** For a proper id, the route's error body is the dispatcher's error response, and reads back as it. */
  lemma RpcErrorIsErrorResponse(id: Id, code: real, message: string)
    ensures RpcErrorBody(IdToJson(id), code, message) == ResponseToJson(ErrorResponse(id, McpError(code, message, None)))
    ensures ResponseOf(RpcErrorBody(IdToJson(id), code, message)) == Some(ErrorResponse(id, McpError(code, message, None)))
  {
    var e := McpError(code, message, None);
    ErrorWithoutData(code, message);
    assert RpcErrorBody(IdToJson(id), code, message) == ResponseToJson(ErrorResponse(id, e));
    ResponseRoundTrip(ErrorResponse(id, e));
  }

  lemma ErrorWithoutData(code: real, message: string)
    ensures ErrorToJson(McpError(code, message, None)) == JObj([("code", JNum(code)), ("message", JStr(message))])
  {
    var ms: seq<(string, Json)> := [("code", JNum(code)), ("message", JStr(message))];
    assert ms + [] == ms;
  }

  /** The error body carries `jsonrpc`, the given id and the error object. */
  lemma RpcErrorBodyFields(id: Json, code: real, message: string)
    ensures var j := RpcErrorBody(id, code, message);
      && Field(j, "jsonrpc") == Some(JStr("2.0")) && Field(j, "id") == Some(id)
      && Field(j, "error") == Some(JObj([("code", JNum(code)), ("message", JStr(message))]))
      && Field(j, "result").None?
  {
    var ms := RpcErrorBody(id, code, message).members;
    var last := ms[2];
    assert ms[1..] == [ms[1], last] && ms[1..][1..] == [last] && [last][1..] == [];
    assert Get(ms, "id") == Get(ms[1..], "id") == Some(id);
    assert Get(ms, "error") == Get(ms[1..], "error") == Get([last], "error");
    assert Get(ms, "result") == Get(ms[1..], "result") == Get([last], "result");
  }

  /** `OPTIONS`: the preflight answer. */
  function Options(): (r: HttpResponse)
    ensures r.status == 200 && r.body.None? && HasCors(r.headers)
    ensures forall i :: 0 <= i < |r.headers| ==> r.headers[i] in CorsHeaders
  {
    HttpResponse(200, CorsHeaders, None)
  }

  /**
   * The key the request presents: the trimmed remainder of a `Bearer`
   * authorization, otherwise the trimmed `x-api-key`, otherwise none. A
   * header that is absent is `None`.
   */
  function SelectKey(authorization: Option<string>, xApiKey: Option<string>): (key: Option<string>)
    ensures key.Some? ==> Text.IsTrimmed(key.value)
    ensures key.None? <==> xApiKey.None? && !(authorization.Some? && Text.StartsWith(authorization.value, BearerPrefix))
  {
    if authorization.Some? && Text.StartsWith(authorization.value, BearerPrefix) then
      Some(Text.Trim(authorization.value[|BearerPrefix|..]))
    else if xApiKey.Some? then Some(Text.Trim(xApiKey.value))
    else None
  }

  /** `if (rawKey)`: a key counts only when it is non-empty. */
  predicate Presented(key: Option<string>)
  {
    key.Some? && key.value != ""
  }

  /** A `Bearer` authorization decides the key on its own: `x-api-key` is never looked at. */
  lemma BearerWins(token: string, x1: Option<string>, x2: Option<string>)
    ensures SelectKey(Some(BearerPrefix + token), x1) == SelectKey(Some(BearerPrefix + token), x2) == Some(Text.Trim(token))
  {
    var a := BearerPrefix + token;
    assert a[..|BearerPrefix|] == BearerPrefix && a[|BearerPrefix|..] == token;
  }

  /** `Bearer` followed only by white space presents no key, even beside a valid `x-api-key`. */
  lemma BlankBearerIsAnonymous(token: string, x: Option<string>)
    requires Text.AllSpace(token)
    ensures !Presented(SelectKey(Some(BearerPrefix + token), x))
  {
    BearerWins(token, x, None);
  }

  /** Without a `Bearer` authorization the key is the trimmed `x-api-key`. */
  lemma FallbackToApiKey(authorization: Option<string>, x: string)
    requires !(authorization.Some? && Text.StartsWith(authorization.value, BearerPrefix))
    ensures SelectKey(authorization, Some(x)) == Some(Text.Trim(x))
    ensures Presented(SelectKey(authorization, Some(x))) <==> !Text.AllSpace(x)
  {
  }

  /** The `id` of the raw body when it is an object with that property, else `null`; the value is echoed whatever its type. */
  function RawId(body: Json): (id: Json)
    ensures body.JObj? && Field(body, "id").Some? ==> id == Field(body, "id").value
    ensures !(body.JObj? && Field(body, "id").Some?) ==> id == JNull
  {
    if body.JObj? && Get(body.members, "id").Some? then Get(body.members, "id").value else JNull
  }

  /** An object whose `id` is not a valid id is refused with that same value as the error's id. */
  lemma RawIdEchoed(body: Json)
    requires body.JObj? && Field(body, "id").Some? && IdOf(Field(body, "id").value).None?
    ensures ValidateEnvelope(body).Failure?
    ensures forall message :: Field(RpcErrorBody(RawId(body), INVALID_REQUEST, message), "id") == Field(body, "id")
  {
    forall message ensures Field(RpcErrorBody(RawId(body), INVALID_REQUEST, message), "id") == Field(body, "id") {
      RpcErrorBodyFields(RawId(body), INVALID_REQUEST, message);
    }
  }

  /**
   * `POST(request)`. The headers are given as `Headers.get` returns them,
   * and `body` is the result of `request.json()` (`None` when it throws).
   * `verify` is `verifyApiKey` and `dispatch` is `dispatch`. The handler
   * also returns the key it verified and the arguments it dispatched with,
   * `None` where it made no such call.
   */
  method Post(authorization: Option<string>, xApiKey: Option<string>, body: Option<Json>,
              verify: string -> VerifyOutcome, dispatch: (McpRequest, Option<string>) -> DispatchOutcome)
    returns (r: PostOutcome, verified: Option<string>, dispatched: Option<(McpRequest, Option<string>)>)
    // Every response is a 200 JSON response with the CORS headers.
    ensures r.Responded? ==> r.response.status == 200 && r.response.headers == JsonHeaders && r.response.body.Some?
    // The key is verified exactly when one is presented.
    ensures verified == (var key := SelectKey(authorization, xApiKey); if Presented(key) then key else None)
    // A rejected or invalid key ends the request before the body is looked at.
    ensures verified.Some? && verify(verified.value).VerifyRejected? ==>
      r == Failed(verify(verified.value).reason) && dispatched.None?
    ensures verified.Some? && verify(verified.value) == Settled(Invalid) ==>
      r == Responded(RpcError(JNull, INVALID_API_KEY, InvalidKeyMessage)) && dispatched.None?
    // Past the key check, a body that is not JSON is a parse error with a null id.
    ensures Admitted(verified, verify) && body.None? ==>
      r == Responded(RpcError(JNull, PARSE_ERROR, ParseErrorMessage)) && dispatched.None?
    // An envelope that fails validation is an invalid request carrying the raw id and every issue message.
    ensures Admitted(verified, verify) && body.Some? && ValidateEnvelope(body.value).Failure? ==>
      && r == Responded(RpcError(RawId(body.value), INVALID_REQUEST,
                                 InvalidRequestPrefix + Summary(ValidateEnvelope(body.value).error)))
      && dispatched.None?
    // A valid envelope is dispatched once, as the caller the key identifies (anonymous without a key), and its answer is the body.
    ensures dispatched.Some? <==> Admitted(verified, verify) && body.Some? && ValidateEnvelope(body.value).Success?
    ensures dispatched.Some? ==>
      && dispatched.value == (ValidateEnvelope(body.value).value, Caller(verified, verify))
      && match dispatch(dispatched.value.0, dispatched.value.1)
         case Answered(resp) => r == Responded(JsonResponse(ResponseToJson(resp)))
         case Rejected(m) => r == Failed(m)
  {
    var userId: Option<string> := None;
    verified, dispatched := None, None;

    var rawKey := SelectKey(authorization, xApiKey);
    if Presented(rawKey) {
      verified := rawKey;
      match verify(rawKey.value)
      case VerifyRejected(m) =>
        r := Failed(m);
        return;
      case Settled(Invalid) =>
        r := Responded(RpcError(JNull, INVALID_API_KEY, InvalidKeyMessage));
        return;
      case Settled(Valid(u)) =>
        userId := Some(u);
    }

    if body.None? {
      r := Responded(RpcError(JNull, PARSE_ERROR, ParseErrorMessage));
      return;
    }

    match ValidateEnvelope(body.value)
    case Failure(issues) =>
      r := Responded(RpcError(RawId(body.value), INVALID_REQUEST, InvalidRequestPrefix + Summary(issues)));
    case Success(request) =>
      dispatched := Some((request, userId));
      match dispatch(request, userId)
      case Answered(resp) =>
        r := Responded(JsonResponse(ResponseToJson(resp)));
      case Rejected(m) =>
        r := Failed(m);
  }

  /** The request gets past the key check: no key was presented, or the key was valid. */
  predicate Admitted(verified: Option<string>, verify: string -> VerifyOutcome)
  {
    verified.None? || (verify(verified.value).Settled? && verify(verified.value).result.Valid?)
  }

  /** The caller's user id: none for an anonymous request, the key owner's otherwise. */
  function Caller(verified: Option<string>, verify: string -> VerifyOutcome): Option<string>
  {
    if verified.Some? && verify(verified.value).Settled? && verify(verified.value).result.Valid? then
      Some(verify(verified.value).result.userId)
    else None
  }
}
