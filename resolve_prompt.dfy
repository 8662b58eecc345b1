/**
 * The `resolve_prompt` tool: validates `prompt_id` and an optional map of
 * string values, fetches the prompt under the same rules as `get_prompt`,
 * substitutes the supplied values into its latest content and reports the
 * placeholders that had no value. The substitution itself (`resolvePrompt`)
 * is a parameter: its definition is not part of this model.
 */
module ResolvePrompt {
  import opened Wrappers
  import opened Json
  import opened Zod
  import opened McpTypes
  import opened Store
  import opened PromptRows
  import VariableParser
  import GetPrompt
  import Text

  datatype ResolveParams = ResolveParams(promptId: string, variables: map<string, string>)

  /** The `variables` property: absent is the empty map, anything else must be a record of strings. */
  function VariablesParam(v: Option<Json>): (r: Result<map<string, string>, seq<Issue>>)
    ensures v.None? ==> r == Success(map[])
    ensures v.Some? ==> r == StringRecord(["variables"], v)
  {
    if v.None? then Success(map[]) else StringRecord(["variables"], v)
  }

  /** `resolvePromptParamsSchema.safeParse(params)` followed by `variables = {}`. */
  function ParseParams(params: Json, isUuid: string -> bool): (r: Result<ResolveParams, seq<Issue>>)
    ensures !params.JObj? ==> r == Failure(NotObject([], Some(params)))
    ensures r.Success? <==>
      && params.JObj? && GetPrompt.PromptIdIssues(params, isUuid) == []
      && VariablesParam(Field(params, "variables")).Success?
    ensures r.Success? ==>
      && Field(params, "prompt_id") == Some(JStr(r.value.promptId)) && isUuid(r.value.promptId)
      && r.value.variables == VariablesParam(Field(params, "variables")).value
    ensures r.Success? && Field(params, "variables").None? ==> r.value.variables == map[]
    ensures r.Failure? ==> |r.error| >= 1
  {
    if !params.JObj? then Failure(NotObject([], Some(params)))
    else
      var idIssues := GetPrompt.PromptIdIssues(params, isUuid);
      var vars := VariablesParam(Field(params, "variables"));
      if idIssues != [] || vars.Failure? then
        Failure(idIssues + (if vars.Failure? then vars.error else []))
      else Success(ResolveParams(Field(params, "prompt_id").value.s, vars.value))
  }

  /** `names.filter((name) => !(name in variables))`, taking the map's own keys only. */
  function Unresolved(names: seq<string>, vars: map<string, string>): (r: seq<string>)
    ensures |r| <= |names|
  {
    if |names| == 0 then []
    else (if names[0] in vars then [] else [names[0]]) + Unresolved(names[1..], vars)
  }

  /** A name is reported exactly when it was extracted and the map has no value for it. */
  lemma {:induction false} UnresolvedMembers(names: seq<string>, vars: map<string, string>)
    ensures forall x :: x in Unresolved(names, vars) <==> x in names && x !in vars
    decreases |names|
  {
    if |names| > 0 {
      UnresolvedMembers(names[1..], vars);
      assert names == [names[0]] + names[1..];
    }
  }

  /** The unresolved names keep extraction order: `idx` gives the position of each in `names`. */
  lemma {:induction false} UnresolvedInOrder(names: seq<string>, vars: map<string, string>) returns (idx: seq<nat>)
    ensures Positions(names, Unresolved(names, vars), idx)
    decreases |names|
  {
    if |names| == 0 {
      idx := [];
    } else {
      var rest := Unresolved(names[1..], vars);
      var tail := UnresolvedInOrder(names[1..], vars);
      var shifted := PositionsShift(names, rest, tail);
      if names[0] in vars {
        idx := shifted;
        assert Unresolved(names, vars) == rest;
      } else {
        idx := [0] + shifted;
        assert Unresolved(names, vars) == [names[0]] + rest;
        PositionsCons(names, rest, shifted);
      }
    }
  }

  /** Names at increasing positions of a list without repeats are themselves without repeats. */
  lemma PositionsDistinct(names: seq<string>, r: seq<string>, idx: seq<nat>)
    requires Positions(names, r, idx)
    requires VariableParser.Distinct(names)
    ensures VariableParser.Distinct(r)
  {
    forall i, j | 0 <= i < j < |r| ensures r[i] != r[j] {
      assert names[idx[i]] == r[i] && names[idx[j]] == r[j] && idx[i] < idx[j];
    }
  }

  /** When every name has a value nothing is unresolved; with no values everything is. */
  lemma {:induction false} UnresolvedExtremes(names: seq<string>, vars: map<string, string>)
    ensures (forall i :: 0 <= i < |names| ==> names[i] in vars) ==> Unresolved(names, vars) == []
    ensures Unresolved(names, map[]) == names
    decreases |names|
  {
    if |names| > 0 {
      UnresolvedExtremes(names[1..], vars);
      assert names == [names[0]] + names[1..];
    }
  }

  /** The filter as the source writes it: `in` also finds keys inherited from `Object.prototype`. */
  function UnresolvedAsWritten(names: seq<string>, vars: map<string, string>): (r: seq<string>)
    ensures forall x :: x in r <==> x in names && !JsIn(x, vars.Keys)
  {
    if |names| == 0 then []
    else (if JsIn(names[0], vars.Keys) then [] else [names[0]]) + UnresolvedAsWritten(names[1..], vars)
  }

  /**
   * A template holding one placeholder whose name is an `Object.prototype`
   * property, resolved with no values: the placeholder stays unresolved, yet
   * `in` reports it as supplied.
   */
  lemma PrototypeNameReportedSupplied(x: string)
    requires x in ObjectPrototypeKeys && VariableParser.PlainName(x)
    ensures VariableParser.Variables("{{" + x + "}}") == [x]
    ensures UnresolvedAsWritten(VariableParser.Variables("{{" + x + "}}"), map[]) == []
    ensures Unresolved(VariableParser.Variables("{{" + x + "}}"), map[]) == [x]
  {
    var names := [x];
    VariableParser.TemplateRoundTrip(names);
    assert VariableParser.Template(names) == "{{" + x + "}}" + "" by {
      assert VariableParser.Template(names[1..]) == "";
    }
    assert "{{" + x + "}}" + "" == "{{" + x + "}}";
    assert names[1..] == [];
  }

  /** `toString` is such a name. */
  lemma ToStringIsPrototypeName()
    ensures "toString" in ObjectPrototypeKeys && VariableParser.PlainName("toString")
  {
    assert Text.IsTrimmed("toString") by {
      assert !Text.IsSpace('t') && !Text.IsSpace('g');
    }
  }

  datatype ResolveResult = ResolveResult(resolvedContent: string, unresolved: seq<string>)

  function ResolveResultToJson(r: ResolveResult): (j: Json)
    ensures j.JObj? && Keys(j.members) == ["resolved_content", "unresolved_variables"]
  {
    JObj([("resolved_content", JStr(r.resolvedContent)), ("unresolved_variables", Strings(r.unresolved))])
  }

  /**
   * `handleResolvePrompt`; `resolve` is `resolvePrompt` and `fetch` the
   * database's answer to the single-row query.
   */
  function ResolvePrompt(params: Json, userId: Option<string>, isUuid: string -> bool,
                         resolve: (string, map<string, string>) -> string, fetch: Query -> DbResult<PromptRow>)
    : (r: ToolResult<ResolveResult>)
    ensures ParseParams(params, isUuid).Failure? ==> r == Fail(InvalidParams(ParseParams(params, isUuid).error))
    ensures ParseParams(params, isUuid).Success? ==>
      var p := ParseParams(params, isUuid).value;
      var found := GetPrompt.FetchVisible(p.promptId, userId, fetch);
      && (found.Fail? ==> r == Fail(found.error))
      && (found.Done? ==>
            var content := LatestContent(found.value.versions);
            r == Done(ResolveResult(resolve(content, p.variables),
                                    Unresolved(VariableParser.Variables(content), p.variables))))
  {
    match ParseParams(params, isUuid)
    case Failure(issues) => Fail(InvalidParams(issues))
    case Success(p) =>
      match GetPrompt.FetchVisible(p.promptId, userId, fetch)
      case Fail(e) => Fail(e)
      case Done(row) =>
        var content := LatestContent(row.versions);
        var all := VariableParser.Variables(content);
        Done(ResolveResult(resolve(content, p.variables), Unresolved(all, p.variables)))
  }

  /** Every reported name is a placeholder of the latest content with no supplied value, each once. */
  lemma ResolveReportsMissing(params: Json, userId: Option<string>, isUuid: string -> bool,
                              resolve: (string, map<string, string>) -> string, fetch: Query -> DbResult<PromptRow>)
    returns (idx: seq<nat>)
    requires ResolvePrompt(params, userId, isUuid, resolve, fetch).Done?
    ensures var p := ParseParams(params, isUuid).value;
      var row := GetPrompt.FetchVisible(p.promptId, userId, fetch).value;
      var names := VariableParser.Variables(LatestContent(row.versions));
      var out := ResolvePrompt(params, userId, isUuid, resolve, fetch).value.unresolved;
      && VariableParser.Distinct(out)
      && Positions(names, out, idx)
      && (forall x :: x in out <==> x in names && x !in p.variables)
      && (Field(params, "variables").None? ==> out == names)
  {
    var p := ParseParams(params, isUuid).value;
    var row := GetPrompt.FetchVisible(p.promptId, userId, fetch).value;
    var names := VariableParser.Variables(LatestContent(row.versions));
    VariableParser.VariablesShape(LatestContent(row.versions));
    idx := UnresolvedInOrder(names, p.variables);
    UnresolvedMembers(names, p.variables);
    PositionsDistinct(names, Unresolved(names, p.variables), idx);
    UnresolvedExtremes(names, p.variables);
  }

  /** Parameters that fail validation, `null` among them, are reported before any query. */
  lemma ResolveInvalidBeforeQuery(params: Json, userId: Option<string>, isUuid: string -> bool,
                                  resolve: (string, map<string, string>) -> string,
                                  f1: Query -> DbResult<PromptRow>, f2: Query -> DbResult<PromptRow>)
    requires ParseParams(params, isUuid).Failure?
    ensures ResolvePrompt(params, userId, isUuid, resolve, f1) == ResolvePrompt(params, userId, isUuid, resolve, f2)
    ensures ResolvePrompt(params, userId, isUuid, resolve, f1).error.code == INVALID_PARAMS
    ensures params.JNull? ==> ParseParams(params, isUuid).Failure?
  {
  }
}
