/**
 * The `tools/list` catalogue: the four tools the server exposes, each with a
 * JSON Schema description of its input. The declared bounds are shown to be
 * the ones the handlers enforce.
 */
module ListTools {
  import opened Wrappers
  import opened Json
  import opened McpTypes
  import ListPrompts
  import SearchPrompts

  /** One declared input property; absent keywords are `None`. */
  datatype Property = Property(
    name: string,
    kind: string,
    description: string,
    minimum: Option<int>,
    maximum: Option<int>,
    defaultValue: Option<int>,
    minLength: Option<int>,
    valuesOfKind: Option<string>)

  datatype ToolDefinition = ToolDefinition(name: string, description: string, properties: seq<Property>, required: seq<string>)

  function Plain(name: string, kind: string, description: string): Property
  {
    Property(name, kind, description, None, None, None, None, None)
  }

  const ListPromptsTool := ToolDefinition(
    "list_prompts",
    "List prompts accessible to the authenticated user. Returns a paginated list of prompt metadata (no content body). "
    + "Includes the user's own active prompts and public prompts from other users. Anonymous callers receive only public prompts.",
    [Property("limit", "integer", "Maximum number of prompts to return (1\U{2013}100). Defaults to 20.", Some(1), Some(100), Some(20), None, None),
     Property("offset", "integer", "Number of prompts to skip for pagination. Defaults to 0.", Some(0), None, Some(0), None, None)],
    [])

  const GetPromptTool := ToolDefinition(
    "get_prompt",
    "Fetch a single prompt by ID, including its latest version content and extracted variable names. "
    + "Authenticated users can access their own prompts (public or private) and other users' public prompts. "
    + "Anonymous callers can access only public prompts.",
    [Plain("prompt_id", "string", "The UUID of the prompt to fetch.")],
    ["prompt_id"])

  const ResolvePromptTool := ToolDefinition(
    "resolve_prompt",
    "Fetch a prompt and resolve its {{variable}} placeholders with the provided values. "
    + "Any variables without a supplied value are left as-is in the output. "
    + "Returns the resolved content and a list of any variables that were not provided.",
    [Plain("prompt_id", "string", "The UUID of the prompt to resolve."),
     Property("variables", "object", "Map of variable names to their replacement values.", None, None, None, None, Some("string"))],
    ["prompt_id"])

  const SearchPromptsTool := ToolDefinition(
    "search_prompts",
    "Full-text search over prompts accessible to the caller. Authenticated users search their own prompts and public prompts from others. "
    + "Anonymous callers search only public prompts. Returns prompt metadata without content.",
    [Property("query", "string", "Search query string (minimum 1 character).", None, None, None, Some(1), None),
     Property("limit", "integer", "Maximum number of results to return (1\U{2013}50). Defaults to 10.", Some(1), Some(50), Some(10), None, None)],
    ["query"])

  const Catalogue: seq<ToolDefinition> := [ListPromptsTool, GetPromptTool, ResolvePromptTool, SearchPromptsTool]

  function Names(tools: seq<ToolDefinition>): (ns: seq<string>)
    ensures |ns| == |tools| && forall i :: 0 <= i < |tools| ==> ns[i] == tools[i].name
  {
    seq(|tools|, i requires 0 <= i < |tools| => tools[i].name)
  }

  function OptInt(key: string, v: Option<int>): seq<(string, Json)>
  {
    if v.Some? then [(key, JNum(v.value as real))] else []
  }

  /** A property's schema, keywords in the catalogue's order. */
  function PropertyToJson(p: Property): Json
  {
    JObj([("type", JStr(p.kind)), ("description", JStr(p.description))]
         + OptInt("minimum", p.minimum) + OptInt("maximum", p.maximum) + OptInt("default", p.defaultValue)
         + OptInt("minLength", p.minLength)
         + (if p.valuesOfKind.Some? then [("additionalProperties", JObj([("type", JStr(p.valuesOfKind.value))]))] else []))
  }

  /** `{type: 'object', properties, required, additionalProperties: false}`. */
  function InputSchema(t: ToolDefinition): Json
  {
    JObj([("type", JStr("object")), ("properties", PropertiesToJson(t.properties)),
          ("required", Strings(t.required)),
          ("additionalProperties", JBool(false))])
  }

  /** `properties`: each declared property's schema under its name, in order. */
  function PropertiesToJson(ps: seq<Property>): (j: Json)
    ensures j.JObj? && Keys(j.members) == PropertyNames(ps)
  {
    JObj(PropertyMembers(ps))
  }

  function PropertyMembers(ps: seq<Property>): (ms: seq<(string, Json)>)
    ensures |ms| == |ps| && forall i :: 0 <= i < |ps| ==> ms[i].0 == ps[i].name
  {
    if |ps| == 0 then [] else [(ps[0].name, PropertyToJson(ps[0]))] + PropertyMembers(ps[1..])
  }

  /**
   * Every input schema is an object schema that forbids undeclared
   * properties, declares the tool's properties and requires its required
   * names.
   */
  lemma InputSchemaShape(t: ToolDefinition)
    ensures var j := InputSchema(t);
      && j.JObj? && |j.members| == 4
      && Field(j, "type") == Some(JStr("object")) && Field(j, "additionalProperties") == Some(JBool(false))
      && Field(j, "properties") == Some(PropertiesToJson(t.properties))
      && Field(j, "required") == Some(Strings(t.required))
  {
    var last := [("additionalProperties", JBool(false))];
    var third := [("required", Strings(t.required))] + last;
    var second := [("properties", PropertiesToJson(t.properties))] + third;
    assert InputSchema(t).members == [("type", JStr("object"))] + second;
    GetSkip(("type", JStr("object")), second, "properties");
    GetSkip(("type", JStr("object")), second, "required");
    GetSkip(("properties", PropertiesToJson(t.properties)), third, "required");
    GetSkip(("type", JStr("object")), second, "additionalProperties");
    GetSkip(("properties", PropertiesToJson(t.properties)), third, "additionalProperties");
    GetSkip(("required", Strings(t.required)), last, "additionalProperties");
  }

  /** Property names in declaration order. */
  function PropertyNames(ps: seq<Property>): (ns: seq<string>)
    ensures |ns| == |ps| && forall i :: 0 <= i < |ps| ==> ns[i] == ps[i].name
  {
    Keys(PropertyMembers(ps))
  }

  function ToolToJson(t: ToolDefinition): Json
  {
    JObj([("name", JStr(t.name)), ("description", JStr(t.description)), ("inputSchema", InputSchema(t))])
  }

  /** `handleListTools()`: `{tools: [...]}`. */
  function ListToolsResult(): (j: Json)
    ensures j.JObj? && Keys(j.members) == ["tools"]
  {
    JObj([("tools", JArr(seq(|Catalogue|, i requires 0 <= i < |Catalogue| => ToolToJson(Catalogue[i]))))])
  }

  /** A tool's object carries its name, its description and its input schema. */
  lemma ToolJsonFields(t: ToolDefinition)
    ensures var item := ToolToJson(t);
      && Field(item, "name") == Some(JStr(t.name))
      && Field(item, "description") == Some(JStr(t.description))
      && Field(item, "inputSchema") == Some(InputSchema(t))
  {
    var ms := ToolToJson(t).members;
    GetFirst(ms, 1);
    GetFirst(ms, 2);
  }

  /** Item `i` of `tools` is the object of catalogue tool `i`. */
  lemma ListedTool(i: nat)
    requires i < |Catalogue|
    ensures var tools := Field(ListToolsResult(), "tools");
      && tools.Some? && tools.value.JArr? && |tools.value.items| == |Catalogue|
      && tools.value.items[i] == ToolToJson(Catalogue[i])
  {
  }

  /** Four tools, in this order, each requiring only properties it declares. */
  lemma CatalogueShape()
    ensures Names(Catalogue) == ["list_prompts", "get_prompt", "resolve_prompt", "search_prompts"]
    ensures forall t :: t in Catalogue ==> forall r :: r in t.required ==> r in PropertyNames(t.properties)
  {
    assert PropertyNames(GetPromptTool.properties)[0] == "prompt_id";
    assert PropertyNames(ResolvePromptTool.properties)[0] == "prompt_id";
    assert PropertyNames(SearchPromptsTool.properties)[0] == "query";
  }

  /** The bounds the catalogue declares are the ones the handlers enforce. */
  lemma CatalogueMatchesHandlers()
    ensures var limit := ListPromptsTool.properties[0];
      && limit.name == "limit" && limit.kind == "integer"
      && limit.minimum == Some(ListPrompts.MinLimit) && limit.maximum == Some(ListPrompts.MaxLimit)
      && limit.defaultValue == Some(ListPrompts.DefaultLimit)
    ensures var offset := ListPromptsTool.properties[1];
      && offset.name == "offset" && offset.minimum == Some(ListPrompts.MinOffset)
      && offset.maximum == None && offset.defaultValue == Some(ListPrompts.DefaultOffset)
    ensures var query := SearchPromptsTool.properties[0];
      query.name == "query" && query.minLength == Some(SearchPrompts.QueryMinLength as int)
    ensures var limit := SearchPromptsTool.properties[1];
      && limit.name == "limit" && limit.minimum == Some(SearchPrompts.MinLimit)
      && limit.maximum == Some(SearchPrompts.MaxLimit) && limit.defaultValue == Some(SearchPrompts.DefaultLimit)
    ensures ListPromptsTool.required == [] && SearchPromptsTool.required == ["query"]
  {
  }
}
