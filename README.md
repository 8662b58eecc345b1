# prompt-repo: the MCP endpoint and its rules, in Dafny

prompt-repo stores prompt templates with `{{variable}}` placeholders, their
numbered versions, collections and API keys. It serves them to MCP clients
through a JSON-RPC 2.0 endpoint. This project models that endpoint, from the
HTTP request to the tool results, together with the small rules around it, and
proves what each part promises.

The model covers:

- **The HTTP route** (`McpRoute`). It selects and verifies the API key, parses
  and validates the envelope, recovers the raw id, dispatches the request, and
  sets the CORS headers on every response.
- **The dispatcher** (`Dispatcher`). It holds the method table and the
  `tools/call` routing, and turns thrown values into error objects.
- **The envelope schema and the response types** (`Envelope`, `McpTypes`),
  with the error codes of section 5.1 of the JSON-RPC 2.0 Specification.
- **The four prompt tools and the tool catalogue** (`ListPrompts`,
  `GetPrompt`, `ResolvePrompt`, `SearchPrompts`, `ListTools`, `Handlers`).
  They share one owner-or-public visibility rule and one latest-version rule
  (`PromptRows`).
- **Variable extraction** (`VariableParser`). This is the global regex scan
  with its exact backtracking, then trimming and de-duplication in
  first-occurrence order. The method `ExtractVariables` keeps the source's
  loop and is proved equal to the function `Variables`, from which every
  other module computes.
- **The stand-alone rules:**
  - API-key hashing and hex encoding (`ApiKeyHash`) and verification (`ApiKeyVerify`).
  - The service-client cache (`ServiceClient`, a class over the three cached fields).
  - Snapshot hydration (`Hydration`).
  - Diff line numbering (`Diff`).
  - The prompt queries (`GetPrompts`, `GetPublicPrompt`).
  - The OAuth callback's open-redirect guard (`AuthCallback`).
  - The session middleware (`SessionMiddleware`, a class for the cookie writes).
  - The zod input schemas (`PromptSchema`, `ApiKeySchema`, `SnapshotSchema`,
    `ProfileSchema`, `CollectionSchema`, on the shared zod semantics in `Zod`).

Supporting modules:

- `Json`: JSON values, with objects kept as property lists in insertion order.
- `Text`: `trim`, `split` and `join`.
- `Store`: PostgREST queries as values, and when a row satisfies them.
- `Wrappers`: `Option` and `Result`.

The model treats these collaborators as parameters:

- the database and the stored procedure;
- `crypto.getRandomValues` and SHA-256;
- `TextEncoder`;
- zod's UUID and URL tests;
- `diffLines`;
- `resolvePrompt`;
- `JSON.parse` and `JSON.stringify`;
- JavaScript's number-to-string conversion;
- `exchangeCodeForSession` and `getUser`.

A JavaScript number is a `real`, and a string is a `seq<char>`.

For `{{ {{x}} }}`, where x is any plain name (non-empty, with no white space
at its ends and no `}`), the code captures `{{x` (not `{{x}}`): the outer `{{`
opens the match, the lazy group stops at the first `}}`, and the trailing
` }}` opens nothing. `VariableParser.NestedPlaceholder` proves this. In
`{{ }}x}}` the greedy `\s*` after `{{` keeps the blank, so the lazy group
starts at the first `}` and the name is `}}x`
(`VariableParser.GreedySpaceVariables`). The `\s*` gives white space back only
when the group would otherwise be empty: in `{{  }}` it keeps one blank of two,
the group holds the other, and the blank capture yields no name
(`VariableParser.GiveBackVariables`).

## Model

| member | source | states |
|---|---|---|
| ApiKeyHash.ToRadix16 | src/lib/api-keys/hash.ts:18 | `b.toString(16)` gives at least one digit, all from the lower-case base-16 alphabet |
| ApiKeyHash.PadStart | src/lib/api-keys/hash.ts:18 | `padStart(width, '0')` reaches at least `width` characters, ends with the original text and pads only with zeros |
| ApiKeyHash.ByteToHexDigits | src/lib/api-keys/hash.ts:17-19 | every byte becomes exactly two lower-case hex digits, high nibble first, and those digits read back as the byte |
| ApiKeyHash.Hex | src/lib/api-keys/hash.ts:17-19 | n bytes encode to 2n characters, every one in `[0-9a-f]` |
| ApiKeyHash.HexRoundTrip | src/lib/api-keys/hash.ts:17-19 | decoding the hex text gives back exactly the bytes encoded |
| ApiKeyHash.HexInjective | src/lib/api-keys/hash.ts:31 | different byte sequences never share an encoding |
| ApiKeyHash.GenerateApiKey | src/lib/api-keys/hash.ts:14-20 | a generated key has 64 lower-case hex characters and decodes to the 32 random bytes it came from |
| ApiKeyHash.HashApiKey | src/lib/api-keys/hash.ts:27-32 | the stored hash is twice as long as the digest, lower-case hex, and decodes to the digest of the encoded key |
| ApiKeyHash.HashMatchesDigest | src/lib/api-keys/hash.ts:27-32 | two keys hash alike exactly when their digests agree (so hashing is deterministic), and a 32-byte digest gives 64 characters |
| ApiKeySchema.CreateApiKey | src/lib/validation/api-keys.ts:9-11 | a non-object is refused; an object is judged by its `label` under the label rules |
| ApiKeySchema.LabelRule | src/lib/validation/api-keys.ts:3-7 | the label is trimmed first; it passes exactly when the trimmed length is 1..100, yielding the trimmed text; empty and too-long labels fail with their own messages |
| ApiKeySchema.CreateAcceptsLabel | src/lib/validation/api-keys.ts:9-11 | the object schema accepts exactly the objects whose label the label schema accepts, with the same value |
| ApiKeyVerify.LookupMatchesLiveKey | src/lib/api-keys/verify.ts:36-41 | the lookup admits exactly the rows that store this hash and have a null `revoked_at` |
| ApiKeyVerify.VerifyApiKey | src/lib/api-keys/verify.ts:24-53 | a hashing failure is invalid; a missing service client rejects; a store error or no row is invalid; otherwise the result is valid with the row's user id, and it is valid only then |
| ApiKeyVerify.HashFailureSkipsStore | src/lib/api-keys/verify.ts:27-32 | after a hashing failure the answer is invalid, whatever the client or the store would do |
| ApiKeyVerify.KeyedByHash | src/lib/api-keys/verify.ts:28-39 | the store sees only the hash: two keys with the same hash get the same answer |
| AuthCallback.SafeNext | src/app/auth/callback/route.ts:17-18 | the target is always a path on the site; it is `next` itself exactly when `next` starts with one `/`, not `//`, and has no backslash, and `/` otherwise |
| AuthCallback.Callback | src/app/auth/callback/route.ts:6-25 | a missing or empty code and a failed exchange both go to `/auth/auth-error`; a successful exchange goes to the origin plus the safe `next`, defaulting to `/` |
| AuthCallback.SignInStaysOnSite | src/app/auth/callback/route.ts:9-20 | after a successful sign-in the target starts with the origin and continues with a path on the site; without `next` it is `origin/` |
| AuthCallback.ForeignTargetsRefused | src/app/auth/callback/route.ts:17-18 | another host, a protocol-relative URL and a backslash trick all become `/`, while a plain path is kept |
| AuthCallback.SlashPrefixes | src/app/auth/callback/route.ts:17 | the two `startsWith` tests read exactly the first one or two characters |
| CollectionSchema.CreateCollection | src/features/collections/schemas.ts:3-6 | a non-object is refused; an object passes exactly when its name and its description pass, and yields both |
| CollectionSchema.NameRule | src/features/collections/schemas.ts:4 | the name is not trimmed and must hold 1..50 characters; empty and too-long names fail with their own messages |
| CollectionSchema.OnlyNameRequired | src/features/collections/schemas.ts:3-6 | with a good name, a missing description is accepted, a string description is accepted exactly up to 200 characters, and any other description is refused |
| Diff.ReplaceCrlf | src/features/prompts/utils/diff.ts:16-17 | normalising never lengthens the text |
| Diff.ReplaceAfterPlain | src/features/prompts/utils/diff.ts:16-17 | text without carriage returns passes through unchanged ahead of whatever follows |
| Diff.CrlfBecomesLf | src/features/prompts/utils/diff.ts:16-17 | lines joined with CRLF normalise to the same lines joined with LF |
| Diff.LoneCarriageReturnKept | src/features/prompts/utils/diff.ts:16-17 | the replacement is a single pass: `\r\r\n` becomes `\r\n`, so a CRLF can remain |
| Diff.EffectiveLines | src/features/prompts/utils/diff.ts:27-33 | a change gives at least one line, no line holds a newline, and the lines joined with newlines are the value less one trailing newline |
| Diff.LastPieceEmpty | src/features/prompts/utils/diff.ts:27-33 | a value that ends in a newline splits into more than one piece, the last of them empty (so exactly that piece is dropped) |
| Diff.Tag | src/features/prompts/utils/diff.ts:35-56 | every line of a change becomes one entry of that change's kind, in line order |
| Diff.EntriesSingleLine | src/features/prompts/utils/diff.ts:27-35 | no output line contains a newline |
| Diff.SingleUnchangedChange | src/features/prompts/utils/diff.ts:48-54 | a single unchanged change gives its effective lines, all unchanged |
| Diff.Numbered | src/features/prompts/utils/diff.ts:35-56 | numbering gives one output line per entry |
| Diff.NumberedAt | src/features/prompts/utils/diff.ts:22-54 | line i keeps its entry's content and kind, and on each side it is numbered by the counter plus the earlier lines counted on that side |
| Diff.NumberedShape | src/features/prompts/utils/diff.ts:36-54 | unchanged lines carry both numbers, added lines only the new one, removed lines only the old one |
| Diff.Run | src/features/prompts/utils/diff.ts:22-23 | the reference run `from, from+1, ...` of a given length |
| Diff.NumbersConsecutive | src/features/prompts/utils/diff.ts:22-52 | the old numbers in output order are exactly 1, 2, 3, ... over removed and unchanged lines, and likewise the new numbers over added and unchanged lines |
| Diff.CountsAllUnchanged | src/features/prompts/utils/diff.ts:48-54 | with only unchanged lines, both counters advance once per line |
| Diff.AllUnchangedNumbering | src/features/prompts/utils/diff.ts:48-54 | with only unchanged lines, line i is numbered i+1 on both sides |
| Diff.IdenticalTextsNumbering | src/features/prompts/utils/diff.ts:48-54 | when the diff reports one unchanged change, line i of the result is line i of the text numbered i+1 on both sides |
| Diff.CalculateDiff | src/features/prompts/utils/diff.ts:14-60 | the loop's output is the numbering, from 1 and 1, of the lines of the changes `diffLines` returns for the two normalised texts |
| Dispatcher.RoutedMethods | src/features/mcp/dispatcher.ts:100-108 | exactly seven method names are routed |
| Dispatcher.PromptMethodsMatchTools | src/features/mcp/dispatcher.ts:56-108 | the four `prompts/` methods reach the same handlers as the four `tools/call` names, and every tool is reachable as a method |
| Dispatcher.ToolsMatchCatalogue | src/features/mcp/dispatcher.ts:56-61 | `tools/call` routes exactly the names the catalogue lists |
| Dispatcher.CaughtErrors | src/features/mcp/dispatcher.ts:114-191 | a thrown value is an MCP error exactly when it has a numeric code and a string message; then its code, message and data are kept, with data only when defined; anything else becomes -32603 "An internal server error occurred." without data; an error object thrown and caught round-trips |
| Dispatcher.Dispatch | src/features/mcp/dispatcher.ts:149-193 | every answer echoes the request id; an unknown method is -32601 `Method not found: <method>`; the call rejects exactly when the method is known and the client cannot be created; otherwise the handler's result is returned, or its thrown value is classified |
| Dispatcher.UnknownMethodNeedsNoClient | src/features/mcp/dispatcher.ts:153-162 | an unknown method gets the same -32601 answer whatever the client and the handlers |
| Dispatcher.DispatchAnswers | src/features/mcp/dispatcher.ts:166-177 | with a client, dispatch always answers; the handler sees `params ?? null` and the caller unchanged; the response carries `jsonrpc: "2.0"` and the request id |
| Dispatcher.PrototypeMethodFound | src/features/mcp/dispatcher.ts:153-156 | the lookup as written finds a handler for `toString`, which is not a routed method |
| Dispatcher.ToolsCall | src/features/mcp/dispatcher.ts:68-87 | a missing or falsy name is -32602; a name that converts to no tool is -32601 `Unknown tool: <name>`; a known tool runs on `arguments ?? null`, and its result is wrapped in one text block or its thrown value passes through |
| Dispatcher.ContentBlockShape | src/features/mcp/dispatcher.ts:83-86 | the wrapped result has exactly `content` and `isError`: one `{type: 'text', text}` item, and `isError` false |
| Dispatcher.MissingToolName | src/features/mcp/dispatcher.ts:72-74 | a missing or empty tool name is -32602 with the fixed message |
| Dispatcher.UnknownToolName | src/features/mcp/dispatcher.ts:76-79 | a non-empty name that names no tool is -32601 with the name in the message |
| Dispatcher.ToolsCallByName | src/features/mcp/dispatcher.ts:76-86 | a call naming a tool runs that tool on the call's arguments and wraps or propagates its outcome |
| Dispatcher.PrototypeToolFound | src/features/mcp/dispatcher.ts:76-79 | the lookup as written finds a handler for `constructor`, which names no tool |
| Envelope.ValidateEnvelope | src/lib/validation/mcp.ts:6-11 | the body is accepted exactly when it is an object with `jsonrpc` "2.0", an id that is a string, number or null, and a non-empty string method; the request keeps that id, method and optional params; a refusal has at least one issue |
| Envelope.NotificationRejected | src/lib/validation/mcp.ts:8 | a request without `id` (a notification, section 4.1 of JSON-RPC 2.0) is refused with the union's issue |
| Envelope.NonObjectRejected | src/lib/validation/mcp.ts:6 | any non-object body, a batch array among them (section 6 of JSON-RPC 2.0), is refused with one type issue |
| Envelope.EnvelopeMessages | src/lib/validation/mcp.ts:6-11 | a refused object reports the issues of `jsonrpc`, `id` and `method` in that order |
| Envelope.MethodMessages | src/lib/validation/mcp.ts:9 | a missing method is "Required", a non-string one a type issue, an empty one "method is required", and any other string passes |
| GetPrompt.PromptIdIssues | src/features/mcp/tools/get-prompt.ts:10-12 | `prompt_id` raises no issue exactly when it is a string that passes the UUID test; a failing string gets the UUID message |
| GetPrompt.ParsePromptId | src/features/mcp/tools/get-prompt.ts:10-59 | a non-object is refused; parsing succeeds exactly when `prompt_id` has no issue, and yields that string |
| GetPrompt.FetchIgnoresArchive | src/features/mcp/tools/get-prompt.ts:64-82 | fetching by id matches the row with that id and never reads `archived_at` |
| GetPrompt.FetchVisible | src/features/mcp/tools/get-prompt.ts:84-110 | a store error gives -32603 with the store's message; a row is served exactly when it exists and the caller owns it or it is public; a store answer without a visible row is "Prompt not found." |
| GetPrompt.HiddenLikeMissing | src/features/mcp/tools/get-prompt.ts:91-110 | a private prompt of someone else gets the same error as a missing prompt |
| GetPrompt.AccessRule | src/features/mcp/tools/get-prompt.ts:101-104 | an anonymous caller is served exactly the public prompts; an owner is always served their own |
| GetPrompt.Detail | src/features/mcp/tools/get-prompt.ts:113-133 | the metadata is copied from the row; content and version number come from the first version with the highest number (the one the stable descending sort puts first), or are '' and 0 without versions; the variables are those of that content |
| GetPrompt.DetailToJson | src/features/mcp/tools/get-prompt.ts:118-133 | the result object has exactly the nine fields, in the handler's order |
| GetPrompt.GetPrompt | src/features/mcp/tools/get-prompt.ts:51-136 | invalid parameters give -32602 with the issue messages; otherwise the fetch outcome decides, and a visible row gives its detail |
| GetPrompt.GetInvalidBeforeQuery | src/features/mcp/tools/get-prompt.ts:53-59 | invalid parameters are answered with -32602 whatever the database holds |
| GetPrompt.MissingPromptId | src/features/mcp/tools/get-prompt.ts:10-53 | null parameters get the object type issue and a missing `prompt_id` gets "Required" |
| GetPrompts.PromptsQueryAdmits | src/features/prompts/queries/get-prompts.ts:26-45 | with a collection id the query inner-joins the collection links and admits exactly the rows linked to it; without one it admits every row and joins nothing; newest first either way |
| GetPrompts.Summarize | src/features/prompts/queries/get-prompts.ts:56-71 | the entry copies the row's fields and collection ids; the latest content and version id come from the first version with the highest number (the one the stable descending sort puts first), or are '' without versions |
| GetPrompts.GetPrompts | src/features/prompts/queries/get-prompts.ts:22-73 | a store error or no data gives `[]`; otherwise one entry per row, in row order |
| GetPrompts.EmptyCollectionIdIgnored | src/features/prompts/queries/get-prompts.ts:38-41 | an empty collection id lists the same prompts as none |
| GetPrompts.SummaryIgnoresVersionOrder | src/features/prompts/queries/get-prompts.ts:57-59 | with distinct version numbers, the entry does not depend on the order the versions arrive in |
| GetPublicPrompt.PublicQueryAdmits | src/features/prompts/queries/get-public-prompt.ts:17-30 | the query admits exactly the row with that id while it is public, and asks for a single row |
| GetPublicPrompt.GetPublicPrompt | src/features/prompts/queries/get-public-prompt.ts:14-46 | a store error or a missing row gives null; otherwise id, title and description are copied, and the content is that of the first highest-numbered version (the one the stable descending sort puts first), or '' without versions |
| GetPublicPrompt.PublicContentIgnoresVersionOrder | src/features/prompts/queries/get-public-prompt.ts:37-44 | with distinct version numbers, the result does not depend on the order the versions arrive in |
| Handlers.InitializeShape | src/features/mcp/tools/initialize.ts:10-21 | the answer has exactly `protocolVersion` "2024-11-05", `capabilities` with an empty `tools`, and `serverInfo` prompt-repo 1.0.0, in that order |
| Handlers.Settle | src/features/mcp/tools/get-prompt.ts:84-96 | a tool's result is returned as JSON, and its error is thrown as an object that the dispatcher reads back as that same error |
| Hydration.Hydrate | src/features/resolution-engine/utils/hydration.ts:8-19 | the form has exactly the extracted variables as keys; each value is the snapshot's value when it has one and '' otherwise; snapshot entries for other names are dropped; no snapshot gives '' everywhere |
| ListPrompts.ParseParams | src/features/mcp/tools/list-prompts.ts:10-59 | null parameters count as `{}`; they pass exactly when a present `limit` is an integer in 1..100 and a present `offset` an integer of at least 0; absent ones default to 20 and 0 |
| ListPrompts.ListQueryAdmitsVisible | src/features/mcp/tools/list-prompts.ts:79-89 | the filters admit exactly the non-archived rows the caller owns or that are public, and only public ones for an anonymous or empty caller |
| ListPrompts.ListWindow | src/features/mcp/tools/list-prompts.ts:58-81 | the range starts at `offset` and holds exactly `limit` rows; without parameters it is rows 0..19 |
| ListPrompts.ListPrompts | src/features/mcp/tools/list-prompts.ts:48-118 | invalid parameters give -32602; a store error gives -32603 "Failed to fetch prompts: ..."; otherwise one entry per row in row order, with the row's id, title and description and the variables of its latest version |
| ListPrompts.InvalidBeforeQuery | src/features/mcp/tools/list-prompts.ts:51-56 | invalid parameters are answered with -32602 whatever the database holds |
| ListTools.Names | src/features/mcp/tools/list-tools.ts:13-102 | the names of the tools, in catalogue order |
| ListTools.PropertiesToJson | src/features/mcp/tools/list-tools.ts:20-34 | `properties` lists each declared property under its name, in declaration order |
| ListTools.PropertyMembers | src/features/mcp/tools/list-tools.ts:20-34 | one member per declared property, named after it |
| ListTools.InputSchemaShape | src/features/mcp/tools/list-tools.ts:18-36 | every input schema has four keys: `type` "object", the properties, the required list, and `additionalProperties` false |
| ListTools.PropertyNames | src/features/mcp/tools/list-tools.ts:20-34 | the declared property names, in order |
| ListTools.ListToolsResult | src/features/mcp/tools/list-tools.ts:104 | the answer has the single key `tools` |
| ListTools.ToolJsonFields | src/features/mcp/tools/list-tools.ts:14-18 | a tool's object carries its name, its description and its input schema |
| ListTools.ListedTool | src/features/mcp/tools/list-tools.ts:13-104 | item i of `tools` is the object of catalogue tool i |
| ListTools.CatalogueShape | src/features/mcp/tools/list-tools.ts:13-102 | the catalogue has exactly list_prompts, get_prompt, resolve_prompt and search_prompts, in that order, and every tool requires only properties it declares |
| ListTools.CatalogueMatchesHandlers | src/features/mcp/tools/list-tools.ts:21-98 | the declared bounds and defaults (limit 1..100 default 20, offset from 0 default 0, query minLength 1, search limit 1..50 default 10) are the ones the handlers enforce, and only search requires a property |
| McpRoute.JsonResponse | src/app/api/mcp/route.ts:37-45 | status 200, `Content-Type: application/json` first, then the three CORS headers, and the given body |
| McpRoute.RpcErrorIsErrorResponse | src/app/api/mcp/route.ts:48-54 | for a proper id, the route's error body is the dispatcher's error response without data, and reads back as it |
| McpRoute.ErrorWithoutData | src/app/api/mcp/route.ts:53 | an error without data serialises to exactly `{code, message}` |
| McpRoute.RpcErrorBodyFields | src/app/api/mcp/route.ts:53 | the error body carries `jsonrpc` "2.0", the given id and `{code, message}`, and no `result` |
| McpRoute.Options | src/app/api/mcp/route.ts:60-65 | the preflight answer is 200 with a null body and only the CORS headers |
| McpRoute.SelectKey | src/app/api/mcp/route.ts:81-84 | a selected key is always trimmed; there is none exactly when there is no `Bearer ` authorization and no `x-api-key` |
| McpRoute.BearerWins | src/app/api/mcp/route.ts:81-83 | with a `Bearer ` authorization the key is its trimmed remainder, whatever `x-api-key` holds |
| McpRoute.BlankBearerIsAnonymous | src/app/api/mcp/route.ts:81-86 | `Bearer` followed only by white space presents no key, even beside an `x-api-key` |
| McpRoute.FallbackToApiKey | src/app/api/mcp/route.ts:84-86 | without a `Bearer ` authorization the key is the trimmed `x-api-key`, presented exactly when it is not blank |
| McpRoute.RawId | src/app/api/mcp/route.ts:114-119 | the raw id is the body's `id` when the body is an object that has one, and null otherwise |
| McpRoute.RawIdEchoed | src/app/api/mcp/route.ts:111-125 | an object whose `id` is not a string, number or null fails validation, and the error echoes that same value as its id |
| McpRoute.Post | src/app/api/mcp/route.ts:71-138 | every response is 200 JSON with CORS; the key is verified exactly when one is presented; a rejected key fails the request, and an invalid key gives -32001 with a null id; a body that is not JSON gives -32700; a bad envelope gives -32600 with the raw id and the joined issue messages; only a valid envelope is dispatched, once, as the key's owner or anonymously, and the dispatcher's answer is the body |
| McpTypes.ErrorCodesConform | src/features/mcp/types.ts:88-99 | the five standard codes are the values section 5.1 of JSON-RPC 2.0 assigns; the two application codes lie in the server-error range -32099..-32000; all seven are reserved codes |
| McpTypes.ErrorCodesDistinct | src/features/mcp/types.ts:88-99 | the seven codes are pairwise distinct |
| McpTypes.IdOf | src/features/mcp/types.ts:7-12 | a JSON value is an id exactly when it is a string, number or null, and the id serialises back to it |
| McpTypes.IdRoundTrip | src/features/mcp/types.ts:7-12 | reading a serialised id gives the id back |
| McpTypes.ErrorToJson | src/features/mcp/types.ts:20-24 | the error object carries the code and the message, and `data` exactly when it is defined |
| McpTypes.ErrorKeys | src/features/mcp/dispatcher.ts:132 | the error object's keys are `code`, `message`, then `data` only when defined |
| McpTypes.ErrorRoundTrip | src/features/mcp/types.ts:20-24 | an error object reads back as the error it came from |
| McpTypes.ResponseShape | src/features/mcp/types.ts:14-30 | both responses carry `jsonrpc` "2.0" and the id; a success carries `result` and an error carries `error`, never both |
| McpTypes.ResponseRoundTrip | src/features/mcp/types.ts:14-30 | a response envelope reads back as the response it came from |
| McpTypes.Strings | src/features/mcp/types.ts:55-60 | a list of names becomes a JSON array of the same strings, in order |
| McpTypes.EntriesToJson | src/features/mcp/types.ts:62-64 | the listing result has the single key `prompts` |
| McpTypes.EntryJsonFields | src/features/mcp/types.ts:55-60 | an entry object carries the prompt's id, title, description (or null) and variables |
| McpTypes.EntryOmitsContent | src/features/mcp/tools/list-prompts.ts:108-113 | an entry object has no `content` property |
| McpTypes.EntryFields | src/features/mcp/tools/list-prompts.ts:103-116 | entry i of the `prompts` array is the object of prompt i |
| ProfileSchema.AvatarUrl | src/lib/validation/profile.ts:9-11 | the avatar may be absent, '' or a string passing the URL test; a failing string gets the URL message and a non-string the union's issue |
| ProfileSchema.Profile | src/lib/validation/profile.ts:3-12 | a non-object is refused; an object passes exactly when its display name and avatar pass, and yields both |
| ProfileSchema.DisplayNameRule | src/lib/validation/profile.ts:4-8 | the display name is not trimmed and must hold 2..50 characters; a too-short and a too-long name get their own messages |
| ProfileSchema.EmptyAvatarAccepted | src/lib/validation/profile.ts:9-11 | '' is accepted by the `or('')` branch even though the URL branch alone refuses it |
| PromptRows.LatestIndex | src/features/mcp/tools/get-prompt.ts:114 | the version the descending stable sort puts first: it has the highest number, and every earlier version has a lower one |
| PromptRows.LatestVersion | src/features/mcp/tools/get-prompt.ts:113-115 | there is no latest version exactly when there are no versions; otherwise it is one of them and no version has a higher number |
| PromptRows.LatestIgnoresOrder | src/features/prompts/queries/get-public-prompt.ts:37-38 | with distinct version numbers, the latest version does not depend on the order the versions arrive in |
| PromptSchema.PromptCreate | src/lib/validation/prompt.ts:3-8 | a non-object is refused; an object passes exactly when all four fields pass, yields them, and on failure reports every field's issues in field order |
| PromptSchema.PromptMetadata | src/lib/validation/prompt.ts:12-15 | the metadata schema passes exactly when title and description pass, and yields them |
| PromptSchema.TitleRule | src/lib/validation/prompt.ts:4 | the title is trimmed, then must hold 1..100 characters; the parsed value is the trimmed text; each bound has its own message |
| PromptSchema.ContentRule | src/lib/validation/prompt.ts:6 | the content is trimmed, then must hold 1..20000 characters; the parsed value is the trimmed text; each bound has its own message |
| PromptSchema.DescriptionRule | src/lib/validation/prompt.ts:5 | the description may be absent; a string is trimmed and passes exactly up to 500 characters, yielding the trimmed text |
| PromptSchema.VersionNoteRule | src/lib/validation/prompt.ts:7 | the version note may be absent; a string is trimmed and passes exactly up to 200 characters, yielding the trimmed text |
| PromptSchema.BlankTitleRefused | src/lib/validation/prompt.ts:4-15 | a whitespace-only title fails both schemas, with "Title is required" |
| PromptSchema.MetadataIsPick | src/lib/validation/prompt.ts:12-15 | whatever the create schema accepts, the metadata schema accepts with the same title and description; without content the create schema fails, while the metadata schema still depends only on title and description |
| ResolvePrompt.VariablesParam | src/features/mcp/tools/resolve-prompt.ts:12-56 | absent variables are the empty map; present ones must be a record of strings |
| ResolvePrompt.ParseParams | src/features/mcp/tools/resolve-prompt.ts:10-56 | a non-object (null included) is refused; parsing succeeds exactly when `prompt_id` is a UUID string and `variables` is absent or a record of strings, and yields both, absent variables as `{}` |
| ResolvePrompt.Unresolved | src/features/mcp/tools/resolve-prompt.ts:113 | the filter never lengthens the list |
| ResolvePrompt.UnresolvedMembers | src/features/mcp/tools/resolve-prompt.ts:113 | a name is reported exactly when it was extracted and has no supplied value |
| ResolvePrompt.UnresolvedInOrder | src/features/mcp/tools/resolve-prompt.ts:113 | the reported names are the extracted names at increasing positions, so extraction order is kept |
| ResolvePrompt.PositionsDistinct | src/features/mcp/tools/resolve-prompt.ts:107-113 | names picked at increasing positions of a repeat-free list are repeat-free |
| ResolvePrompt.UnresolvedExtremes | src/features/mcp/tools/resolve-prompt.ts:113 | when every name has a value nothing is reported; with no values every name is |
| ResolvePrompt.UnresolvedAsWritten | src/features/mcp/tools/resolve-prompt.ts:113 | the filter as written keeps a name exactly when it is extracted and `name in variables` fails, inherited properties included |
| ResolvePrompt.PrototypeNameReportedSupplied | src/features/mcp/tools/resolve-prompt.ts:113 | for a placeholder named after an `Object.prototype` property, the filter as written reports it as supplied when no values are given, while the intended filter reports it |
| ResolvePrompt.ToStringIsPrototypeName | src/features/mcp/tools/resolve-prompt.ts:113 | `toString` is such a name |
| ResolvePrompt.ResolveResultToJson | src/features/mcp/tools/resolve-prompt.ts:115-118 | the result has exactly `resolved_content` and `unresolved_variables` |
| ResolvePrompt.ResolvePrompt | src/features/mcp/tools/resolve-prompt.ts:46-119 | invalid parameters give -32602; the fetch and access outcomes are those of get_prompt; otherwise the latest content is resolved with the supplied values and the unresolved names are filtered from its variables |
| ResolvePrompt.ResolveReportsMissing | src/features/mcp/tools/resolve-prompt.ts:102-113 | the reported names are exactly the latest content's placeholders without a supplied value, each once, in extraction order; without `variables` they are all of them |
| ResolvePrompt.ResolveInvalidBeforeQuery | src/features/mcp/tools/resolve-prompt.ts:48-54 | invalid parameters, null among them, are answered with -32602 whatever the database holds |
| SearchPrompts.QueryIssues | src/features/mcp/tools/search-prompts.ts:11 | the query raises no issue exactly when it is a string of at least one character; a shorter string gets the query message |
| SearchPrompts.ParseParams | src/features/mcp/tools/search-prompts.ts:10-63 | a non-object is refused; it passes exactly when the query passes and a present limit is an integer in 1..50; the query is then trimmed and the limit defaults to 10 |
| SearchPrompts.BlankQuerySent | src/features/mcp/tools/search-prompts.ts:11-62 | a whitespace-only query passes the length check and is sent as '' |
| SearchPrompts.VisibleRows | src/features/mcp/tools/search-prompts.ts:96-99 | every kept row is one of the results that the caller owns or that is public |
| SearchPrompts.VisibleRowsInOrder | src/features/mcp/tools/search-prompts.ts:96-99 | the kept rows appear at increasing positions of the store's rows, so the filter keeps the store's order |
| SearchPrompts.VisibleRowsComplete | src/features/mcp/tools/search-prompts.ts:96-99 | no visible row is dropped, and when all rows are visible the filter returns them unchanged |
| SearchPrompts.SearchPrompts | src/features/mcp/tools/search-prompts.ts:52-113 | invalid parameters give -32602; a store error gives -32603 "Search failed: ..."; otherwise the first min(limit, visible) visible rows, in the store's order, each as an entry with the variables of `latest_content ?? ''` |
| SearchPrompts.SearchReturnsVisible | src/features/mcp/tools/search-prompts.ts:91-109 | a successful search returns at most `limit` (at most 50) entries, each from a row the caller may see |
| SearchPrompts.SearchInvalidBeforeQuery | src/features/mcp/tools/search-prompts.ts:54-60 | invalid parameters are answered with -32602 whatever the store holds; an empty query gets the query message |
| ServiceClient.ServiceClientCache.constructor | src/lib/supabase/service.ts:8-10 | nothing is cached when the module loads |
| ServiceClient.ServiceClientCache.Create | src/lib/supabase/service.ts:19-48 | a missing URL fails first and a missing key next, both leaving the cache unchanged; otherwise the cached client is returned for an unchanged pair, and for a new pair a client is built and cached with that URL and key; the returned client is always the cached one |
| ServiceClient.ReusedAcrossCalls | src/lib/supabase/service.ts:31-33 | two calls with the same settings build once and return the same client |
| ServiceClient.RebuiltOnChange | src/lib/supabase/service.ts:35-45 | a changed key rebuilds the client from the new pair |
| SessionMiddleware.PutKeys | src/lib/supabase/middleware.ts:23-25 | after the writes the cookie names are the old ones plus the written ones |
| SessionMiddleware.PutLastWins | src/lib/supabase/middleware.ts:23-37 | a written cookie holds the value of its last write |
| SessionMiddleware.PutUntouched | src/lib/supabase/middleware.ts:23-25 | a cookie that is not written keeps its value |
| SessionMiddleware.RequestEntries | src/lib/supabase/middleware.ts:23-25 | each cookie to set becomes one (name, value) write, in order |
| SessionMiddleware.ResponseEntries | src/lib/supabase/middleware.ts:35-37 | each cookie to set becomes one (name, value, options) write, in order |
| SessionMiddleware.Session.constructor | src/lib/supabase/middleware.ts:7-11 | the initial response forwards the request's cookies and sets none |
| SessionMiddleware.Session.SetAll | src/lib/supabase/middleware.ts:21-38 | the request cookies receive every write in order; the response is created afresh, forwards the updated cookies, and sets exactly the written cookies |
| SessionMiddleware.SetAllWritesEverything | src/lib/supabase/middleware.ts:21-38 | the response sets exactly the cookies just written, and both the request and the response hold each cookie's last value and options |
| SessionMiddleware.UpdateSession | src/lib/supabase/middleware.ts:53-64 | with a user the pass-through response is returned; it redirects exactly when there is no user and the path starts with none of `/auth`, `/_next` and `/p` (the plain prefix test as written), to the same URL with pathname `/auth/login` |
| SessionMiddleware.ExemptPrefixes | src/lib/supabase/middleware.ts:55-57 | paths starting with `/auth`, `/_next` or `/p` are never redirected, and `updateSession` passes any `/p...` request through |
| SessionMiddleware.SignedOutProfilePassesThrough | src/lib/supabase/middleware.ts:57 | as written, a signed-out request for `/profile` or `/prompts/...` gets the pass-through response, not a redirect |
| SessionMiddleware.UpdateSessionIntended | src/lib/supabase/middleware.ts:53-64 | the same middleware with the share-page exemption read as `/p/`: it redirects exactly when there is no user and the path is not under `/auth`, `/_next` or `/p/` |
| SessionMiddleware.IntendedAgreesOutsideSharePrefix | src/lib/supabase/middleware.ts:53-64 | the intended and the written middleware give the same answer on every path except the `/p...` paths outside `/p/` |
| SessionMiddleware.SharePrefixOnly | src/lib/supabase/middleware.ts:57 | a path that starts `/p` but not `/p/` passes the written test and not the intended one |
| SessionMiddleware.PrefixExemptsMore | src/lib/supabase/middleware.ts:57 | as written, the `/p` test also exempts `/profile` and `/prompts/...`, which the intended test does not |
| SessionMiddleware.ExemptNarrowsSharePrefix | src/lib/supabase/middleware.ts:55-57 | the intended exemption is the written one minus the `/p...` paths outside `/p/` |
| SessionMiddleware.ProtectedPagesRedirect | src/lib/supabase/middleware.ts:53-62 | under the intended `/p/` test, signed-out visits to `/profile`, `/prompts/...` and `/` are redirected to the login page, while the login page and the share pages under `/p/` are not |
| SnapshotSchema.Snapshot | src/lib/validation/snapshot.ts:3-7 | a non-object is refused; an object passes exactly when name, version id and variables pass, and yields all three |
| SnapshotSchema.NameRule | src/lib/validation/snapshot.ts:4 | the name is not trimmed and must hold 1..100 characters, so a name of spaces passes; each bound has its own message |
| SnapshotSchema.VersionIdRule | src/lib/validation/snapshot.ts:5 | the version id passes exactly when the UUID test does, kept as given, and fails with "Invalid prompt version ID" |
| SnapshotSchema.AllFieldsRequired | src/lib/validation/snapshot.ts:3-7 | an object missing any field is refused, a missing name with "Required" |
| Text.Trim | src/lib/utils/variable-parser.ts:16 | `trim()` gives text with no white space at either end, never longer than the input, and empty exactly for blank text |
| Text.TrimDropsSpace | src/lib/utils/variable-parser.ts:16 | the trimmed text is a slice of the input, and what was dropped at either end is all white space |
| Text.Split | src/features/prompts/utils/diff.ts:27 | `split` gives at least one piece, no piece holds the separator, and joining the pieces restores the text |
| VariableParser.SpaceRun | src/lib/utils/variable-parser.ts:11 | the greedy `\s*` first takes the whole white-space run |
| VariableParser.MatchAt | src/lib/utils/variable-parser.ts:11 | a match found at p starts at p and is a match of the expression: `{{`, white space, a non-empty group, white space, `}}` |
| VariableParser.Exec | src/lib/utils/variable-parser.ts:15 | `exec` from `lastIndex` finds a match of the expression at or after it |
| VariableParser.ExecLeftmost | src/lib/utils/variable-parser.ts:15 | every position from `lastIndex` before the match found, or up to the end when none is found, starts no match: `exec` takes the leftmost one |
| VariableParser.Captures | src/lib/utils/variable-parser.ts:16 | one trimmed capture per match |
| VariableParser.ExtractVariables | src/lib/utils/variable-parser.ts:8-23 | the loop over `exec`, trimming and adding to the set, returns exactly `Variables(content)` |
| VariableParser.MatchesFacts | src/lib/utils/variable-parser.ts:15 | every match of the scan is a match of the expression at or after the start |
| VariableParser.DedupFacts | src/lib/utils/variable-parser.ts:12-22 | the insertion-ordered set holds each name once, holds exactly the names added, and lists them in order of first addition |
| VariableParser.VariablesShape | src/lib/utils/variable-parser.ts:9-22 | every name is non-empty, has no surrounding white space and appears once |
| VariableParser.VariablesOccur | src/lib/utils/variable-parser.ts:11-16 | every name is text of the content after an opening `{{` and before a later `}}` |
| VariableParser.VariableIsCapture | src/lib/utils/variable-parser.ts:15-18 | every name is the capture of a match of the scan |
| VariableParser.CaptureOccurs | src/lib/utils/variable-parser.ts:11-16 | a match's capture is text between its `{{` and its `}}` |
| VariableParser.CaptureInGroup | src/lib/utils/variable-parser.ts:16 | the trimmed capture is text lying inside the match's group |
| VariableParser.NoCloseNoMatch | src/lib/utils/variable-parser.ts:11 | without a `}}` after the cursor the scan finds nothing |
| VariableParser.UnterminatedYieldsNothing | src/lib/utils/variable-parser.ts:11 | content with no `}}` (single braces, an unterminated `{{`) yields no names |
| VariableParser.PlaceholderAt | src/lib/utils/variable-parser.ts:11 | `{{`, spaces, a name that starts and ends with a non-space and holds no `}`, spaces, `}}` is matched exactly, with the group spanning the name |
| VariableParser.PlaceholderFound | src/lib/utils/variable-parser.ts:11-16 | a placeholder `{{x}}` with a plain name is what the scan finds from its position, capturing x |
| VariableParser.NestedFirstMatch | src/lib/utils/variable-parser.ts:11 | for any plain name x, in `{{ {{x}} }}` the first match runs from the outer `{{` to the first `}}` |
| VariableParser.NestedRest | src/lib/utils/variable-parser.ts:15 | after it the remaining ` }}` gives no match |
| VariableParser.NestedGroup | src/lib/utils/variable-parser.ts:16 | that match captures `{{x` |
| VariableParser.NestedCaptures | src/lib/utils/variable-parser.ts:15-16 | the scan over `{{ {{x}} }}` captures `{{x` once |
| VariableParser.NestedPlaceholder | src/lib/utils/variable-parser.ts:8-23 | for any plain name x, `{{ {{x}} }}` yields the single name `{{x` |
| VariableParser.GreedySpaceMatch | src/lib/utils/variable-parser.ts:11 | in `{{ }}x}}` the leading `\s*` takes the blank and the lazy group runs from the first `}` to just before the second `}}` |
| VariableParser.GreedySpaceMatches | src/lib/utils/variable-parser.ts:11-19 | the global scan of `{{ }}x}}` finds that one match and nothing after it |
| VariableParser.GreedySpaceCapture | src/lib/utils/variable-parser.ts:16 | that match captures `}}x` |
| VariableParser.GreedySpaceVariables | src/lib/utils/variable-parser.ts:8-23 | `{{ }}x}}` yields the single name `}}x` |
| VariableParser.GiveBackMatch | src/lib/utils/variable-parser.ts:11 | in `{{  }}` the `\s*` first takes both blanks, and the match it settles on keeps one, leaving the other to the group |
| VariableParser.GiveBackMatches | src/lib/utils/variable-parser.ts:11-19 | the global scan of `{{  }}` finds that one match and nothing after it |
| VariableParser.GiveBackCapture | src/lib/utils/variable-parser.ts:16 | that match captures the empty name |
| VariableParser.GiveBackVariables | src/lib/utils/variable-parser.ts:8-23 | `{{  }}` yields no names |
| VariableParser.TemplateMatches | src/lib/utils/variable-parser.ts:15-16 | scanning a run of placeholders finds one match per placeholder, capturing its name |
| VariableParser.TemplateRoundTrip | src/lib/utils/variable-parser.ts:8-23 | distinct plain names written back as placeholders are extracted again, in the same order |
| Zod.Messages | src/app/api/mcp/route.ts:124 | `issues.map(i => i.message)`: one message per issue, in order |
| Zod.MessagesAppend | src/app/api/mcp/route.ts:124 | the messages of joined issue lists are the joined message lists |
| Zod.BoundedInt | src/features/mcp/tools/list-prompts.ts:11-12 | `z.number().int().min(lo).max(hi)` accepts exactly the integers in the bounds, yielding the number, and otherwise reports at least one issue |
| Zod.OptionalBoundedInt | src/features/mcp/tools/list-prompts.ts:11-12 | `.default(...).optional()` lets an absent value through as absent, and judges a present one by the bounds |
| Zod.CheckString | src/lib/validation/prompt.ts:4-7 | a non-string gets one type issue; a string runs its rules in order, passing with the transformed value exactly when no rule raises an issue |
| Zod.OptionalString | src/lib/validation/prompt.ts:5-7 | `.optional()` lets an absent value through and judges a present one as the string schema does |
| Zod.StringRecord | src/lib/validation/snapshot.ts:6 | `z.record(z.string(), z.string())` accepts exactly the objects whose values are all strings, and yields their entries |
| Zod.EntryIssues | src/features/mcp/tools/resolve-prompt.ts:12 | a record raises no issue exactly when all its values are strings |
| Zod.EntryMap | src/features/mcp/tools/resolve-prompt.ts:12 | the parsed record holds every property with its string value |
| Zod.EntryMapLookup | src/features/mcp/tools/resolve-prompt.ts:12 | each name of the parsed record holds the string the property lookup finds under that name |
| Zod.IssuesOf | src/lib/validation/prompt.ts:3-8 | a passing field contributes no issues |
| Zod.TrimFirst | src/lib/validation/prompt.ts:4 | with `trim()` first, the remaining rules run on the trimmed text |
| Zod.LengthWindow | src/lib/validation/prompt.ts:4-6 | `.min(a).max(b)` keeps the value and raises one issue for each bound it breaks |
| Zod.MaxOnly | src/lib/validation/prompt.ts:5-7 | `.max(b)` alone keeps the value and raises its issue only above the bound |
| Zod.FormatOnly | src/lib/validation/snapshot.ts:5 | a format check (`uuid`, `url`) keeps the value and raises its issue exactly when the test fails |
| Zod.BoundedString | src/lib/validation/prompt.ts:4-6 | an optionally trimmed string with a length window passes exactly when its (trimmed) length lies in it, yields the (trimmed) text, and reports the broken bound's message |
| Zod.BoundedOptional | src/lib/validation/prompt.ts:5-7 | an optional, optionally trimmed string with a maximum: absent passes, a non-string gets a type issue, a string passes exactly up to the maximum |
| Zod.PathIrrelevant | src/lib/validation/prompt.ts:3-8 | the parsed value and the issue messages do not depend on the path the issues are reported under |
| Zod.CheckPathIrrelevant | src/lib/validation/prompt.ts:3-8 | the same rules accept the same values, with the same result, under any path |

## Left out

- Strings are sequences of characters. Lengths in the model count characters, while JavaScript counts UTF-16 code units. The white-space class of `trim` and `\s` is written out as the ECMAScript set, with no Unicode normalisation.
- JavaScript numbers are reals. NaN, infinities and the float rounding of `version_number` arithmetic are not modelled. `JSON.parse` never produces NaN, but it gives ±Infinity for out-of-range number literals such as `1e999`. zod 3's `z.number()` accepts an infinity, so a request with id `1e999` passes the envelope schema, and `JSON.stringify` writes that id back as `null`. The model's `JNum` holds a real, so it cannot express this input, and it echoes every id exactly.
- The built-in zod message texts ("Required", "Expected string, received number", "Invalid input", and so on) are those of zod 3. The installed zod version is not part of this model.
- Zod.BoundedInt: its contract states which values are accepted and that a refusal has an issue. It does not state the message texts; the body spells them out.
- The handler schemas are non-strict `z.object`s. Extra properties are ignored, as in the source. The catalogue's `additionalProperties: false` is therefore a declaration only.
- ListTools.InputSchemaShape: states the four members of an input schema, not their order. The order is the catalogue's literal order.
- `versions.sort(...)[0]` is modelled as the first version with the highest number, which is what the stable descending sort puts first. The in-place reordering of a row's array is not modelled, since no caller reads the array afterwards.
- The PostgREST `.or(...)` filter is modelled by its meaning: owner or public. The string interpolation of the user id into the filter text is not modelled.
- Which rows the session client may read is decided by the database's row-level security policies, which are not part of this model. `GetPrompts.PromptsQuery` has no user filter of its own, so the model returns what the store gives.
- JSON objects are property lists. A parsed object never has two properties with one name (`JSON.parse` keeps the last), so duplicates are not considered; for a list that has them anyway, `Json.Get` and `Zod.EntryMap` both take the first. HTTP header names are given already looked up, so header case-insensitivity is not modelled.
- The JavaScript prototype-key lookups are modelled for the dispatcher, `tools/call` and `in variables` only, as the findings below. Hydration's `snapshotVariables?.[variable]` and `result[variable] = ...` are modelled on finite maps. So a variable named `constructor` or `__proto__` there behaves as an ordinary name.
- The bodies of these collaborators are not part of this model; they are parameters of the functions that call them:
  - `resolvePrompt`, whose substitution behaviour is not asserted;
  - `diffLines`, whose result is taken as given;
  - `JSON.stringify`, `request.json()`, and JavaScript's number-to-string conversion;
  - `crypto.getRandomValues`, SHA-256 and `TextEncoder`;
  - zod's UUID and URL patterns;
  - Supabase's `createClient`, `createServerClient`, `exchangeCodeForSession` and `getUser`;
  - the database itself.
- A rejected promise (a missing service-client variable in `verifyApiKey` or `dispatch`) is modelled as a rejection with its message. The 500 response Next.js then sends is not modelled.
- `console.error` logging is not modelled. `redirect` is modelled as the end of the handler, giving its target.
- Cookie options are carried through `setAll` unread. `cookies()` is not modelled, and neither is the request's header forwarding beyond the cookie jar.
- Concurrency between requests is not modelled. The service-client cache is one object that calls update in turn.

## Findings

| source | as written | input that shows it | evidently intended | confidence | as-written member | corrected member |
|---|---|---|---|---|---|---|
| src/features/mcp/dispatcher.ts:153-156 | `DISPATCH_MAP[request.method]` also finds properties every object inherits | for a request with method `toString`, the lookup as written finds a handler (`Object.prototype.toString`), so the `if (!handler)` guard that answers -32601 does not fire | only the seven listed methods are routed; any other name is "Method not found" | not executed | Dispatcher.PrototypeMethodFound | Dispatcher.Dispatch |
| src/features/mcp/dispatcher.ts:76-79 | `TOOL_HANDLER_MAP[toolName]` also finds inherited properties | for `tools/call` with name `constructor`, the lookup as written finds a handler (`Object`), so the `if (!handler)` guard that throws "Unknown tool" does not fire | only the four catalogue tools can be called | not executed | Dispatcher.PrototypeToolFound | Dispatcher.UnknownToolName |
| src/features/mcp/tools/resolve-prompt.ts:113 | `name in variables` is also true for inherited properties | the template `{{toString}}` resolved with no variables reports no unresolved names | a name is unresolved exactly when the caller supplied no value for it | not executed | ResolvePrompt.PrototypeNameReportedSupplied | ResolvePrompt.ResolveReportsMissing |
| src/lib/supabase/middleware.ts:57 | `startsWith('/p')` is a plain prefix test | a signed-out request for `/profile` or `/prompts/create` passes the test and is not redirected to the login page | only the public share pages under `/p/` (`src/app/p/[promptId]`) are exempt | not executed | SessionMiddleware.SignedOutProfilePassesThrough | SessionMiddleware.ProtectedPagesRedirect |
