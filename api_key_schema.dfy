/**
 * `apiKeyLabelSchema` and `createApiKeySchema`: the label a user gives a
 * new API key, trimmed before its length is checked.
 */
module ApiKeySchema {
  import opened Wrappers
  import opened Json
  import opened Zod
  import Text

  const LabelRequired := "Label is required"
  const LabelTooLong := "Label must be 100 characters or less"

  const LabelRules: seq<StringRule> := [TrimRule, MinLength(1, LabelRequired), MaxLength(100, LabelTooLong)]

  /** `apiKeyLabelSchema.safeParse(v)` on its own. */
  function ApiKeyLabel(v: Option<Json>): Result<string, seq<Issue>>
  {
    CheckString([], v, LabelRules)
  }

  /** `createApiKeySchema.safeParse(v)`: an object whose `label` passes the label rule. */
  function CreateApiKey(v: Json): (r: Result<string, seq<Issue>>)
    ensures !v.JObj? ==> r == Failure(NotObject([], Some(v)))
    ensures v.JObj? ==> r == CheckString(["label"], Field(v, "label"), LabelRules)
  {
    if !v.JObj? then Failure(NotObject([], Some(v)))
    else CheckString(["label"], Field(v, "label"), LabelRules)
  }

  /** The label is trimmed first; an empty trimmed label and one over 100 characters fail with their own messages. */
  lemma LabelRule(s: string)
    ensures var t := Text.Trim(s); var r := ApiKeyLabel(Some(JStr(s)));
      && (r.Success? <==> 1 <= |t| <= 100)
      && (r.Success? ==> r.value == t)
      && (|t| == 0 ==> r == Failure([Issue([], LabelRequired)]))
      && (|t| > 100 ==> r == Failure([Issue([], LabelTooLong)]))
  {
    var rules := [TrimRule] + [MinLength(1, LabelRequired), MaxLength(100, LabelTooLong)];
    assert LabelRules == rules;
    assert ApiKeyLabel(Some(JStr(s))) == CheckString([], Some(JStr(s)), rules);
    BoundedString([], s, true, 1, LabelRequired, 100, LabelTooLong);
  }

  /** The object schema accepts exactly the objects whose `label` the label schema accepts, with the same value. */
  lemma CreateAcceptsLabel(v: Json)
    ensures CreateApiKey(v).Success? <==> v.JObj? && ApiKeyLabel(Field(v, "label")).Success?
    ensures CreateApiKey(v).Success? ==> CreateApiKey(v).value == ApiKeyLabel(Field(v, "label")).value
  {
    CheckPathIrrelevant(["label"], [], Field(v, "label"), LabelRules);
  }
}
