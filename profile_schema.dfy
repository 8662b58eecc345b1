/**
 * `profileSchema`: the profile form. The display name is not trimmed; the
 * avatar URL may be left out, be the empty string, or pass the URL check
 * (a parameter here). The avatar rule is a union, `url().optional()` or the
 * literal `''`, evaluated as zod evaluates unions: the first option that
 * succeeds wins; otherwise the first option that got as far as a failed
 * check reports its issues; otherwise one "Invalid input" issue.
 */
module ProfileSchema {
  import opened Wrappers
  import opened Json
  import opened Zod

  const NameTooShort := "Display name must be at least 2 characters."
  const NameTooLong := "Display name must not be longer than 50 characters."
  const BadAvatar := "Please enter a valid URL for your avatar."

  const NameRules: seq<StringRule> := [MinLength(2, NameTooShort), MaxLength(50, NameTooLong)]

  datatype ProfileFormValues = ProfileFormValues(displayName: string, avatarUrl: Option<string>)

  function DisplayName(v: Json): Result<string, seq<Issue>> { CheckString(["display_name"], Field(v, "display_name"), NameRules) }

  /** `z.string().url(m).optional().or(z.literal(''))` on the field's value. */
  function AvatarUrl(a: Option<Json>, isUrl: string -> bool): (r: Result<Option<string>, seq<Issue>>)
    ensures a.None? ==> r == Success(None)
    ensures a.Some? && a.value.JStr? ==>
      var s := a.value.s;
      (r.Success? <==> isUrl(s) || s == "") && (r.Success? ==> r == Success(Some(s)))
    ensures a.Some? && a.value.JStr? && !isUrl(a.value.s) && a.value.s != "" ==>
      r == Failure([Issue(["avatar_url"], BadAvatar)])
    ensures a.Some? && !a.value.JStr? ==> r == Failure([Issue(["avatar_url"], InvalidUnion)])
  {
    var first := OptionalString(["avatar_url"], a, [Format(isUrl, BadAvatar)]);
    FormatOnly(["avatar_url"], if a.Some? && a.value.JStr? then a.value.s else "", isUrl, BadAvatar);
    if first.Success? then first
    else if a == Some(JStr("")) then Success(Some(""))
    else if a.Some? && a.value.JStr? then first
    else Failure([Issue(["avatar_url"], InvalidUnion)])
  }

  /** `profileSchema.safeParse(v)`; `isUrl` is zod's URL test. */
  function Profile(v: Json, isUrl: string -> bool): (r: Result<ProfileFormValues, seq<Issue>>)
    ensures !v.JObj? ==> r == Failure(NotObject([], Some(v)))
    ensures r.Success? <==> v.JObj? && DisplayName(v).Success? && AvatarUrl(Field(v, "avatar_url"), isUrl).Success?
    ensures r.Success? ==> r.value == ProfileFormValues(DisplayName(v).value, AvatarUrl(Field(v, "avatar_url"), isUrl).value)
  {
    if !v.JObj? then Failure(NotObject([], Some(v)))
    else
      var n := DisplayName(v);
      var a := AvatarUrl(Field(v, "avatar_url"), isUrl);
      if n.Success? && a.Success? then Success(ProfileFormValues(n.value, a.value))
      else Failure(IssuesOf(n) + IssuesOf(a))
  }

  /** The display name is kept as given and must hold 2 to 50 characters; a one-letter name gets the "at least 2" message. */
  lemma DisplayNameRule(s: string)
    ensures var r := CheckString(["display_name"], Some(JStr(s)), NameRules);
      && (r.Success? <==> 2 <= |s| <= 50)
      && (r.Success? ==> r.value == s)
      && (|s| < 2 ==> r == Failure([Issue(["display_name"], NameTooShort)]))
      && (|s| > 50 ==> r == Failure([Issue(["display_name"], NameTooLong)]))
  {
    BoundedString(["display_name"], s, false, 2, NameTooShort, 50, NameTooLong);
    assert [] + NameRules == NameRules;
  }

  /** The empty string is an accepted avatar even though it is not a URL. */
  lemma EmptyAvatarAccepted(isUrl: string -> bool)
    requires !isUrl("")
    ensures AvatarUrl(Some(JStr("")), isUrl) == Success(Some(""))
    ensures OptionalString(["avatar_url"], Some(JStr("")), [Format(isUrl, BadAvatar)]).Failure?
  {
    FormatOnly(["avatar_url"], "", isUrl, BadAvatar);
  }
}
