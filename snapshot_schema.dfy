/**
 * `snapshotSchema`: a named set of variable values saved for one prompt
 * version. The name is not trimmed; the version id must be a UUID (the
 * check itself is a parameter); the values are a string-to-string record.
 */
module SnapshotSchema {
  import opened Wrappers
  import opened Json
  import opened Zod
  import Text

  const NameRequired := "Name is required"
  const NameTooLong := "Name is too long"
  const InvalidVersionId := "Invalid prompt version ID"

  const NameRules: seq<StringRule> := [MinLength(1, NameRequired), MaxLength(100, NameTooLong)]

  datatype SnapshotInput = SnapshotInput(name: string, promptVersionId: string, variables: map<string, string>)

  function Name(v: Json): Result<string, seq<Issue>> { CheckString(["name"], Field(v, "name"), NameRules) }

  function VersionId(v: Json, isUuid: string -> bool): Result<string, seq<Issue>>
  {
    CheckString(["prompt_version_id"], Field(v, "prompt_version_id"), [Format(isUuid, InvalidVersionId)])
  }

  function Variables(v: Json): Result<map<string, string>, seq<Issue>> { StringRecord(["variables"], Field(v, "variables")) }

  /** `snapshotSchema.safeParse(v)`; `isUuid` is zod's UUID test. */
  function Snapshot(v: Json, isUuid: string -> bool): (r: Result<SnapshotInput, seq<Issue>>)
    ensures !v.JObj? ==> r == Failure(NotObject([], Some(v)))
    ensures r.Success? <==> v.JObj? && Name(v).Success? && VersionId(v, isUuid).Success? && Variables(v).Success?
    ensures r.Success? ==> r.value == SnapshotInput(Name(v).value, VersionId(v, isUuid).value, Variables(v).value)
  {
    if !v.JObj? then Failure(NotObject([], Some(v)))
    else if Name(v).Success? && VersionId(v, isUuid).Success? && Variables(v).Success? then
      Success(SnapshotInput(Name(v).value, VersionId(v, isUuid).value, Variables(v).value))
    else
      Failure(IssuesOf(Name(v)) + IssuesOf(VersionId(v, isUuid)) + IssuesOf(Variables(v)))
  }

  /** The name is kept as given and must hold 1 to 100 characters, so a name of spaces is accepted. */
  lemma NameRule(s: string)
    ensures var r := CheckString(["name"], Some(JStr(s)), NameRules);
      && (r.Success? <==> 1 <= |s| <= 100)
      && (r.Success? ==> r.value == s)
      && (|s| == 0 ==> r == Failure([Issue(["name"], NameRequired)]))
      && (|s| > 100 ==> r == Failure([Issue(["name"], NameTooLong)]))
  {
    BoundedString(["name"], s, false, 1, NameRequired, 100, NameTooLong);
    assert [] + NameRules == NameRules;
  }

  /** The version id is accepted exactly when the UUID test passes, and kept as given. */
  lemma VersionIdRule(s: string, isUuid: string -> bool)
    ensures var r := CheckString(["prompt_version_id"], Some(JStr(s)), [Format(isUuid, InvalidVersionId)]);
      && (r.Success? <==> isUuid(s))
      && (r.Success? ==> r.value == s)
      && (r.Failure? ==> r == Failure([Issue(["prompt_version_id"], InvalidVersionId)]))
  {
    FormatOnly(["prompt_version_id"], s, isUuid, InvalidVersionId);
  }

  /** Every field is required: an object missing any of them is refused with zod's "Required". */
  lemma AllFieldsRequired(v: Json, isUuid: string -> bool)
    requires v.JObj?
    requires Field(v, "name").None? || Field(v, "prompt_version_id").None? || Field(v, "variables").None?
    ensures Snapshot(v, isUuid).Failure?
    ensures Field(v, "name").None? ==> Issue(["name"], "Required") in Snapshot(v, isUuid).error
  {
    if Field(v, "name").None? {
      assert IssuesOf(Name(v)) == [Issue(["name"], "Required")];
    }
  }
}
