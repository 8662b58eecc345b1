/**
 * `createCollectionSchema`: a new collection's name and optional
 * description, neither of them trimmed.
 */
module CollectionSchema {
  import opened Wrappers
  import opened Json
  import opened Zod

  const NameRequired := "Name is required"
  const NameTooLong := "Name is too long"
  const DescriptionTooLong := "Description is too long"

  const NameRules: seq<StringRule> := [MinLength(1, NameRequired), MaxLength(50, NameTooLong)]
  const DescriptionRules: seq<StringRule> := [MaxLength(200, DescriptionTooLong)]

  datatype CreateCollectionInput = CreateCollectionInput(name: string, description: Option<string>)

  function Name(v: Json): Result<string, seq<Issue>> { CheckString(["name"], Field(v, "name"), NameRules) }

  function Description(v: Json): Result<Option<string>, seq<Issue>>
  {
    OptionalString(["description"], Field(v, "description"), DescriptionRules)
  }

  /** `createCollectionSchema.safeParse(v)`. */
  function CreateCollection(v: Json): (r: Result<CreateCollectionInput, seq<Issue>>)
    ensures !v.JObj? ==> r == Failure(NotObject([], Some(v)))
    ensures r.Success? <==> v.JObj? && Name(v).Success? && Description(v).Success?
    ensures r.Success? ==> r.value == CreateCollectionInput(Name(v).value, Description(v).value)
  {
    if !v.JObj? then Failure(NotObject([], Some(v)))
    else if Name(v).Success? && Description(v).Success? then
      Success(CreateCollectionInput(Name(v).value, Description(v).value))
    else
      Failure(IssuesOf(Name(v)) + IssuesOf(Description(v)))
  }

  /** The name is kept as given and must hold 1 to 50 characters, each bound with its own message. */
  lemma NameRule(s: string)
    ensures var r := CheckString(["name"], Some(JStr(s)), NameRules);
      && (r.Success? <==> 1 <= |s| <= 50)
      && (r.Success? ==> r.value == s)
      && (|s| == 0 ==> r == Failure([Issue(["name"], NameRequired)]))
      && (|s| > 50 ==> r == Failure([Issue(["name"], NameTooLong)]))
  {
    BoundedString(["name"], s, false, 1, NameRequired, 50, NameTooLong);
    assert [] + NameRules == NameRules;
  }

  /** Only the name is required: with a good name, the description alone decides, and leaving it out is fine. */
  lemma OnlyNameRequired(v: Json, s: string)
    requires v.JObj? && Field(v, "name") == Some(JStr(s)) && 1 <= |s| <= 50
    ensures Field(v, "description").None? ==> CreateCollection(v) == Success(CreateCollectionInput(s, None))
    ensures Field(v, "description").Some? && Field(v, "description").value.JStr? ==>
      (CreateCollection(v).Success? <==> |Field(v, "description").value.s| <= 200)
    ensures Field(v, "description").Some? && !Field(v, "description").value.JStr? ==> CreateCollection(v).Failure?
  {
    NameRule(s);
    BoundedOptional(["description"], Field(v, "description"), false, 200, DescriptionTooLong);
    assert [] + DescriptionRules == DescriptionRules;
  }
}
