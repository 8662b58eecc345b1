/**
 * `promptCreateSchema` and `promptMetadataSchema`: the form input for a new
 * prompt. Every field is trimmed before its length is checked, and the
 * parsed value holds the trimmed strings; the metadata schema is the same
 * object restricted to `title` and `description`.
 */
module PromptSchema {
  import opened Wrappers
  import opened Json
  import opened Zod
  import Text

  const TitleRequired := "Title is required"
  const TitleTooLong := "Title must be 100 characters or less"
  const DescriptionTooLong := "Description must be 500 characters or less"
  const ContentRequired := "Content is required"
  const ContentTooLong := "Content must be 20000 characters or less"
  const NoteTooLong := "Version note must be 200 characters or less"

  const TitleRules: seq<StringRule> := [TrimRule, MinLength(1, TitleRequired), MaxLength(100, TitleTooLong)]
  const DescriptionRules: seq<StringRule> := [TrimRule, MaxLength(500, DescriptionTooLong)]
  const ContentRules: seq<StringRule> := [TrimRule, MinLength(1, ContentRequired), MaxLength(20000, ContentTooLong)]
  const NoteRules: seq<StringRule> := [TrimRule, MaxLength(200, NoteTooLong)]

  datatype PromptCreateInput = PromptCreateInput(title: string, description: Option<string>, content: string, versionNote: Option<string>)

  datatype PromptMetadataInput = PromptMetadataInput(title: string, description: Option<string>)

  function Title(v: Json): Result<string, seq<Issue>> { CheckString(["title"], Field(v, "title"), TitleRules) }
  function Description(v: Json): Result<Option<string>, seq<Issue>> { OptionalString(["description"], Field(v, "description"), DescriptionRules) }
  function Content(v: Json): Result<string, seq<Issue>> { CheckString(["content"], Field(v, "content"), ContentRules) }
  function VersionNote(v: Json): Result<Option<string>, seq<Issue>> { OptionalString(["version_note"], Field(v, "version_note"), NoteRules) }

  /** `promptCreateSchema.safeParse(v)`: every field's issues, in field order, or the four parsed fields. */
  function PromptCreate(v: Json): (r: Result<PromptCreateInput, seq<Issue>>)
    ensures !v.JObj? ==> r == Failure(NotObject([], Some(v)))
    ensures r.Success? <==> v.JObj? && Title(v).Success? && Description(v).Success? && Content(v).Success? && VersionNote(v).Success?
    ensures r.Success? ==> r.value == PromptCreateInput(Title(v).value, Description(v).value, Content(v).value, VersionNote(v).value)
    ensures r.Failure? && v.JObj? ==>
      r.error == IssuesOf(Title(v)) + IssuesOf(Description(v)) + IssuesOf(Content(v)) + IssuesOf(VersionNote(v))
  {
    if !v.JObj? then Failure(NotObject([], Some(v)))
    else if Title(v).Success? && Description(v).Success? && Content(v).Success? && VersionNote(v).Success? then
      Success(PromptCreateInput(Title(v).value, Description(v).value, Content(v).value, VersionNote(v).value))
    else
      Failure(IssuesOf(Title(v)) + IssuesOf(Description(v)) + IssuesOf(Content(v)) + IssuesOf(VersionNote(v)))
  }

  /** `promptMetadataSchema.safeParse(v)`: `promptCreateSchema.pick({title, description})`. */
  function PromptMetadata(v: Json): (r: Result<PromptMetadataInput, seq<Issue>>)
    ensures !v.JObj? ==> r == Failure(NotObject([], Some(v)))
    ensures r.Success? <==> v.JObj? && Title(v).Success? && Description(v).Success?
    ensures r.Success? ==> r.value == PromptMetadataInput(Title(v).value, Description(v).value)
  {
    if !v.JObj? then Failure(NotObject([], Some(v)))
    else if Title(v).Success? && Description(v).Success? then
      Success(PromptMetadataInput(Title(v).value, Description(v).value))
    else
      Failure(IssuesOf(Title(v)) + IssuesOf(Description(v)))
  }

  /** A title is trimmed, then must hold 1 to 100 characters; each bound has its own message. */
  lemma TitleRule(s: string)
    ensures var t := Text.Trim(s); var r := CheckString(["title"], Some(JStr(s)), TitleRules);
      && (r.Success? <==> 1 <= |t| <= 100)
      && (r.Success? ==> r.value == t)
      && (|t| == 0 ==> Messages(r.error) == [TitleRequired])
      && (|t| > 100 ==> Messages(r.error) == [TitleTooLong])
  {
    BoundedString(["title"], s, true, 1, TitleRequired, 100, TitleTooLong);
    assert TitleRules == [TrimRule] + [MinLength(1, TitleRequired), MaxLength(100, TitleTooLong)];
  }

  /** The content is trimmed, then must hold 1 to 20000 characters. */
  lemma ContentRule(s: string)
    ensures var t := Text.Trim(s); var r := CheckString(["content"], Some(JStr(s)), ContentRules);
      && (r.Success? <==> 1 <= |t| <= 20000)
      && (r.Success? ==> r.value == t)
      && (|t| == 0 ==> Messages(r.error) == [ContentRequired])
      && (|t| > 20000 ==> Messages(r.error) == [ContentTooLong])
  {
    BoundedString(["content"], s, true, 1, ContentRequired, 20000, ContentTooLong);
    assert ContentRules == [TrimRule] + [MinLength(1, ContentRequired), MaxLength(20000, ContentTooLong)];
  }

  /** The description may be absent; present, it is trimmed and bounded by 500. */
  lemma DescriptionRule(v: Json)
    ensures Field(v, "description").None? ==> Description(v) == Success(None)
    ensures Field(v, "description").Some? && Field(v, "description").value.JStr? ==>
      var t := Text.Trim(Field(v, "description").value.s);
      (Description(v).Success? <==> |t| <= 500) && (Description(v).Success? ==> Description(v).value == Some(t))
  {
    BoundedOptional(["description"], Field(v, "description"), true, 500, DescriptionTooLong);
    assert DescriptionRules == [TrimRule] + [MaxLength(500, DescriptionTooLong)];
  }

  /** The version note may be absent; present, it is trimmed and bounded by 200. */
  lemma VersionNoteRule(v: Json)
    ensures Field(v, "version_note").None? ==> VersionNote(v) == Success(None)
    ensures Field(v, "version_note").Some? && Field(v, "version_note").value.JStr? ==>
      var t := Text.Trim(Field(v, "version_note").value.s);
      (VersionNote(v).Success? <==> |t| <= 200) && (VersionNote(v).Success? ==> VersionNote(v).value == Some(t))
  {
    BoundedOptional(["version_note"], Field(v, "version_note"), true, 200, NoteTooLong);
    assert NoteRules == [TrimRule] + [MaxLength(200, NoteTooLong)];
  }

  /** A whitespace-only title is refused with the "required" message, whatever else the input holds. */
  lemma BlankTitleRefused(v: Json)
    requires v.JObj? && Field(v, "title").Some? && Field(v, "title").value.JStr?
    requires Text.AllSpace(Field(v, "title").value.s)
    ensures PromptCreate(v).Failure? && PromptMetadata(v).Failure?
    ensures Issue(["title"], TitleRequired) in PromptCreate(v).error
  {
    var s := Field(v, "title").value.s;
    TitleRule(s);
    BoundedString(["title"], s, true, 1, TitleRequired, 100, TitleTooLong);
    assert TitleRules == [TrimRule] + [MinLength(1, TitleRequired), MaxLength(100, TitleTooLong)];
    assert Title(v) == Failure([Issue(["title"], TitleRequired)]);
  }

  /** The metadata schema checks title and description only: content and version note do not matter to it. */
  lemma MetadataIsPick(v: Json)
    ensures PromptCreate(v).Success? ==> PromptMetadata(v) == Success(PromptMetadataInput(PromptCreate(v).value.title, PromptCreate(v).value.description))
    ensures v.JObj? && Field(v, "content").None? ==> PromptCreate(v).Failure? && (PromptMetadata(v).Success? <==> Title(v).Success? && Description(v).Success?)
  {
  }
}
