/**
 * `getPublicPrompt(promptId)`: the shared view of one prompt, read with the
 * anonymous client. Only a public prompt is found; the view holds its id,
 * title, description and the content of its latest version.
 */
module GetPublicPrompt {
  import opened Wrappers
  import opened Store
  import opened PromptRows

  datatype PublicPrompt = PublicPrompt(id: string, title: string, description: Option<string>, latestContent: string)

  /** `.eq('id', promptId).eq('is_public', true).maybeSingle()`. */
  function PublicQuery(promptId: string): Query
  {
    Query("prompts", [Eq("id", SStr(promptId)), Eq("is_public", SBool(true))], [], None, None, true)
  }

  /** The query admits exactly the row with that id, and only while it is public. */
  lemma PublicQueryAdmits(promptId: string, row: Row)
    ensures Admits(PublicQuery(promptId), row) <==>
      && "id" in row && row["id"] == SStr(promptId)
      && "is_public" in row && row["is_public"] == SBool(true)
    ensures PublicQuery(promptId).single
  {
    var q := PublicQuery(promptId);
    assert Admits(q, row) <==> Holds(q.filters[0], row) && Holds(q.filters[1], row);
  }

  /** `getPublicPrompt(promptId)`; `fetch` is the store's answer to a query. */
  function GetPublicPrompt(promptId: string, fetch: Query -> DbResult<PromptRow>): (r: Option<PublicPrompt>)
    ensures r.Some? <==> fetch(PublicQuery(promptId)).DbOk? && fetch(PublicQuery(promptId)).data.Some?
    ensures r.Some? ==>
      var row := fetch(PublicQuery(promptId)).data.value;
      && r.value.id == row.id && r.value.title == row.title && r.value.description == row.description
      && (row.versions == [] ==> r.value.latestContent == "")
      && (row.versions != [] ==>
            var k := LatestIndex(row.versions);
            && r.value.latestContent == row.versions[k].content
            && forall j :: 0 <= j < |row.versions| ==> row.versions[j].versionNumber <= row.versions[k].versionNumber)
  {
    match fetch(PublicQuery(promptId))
    case DbErr(_) => None
    case DbOk(None) => None
    case DbOk(Some(row)) =>
      var latest := LatestVersion(row.versions);
      Some(PublicPrompt(row.id, row.title, row.description, if latest.Some? then latest.value.content else ""))
  }

  /** The content shown is the latest version's whatever order the versions arrive in, given distinct numbers. */
  lemma PublicContentIgnoresVersionOrder(row: PromptRow, vs: seq<Version>, promptId: string,
                                         f1: Query -> DbResult<PromptRow>, f2: Query -> DbResult<PromptRow>)
    requires f1(PublicQuery(promptId)) == DbOk(Some(row)) && f2(PublicQuery(promptId)) == DbOk(Some(row.(versions := vs)))
    requires multiset(vs) == multiset(row.versions) && NumbersDistinct(row.versions)
    ensures GetPublicPrompt(promptId, f1) == GetPublicPrompt(promptId, f2)
  {
    LatestIgnoresOrder(row.versions, vs);
  }
}
