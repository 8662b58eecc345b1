/**
 * `getPrompts(collectionId?)`: the prompt list the session client may read, newest
 * first, optionally narrowed to one collection, each prompt with the content
 * and id of its latest version and the collections it belongs to. Any store
 * failure yields the empty list.
 */
module GetPrompts {
  import opened Wrappers
  import opened Store
  import opened PromptRows

  /** One entry of the list. */
  datatype PromptWithLatestVersion = PromptWithLatestVersion(
    id: string,
    userId: string,
    title: string,
    description: Option<string>,
    createdAt: string,
    updatedAt: string,
    latestContent: string,
    latestVersionId: string,
    collectionIds: seq<string>)

  /** `if (collectionId)`: a missing or empty id does not narrow the list. */
  predicate Narrowed(collectionId: Option<string>)
  {
    collectionId.Some? && collectionId.value != ""
  }

  const CollectionColumn := "collection_prompts.collection_id"

  /**
   * The query: a collection id turns the `collection_prompts` embedding
   * into an inner join and filters it; the order is `created_at` descending.
   */
  function PromptsQuery(collectionId: Option<string>): Query
  {
    if Narrowed(collectionId) then
      Query("prompts", [Eq(CollectionColumn, SStr(collectionId.value))], ["collection_prompts"],
            Some(Order("created_at", false)), None, false)
    else
      Query("prompts", [], [], Some(Order("created_at", false)), None, false)
  }

  /** Narrowed, the query admits exactly the rows linked to that collection; otherwise every row, with no join. */
  lemma PromptsQueryAdmits(collectionId: Option<string>, row: Row)
    ensures Narrowed(collectionId) ==>
      (Admits(PromptsQuery(collectionId), row) <==> CollectionColumn in row && row[CollectionColumn] == SStr(collectionId.value))
    ensures Narrowed(collectionId) ==> PromptsQuery(collectionId).innerJoins == ["collection_prompts"]
    ensures !Narrowed(collectionId) ==> Admits(PromptsQuery(collectionId), row) && PromptsQuery(collectionId).innerJoins == []
    ensures PromptsQuery(collectionId).order == Some(Order("created_at", false))
  {
    var q := PromptsQuery(collectionId);
    if Narrowed(collectionId) {
      assert Admits(q, row) <==> Holds(q.filters[0], row);
    }
  }

  /** The entry for one row; `latestVersion?.field || ''` gives `''` when the prompt has no version. */
  function Summarize(row: PromptRow): (p: PromptWithLatestVersion)
    ensures p.id == row.id && p.userId == row.userId && p.title == row.title && p.description == row.description
    ensures p.createdAt == row.createdAt && p.updatedAt == row.updatedAt
    ensures p.collectionIds == row.collectionIds
    ensures row.versions == [] ==> p.latestContent == "" && p.latestVersionId == ""
    ensures row.versions != [] ==>
      var k := LatestIndex(row.versions);
      && p.latestContent == row.versions[k].content && p.latestVersionId == row.versions[k].id
      && forall j :: 0 <= j < |row.versions| ==> row.versions[j].versionNumber <= row.versions[k].versionNumber
  {
    var latest := LatestVersion(row.versions);
    PromptWithLatestVersion(
      row.id, row.userId, row.title, row.description, row.createdAt, row.updatedAt,
      if latest.Some? then latest.value.content else "",
      if latest.Some? then latest.value.id else "",
      row.collectionIds)
  }

  /** `getPrompts(collectionId)`; `fetch` is the store's answer to a query. */
  function GetPrompts(collectionId: Option<string>, fetch: Query -> DbResult<seq<PromptRow>>)
    : (r: seq<PromptWithLatestVersion>)
    ensures fetch(PromptsQuery(collectionId)).DbErr? ==> r == []
    ensures fetch(PromptsQuery(collectionId)) == DbOk(None) ==> r == []
    ensures fetch(PromptsQuery(collectionId)).DbOk? && fetch(PromptsQuery(collectionId)).data.Some? ==>
      var rows := fetch(PromptsQuery(collectionId)).data.value;
      |r| == |rows| && forall i :: 0 <= i < |rows| ==> r[i] == Summarize(rows[i])
  {
    match fetch(PromptsQuery(collectionId))
    case DbErr(_) => []
    case DbOk(None) => []
    case DbOk(Some(rows)) => seq(|rows|, i requires 0 <= i < |rows| => Summarize(rows[i]))
  }

  /** An empty collection id lists the same prompts as none. */
  lemma EmptyCollectionIdIgnored(fetch: Query -> DbResult<seq<PromptRow>>)
    ensures GetPrompts(Some(""), fetch) == GetPrompts(None, fetch)
  {
  }

  /** With distinct version numbers, the latest content does not depend on the order the versions arrive in. */
  lemma SummaryIgnoresVersionOrder(row: PromptRow, vs: seq<Version>)
    requires multiset(vs) == multiset(row.versions) && NumbersDistinct(row.versions)
    ensures Summarize(row.(versions := vs)) == Summarize(row)
  {
    LatestIgnoresOrder(row.versions, vs);
  }
}
