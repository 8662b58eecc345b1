/**
 * Prompt rows as the queries return them, and the rule every reader of a
 * prompt applies to its versions: sort them by `version_number` descending
 * (`versions.sort((a, b) => b.version_number - a.version_number)[0]`) and
 * take the first. `Array.prototype.sort` is stable, so among versions that
 * share the highest number the first in the row's order is taken.
 */
module PromptRows {
  import opened Wrappers

  datatype Version = Version(id: string, content: string, versionNumber: int)

  /** A `prompts` row with its embedded versions and collection links (a null embedding read as empty). */
  datatype PromptRow = PromptRow(
    id: string,
    userId: string,
    title: string,
    description: Option<string>,
    isPublic: bool,
    createdAt: string,
    updatedAt: string,
    versions: seq<Version>,
    collectionIds: seq<string>)

  /** Index of the version the descending stable sort puts first. */
  function LatestIndex(vs: seq<Version>): (k: nat)
    requires |vs| > 0
    ensures k < |vs|
    ensures forall j :: 0 <= j < |vs| ==> vs[j].versionNumber <= vs[k].versionNumber
    ensures forall j :: 0 <= j < k ==> vs[j].versionNumber < vs[k].versionNumber
  {
    if |vs| == 1 then 0
    else
      var k := LatestIndex(vs[1..]);
      assert forall j :: 1 <= j < |vs| ==> vs[j] == vs[1..][j - 1];
      if vs[0].versionNumber >= vs[1..][k].versionNumber then 0 else k + 1
  }

  /** `versions.sort(descending)[0]`: `None` (undefined) when there are no versions. */
  function LatestVersion(vs: seq<Version>): (r: Option<Version>)
    ensures r.None? <==> vs == []
    ensures r.Some? ==> r.value in vs
    ensures r.Some? ==> forall v :: v in vs ==> v.versionNumber <= r.value.versionNumber
  {
    if vs == [] then None else Some(vs[LatestIndex(vs)])
  }

  /** `latestVersion?.content ?? ''`. */
  function LatestContent(vs: seq<Version>): string
  {
    match LatestVersion(vs)
    case Some(v) => v.content
    case None => ""
  }

  /** No two different versions share a number. */
  predicate NumbersDistinct(vs: seq<Version>)
  {
    forall i, j :: 0 <= i < |vs| && 0 <= j < |vs| && vs[i].versionNumber == vs[j].versionNumber ==> vs[i] == vs[j]
  }

  /**
   * The version taken is the maximal one: with distinct numbers it is the
   * same whatever order the versions arrive in.
   */
  lemma LatestIgnoresOrder(vs: seq<Version>, ws: seq<Version>)
    requires multiset(vs) == multiset(ws)
    requires NumbersDistinct(vs)
    ensures LatestVersion(vs) == LatestVersion(ws)
  {
    if vs != [] {
      assert ws != [] by {
        assert vs[0] in multiset(ws);
      }
      var a := LatestVersion(vs).value;
      var b := LatestVersion(ws).value;
      assert b in multiset(vs) && a in multiset(ws);
      assert a.versionNumber == b.versionNumber;
      var i :| 0 <= i < |vs| && vs[i] == a;
      var j :| 0 <= j < |vs| && vs[j] == b;
    } else {
      assert |ws| == |multiset(ws)| == 0;
    }
  }

  /** The owner-or-public rule: the caller owns the prompt, or it is public. */
  predicate Visible(userId: Option<string>, owner: string, isPublic: bool)
  {
    (userId.Some? && userId.value == owner) || isPublic
  }

  /** `idx` lists increasing positions in `xs`, and `r` holds the elements found there: `r` is `xs` filtered, in order. */
  predicate Positions<T(==)>(xs: seq<T>, r: seq<T>, idx: seq<nat>)
  {
    && |idx| == |r|
    && (forall i :: 0 <= i < |idx| ==> idx[i] < |xs| && xs[idx[i]] == r[i])
    && (forall i, j :: 0 <= i < j < |idx| ==> idx[i] < idx[j])
  }

  /** Keeping the head in front of a filtered tail, whose positions are shifted by one, keeps the order. */
  lemma PositionsCons<T>(xs: seq<T>, rest: seq<T>, shifted: seq<nat>)
    requires |xs| > 0 && Positions(xs, rest, shifted)
    requires forall i :: 0 <= i < |shifted| ==> shifted[i] >= 1
    ensures Positions(xs, [xs[0]] + rest, [0] + shifted)
  {
    var idx := [0] + shifted;
    var r := [xs[0]] + rest;
    forall i | 0 <= i < |idx| ensures idx[i] < |xs| && xs[idx[i]] == r[i] {
      if i > 0 {
        assert idx[i] == shifted[i - 1] && r[i] == rest[i - 1];
      }
    }
    forall i, j | 0 <= i < j < |idx| ensures idx[i] < idx[j] {
      assert idx[j] == shifted[j - 1];
      if i > 0 {
        assert idx[i] == shifted[i - 1];
      }
    }
  }

  /** Positions in the tail of `xs`, shifted by one, are positions in `xs`. */
  lemma PositionsShift<T>(xs: seq<T>, r: seq<T>, tail: seq<nat>) returns (shifted: seq<nat>)
    requires |xs| > 0 && Positions(xs[1..], r, tail)
    ensures Positions(xs, r, shifted)
    ensures forall i :: 0 <= i < |shifted| ==> shifted[i] >= 1
  {
    shifted := seq(|tail|, i requires 0 <= i < |tail| => tail[i] + 1);
    forall i | 0 <= i < |shifted| ensures shifted[i] < |xs| && xs[shifted[i]] == r[i] {
      assert xs[shifted[i]] == xs[1..][tail[i]];
    }
  }
}
