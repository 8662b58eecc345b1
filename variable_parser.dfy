/**
 * Placeholder extraction from prompt templates (`extractVariables`).
 *
 * The source scans the content with the global regular expression
 * `/\{\{\s*([\s\S]+?)\s*\}\}/g`. The functions below give that expression's
 * backtracking semantics literally: the match starts at the leftmost
 * position where it can; after `{{` the greedy `\s*` first takes every
 * whitespace character and gives them back one at a time; for each choice
 * the lazy group `[\s\S]+?` grows one character at a time from one; after
 * the group, the greedy `\s*` again gives back characters until `}}`
 * follows. A global scan resumes at the end of the previous match.
 */
module VariableParser {
  import opened Wrappers
  import Text

  /** A match spanning `s[start..end]`, its capture group `s[groupStart..groupEnd]`. */
  datatype Match = Match(start: nat, groupStart: nat, groupEnd: nat, end: nat)

  predicate OpensAt(s: string, p: nat)
  {
    p + 2 <= |s| && s[p] == '{' && s[p + 1] == '{'
  }

  predicate ClosesAt(s: string, c: nat)
  {
    c + 2 <= |s| && s[c] == '}' && s[c + 1] == '}'
  }

  predicate SpacesBetween(s: string, i: nat, j: nat)
    requires i <= j <= |s|
  {
    forall k :: i <= k < j ==> Text.IsSpace(s[k])
  }

  /** `m` is a match of the expression in `s`. */
  predicate WellFormed(s: string, m: Match)
  {
    && m.start + 2 <= m.groupStart < m.groupEnd
    && m.groupEnd + 2 <= m.end <= |s|
    && OpensAt(s, m.start)
    && ClosesAt(s, m.end - 2)
    && SpacesBetween(s, m.start + 2, m.groupStart)
    && SpacesBetween(s, m.groupEnd, m.end - 2)
  }

  /** Length of the whitespace run at `i`: what a greedy `\s*` takes first. */
  function SpaceRun(s: string, i: nat): (n: nat)
    requires i <= |s|
    ensures i + n <= |s|
    ensures SpacesBetween(s, i, i + n)
    ensures i + n < |s| ==> !Text.IsSpace(s[i + n])
    decreases |s| - i
  {
    if i < |s| && Text.IsSpace(s[i]) then 1 + SpaceRun(s, i + 1) else 0
  }

  /** The trailing `\s*\}\}` after a group ending at `e`, the `\s*` holding `m` characters and then fewer; yields the match end. */
  function Close(s: string, e: nat, m: nat): (r: Option<nat>)
    requires e + m <= |s|
    ensures r.Some? ==> e + 2 <= r.value <= e + m + 2 && r.value <= |s| && ClosesAt(s, r.value - 2)
    decreases m
  {
    if ClosesAt(s, e + m) then Some(e + m + 2)
    else if m == 0 then None
    else Close(s, e, m - 1)
  }

  /** The lazy group: group ends `e`, `e + 1`, ... are tried in turn; yields (group end, match end). */
  function Group(s: string, e: nat): (r: Option<(nat, nat)>)
    requires 0 < e <= |s|
    ensures r.Some? ==>
      && e <= r.value.0 && r.value.0 + 2 <= r.value.1 <= |s|
      && ClosesAt(s, r.value.1 - 2) && SpacesBetween(s, r.value.0, r.value.1 - 2)
    decreases |s| - e
  {
    match Close(s, e, SpaceRun(s, e))
    case Some(end) => Some((e, end))
    case None => if e == |s| then None else Group(s, e + 1)
  }

  /** After `{{` at `p`, the leading `\s*` holding `k` characters and then fewer. */
  function Open(s: string, p: nat, k: nat): (r: Option<Match>)
    requires p + 2 + k <= |s|
    ensures r.Some? ==>
      && r.value.start == p && p + 2 <= r.value.groupStart <= p + 2 + k
      && r.value.groupStart < r.value.groupEnd && r.value.groupEnd + 2 <= r.value.end <= |s|
      && ClosesAt(s, r.value.end - 2)
      && SpacesBetween(s, r.value.groupEnd, r.value.end - 2)
    decreases k
  {
    match GroupFrom(s, p + 2 + k)
    case Some((ge, end)) => Some(Match(p, p + 2 + k, ge, end))
    case None => if k == 0 then None else Open(s, p, k - 1)
  }

  /** The lazy group starting at `gs`, which must hold at least one character. */
  function GroupFrom(s: string, gs: nat): (r: Option<(nat, nat)>)
    ensures r.Some? ==>
      && gs < r.value.0 && r.value.0 + 2 <= r.value.1 <= |s|
      && ClosesAt(s, r.value.1 - 2) && SpacesBetween(s, r.value.0, r.value.1 - 2)
  {
    if gs < |s| then Group(s, gs + 1) else None
  }

  /** The match that starts exactly at `p`, if any. */
  function MatchAt(s: string, p: nat): (r: Option<Match>)
    requires p <= |s|
    ensures r.Some? ==> r.value.start == p && WellFormed(s, r.value)
  {
    if OpensAt(s, p) then Open(s, p, SpaceRun(s, p + 2)) else None
  }

  /** `regex.exec(s)` with `lastIndex == from`: the leftmost match at or after `from`. */
  function Exec(s: string, from: nat): (r: Option<Match>)
    requires from <= |s|
    ensures r.Some? ==> from <= r.value.start && WellFormed(s, r.value)
    decreases |s| - from
  {
    match MatchAt(s, from)
    case Some(m) => Some(m)
    case None => if from == |s| then None else Exec(s, from + 1)
  }

  /** Every match of the global scan that begins at `from`, in order. */
  function Matches(s: string, from: nat): (ms: seq<Match>)
    requires from <= |s|
    decreases |s| - from
  {
    match Exec(s, from)
    case None => []
    case Some(m) => [m] + Matches(s, m.end)
  }

  /** The trimmed capture group of a match. */
  function Capture(s: string, m: Match): string
  {
    if m.groupStart <= m.groupEnd <= |s| then Text.Trim(s[m.groupStart..m.groupEnd]) else ""
  }

  function Captures(s: string, ms: seq<Match>): (cs: seq<string>)
    ensures |cs| == |ms|
  {
    if |ms| == 0 then [] else [Capture(s, ms[0])] + Captures(s, ms[1..])
  }

  /** The non-empty strings of `xs`, in order. */
  function NonEmpty(xs: seq<string>): (ys: seq<string>)
  {
    if |xs| == 0 then []
    else NonEmpty(xs[..|xs| - 1]) + (if xs[|xs| - 1] == "" then [] else [xs[|xs| - 1]])
  }

  /** Insertion into an insertion-ordered set, one element after another. */
  function Dedup(xs: seq<string>): (ys: seq<string>)
  {
    if |xs| == 0 then []
    else
      var d := Dedup(xs[..|xs| - 1]);
      if xs[|xs| - 1] in d then d else d + [xs[|xs| - 1]]
  }

  /** What `extractVariables(content)` returns. */
  function Variables(content: string): seq<string>
  {
    if content == "" then [] else Dedup(NonEmpty(Captures(content, Matches(content, 0))))
  }

  /** `extractVariables`: the global scan, collecting names into a Set. */
  method ExtractVariables(content: string) returns (names: seq<string>)
    ensures names == Variables(content)
  {
    if content == "" {
      return [];
    }
    names := [];
    var lastIndex := 0;
    ghost var caps: seq<string> := [];
    var m := Exec(content, lastIndex);
    assert [] + Captures(content, Matches(content, 0)) == Captures(content, Matches(content, 0));
    while m.Some?
      invariant lastIndex <= |content|
      invariant m == Exec(content, lastIndex)
      invariant Captures(content, Matches(content, 0)) == caps + Captures(content, Matches(content, lastIndex))
      invariant names == Dedup(NonEmpty(caps))
      decreases |content| - lastIndex
    {
      var name := Text.Trim(content[m.value.groupStart..m.value.groupEnd]);
      MatchesHere(content, lastIndex, m.value);
      CapturesStep(content, Captures(content, Matches(content, 0)), caps,
                   Matches(content, lastIndex), m.value, Matches(content, m.value.end));
      NamesStep(caps, name, names);
      caps := caps + [name];
      if name != "" && name !in names {
        names := names + [name];
      }
      lastIndex := m.value.end;
      m := Exec(content, lastIndex);
    }
    assert caps + [] == caps;
  }

  /** One round of the scan moves the capture of the match it found from the pending captures to the ones seen. */
  lemma CapturesStep(s: string, all: seq<string>, caps: seq<string>, pending: seq<Match>, m: Match, rest: seq<Match>)
    requires all == caps + Captures(s, pending) && pending == [m] + rest
    ensures all == (caps + [Capture(s, m)]) + Captures(s, rest)
  {
    assert pending[0] == m && pending[1..] == rest;
    var c, cs := Capture(s, m), Captures(s, rest);
    assert Captures(s, pending) == [c] + cs;
    assert caps + ([c] + cs) == (caps + [c]) + cs;
  }

  /** Every match of the scan is a match of the expression, and they come in order. */
  lemma {:induction false} MatchesFacts(s: string, from: nat, i: nat)
    requires from <= |s| && i < |Matches(s, from)|
    ensures WellFormed(s, Matches(s, from)[i]) && from <= Matches(s, from)[i].start
    decreases |s| - from
  {
    var m := Exec(s, from).value;
    if i > 0 {
      MatchesFacts(s, m.end, i - 1);
    }
  }

  /** One round of the scan adds the new capture, and the name when it is non-empty and new. */
  lemma NamesStep(caps: seq<string>, name: string, names: seq<string>)
    requires names == Dedup(NonEmpty(caps))
    ensures (if name != "" && name !in names then names + [name] else names) == Dedup(NonEmpty(caps + [name]))
  {
    NonEmptySnoc(caps, name);
    DedupSnoc(NonEmpty(caps), name);
  }

  lemma {:induction false} CapturesAt(s: string, ms: seq<Match>, i: nat)
    requires i < |ms|
    ensures Captures(s, ms)[i] == Capture(s, ms[i])
  {
    if i > 0 {
      CapturesAt(s, ms[1..], i - 1);
      assert ms[1..][i - 1] == ms[i];
    }
  }

  lemma NonEmptySnoc(xs: seq<string>, x: string)
    ensures NonEmpty(xs + [x]) == NonEmpty(xs) + (if x == "" then [] else [x])
  {
    assert (xs + [x])[..|xs|] == xs;
  }

  lemma DedupSnoc(xs: seq<string>, x: string)
    ensures Dedup(xs + [x]) == if x in Dedup(xs) then Dedup(xs) else Dedup(xs) + [x]
    ensures Dedup(xs + []) == Dedup(xs)
  {
    assert (xs + [x])[..|xs|] == xs;
    assert xs + [] == xs;
  }

  predicate Distinct(xs: seq<string>)
  {
    forall i, j :: 0 <= i < j < |xs| ==> xs[i] != xs[j]
  }

  /** `k` is the index of the first occurrence of `x` in `xs`. */
  predicate IsFirst(xs: seq<string>, k: int, x: string)
  {
    0 <= k < |xs| && xs[k] == x && x !in xs[..k]
  }

  lemma {:induction false} NonEmptyMembers(xs: seq<string>)
    ensures forall x :: x in NonEmpty(xs) <==> x in xs && x != ""
  {
    if |xs| > 0 {
      NonEmptyMembers(xs[..|xs| - 1]);
      assert xs == xs[..|xs| - 1] + [xs[|xs| - 1]];
    }
  }

  lemma {:induction false} NonEmptyAll(xs: seq<string>)
    requires forall i :: 0 <= i < |xs| ==> xs[i] != ""
    ensures NonEmpty(xs) == xs
  {
    if |xs| > 0 {
      NonEmptyAll(xs[..|xs| - 1]);
      assert xs == xs[..|xs| - 1] + [xs[|xs| - 1]];
    }
  }

  /** The insertion-ordered set holds each element once, holds exactly the elements of `xs`, and keeps them in order of first occurrence. */
  lemma {:induction false} DedupFacts(xs: seq<string>)
    ensures Distinct(Dedup(xs))
    ensures forall x :: x in Dedup(xs) <==> x in xs
    ensures forall i, j, ki, kj :: 0 <= i < j < |Dedup(xs)| && IsFirst(xs, ki, Dedup(xs)[i]) && IsFirst(xs, kj, Dedup(xs)[j]) ==> ki < kj
  {
    if |xs| > 0 {
      var n := |xs| - 1;
      var p := xs[..n];
      DedupFacts(p);
      var d := Dedup(p);
      assert xs == p + [xs[n]];
      // A first occurrence inside the prefix stays one in `xs`; the last element is first only when it is new.
      assert xs[..n] == p;
      forall k, x | IsFirst(xs, k, x) && x in p
        ensures IsFirst(p, k, x)
      {
      }
      forall i, j, ki, kj | 0 <= i < j < |Dedup(xs)| && IsFirst(xs, ki, Dedup(xs)[i]) && IsFirst(xs, kj, Dedup(xs)[j])
        ensures ki < kj
      {
        if xs[n] !in d && j == |d| {
          assert Dedup(xs)[i] == d[i] && d[i] in p;
          assert IsFirst(p, ki, d[i]);
        } else {
          assert Dedup(xs)[i] == d[i] && Dedup(xs)[j] == d[j];
          assert d[i] in p && d[j] in p;
        }
      }
    }
  }

  lemma {:induction false} DedupDistinct(xs: seq<string>)
    requires Distinct(xs)
    ensures Dedup(xs) == xs
  {
    if |xs| > 0 {
      var n := |xs| - 1;
      DedupDistinct(xs[..n]);
      DedupFacts(xs[..n]);
      assert xs[n] !in xs[..n];
      assert xs == xs[..n] + [xs[n]];
    }
  }

  lemma {:induction false} CapturesTrimmed(s: string, ms: seq<Match>)
    ensures forall x :: x in Captures(s, ms) ==> Text.IsTrimmed(x)
  {
    if |ms| > 0 {
      CapturesTrimmed(s, ms[1..]);
    }
  }

  lemma {:induction false} DedupMembers(xs: seq<string>)
    ensures forall x :: x in Dedup(xs) ==> x in xs
  {
    DedupFacts(xs);
  }

  /** Every name is non-empty, has no surrounding whitespace and appears once; their order is stated by `DedupFacts` and `TemplateRoundTrip`. */
  lemma VariablesShape(content: string)
    ensures var vs := Variables(content);
      && Distinct(vs)
      && (forall i :: 0 <= i < |vs| ==> vs[i] != "" && Text.IsTrimmed(vs[i]))
  {
    if content != "" {
      var cs := Captures(content, Matches(content, 0));
      CapturesTrimmed(content, Matches(content, 0));
      NonEmptyMembers(cs);
      DedupFacts(NonEmpty(cs));
      var vs := Variables(content);
      forall i | 0 <= i < |vs| ensures vs[i] != "" && Text.IsTrimmed(vs[i]) {
        assert vs[i] in NonEmpty(cs);
      }
    }
  }

  /** Every name is text of the content that follows an opening `{{` and precedes a later closing `}}`. */
  lemma VariablesOccur(content: string, x: string) returns (p: nat, i: nat, c: nat)
    requires x in Variables(content)
    ensures OpensAt(content, p) && p + 2 <= i && i + |x| <= c && ClosesAt(content, c)
    ensures content[i..i + |x|] == x
  {
    var m := VariableIsCapture(content, x);
    p, i, c := CaptureOccurs(content, m, x);
  }

  /** Every name is the capture of one of the scan's matches. */
  lemma VariableIsCapture(content: string, x: string) returns (m: Match)
    requires x in Variables(content)
    ensures m in Matches(content, 0) && WellFormed(content, m) && Capture(content, m) == x
  {
    var ms := Matches(content, 0);
    var cs := Captures(content, ms);
    NonEmptyMembers(cs);
    DedupFacts(NonEmpty(cs));
    var k :| 0 <= k < |cs| && cs[k] == x;
    CapturesAt(content, ms, k);
    MatchesFacts(content, 0, k);
    m := ms[k];
  }

  /** The capture of a match is text between its `{{` and its `}}`. */
  lemma CaptureOccurs(s: string, m: Match, x: string) returns (p: nat, i: nat, c: nat)
    requires WellFormed(s, m) && Capture(s, m) == x
    ensures OpensAt(s, p) && p + 2 <= i && i + |x| <= c && ClosesAt(s, c)
    ensures s[i..i + |x|] == x
  {
    i := CaptureInGroup(s, m, x);
    p, c := Delimiters(s, m);
  }

  /** A well-formed match opens at its start and closes two before its end, around its group. */
  lemma Delimiters(s: string, m: Match) returns (p: nat, c: nat)
    requires WellFormed(s, m)
    ensures OpensAt(s, p) && p + 2 <= m.groupStart && m.groupEnd <= c && ClosesAt(s, c)
  {
    p, c := m.start, m.end - 2;
  }

  /** The capture of a match is text lying inside its group. */
  lemma CaptureInGroup(s: string, m: Match, x: string) returns (i: nat)
    requires m.groupStart <= m.groupEnd <= |s| && Capture(s, m) == x
    ensures m.groupStart <= i && i + |x| <= m.groupEnd && s[i..i + |x|] == x
  {
    i := Text.TrimInside(s, m.groupStart, m.groupEnd, x);
  }

  /** The scan takes the leftmost match: no position from `from` up to the match found, or up to the end when none is found, starts a match. */
  lemma {:induction false} ExecLeftmost(s: string, from: nat, p: nat)
    requires from <= p <= |s|
    requires Exec(s, from).Some? ==> p < Exec(s, from).value.start
    ensures MatchAt(s, p).None?
    decreases p - from
  {
    if p > from {
      ExecPasses(s, from, p);
      ExecLeftmost(s, from + 1, p);
    }
  }

  /** When the match found lies beyond `p`, no match starts at `from`, and the scan from `from + 1` finds the same one. */
  lemma ExecPasses(s: string, from: nat, p: nat)
    requires from < p <= |s|
    requires Exec(s, from).Some? ==> p < Exec(s, from).value.start
    ensures Exec(s, from + 1) == Exec(s, from)
  {
    if MatchAt(s, from).Some? {
      ExecHere(s, from);
      assert false;
    }
  }

  /** With no `}}` anywhere after `from`, the scan finds nothing. */
  lemma {:induction false} NoCloseNoMatch(s: string, from: nat)
    requires from <= |s|
    requires forall c :: from <= c < |s| ==> !ClosesAt(s, c)
    ensures Matches(s, from) == []
  {
  }

  /** Content without a closing `}}` (single braces, an unterminated `{{`) yields no names. */
  lemma UnterminatedYieldsNothing(content: string)
    requires forall c :: 0 <= c < |content| ==> !ClosesAt(content, c)
    ensures Variables(content) == []
  {
    NoCloseNoMatch(content, 0);
  }

  /** `{{ {{x}} }}`: a placeholder written inside another. */
  function Nested(x: string): string
  {
    "{{ {{" + x + "}} }}"
  }

  lemma NestedChars(x: string)
    ensures var s := Nested(x);
      && |s| == |x| + 10
      && s[0] == '{' && s[1] == '{' && s[2] == ' ' && s[3] == '{' && s[4] == '{'
      && (forall j :: 0 <= j < |x| ==> s[5 + j] == x[j])
      && s[|x| + 5] == '}' && s[|x| + 6] == '}' && s[|x| + 7] == ' ' && s[|x| + 8] == '}' && s[|x| + 9] == '}'
  {
    var s := Nested(x);
    assert s == "{{ {{" + (x + "}} }}");
    forall j | 0 <= j < |x| ensures s[5 + j] == x[j] {
      assert s[5 + j] == (x + "}} }}")[j];
    }
  }

  /** In `{{ {{x}} }}` the first match runs from the outer `{{` to the first `}}`, its group holding the inner `{{` and the name. */
  lemma NestedFirstMatch(x: string)
    requires PlainName(x)
    ensures MatchAt(Nested(x), 0) == Some(Match(0, 3, |x| + 5, |x| + 7))
  {
    var s := Nested(x);
    NestedChars(x);
    forall j | 3 <= j < |x| + 5 ensures s[j] != '}' {
      if j >= 5 {
        assert s[j] == x[j - 5];
      }
    }
    assert s[|x| + 4] == x[|x| - 1];
    PlaceholderAt(s, Match(0, 3, |x| + 5, |x| + 7));
  }

  /** After that match only ` }}` is left, which opens nothing. */
  lemma NestedRest(x: string)
    ensures Matches(Nested(x), |x| + 7) == []
  {
    var s := Nested(x);
    var n := |x| + 7;
    NestedChars(x);
    assert Exec(s, n + 3) == None;
    assert Exec(s, n + 2) == None;
    assert Exec(s, n + 1) == None;
    assert Exec(s, n) == None;
  }

  /** Its group is `{{x`, with no surrounding whitespace to trim. */
  lemma NestedGroup(x: string)
    requires PlainName(x)
    ensures Capture(Nested(x), Match(0, 3, |x| + 5, |x| + 7)) == "{{" + x
  {
    var s := Nested(x);
    var g := "{{" + x;
    assert s[3..|x| + 5] == g by {
      NestedChars(x);
      forall j | 0 <= j < |g| ensures s[3 + j] == g[j] {
        if j >= 2 {
          assert s[5 + (j - 2)] == x[j - 2];
        }
      }
    }
    assert Text.IsTrimmed(g) by {
      assert g[0] == '{' && g[|g| - 1] == x[|x| - 1];
    }
    CaptureIs(s, Match(0, 3, |x| + 5, |x| + 7), g);
  }

  /** The scan over `{{ {{x}} }}` captures `{{x` once. */
  lemma NestedCaptures(x: string)
    requires PlainName(x)
    ensures Captures(Nested(x), Matches(Nested(x), 0)) == ["{{" + x]
  {
    var s := Nested(x);
    var m := Match(0, 3, |x| + 5, |x| + 7);
    NestedFirstMatch(x);
    ExecHere(s, 0);
    MatchesHere(s, 0, m);
    NestedRest(x);
    NestedGroup(x);
    assert Matches(s, 0) == [m];
  }

  /** Nested braces are not special: the first `}}` closes the outer `{{`, so `{{ {{x}} }}` yields the single name `{{x`. */
  lemma NestedPlaceholder(x: string)
    requires PlainName(x)
    ensures Variables(Nested(x)) == ["{{" + x]
  {
    NestedCaptures(x);
    NonEmptyAll(["{{" + x]);
    DedupDistinct(["{{" + x]);
  }

  /**
   * In `{{ }}x}}` the greedy `\s*` keeps the blank, so the lazy group starts at
   * the first `}` and runs to just before the second `}}`.
   */
  lemma GreedySpaceMatch()
    ensures MatchAt("{{ }}x}}", 0) == Some(Match(0, 3, 6, 8))
  {
    var s := "{{ }}x}}";
    assert SpaceRun(s, 3) == 0;
    assert SpaceRun(s, 2) == 1;
    assert SpaceRun(s, 4) == 0 && SpaceRun(s, 5) == 0 && SpaceRun(s, 6) == 0;
    assert Close(s, 4, 0) == None && Close(s, 5, 0) == None && Close(s, 6, 0) == Some(8);
    assert Group(s, 6) == Some((6, 8));
    assert Group(s, 5) == Some((6, 8));
    assert Group(s, 4) == Some((6, 8));
    assert GroupFrom(s, 3) == Some((6, 8));
    assert Open(s, 0, 1) == Some(Match(0, 3, 6, 8));
  }

  /** That match captures `}}x`. */
  lemma GreedySpaceCapture()
    ensures Capture("{{ }}x}}", Match(0, 3, 6, 8)) == "}}x"
  {
    var s := "{{ }}x}}";
    assert s[3..6] == "}}x";
    assert Text.IsTrimmed("}}x") by { assert !Text.IsSpace('}') && !Text.IsSpace('x'); }
    CaptureIs(s, Match(0, 3, 6, 8), "}}x");
  }

  /** So `{{ }}x}}` yields the single name `}}x`. */
  lemma GreedySpaceVariables()
    ensures Variables("{{ }}x}}") == ["}}x"]
  {
    GreedySpaceMatches();
    GreedySpaceCapture();
    CapturesOne("{{ }}x}}", Match(0, 3, 6, 8));
    SingleCaptureVariables("{{ }}x}}", "}}x");
  }

  lemma CapturesOne(s: string, m: Match)
    ensures Captures(s, [m]) == [Capture(s, m)]
  {
    assert [m][1..] == [];
  }

  /** Content whose scan captures one non-empty name yields that name alone. */
  lemma SingleCaptureVariables(s: string, x: string)
    requires s != "" && Captures(s, Matches(s, 0)) == [x] && x != ""
    ensures Variables(s) == [x]
  {
    NonEmptyAll([x]);
    DedupDistinct([x]);
  }

  lemma GreedySpaceMatches()
    ensures Matches("{{ }}x}}", 0) == [Match(0, 3, 6, 8)]
  {
    var s := "{{ }}x}}";
    GreedySpaceMatch();
    ExecHere(s, 0);
    MatchesHere(s, 0, Match(0, 3, 6, 8));
    assert Exec(s, 8) == None;
  }

  /**
   * `\s*` gives white space back only when the group would otherwise be empty:
   * in `{{  }}` it first takes both blanks, finds no group, and then keeps one
   * so that the group holds the other.
   */
  lemma GiveBackMatch()
    ensures SpaceRun("{{  }}", 2) == 2
    ensures MatchAt("{{  }}", 0) == Some(Match(0, 3, 4, 6))
  {
    var s := "{{  }}";
    assert SpaceRun(s, 4) == 0 && SpaceRun(s, 5) == 0 && SpaceRun(s, 6) == 0;
    assert SpaceRun(s, 3) == 1;
    assert SpaceRun(s, 2) == 2;
    assert Close(s, 5, 0) == None && Close(s, 6, 0) == None && Close(s, 4, 0) == Some(6);
    assert GroupFrom(s, 4) == None;
    assert Group(s, 4) == Some((4, 6));
    assert GroupFrom(s, 3) == Some((4, 6));
    assert Open(s, 0, 2) == Some(Match(0, 3, 4, 6));
  }

  /** The scan of `{{  }}` finds that one match and nothing after it. */
  lemma GiveBackMatches()
    ensures Matches("{{  }}", 0) == [Match(0, 3, 4, 6)]
  {
    var s := "{{  }}";
    GiveBackMatch();
    ExecHere(s, 0);
    MatchesHere(s, 0, Match(0, 3, 4, 6));
    assert Exec(s, 6) == None;
  }

  /** The blank the group holds trims away. */
  lemma GiveBackCapture()
    ensures Capture("{{  }}", Match(0, 3, 4, 6)) == ""
  {
    assert "{{  }}"[3..4] == " " && Text.AllSpace(" ") by { assert Text.IsSpace(' '); }
  }

  /** So `{{  }}` yields no names. */
  lemma GiveBackVariables()
    ensures Variables("{{  }}") == []
  {
    GiveBackMatches();
    GiveBackCapture();
    CapturesOne("{{  }}", Match(0, 3, 4, 6));
    BlankCaptureVariables("{{  }}");
  }

  /** Content whose scan captures only the empty name yields no names. */
  lemma BlankCaptureVariables(s: string)
    requires s != "" && Captures(s, Matches(s, 0)) == [""]
    ensures Variables(s) == []
  {
    assert NonEmpty([""]) == [];
  }

  lemma {:induction false} SpaceRunIs(s: string, i: nat, n: nat)
    requires i + n <= |s| && SpacesBetween(s, i, i + n)
    requires i + n < |s| ==> !Text.IsSpace(s[i + n])
    ensures SpaceRun(s, i) == n
  {
  }

  lemma {:induction false} CloseFails(s: string, e: nat, m: nat)
    requires e + m <= |s| && SpacesBetween(s, e, e + m)
    requires forall j :: e <= j <= e + m && j < |s| ==> s[j] != '}'
    ensures Close(s, e, m) == None
    decreases m
  {
    if m > 0 {
      CloseFails(s, e, m - 1);
    }
  }

  /** Inside a group with no `}` that ends in a non-space, the lazy group grows to the group's end. */
  lemma {:induction false} GroupReaches(s: string, e: nat, ge: nat, trail: nat)
    requires 0 < e <= ge && ge + trail + 2 <= |s|
    requires ge > 0 && !Text.IsSpace(s[ge - 1])
    requires forall j :: e <= j < ge ==> s[j] != '}'
    requires SpacesBetween(s, ge, ge + trail) && ClosesAt(s, ge + trail)
    ensures Group(s, e) == Some((ge, ge + trail + 2))
    decreases ge - e
  {
    if e == ge {
      assert !Text.IsSpace('}');
      SpaceRunIs(s, ge, trail);
    } else {
      var r := SpaceRun(s, e);
      assert e + r < ge;
      forall j | e <= j < e + r ensures s[j] != '}' {
        assert Text.IsSpace(s[j]);
        assert !Text.IsSpace('}');
      }
      CloseFails(s, e, r);
      GroupReaches(s, e + 1, ge, trail);
    }
  }

  /**
   * A placeholder `{{`, whitespace, a name, whitespace, `}}` is matched as
   * `m` with exactly that name as its group, provided the name starts and
   * ends with a non-space character and holds no `}`.
   */
  lemma PlaceholderAt(s: string, m: Match)
    requires m.start + 2 <= m.groupStart < m.groupEnd && m.groupEnd + 2 <= m.end <= |s|
    requires OpensAt(s, m.start) && ClosesAt(s, m.end - 2)
    requires SpacesBetween(s, m.start + 2, m.groupStart) && SpacesBetween(s, m.groupEnd, m.end - 2)
    requires !Text.IsSpace(s[m.groupStart]) && !Text.IsSpace(s[m.groupEnd - 1])
    requires forall j :: m.groupStart <= j < m.groupEnd ==> s[j] != '}'
    ensures MatchAt(s, m.start) == Some(m)
  {
    PlaceholderGroup(s, m);
    MatchHere(s, m);
  }

  /** The leading `\s*` takes the whole run of spaces, and the lazy group then ends where the name does. */
  lemma PlaceholderGroup(s: string, m: Match)
    requires m.start + 2 <= m.groupStart < m.groupEnd && m.groupEnd + 2 <= m.end <= |s|
    requires ClosesAt(s, m.end - 2)
    requires SpacesBetween(s, m.start + 2, m.groupStart) && SpacesBetween(s, m.groupEnd, m.end - 2)
    requires !Text.IsSpace(s[m.groupStart]) && !Text.IsSpace(s[m.groupEnd - 1])
    requires forall j :: m.groupStart <= j < m.groupEnd ==> s[j] != '}'
    ensures SpaceRun(s, m.start + 2) == m.groupStart - m.start - 2
    ensures Group(s, m.groupStart + 1) == Some((m.groupEnd, m.end))
  {
    var trail := m.end - 2 - m.groupEnd;
    GroupReaches(s, m.groupStart + 1, m.groupEnd, trail);
    assert m.groupEnd + trail + 2 == m.end;
    SpaceRunIs(s, m.start + 2, m.groupStart - m.start - 2);
  }

  /** When the lazy group succeeds right after the whole leading whitespace run, that is the match. */
  lemma MatchHere(s: string, m: Match)
    requires OpensAt(s, m.start) && m.start + 2 <= m.groupStart < |s|
    requires SpaceRun(s, m.start + 2) == m.groupStart - m.start - 2
    requires Group(s, m.groupStart + 1) == Some((m.groupEnd, m.end))
    ensures MatchAt(s, m.start) == Some(m)
  {
    var k := m.groupStart - m.start - 2;
    assert m.start + 2 + k == m.groupStart;
    GroupFromHere(s, m.groupStart, m.groupEnd, m.end);
    OpenHere(s, m.start, k, m.groupEnd, m.end);
    MatchAtHere(s, m.start, k, Some(m));
  }

  lemma GroupFromHere(s: string, gs: nat, ge: nat, end: nat)
    requires gs < |s| && Group(s, gs + 1) == Some((ge, end))
    ensures GroupFrom(s, gs) == Some((ge, end))
  {
  }

  lemma OpenHere(s: string, p: nat, k: nat, ge: nat, end: nat)
    requires p + 2 + k <= |s| && GroupFrom(s, p + 2 + k) == Some((ge, end))
    ensures Open(s, p, k) == Some(Match(p, p + 2 + k, ge, end))
  {
  }

  lemma MatchAtHere(s: string, p: nat, k: nat, r: Option<Match>)
    requires OpensAt(s, p) && SpaceRun(s, p + 2) == k && Open(s, p, k) == r
    ensures MatchAt(s, p) == r
  {
  }

  function Template(names: seq<string>): string
  {
    if |names| == 0 then "" else "{{" + names[0] + "}}" + Template(names[1..])
  }

  /** Names that survive extraction unchanged: non-empty, trimmed, without `}`. */
  predicate PlainName(x: string)
  {
    x != "" && Text.IsTrimmed(x) && '}' !in x
  }

  lemma MatchesHere(s: string, p: nat, m: Match)
    requires p <= |s| && Exec(s, p) == Some(m)
    ensures Matches(s, p) == [m] + Matches(s, m.end)
  {
  }

  /** From `off`, the scan finds the placeholder `{{x}}` first and captures `x`. */
  predicate FindsPlaceholder(s: string, off: nat, x: string)
  {
    && off + 4 + |x| <= |s|
    && Exec(s, off) == Some(Match(off, off + 2, off + 2 + |x|, off + 4 + |x|))
    && Capture(s, Match(off, off + 2, off + 2 + |x|, off + 4 + |x|)) == x
  }

  /** A placeholder `{{x}}` at `off` with a plain name is the match the scan finds from `off`. */
  lemma PlaceholderFound(s: string, off: nat, x: string)
    requires off + 4 + |x| <= |s| && s[off..off + 4 + |x|] == "{{" + x + "}}"
    requires PlainName(x)
    ensures FindsPlaceholder(s, off, x)
  {
    PlainPlaceholder(s, off, x);
    PlaceholderFoundAt(s, off, x);
  }

  /** The same, from the characters of the placeholder. */
  lemma PlaceholderFoundAt(s: string, off: nat, x: string)
    requires off + 4 + |x| <= |s| && OpensAt(s, off) && ClosesAt(s, off + 2 + |x|)
    requires x != "" && !Text.IsSpace(s[off + 2]) && !Text.IsSpace(s[off + 2 + |x| - 1])
    requires forall j :: off + 2 <= j < off + 2 + |x| ==> s[j] != '}'
    requires s[off + 2..off + 2 + |x|] == x && Text.IsTrimmed(x)
    ensures FindsPlaceholder(s, off, x)
  {
    PlaceholderAt(s, Match(off, off + 2, off + 2 + |x|, off + 4 + |x|));
    ExecHere(s, off);
    CaptureIs(s, Match(off, off + 2, off + 2 + |x|, off + 4 + |x|), x);
  }

  /** A match whose group is already trimmed captures the group itself. */
  lemma CaptureIs(s: string, m: Match, x: string)
    requires m.groupStart <= m.groupEnd <= |s| && s[m.groupStart..m.groupEnd] == x && Text.IsTrimmed(x)
    ensures Capture(s, m) == x
  {
    Text.TrimTrimmed(x);
  }

  /** A placeholder `{{x}}` with a plain name meets the conditions of `PlaceholderAt` with no spaces. */
  lemma PlainPlaceholder(s: string, off: nat, x: string)
    requires off + 4 + |x| <= |s| && s[off..off + 4 + |x|] == "{{" + x + "}}"
    requires PlainName(x)
    ensures OpensAt(s, off) && ClosesAt(s, off + 2 + |x|)
    ensures !Text.IsSpace(s[off + 2]) && !Text.IsSpace(s[off + 2 + |x| - 1])
    ensures forall j :: off + 2 <= j < off + 2 + |x| ==> s[j] != '}'
    ensures s[off + 2..off + 2 + |x|] == x
  {
    PlaceholderChars(s, off, x);
    assert s[off + 2] == x[0] && s[off + 2 + |x| - 1] == x[|x| - 1];
    forall j | off + 2 <= j < off + 2 + |x| ensures s[j] != '}' {
      assert s[j] == x[j - off - 2];
    }
  }

  lemma PlaceholderChars(s: string, off: nat, x: string)
    requires off + 4 + |x| <= |s| && s[off..off + 4 + |x|] == "{{" + x + "}}"
    ensures OpensAt(s, off) && ClosesAt(s, off + 2 + |x|)
    ensures s[off + 2..off + 2 + |x|] == x
    ensures forall j :: off + 2 <= j < off + 2 + |x| ==> s[j] == x[j - off - 2]
  {
    var t := s[off..off + 4 + |x|];
    forall j | 0 <= j < |x| ensures s[off + 2 + j] == x[j] {
      assert s[off + 2 + j] == t[2 + j];
    }
    assert s[off + 2..off + 2 + |x|] == x;
    assert s[off] == t[0] && s[off + 1] == t[1];
    assert s[off + 2 + |x|] == t[2 + |x|] && s[off + 3 + |x|] == t[3 + |x|];
  }

  lemma ExecHere(s: string, p: nat)
    requires p <= |s| && MatchAt(s, p).Some?
    ensures Exec(s, p) == MatchAt(s, p)
  {
  }

  /** Scanning a string whose tail from `off` is a template finds one match per placeholder, each capturing its name. */
  lemma {:induction false} TemplateMatches(s: string, off: nat, names: seq<string>)
    requires off <= |s| && s[off..] == Template(names)
    requires forall i :: 0 <= i < |names| ==> PlainName(names[i])
    ensures Captures(s, Matches(s, off)) == names
    decreases |names|
  {
    if |names| == 0 {
      assert off == |s|;
      assert Exec(s, off) == None;
    } else {
      var x := names[0];
      var m := Match(off, off + 2, off + 2 + |x|, off + 4 + |x|);
      TemplateFirst(s, off, names, m);
      TemplateMatches(s, m.end, names[1..]);
      MatchesHere(s, off, m);
      CapturesCons(s, Matches(s, off), m, Matches(s, m.end), names);
    }
  }

  /** The first placeholder of a template is the first match, and the rest of the text is the template of the other names. */
  lemma TemplateFirst(s: string, off: nat, names: seq<string>, m: Match)
    requires off <= |s| && s[off..] == Template(names) && |names| > 0
    requires forall i :: 0 <= i < |names| ==> PlainName(names[i])
    requires m == Match(off, off + 2, off + 2 + |names[0]|, off + 4 + |names[0]|)
    ensures m.end <= |s| && Exec(s, off) == Some(m) && Capture(s, m) == names[0]
    ensures s[m.end..] == Template(names[1..])
    ensures forall i :: 0 <= i < |names[1..]| ==> PlainName(names[1..][i])
  {
    TemplateRest(s, off, names);
    RestAfter(s, off, names[0], m, Template(names[1..]));
    PlainTail(names);
    TemplateHeadFound(s, off, names);
    FoundMatch(s, off, names[0], m);
  }

  lemma FoundMatch(s: string, off: nat, x: string, m: Match)
    requires FindsPlaceholder(s, off, x) && m == Match(off, off + 2, off + 2 + |x|, off + 4 + |x|)
    ensures m.end <= |s| && Exec(s, off) == Some(m) && Capture(s, m) == x
  {
  }

  lemma RestAfter(s: string, off: nat, x: string, m: Match, rest: string)
    requires off + 4 + |x| <= |s| && s[off + 4 + |x|..] == rest && m == Match(off, off + 2, off + 2 + |x|, off + 4 + |x|)
    ensures s[m.end..] == rest
  {
  }

  lemma TemplateHeadFound(s: string, off: nat, names: seq<string>)
    requires off <= |s| && s[off..] == Template(names) && |names| > 0 && PlainName(names[0])
    ensures FindsPlaceholder(s, off, names[0])
  {
    assert Template(names) == "{{" + names[0] + "}}" + Template(names[1..]);
    PlaceholderFoundIn(s, off, names[0], Template(names[1..]));
  }

  lemma TemplateRest(s: string, off: nat, names: seq<string>)
    requires off <= |s| && s[off..] == Template(names) && |names| > 0
    ensures off + 4 + |names[0]| <= |s| && s[off + 4 + |names[0]|..] == Template(names[1..])
  {
    assert Template(names) == "{{" + names[0] + "}}" + Template(names[1..]);
    PlaceholderSplit(s, off, names[0], Template(names[1..]));
  }

  lemma PlainTail(names: seq<string>)
    requires |names| > 0 && forall i :: 0 <= i < |names| ==> PlainName(names[i])
    ensures forall i :: 0 <= i < |names[1..]| ==> PlainName(names[1..][i])
  {
  }

  /** A placeholder at `off` followed by other text is found by the scan from `off`. */
  lemma PlaceholderFoundIn(s: string, off: nat, x: string, rest: string)
    requires off <= |s| && s[off..] == "{{" + x + "}}" + rest && PlainName(x)
    ensures FindsPlaceholder(s, off, x)
  {
    PlaceholderSplit(s, off, x, rest);
    PlaceholderFound(s, off, x);
  }

  /** Text starting with a placeholder splits into the placeholder and what follows it. */
  lemma PlaceholderSplit(s: string, off: nat, x: string, rest: string)
    requires off <= |s| && s[off..] == "{{" + x + "}}" + rest
    ensures off + 4 + |x| <= |s|
    ensures s[off..off + 4 + |x|] == "{{" + x + "}}"
    ensures s[off + 4 + |x|..] == rest
  {
    assert s[off..off + 4 + |x|] == s[off..][..4 + |x|];
    assert s[off + 4 + |x|..] == s[off..][4 + |x|..];
  }

  lemma CapturesCons(s: string, ms: seq<Match>, m: Match, rest: seq<Match>, names: seq<string>)
    requires ms == [m] + rest && |names| > 0 && Capture(s, m) == names[0] && Captures(s, rest) == names[1..]
    ensures Captures(s, ms) == names
  {
    assert ms[0] == m && ms[1..] == rest;
    assert names == [names[0]] + names[1..];
  }

  /** Round trip: names written back as placeholders are extracted again, in the same order. */
  lemma TemplateRoundTrip(names: seq<string>)
    requires forall i :: 0 <= i < |names| ==> PlainName(names[i])
    requires Distinct(names)
    ensures Variables(Template(names)) == names
  {
    var s := Template(names);
    assert s[0..] == s;
    TemplateMatches(s, 0, names);
    NonEmptyAll(names);
    DedupDistinct(names);
  }
}
