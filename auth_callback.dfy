/**
 * `GET /auth/callback`: completes the OAuth sign-in by exchanging the
 * `code` for a session, then sends the user on to `next`, but only when
 * `next` is a path on this site; anything else sends them to `/`. A missing
 * code or a failed exchange ends at the error page. `redirect` ends the
 * handler, so the first redirect reached is the answer.
 */
module AuthCallback {
  import opened Wrappers
  import Text

  const ErrorPage := "/auth/auth-error"

  /** A path on this site: starts with one `/`, not `//` (protocol-relative), and has no backslash. */
  predicate IsRelative(next: string)
  {
    Text.StartsWith(next, "/") && !Text.StartsWith(next, "//") && '\\' !in next
  }

  /** `isRelative ? next : '/'`. */
  function SafeNext(next: string): (r: string)
    ensures IsRelative(r)
    ensures r == next <==> IsRelative(next)
    ensures r != next ==> r == "/"
  {
    if IsRelative(next) then next else "/"
  }

  /**
   * The redirect target. `code` and `next` are the query parameters (`None`
   * when absent), `origin` the request's origin, and `exchange` tells whether
   * `exchangeCodeForSession(code)` succeeded.
   */
  function Callback(origin: string, code: Option<string>, next: Option<string>, exchange: string -> bool): (target: string)
    ensures code.None? || code.value == "" ==> target == ErrorPage
    ensures code.Some? && code.value != "" && !exchange(code.value) ==> target == ErrorPage
    ensures code.Some? && code.value != "" && exchange(code.value) ==> target == origin + SafeNext(next.OrElse("/"))
  {
    if code.Some? && code.value != "" && exchange(code.value) then origin + SafeNext(next.OrElse("/")) else ErrorPage
  }

  /** A successful sign-in never leaves the site: the target is the origin followed by a path on it. */
  lemma SignInStaysOnSite(origin: string, code: string, next: Option<string>, exchange: string -> bool)
    requires code != "" && exchange(code)
    ensures var target := Callback(origin, Some(code), next, exchange);
      Text.StartsWith(target, origin) && IsRelative(target[|origin|..])
    ensures next.None? ==> Callback(origin, Some(code), next, exchange) == origin + "/"
  {
    var target := Callback(origin, Some(code), next, exchange);
    assert target[..|origin|] == origin && target[|origin|..] == SafeNext(next.OrElse("/"));
  }

  /** Targets that leave the site are replaced by `/`: another host, a protocol-relative URL, a backslash trick. */
  lemma ForeignTargetsRefused()
    ensures SafeNext("https://evil.example") == "/"
    ensures SafeNext("//evil.example") == "/"
    ensures SafeNext("/\\evil.example") == "/"
    ensures SafeNext("/prompts/1") == "/prompts/1"
  {
    SlashPrefixes("https://evil.example");
    SlashPrefixes("//evil.example");
    assert "/\\evil.example"[1] == '\\';
    SlashPrefixes("/prompts/1");
    assert forall i :: 0 <= i < |"/prompts/1"| ==> "/prompts/1"[i] != '\\';
  }

  /** The two prefix tests read the first characters. */
  lemma SlashPrefixes(s: string)
    ensures Text.StartsWith(s, "/") <==> |s| >= 1 && s[0] == '/'
    ensures Text.StartsWith(s, "//") <==> |s| >= 2 && s[0] == '/' && s[1] == '/'
  {
    if |s| >= 1 {
      assert s[..1] == [s[0]];
    }
    if |s| >= 2 {
      assert s[..2] == [s[0], s[1]];
    }
  }
}
