/**
 * `updateSession`: the middleware that refreshes the Supabase session on
 * every request. The auth client writes refreshed cookies through `setAll`,
 * which copies them onto the request and onto a freshly recreated
 * pass-through response; afterwards a visitor without a user is sent to the
 * login page unless the path is exempt.
 */
module SessionMiddleware {
  import Text

  /** Cookie options (path, max age and the like) are carried through unread. */
  type CookieOptions = seq<(string, string)>

  datatype Cookie = Cookie(name: string, value: string, options: CookieOptions)

  /** `NextResponse.next({request: {headers}})`: forwards the request with these cookies, and sets its own. */
  datatype PassThrough = PassThrough(forwarded: map<string, string>, cookies: map<string, (string, CookieOptions)>)

  /** A URL, split into the pathname and everything else (origin, search, hash), which a redirect keeps. */
  datatype Url = Url(pathname: string, rest: string)

  datatype MiddlewareResponse = Next(response: PassThrough) | Redirect(url: Url)

  const LoginPath := "/auth/login"

  /** `cookies.set` for each entry in turn: a later entry for a name replaces an earlier one. */
  function Put<V>(m: map<string, V>, entries: seq<(string, V)>): map<string, V>
    decreases |entries|
  {
    if entries == [] then m else Put(m[entries[0].0 := entries[0].1], entries[1..])
  }

  function Names<V>(entries: seq<(string, V)>): set<string>
  {
    set i | 0 <= i < |entries| :: entries[i].0
  }

  /** After the writes, the names are the old ones and the written ones. */
  lemma {:induction false} PutKeys<V>(m: map<string, V>, entries: seq<(string, V)>)
    ensures Put(m, entries).Keys == m.Keys + Names(entries)
    decreases |entries|
  {
    if entries != [] {
      PutKeys(m[entries[0].0 := entries[0].1], entries[1..]);
      assert Names(entries) == {entries[0].0} + Names(entries[1..]) by {
        forall k | k in Names(entries) ensures k in {entries[0].0} + Names(entries[1..]) {
          var i :| 0 <= i < |entries| && entries[i].0 == k;
          if i > 0 {
            assert entries[1..][i - 1] == entries[i];
          }
        }
        forall k | k in Names(entries[1..]) ensures k in Names(entries) {
          var i :| 0 <= i < |entries[1..]| && entries[1..][i].0 == k;
          assert entries[i + 1] == entries[1..][i];
        }
      }
    }
  }

  /** A name keeps the value of its last write; names never written keep their old value. */
  lemma {:induction false} PutLastWins<V>(m: map<string, V>, entries: seq<(string, V)>, i: nat)
    requires i < |entries|
    requires forall j :: i < j < |entries| ==> entries[j].0 != entries[i].0
    ensures entries[i].0 in Put(m, entries) && Put(m, entries)[entries[i].0] == entries[i].1
    decreases |entries|
  {
    var m' := m[entries[0].0 := entries[0].1];
    if i == 0 {
      PutUntouched(m', entries[1..], entries[0].0);
    } else {
      forall j | i - 1 < j < |entries[1..]| ensures entries[1..][j].0 != entries[1..][i - 1].0 {
        assert entries[1..][j] == entries[j + 1];
      }
      PutLastWins(m', entries[1..], i - 1);
    }
  }

  lemma {:induction false} PutUntouched<V>(m: map<string, V>, entries: seq<(string, V)>, k: string)
    requires k in m
    requires forall j :: 0 <= j < |entries| ==> entries[j].0 != k
    ensures k in Put(m, entries) && Put(m, entries)[k] == m[k]
    decreases |entries|
  {
    if entries != [] {
      forall j | 0 <= j < |entries[1..]| ensures entries[1..][j].0 != k {
        assert entries[1..][j] == entries[j + 1];
      }
      PutUntouched(m[entries[0].0 := entries[0].1], entries[1..], k);
    }
  }

  function RequestEntries(cs: seq<Cookie>): (es: seq<(string, string)>)
    ensures |es| == |cs| && forall i :: 0 <= i < |cs| ==> es[i] == (cs[i].name, cs[i].value)
  {
    seq(|cs|, i requires 0 <= i < |cs| => (cs[i].name, cs[i].value))
  }

  function ResponseEntries(cs: seq<Cookie>): (es: seq<(string, (string, CookieOptions))>)
    ensures |es| == |cs| && forall i :: 0 <= i < |cs| ==> es[i] == (cs[i].name, (cs[i].value, cs[i].options))
  {
    seq(|cs|, i requires 0 <= i < |cs| => (cs[i].name, (cs[i].value, cs[i].options)))
  }

  /** The request's cookie jar and the `let response` the middleware returns. */
  class Session {
    var requestCookies: map<string, string>
    var response: PassThrough

    /** `let response = NextResponse.next({request: {headers: request.headers}})`. */
    constructor (cookies: map<string, string>)
      ensures requestCookies == cookies && response == PassThrough(cookies, map[])
    {
      requestCookies := cookies;
      response := PassThrough(cookies, map[]);
    }

    /**
     * `setAll(cookiesToSet)`: every cookie onto the request, then a new
     * pass-through response forwarding the updated request, then every
     * cookie, with its options, onto that response.
     */
    method SetAll(cookiesToSet: seq<Cookie>)
      modifies this
      ensures requestCookies == Put(old(requestCookies), RequestEntries(cookiesToSet))
      ensures response == PassThrough(requestCookies, Put(map[], ResponseEntries(cookiesToSet)))
    {
      for i := 0 to |cookiesToSet|
        invariant Put(old(requestCookies), RequestEntries(cookiesToSet)) ==
                  Put(requestCookies, RequestEntries(cookiesToSet)[i..])
      {
        var c := cookiesToSet[i];
        assert RequestEntries(cookiesToSet)[i..][0] == (c.name, c.value);
        assert RequestEntries(cookiesToSet)[i..][1..] == RequestEntries(cookiesToSet)[i + 1..];
        requestCookies := requestCookies[c.name := c.value];
      }
      assert RequestEntries(cookiesToSet)[|cookiesToSet|..] == [];

      response := PassThrough(requestCookies, map[]);

      ghost var all := Put(map[], ResponseEntries(cookiesToSet));
      for i := 0 to |cookiesToSet|
        invariant requestCookies == Put(old(requestCookies), RequestEntries(cookiesToSet))
        invariant response.forwarded == requestCookies
        invariant all == Put(response.cookies, ResponseEntries(cookiesToSet)[i..])
      {
        var c := cookiesToSet[i];
        assert ResponseEntries(cookiesToSet)[i..][0] == (c.name, (c.value, c.options));
        assert ResponseEntries(cookiesToSet)[i..][1..] == ResponseEntries(cookiesToSet)[i + 1..];
        response := response.(cookies := response.cookies[c.name := (c.value, c.options)]);
      }
      assert ResponseEntries(cookiesToSet)[|cookiesToSet|..] == [];
    }
  }

  /** The response carries exactly the cookies just set, and both the request and the response hold each one's last value. */
  lemma SetAllWritesEverything(before: map<string, string>, cs: seq<Cookie>, i: nat)
    requires i < |cs| && forall j :: i < j < |cs| ==> cs[j].name != cs[i].name
    ensures var req := Put(before, RequestEntries(cs)); var resp := Put(map[], ResponseEntries(cs));
      && resp.Keys == Names(ResponseEntries(cs))
      && cs[i].name in req && req[cs[i].name] == cs[i].value
      && cs[i].name in resp && resp[cs[i].name] == (cs[i].value, cs[i].options)
  {
    PutKeys(map[], ResponseEntries(cs));
    PutLastWins(before, RequestEntries(cs), i);
    PutLastWins(map[], ResponseEntries(cs), i);
  }

  /** The exemption as written: a plain `startsWith('/p')`, which also covers `/profile` and `/prompts/...`. */
  predicate ExemptAsWritten(pathname: string)
  {
    Text.StartsWith(pathname, "/auth") || Text.StartsWith(pathname, "/_next") || Text.StartsWith(pathname, "/p")
  }

  /** The exemption as intended: `/auth`, `/_next` and the public share pages under `/p/`. */
  predicate Exempt(pathname: string)
  {
    Text.StartsWith(pathname, "/auth") || Text.StartsWith(pathname, "/_next") || Text.StartsWith(pathname, "/p/")
  }

  /** No user, and the path is not exempt as written. */
  predicate ShouldRedirect(userPresent: bool, pathname: string)
  {
    !userPresent && !ExemptAsWritten(pathname)
  }

  /** What `updateSession` returns, given whether `getUser` found a user and the response `setAll` left. */
  function UpdateSession(userPresent: bool, url: Url, response: PassThrough): (r: MiddlewareResponse)
    ensures userPresent ==> r == Next(response)
    ensures r.Redirect? <==> ShouldRedirect(userPresent, url.pathname)
    ensures r.Redirect? ==> r.url == Url(LoginPath, url.rest)
    ensures r.Next? ==> r.response == response
  {
    if ShouldRedirect(userPresent, url.pathname) then Redirect(url.(pathname := LoginPath)) else Next(response)
  }

  /** Paths under the three exempt prefixes are never redirected: `/auth`, `/_next` and anything starting `/p`. */
  lemma ExemptPrefixes(userPresent: bool, url: Url, response: PassThrough, rest: string)
    ensures !ShouldRedirect(userPresent, "/auth" + rest)
    ensures !ShouldRedirect(userPresent, "/_next" + rest)
    ensures !ShouldRedirect(userPresent, "/p" + rest)
    ensures Text.StartsWith(url.pathname, "/p") ==> UpdateSession(userPresent, url, response) == Next(response)
  {
    assert ("/auth" + rest)[..|"/auth"|] == "/auth";
    assert ("/_next" + rest)[..|"/_next"|] == "/_next";
    assert ("/p" + rest)[..|"/p"|] == "/p";
  }

  /** As written, a signed-out visit to `/profile` or `/prompts/...` passes through without a redirect. */
  lemma SignedOutProfilePassesThrough(rest: string, url: Url, response: PassThrough)
    ensures UpdateSession(false, url.(pathname := "/profile"), response) == Next(response)
    ensures UpdateSession(false, url.(pathname := "/prompts/" + rest), response) == Next(response)
  {
    PrefixExemptsMore(rest);
  }

  /** No user, and the path is not exempt under the intended `/p/` test. */
  predicate ShouldRedirectIntended(userPresent: bool, pathname: string)
  {
    !userPresent && !Exempt(pathname)
  }

  /** `updateSession` with the share-page exemption read as `/p/`. */
  function UpdateSessionIntended(userPresent: bool, url: Url, response: PassThrough): (r: MiddlewareResponse)
    ensures userPresent ==> r == Next(response)
    ensures r.Redirect? <==> ShouldRedirectIntended(userPresent, url.pathname)
    ensures r.Redirect? ==> r.url == Url(LoginPath, url.rest)
    ensures r.Next? ==> r.response == response
  {
    if ShouldRedirectIntended(userPresent, url.pathname) then Redirect(url.(pathname := LoginPath)) else Next(response)
  }

  /** The intended middleware agrees with the written one everywhere except on `/p...` paths outside `/p/`. */
  lemma IntendedAgreesOutsideSharePrefix(userPresent: bool, url: Url, response: PassThrough)
    ensures (Text.StartsWith(url.pathname, "/p") ==> Text.StartsWith(url.pathname, "/p/")) ==>
      UpdateSessionIntended(userPresent, url, response) == UpdateSession(userPresent, url, response)
  {
    ExemptNarrowsSharePrefix(url.pathname);
  }

  /** A path that starts `/p` but not `/p/` is exempt as written and not as intended. */
  lemma SharePrefixOnly(pathname: string)
    requires |pathname| >= 3 && pathname[0] == '/' && pathname[1] == 'p' && pathname[2] != '/'
    ensures ExemptAsWritten(pathname) && !Exempt(pathname)
  {
    assert pathname[..|"/p"|] == "/p";
    assert "/auth"[1] == 'a' && "/_next"[1] == '_' && "/p/"[2] == '/';
  }

  /** As written, the `/p` test is a plain prefix test, so `/profile` and `/prompts/...` are exempt too. */
  lemma PrefixExemptsMore(rest: string)
    ensures ExemptAsWritten("/profile") && !Exempt("/profile")
    ensures ExemptAsWritten("/prompts/" + rest) && !Exempt("/prompts/" + rest)
  {
    SharePrefixOnly("/profile");
    var s := "/prompts/" + rest;
    assert s[0] == '/' && s[1] == 'p' && s[2] == 'r';
    SharePrefixOnly(s);
  }

  /** The intended test differs from the written one exactly on `/p...` paths that are not under `/p/`. */
  lemma ExemptNarrowsSharePrefix(pathname: string)
    ensures Exempt(pathname) <==> ExemptAsWritten(pathname) && (Text.StartsWith(pathname, "/p") ==> Text.StartsWith(pathname, "/p/"))
  {
    if Text.StartsWith(pathname, "/p/") {
      assert pathname[..|"/p"|] == pathname[..|"/p/"|][..|"/p"|];
    }
    if Text.StartsWith(pathname, "/p") {
      assert pathname[1] == 'p';
      assert !Text.StartsWith(pathname, "/auth") by { assert "/auth"[1] == 'a'; }
      assert !Text.StartsWith(pathname, "/_next") by { assert "/_next"[1] == '_'; }
    }
  }

  /** Under the intended test, signed-out visitors to the profile and prompt pages are sent to the login page; the login page and the share pages are not redirected, and `/` is. */
  lemma ProtectedPagesRedirect(rest: string, url: Url, response: PassThrough)
    ensures ShouldRedirectIntended(false, "/profile")
    ensures ShouldRedirectIntended(false, "/prompts/" + rest)
    ensures !ShouldRedirectIntended(false, LoginPath)
    ensures !ShouldRedirectIntended(false, "/p/" + rest)
    ensures ShouldRedirectIntended(false, "/")
    ensures UpdateSessionIntended(false, url.(pathname := "/profile"), response) == Redirect(Url(LoginPath, url.rest))
  {
    PrefixExemptsMore(rest);
    assert LoginPath[..|"/auth"|] == "/auth";
    assert ("/p/" + rest)[..|"/p/"|] == "/p/";
  }
}
