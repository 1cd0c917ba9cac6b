/** The route-access decision taken for every request, given whether the
    session carries a signed-in user and the request's pathname. The session
    lookup and cookie copying are not modelled: the user's presence is an
    input and `PassThrough` stands for the session response. */
module Middleware {
  import opened TextOps
  import opened ArrayMethods

  // The password-reset entry is "/resetuj-haslo", as lib/middleware.ts:34
  // lists it, while the page lives under app/(auth)/zresetuj-haslo; the list
  // therefore does not cover that page, and `IntendedAccess` below, which
  // reasons from the same list, inherits the mismatch.
  const PublicPaths: seq<string> := ["/zaloguj", "/zarejestruj", "/przypomnij-haslo", "/resetuj-haslo", "/"]

  /** The four sign-in pages, which the listed paths hold before `"/"`. */
  const AuthPaths: seq<string> := PublicPaths[..4]

  const LoginPath: string := "/zaloguj"
  const HomePath: string := "/"

  datatype Decision = RedirectTo(location: string) | PassThrough

  /** A pathname matches a listed path when it equals it or starts with it. */
  predicate MatchesPath(pathname: string, path: string) {
    pathname == path || StartsWith(pathname, path)
  }

  function Matches(pathname: string): string -> bool {
    (path: string) => MatchesPath(pathname, path)
  }

  /** The public-path test as written: some listed path matches. */
  function IsPublicPath(pathname: string): (r: bool)
    ensures r <==> exists i :: 0 <= i < |PublicPaths| && MatchesPath(pathname, PublicPaths[i])
  {
    AnyIff(PublicPaths, Matches(pathname));
    Any(PublicPaths, Matches(pathname))
  }

  /** Because `"/"` is listed and matched as a prefix, the test accepts
      exactly the pathnames that begin with a slash. */
  lemma PublicIffRooted(pathname: string)
    ensures IsPublicPath(pathname) <==> |pathname| > 0 && pathname[0] == '/'
  {
    if |pathname| > 0 && pathname[0] == '/' {
      assert pathname[..1] == "/";
      assert MatchesPath(pathname, PublicPaths[4]);
    }
    if IsPublicPath(pathname) {
      var i :| 0 <= i < |PublicPaths| && MatchesPath(pathname, PublicPaths[i]);
      assert PublicPaths[i][0] == '/';
      assert pathname[0] == pathname[..|PublicPaths[i]|][0];
    }
  }

  /** The decision as written: a signed-in user on a public path other than
      the home page goes home; a visitor without a session on a path that is
      not public goes to the sign-in page; everything else passes. */
  function Decide(userPresent: bool, pathname: string): (d: Decision)
    ensures d == RedirectTo(HomePath) <==> userPresent && IsPublicPath(pathname) && pathname != HomePath
    ensures d == RedirectTo(LoginPath) <==> !userPresent && !IsPublicPath(pathname)
    ensures d.RedirectTo? ==> d.location == HomePath || d.location == LoginPath
  {
    if userPresent && IsPublicPath(pathname) && pathname != HomePath then RedirectTo(HomePath)
    else if !userPresent && !IsPublicPath(pathname) then RedirectTo(LoginPath)
    else PassThrough
  }

  /** As written, a signed-in user is sent home from every page but the home
      page itself. */
  lemma SignedInSentHomeEverywhere(pathname: string)
    requires |pathname| > 0 && pathname[0] == '/' && pathname != HomePath
    ensures Decide(true, pathname) == RedirectTo(HomePath)
  {
    PublicIffRooted(pathname);
  }

  /** As written, a signed-in user opening a task page never reaches it. */
  lemma SignedInTaskPageRedirected()
    ensures Decide(true, "/zadanie/1") == RedirectTo(HomePath)
  {
    SignedInSentHomeEverywhere("/zadanie/1");
  }

  /** As written, the sign-in redirect never fires for a slash-rooted path,
      so a visitor without a session reaches every page. */
  lemma LoginRedirectUnreachable(pathname: string)
    requires |pathname| > 0 && pathname[0] == '/'
    ensures Decide(false, pathname) == PassThrough
  {
    PublicIffRooted(pathname);
  }

  /** A signed-in user on the home page gets the session response. */
  lemma SignedInHomePasses()
    ensures Decide(true, HomePath) == PassThrough
  {
  }

  /** Following a redirect never redirects again. */
  lemma RedirectSettles(userPresent: bool, pathname: string)
    requires Decide(userPresent, pathname).RedirectTo?
    ensures Decide(userPresent, Decide(userPresent, pathname).location) == PassThrough
  {
    if !userPresent {
      assert MatchesPath(LoginPath, PublicPaths[0]);
    }
  }

  // ---------------------------------------------------------------------
  // The evidently intended test: the home page is public by itself only,
  // the sign-in pages by equality or prefix.

  function IsAuthPath(pathname: string): (r: bool)
    ensures r <==> exists i :: 0 <= i < |AuthPaths| && MatchesPath(pathname, AuthPaths[i])
  {
    AnyIff(AuthPaths, Matches(pathname));
    Any(AuthPaths, Matches(pathname))
  }

  function IsPublicPathIntended(pathname: string): (r: bool)
    ensures r <==> pathname == HomePath || IsAuthPath(pathname)
    ensures r ==> IsPublicPath(pathname)
  {
    if pathname == HomePath then
      assert MatchesPath(pathname, PublicPaths[4]);
      true
    else
      IsAuthPath(pathname)
  }

  function DecideIntended(userPresent: bool, pathname: string): (d: Decision)
    ensures d == RedirectTo(HomePath) <==> userPresent && IsAuthPath(pathname)
    ensures d == RedirectTo(LoginPath) <==> !userPresent && !IsPublicPathIntended(pathname)
    ensures d.RedirectTo? ==> d.location == HomePath || d.location == LoginPath
  {
    HomeIsNotAuthPath();
    if userPresent && IsPublicPathIntended(pathname) && pathname != HomePath then RedirectTo(HomePath)
    else if !userPresent && !IsPublicPathIntended(pathname) then RedirectTo(LoginPath)
    else PassThrough
  }

  lemma HomeIsNotAuthPath()
    ensures !IsAuthPath(HomePath)
  {
    forall i | 0 <= i < |AuthPaths| ensures !MatchesPath(HomePath, AuthPaths[i]) {
      assert |AuthPaths[i]| > 1;
    }
  }

  /** With the intended test a signed-in user reaches every page but the
      sign-in pages, and a visitor without a session reaches only the home
      page and the sign-in pages. */
  lemma IntendedAccess(pathname: string)
    ensures DecideIntended(true, pathname) == PassThrough <==> !IsAuthPath(pathname)
    ensures DecideIntended(false, pathname) == PassThrough <==> pathname == HomePath || IsAuthPath(pathname)
  {
  }

  /** With the intended test a signed-in user reaches a task page and a
      visitor without a session is sent to sign in. */
  lemma IntendedTaskPage()
    ensures DecideIntended(true, "/zadanie/1") == PassThrough
    ensures DecideIntended(false, "/zadanie/1") == RedirectTo(LoginPath)
  {
    var p := "/zadanie/1";
    forall i | 0 <= i < |AuthPaths| ensures !MatchesPath(p, AuthPaths[i]) {
      var k := if i < 2 then 3 else 1;
      assert p[k] != AuthPaths[i][k];
    }
  }

  /** With the intended test too, following a redirect never redirects again. */
  lemma IntendedRedirectSettles(userPresent: bool, pathname: string)
    requires DecideIntended(userPresent, pathname).RedirectTo?
    ensures DecideIntended(userPresent, DecideIntended(userPresent, pathname).location) == PassThrough
  {
    if !userPresent {
      assert MatchesPath(LoginPath, AuthPaths[0]);
    }
  }
}
