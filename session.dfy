/**
 * The session provider's decisions. Page retrieval, browser driving and
 * waiting are outside the model; what is modelled is what the provider
 * concludes from what it observed: the login outcome and whether an
 * authenticated navigation landed on the requested post.
 */
module Session {
  import opened Text
  import opened Wrappers
  import opened Extraction

  /** Why a fetch raised instead of returning a page. */
  datatype FetchError =
    | SignInRedirect   // the browser was sent back to the sign-in page
    | HomeRedirect     // the browser landed on the home, inbox or feed surface instead of the post
    | LandedOnHome     // the post content never appeared and the browser sits on the home surface
    | RequestError     // the request or navigation itself failed

  /** What fetching one URL produced. */
  datatype Fetch =
    | Paywalled           // the anonymous fetch hit premium content and returned nothing
    | Fetched(page: Page)
    | Failed(error: FetchError)

  /** The paths that count as the home surface. */
  const HomePaths: seq<string> := ["", "/home", "/inbox", "/feed"]

  /** A (slash-stripped) path is the home, inbox or feed surface rather than a post. */
  predicate IsHomeSurface(path: string) {
    path in HomePaths || (StartsWith(path, "/home") && !Contains(path, "/post/"))
  }

  /** A home surface is the empty path, `/inbox`, `/feed`, or a path starting with `/home`. */
  lemma HomeSurfaceShape(path: string)
    ensures IsHomeSurface(path) ==> path == "" || path == "/inbox" || path == "/feed" || StartsWith(path, "/home")
  {
    assert "/home"[..5] == "/home";
  }

  /**
   * The `sign-in` test looks at the whole landed URL, so a post whose slug
   * mentions `sign-in` is rejected even when the browser landed on it.
   */
  lemma {:induction false} SignInSlugRejected(site: string, slug: string)
    requires Contains(slug, "sign-in")
    ensures RedirectCheck(site + "/p/" + slug, "/p/" + slug, "/p/" + slug) == Some(SignInRedirect)
  {
    var url := site + "/p/" + slug;
    var i := ContainsThenOccurs(slug, "sign-in");
    var k := |site + "/p/"| + i;
    assert url[k..k + 7] == slug[i..i + 7];
    OccursThenContains(url, "sign-in", k);
  }

  /** A post opened from the home surface (`/home/post/…`) is not the home surface. */
  lemma HomePostIsNotHome(rest: string)
    ensures !IsHomeSurface("/home/post/" + rest)
  {
    var path := "/home/post/" + rest;
    assert path[5..5 + 6] == "/post/";
    OccursThenContains(path, "/post/", 5);
    assert forall h :: h in HomePaths ==> |h| < |path|;
  }

  /**
   * The redirect check of the authenticated `get_url_soup`, from the URL the
   * browser landed on, its path and the requested URL's path. It raises on
   * any URL mentioning `sign-in`; otherwise it raises exactly when the
   * landed path (trailing slashes removed) is a home surface and the
   * requested one is not one of the home paths.
   */
  function RedirectCheck(landedUrl: string, landedPath: string, targetPath: string): (r: Option<FetchError>)
    ensures Contains(landedUrl, "sign-in") ==> r == Some(SignInRedirect)
    ensures !Contains(landedUrl, "sign-in") ==>
              (r.Some? <==> IsHomeSurface(RStripSlashes(landedPath)) && RStripSlashes(targetPath) !in HomePaths)
    ensures r.Some? ==> r.value in {SignInRedirect, HomeRedirect}
    ensures !Contains(landedUrl, "sign-in") && r.Some? ==> r.value == HomeRedirect
  {
    if Contains(landedUrl, "sign-in") then Some(SignInRedirect)
    else if IsHomeSurface(RStripSlashes(landedPath)) && RStripSlashes(targetPath) !in HomePaths then Some(HomeRedirect)
    else None
  }

  /** Trailing slashes on either path never change the verdict. */
  lemma RedirectCheckIgnoresTrailingSlash(landedUrl: string, landedPath: string, targetPath: string)
    ensures RedirectCheck(landedUrl, landedPath + "/", targetPath) == RedirectCheck(landedUrl, landedPath, targetPath)
    ensures RedirectCheck(landedUrl, landedPath, targetPath + "/") == RedirectCheck(landedUrl, landedPath, targetPath)
  {
    RStripIgnoresSlash(landedPath);
    RStripIgnoresSlash(targetPath);
  }

  /**
   * Landing on a post path (one under `/p/`) never counts as a redirect away
   * from the post, provided the landed URL does not mention `sign-in`.
   */
  lemma {:induction false} PostPathIsNotHome(landedUrl: string, slug: string, targetPath: string)
    requires !Contains(landedUrl, "sign-in")
    ensures RedirectCheck(landedUrl, "/p/" + slug, targetPath) == None
  {
    var stripped := RStripSlashes("/p/" + slug);
    assert StartsWith("/p/" + slug, "/p");
    RStripKeepsPrefix("/p/" + slug, "/p");
    assert stripped[1] == 'p';
    assert forall h :: h in HomePaths ==> |h| < 2 || h[1] != 'p';
    assert !StartsWith(stripped, "/home") by {
      assert |stripped| >= 5 ==> stripped[..5][1] == 'p';
    }
  }

  /**
   * The check made after the post content did not appear in time: the
   * landed URL is a home page that names no post.
   */
  predicate LandedOnHomeAfterTimeout(landedUrl: string) {
    Contains(landedUrl, "/home") && !Contains(landedUrl, "/post/") && !Contains(landedUrl, "p-")
  }

  /**
   * A landed URL that names a post, by a `/post/` path or a `p-` post id,
   * never counts as landing on the home surface; nor does one without `/home`.
   */
  lemma NamedPostIsNotLandedHome(site: string, rest: string)
    ensures !LandedOnHomeAfterTimeout(site + "/post/" + rest)
    ensures !LandedOnHomeAfterTimeout(site + "p-" + rest)
    ensures !Contains(site, "/home") ==> !LandedOnHomeAfterTimeout(site)
  {
    var viaPath := site + "/post/" + rest;
    assert viaPath[|site|..|site| + 6] == "/post/";
    OccursThenContains(viaPath, "/post/", |site|);
    var viaId := site + "p-" + rest;
    assert viaId[|site|..|site| + 2] == "p-";
    OccursThenContains(viaId, "p-", |site|);
  }

  /** What the browser reported after navigating to a URL. */
  datatype Navigation = Navigation(landedUrl: string, landedPath: string, targetPath: string, contentTimedOut: bool)

  /**
   * The authenticated `get_url_soup`: raises on a redirect, raises when
   * the content never appeared on a home page, and otherwise returns the
   * page, paywalled or not (this variant never reports `Paywalled`).
   */
  function AuthenticatedFetch(nav: Navigation, page: Page): (f: Fetch)
    ensures !f.Paywalled?
    ensures f.Fetched? <==>
              RedirectCheck(nav.landedUrl, nav.landedPath, nav.targetPath).None? &&
              !(nav.contentTimedOut && LandedOnHomeAfterTimeout(nav.landedUrl))
    ensures f.Fetched? ==> f.page == page
    ensures f.Failed? && RedirectCheck(nav.landedUrl, nav.landedPath, nav.targetPath).Some? ==>
              f.error == RedirectCheck(nav.landedUrl, nav.landedPath, nav.targetPath).value
    ensures f.Failed? && RedirectCheck(nav.landedUrl, nav.landedPath, nav.targetPath).None? ==>
              f.error == LandedOnHome
  {
    match RedirectCheck(nav.landedUrl, nav.landedPath, nav.targetPath)
    case Some(e) => Failed(e)
    case None =>
      if nav.contentTimedOut && LandedOnHomeAfterTimeout(nav.landedUrl) then Failed(LandedOnHome)
      else Fetched(page)
  }

  /** Why a login failed. */
  datatype LoginFailure =
    | BadCredentials  // still on sign-in with the error message shown
    | StuckOnSignIn   // still on sign-in after the grace wait, no error shown (a captcha, say)

  datatype LoginResult = Authenticated | LoginFailed(reason: LoginFailure)

  /**
   * The outcome of `login` from three observations: whether the browser is
   * still on the sign-in page after the redirect wait, whether the error
   * message is visible, and whether it is still on sign-in after the extra
   * grace wait. Login succeeds exactly when the browser left the sign-in
   * page, within the wait or within the grace period, and no error was shown
   * while it stayed.
   */
  function LoginDecision(onSignIn: bool, errorVisible: bool, onSignInAfterGrace: bool): (r: LoginResult)
    ensures r == Authenticated <==> !onSignIn || (!errorVisible && !onSignInAfterGrace)
    ensures r == LoginFailed(BadCredentials) <==> onSignIn && errorVisible
    ensures !onSignIn ==> r == Authenticated
  {
    if onSignIn && errorVisible then LoginFailed(BadCredentials)
    else if onSignIn && onSignInAfterGrace then LoginFailed(StuckOnSignIn)
    else Authenticated
  }
}
