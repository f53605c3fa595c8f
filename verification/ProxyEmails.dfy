/** The links that the backend's letters carry, and where a browser ends up that opens one. */
module ProxyEmails {
  import opened Common
  import opened Text
  import opened Proxy
  import opened ProxyLinks
  import opened ProxyPages
  import Locale

  /** The letter to an external evaluator, who has no account. */
  predicate IsReviewLink(path: string) {
    Below(path, "/review/")
  }

  /** The paths the letters are written with: a token in the query of the first four, in the path of the rest. */
  predicate IsEmailedLink(path: string) {
    || path == "/accept-invite" || path == "/verify-email" || path == "/reset-password" || path == "/magic-login"
    || IsReviewLink(path) || Below(path, "/recruitment/invite/") || Below(path, "/recruitment/consent/")
    || Below(path, "/public/assessments/")
  }

  lemma ReviewHead(path: string)
    requires IsReviewLink(path)
    ensures Head(path, 'r', 'e', 'v')
  {
    hide OneSegment;
    assert path[1] == "/review/"[1] && path[2] == "/review/"[2] && path[3] == "/review/"[3];
  }

  /** No list of the proxy knows the review link. */
  lemma ReviewIsAppPage(site: Site, url: Url)
    requires IsReviewLink(url.path)
    ensures IsAppPage(site, url) && !IsTokenLink(url.path)
  {
    var path := url.path;
    ReviewHead(path);
    hide IsReviewLink, OneSegment;
    assert OtherHeads(path, MARKETING_PATHS) && OtherHeads(path, MARKETING_PREFIXES);
    assert OtherHeads(path, AUTH_PATHS) && OtherHeads(path, TOKEN_AUTH_PATHS)
           && OtherHeads(path, TOKEN_PUBLIC_PREFIXES);
    OtherHeadsStart(path, MARKETING_PATHS);
    OtherHeadsStart(path, MARKETING_PREFIXES);
    OtherHeadsStart(path, AUTH_PATHS);
    OtherHeadsStart(path, TOKEN_AUTH_PATHS);
    OtherHeadsStart(path, TOKEN_PUBLIC_PREFIXES);
    hide StartsWithSome, OtherHeads;
  }

  lemma StartsOne(path: string, prefixes: seq<string>, k: nat)
    requires k < |prefixes| && StartsWith(path, prefixes[k])
    ensures StartsWithSome(path, prefixes)
  {
  }

  lemma ListedTokenLinks(path: string)
    requires IsEmailedLink(path) && !IsReviewLink(path)
    ensures IsTokenLink(path)
  {
    hide StartsWithSome, OneSegment;
    if path == "/accept-invite" {
      StartsOne(path, TOKEN_AUTH_PATHS, 0);
    } else if path == "/magic-login" {
      StartsOne(path, TOKEN_AUTH_PATHS, 1);
    } else if path == "/verify-email" {
      StartsOne(path, TOKEN_AUTH_PATHS, 2);
    } else if path == "/reset-password" {
      StartsOne(path, TOKEN_AUTH_PATHS, 3);
    } else if Below(path, "/recruitment/invite/") {
      StartsOne(path, TOKEN_PUBLIC_PREFIXES, 0);
    } else if Below(path, "/recruitment/consent/") {
      StartsOne(path, TOKEN_PUBLIC_PREFIXES, 1);
    } else {
      StartsOne(path, TOKEN_PUBLIC_PREFIXES, 3);
    }
  }

  /** Of the letters' links the proxy passes all but the review link. */
  lemma OnlyReviewIsMissing(path: string)
    requires IsEmailedLink(path)
    ensures IsTokenLink(path) <==> !IsReviewLink(path)
  {
    if IsReviewLink(path) {
      ReviewIsAppPage(Site("", "", "", [], h => h), Url("", path, []));
    } else {
      ListedTokenLinks(path);
    }
    hide *;
  }

  /** The link as it was mailed, less a `lang` the proxy consumes. */
  function Mailed(site: Site, url: Url): Url {
    if !Bypasses(url.path) && FromLink(site, url).Some? then url.(query := Without(url.query, "lang")) else url
  }

  /**
   A link of a letter, opened on the app host, is served at its own path with its parameters if and
   only if the proxy passes it as a token link or the browser has a session there (static files
   aside). Otherwise the recipient is asked to log in.
   */
  lemma EmailedLinkIsServed(site: Site, b: Browser, url: Url)
    requires !AppIsCheckHost(site) && !AtCheckHost(site, url.host) && IsEmailedLink(url.path)
    ensures var l := Follow(site, b, url);
            var passed := IsTokenLink(url.path) || CookiesFor(site, b, url.host).hasToken || Bypasses(url.path);
            && (l.decision == Serve && l.url == Mailed(site, url) <==> passed)
            && (!passed ==> l.decision == Serve && l.url.path == "/login" && l.url.host == url.host)
  {
    if IsTokenLink(url.path) || Bypasses(url.path) {
      PassedLink(site, b, url);
    } else {
      OnlyReviewIsMissing(url.path);
      ReviewLink(site, b, url);
    }
    hide *;
  }

  lemma PassedLink(site: Site, b: Browser, url: Url)
    requires !AppIsCheckHost(site) && !AtCheckHost(site, url.host) && (IsTokenLink(url.path) || Bypasses(url.path))
    ensures var l := Follow(site, b, url); l.decision == Serve && l.url == Mailed(site, url)
  {
    if !Bypasses(url.path) {
      TokenLinkIsServed(site, b, url);
    }
    hide Bypasses, IsTokenLink, CheckTarget, IsCrawlerPath, IsCardPath, AtCheckHost, FromLink, Stored, Rank;
  }

  lemma ReviewLink(site: Site, b: Browser, url: Url)
    requires !AppIsCheckHost(site) && !AtCheckHost(site, url.host) && IsReviewLink(url.path) && !Bypasses(url.path)
    ensures var l, signedIn := Follow(site, b, url), CookiesFor(site, b, url.host).hasToken;
            && l.decision == Serve && l.url.host == url.host
            && (if signedIn then l.url == Mailed(site, url) else l.url.path == "/login" && url.path != "/login")
  {
    ReviewIsAppPage(site, url);
    OffTheCheckHost(site, b, url);
    AppPageIsRouted(site, CookiesFor(site, b, url.host), b.preferred, Mailed(site, url));
    assert url.path != "/login" by {
      ReviewHead(url.path);
      assert "/login"[1] == 'l';
    }
    hide Follow, CookiesFor, Routed, IsTokenLink, IsReviewLink, IsAppPage, Bypasses, AtCheckHost, FromLink, Without,
         Search, AppIsCheckHost;
  }

  lemma AppPageIsRouted(site: Site, cookies: Cookies, preferred: string, url: Url)
    requires IsAppPage(site, url)
    ensures Routed(site, cookies, preferred, url).decision ==
            if cookies.hasToken then Serve else Redirect(LoginFor(url))
  {
    hide IsMarketingPath, IsAuthPath, IsCheckPath, IsPublicCompanyPath, IsTokenPublicPath, IsCrawlerPath, Sticky,
         LoginFor;
  }

  /** A review link with a supported locale, opened without a session: the login form. */
  lemma ReviewLinkAsksForLogin(site: Site, b: Browser, host: string, locale: string)
    requires !AppIsCheckHost(site) && !AtCheckHost(site, host) && !CookiesFor(site, b, host).hasToken
    ensures IsEmailedLink("/review/tok") && !IsTokenLink("/review/tok")
    ensures Follow(site, b, Url(host, "/review/tok", [Param("lang", locale)])).url.path == "/login"
  {
    var path := "/review/tok";
    assert path[8..] == "tok" && "/review/" <= path;
    NoStaticFile(path);
    ReviewIsAppPage(site, Url(host, path, []));
    ReviewLink(site, b, Url(host, path, [Param("lang", locale)]));
    hide Bypasses, CookiesFor, Follow, IsTokenLink;
  }

  lemma OtherEnding(s: string, suffix: string)
    requires |s| > 0 && |suffix| > 0 && s[|s| - 1] != suffix[|suffix| - 1]
    ensures !EndsWith(s, suffix)
  {
    assert |suffix| <= |s| ==> s[|s| - |suffix|..][|suffix| - 1] == s[|s| - 1];
  }

  predicate PlainEnding(letter: char) {
    letter == 'k' || letter == 'e'
  }

  lemma ExtensionsEndOtherwise()
    ensures forall k :: 0 <= k < |STATIC_EXTENSIONS| ==>
              |STATIC_EXTENSIONS[k]| > 0 && !PlainEnding(STATIC_EXTENSIONS[k][|STATIC_EXTENSIONS[k]| - 1])
  {
  }

  lemma NoExtension(path: string)
    requires |path| > 0 && PlainEnding(path[|path| - 1])
    ensures forall e :: e in STATIC_EXTENSIONS ==> !EndsWith(path, e)
  {
    ExtensionsEndOtherwise();
    hide STATIC_EXTENSIONS, EndsWith, PlainEnding;
    forall e | e in STATIC_EXTENSIONS ensures !EndsWith(path, e) {
      OtherEnding(path, e);
    }
  }

  /** Paths that the matcher lets the proxy see: no prefix of static files, and another last letter. */
  lemma NoStaticFile(path: string)
    requires |path| > 4 && (path[1] == 'r' || (path[1] == 'a' && path[2] == 'c'))
    requires PlainEnding(path[|path| - 1])
    ensures !Bypasses(path)
  {
    NoExtension(path);
    hide STATIC_EXTENSIONS, EndsWith, PlainEnding;
    assert |path| >= 12 ==> path[..8][1] == path[1];
  }

  // ----- A link whose locale is lost

  /**
   An invitation in German, addressed to the check host: the cookie stays there, and on the app host
   a browser that prefers English opens it in English.
   */
  lemma LocaleIsLost()
    ensures var site := Site("check", "app", "", ["de", "en"], h => h);
            var url := Url("check", "/accept-invite", [Param("token", "tok"), Param("lang", "de")]);
            var l := Follow(site, Browser(map[], "en"), url);
            && FromLink(site, url) == Some("de") && l.decision == Serve
            && l.url == Url("app", "/accept-invite", [Param("token", "tok")])
            && Shown(site, l.browser, "app") == Some("en")
  {
    var site := Site("check", "app", "", ["de", "en"], h => h);
    var b := Browser(map[], "en");
    var url := Url("check", "/accept-invite", [Param("token", "tok"), Param("lang", "de")]);
    assert "check"[0] != "app"[0];
    StartsOne(url.path, TOKEN_AUTH_PATHS, 0);
    NoStaticFile(url.path);
    GermanLink(site, url);
    TokenLinkRouting(site, CookiesFor(site, b, "app"), "en", url);
    TokenLinkIsServed(site, b, url);
    hide Bypasses, IsTokenLink, CheckTarget, IsCrawlerPath, IsCardPath, Follow, StartsWithSome, Routed, Rank, Stored,
         TOKEN_AUTH_PATHS;
    assert CookiesFor(site, b, "app") == Cookies(false, false, None);
    LocaleArrives(site, b, url);
    hide CookiesFor;
  }

  lemma GermanLink(site: Site, url: Url)
    requires site.locales == ["de", "en"] && url.query == [Param("token", "tok"), Param("lang", "de")]
    ensures FromLink(site, url) == Some("de") && Without(url.query, "lang") == [Param("token", "tok")]
    ensures forall l :: l in site.locales ==> Locale.TwoLetters(l)
  {
    assert "token"[0] != "lang"[0];
    assert url.query[1..] == [Param("lang", "de")] && url.query[1..][1..] == [];
    assert First(url.query[1..], "lang") == Some("de");
    assert Without(url.query[1..], "lang") == [];
    SupportedIsStable(site.locales, "de");
  }
}
