/** The frontend proxy: one decision for every document request, and the chains of redirects it makes. */
module Proxy {
  import opened Common
  import opened Text
  import Locale

  // ----- Requests

  /**
   The deployment: host name of the public check ("" when off), host of the app origin ("" when
   unset), marketing domain ("" when none), interface locales, and how URLs yield host names.
   */
  datatype Site = Site(check: string, app: string, marketing: string, locales: seq<string>, hostname: string -> string)

  datatype Param = Param(key: string, value: string)
  datatype Url = Url(host: string, path: string, query: seq<Param>)
  datatype Cookies = Cookies(hasToken: bool, demo: bool, locale: Option<string>)

  /** A browser: its cookies by host name, and the locale its Accept-Language resolves to. */
  datatype Browser = Browser(jar: map<string, Cookies>, preferred: string)

  datatype Decision =
    | Serve
    | Rewrite(page: string, query: seq<Param>)
    | Redirect(url: Url)
    | Leave(marketing: Url)

  /** The decision, and the locale cookie set with it. */
  datatype Response = Response(decision: Decision, locale: Option<string>)

  // ----- Paths

  const MARKETING_PATHS: seq<string> := [
    "/pricing", "/docs", "/tour", "/changelog", "/blog", "/personal-brand", "/privacy", "/terms", "/security", "/demo" ]
  const MARKETING_PREFIXES: seq<string> := ["/docs/", "/methodology/", "/blog/"]
  const AUTH_PATHS: seq<string> := [
    "/login", "/register", "/forgot-password", "/reset-password", "/verify-email", "/accept-invite", "/magic-login" ]
  const TOKEN_AUTH_PATHS: seq<string> := ["/accept-invite", "/magic-login", "/verify-email", "/reset-password"]
  const TOKEN_PUBLIC_PREFIXES: seq<string> := [
    "/recruitment/invite/", "/recruitment/consent/", "/reports/share/", "/public/assessments/", "/demo-handoff" ]
  const APP_COMPANY_SEGMENTS: seq<string> := ["positions", "divisions", "profile", "specializations"]
  const STATIC_EXTENSIONS: seq<string> := [".jpg", ".jpeg", ".png", ".svg", ".gif", ".ico", ".webp", ".webmanifest"]

  predicate StartsWithSome(path: string, prefixes: seq<string>) {
    exists p :: p in prefixes && StartsWith(path, p)
  }

  predicate OneSegment(s: string) {
    s != [] && '/' !in s
  }

  /** `prefix` followed by one non-empty segment. */
  predicate Below(path: string, prefix: string) {
    StartsWith(path, prefix) && OneSegment(path[|prefix|..])
  }

  predicate IsMarketingPath(path: string) {
    path in MARKETING_PATHS || StartsWithSome(path, MARKETING_PREFIXES)
  }

  predicate IsAuthPath(path: string) {
    StartsWithSome(path, AUTH_PATHS)
  }

  predicate IsPublicCompanyPath(path: string) {
    Below(path, "/company/") && path[9..] !in APP_COMPANY_SEGMENTS
  }

  predicate IsTokenPublicPath(path: string) {
    StartsWithSome(path, TOKEN_PUBLIC_PREFIXES)
  }

  predicate IsCheckPath(path: string) {
    path == "/check" || StartsWith(path, "/check/")
  }

  predicate IsCrawlerPath(path: string) {
    path == "/robots.txt" || path == "/sitemap.xml"
  }

  predicate IsResultPath(path: string) {
    Below(path, "/r/")
  }

  predicate IsGalleryPath(path: string) {
    path == "/gallery" || Below(path, "/gallery/")
  }

  /** Two segments below `/my/`. */
  predicate TwoBelowMy(path: string) {
    StartsWith(path, "/my/") &&
    exists i :: 4 <= i < |path| && path[i] == '/' && OneSegment(path[4..i]) && OneSegment(path[i + 1..])
  }

  predicate IsSavedCheckPath(path: string) {
    || Below(path, "/confirm/") || Below(path, "/unsubscribe/")
    || path == "/my" || Below(path, "/my/") || TwoBelowMy(path)
  }

  predicate IsCard(rest: string) {
    StartsWith(rest, "/opengraph-image")
  }

  /** A segment from place `n` on, and then a card. */
  predicate CardAfter(rest: string, n: nat) {
    exists i :: n <= i <= |rest| && OneSegment(rest[n..i]) && IsCard(rest[i..])
  }

  /** The link-preview cards of the check, of a result, of the gallery and of its entries. */
  predicate IsCardPath(path: string) {
    StartsWith(path, "/check") &&
    var rest := path[6..];
    || IsCard(rest)
    || (StartsWith(rest, "/r/") && CardAfter(rest, 3))
    || (StartsWith(rest, "/gallery") && IsCard(rest[8..]))
    || (StartsWith(rest, "/gallery/") && CardAfter(rest, 9))
  }

  predicate EndsWith(s: string, suffix: string) {
    |suffix| <= |s| && s[|s| - |suffix|..] == suffix
  }

  /** What the matcher keeps from the proxy: the API, static files and images. */
  predicate Bypasses(path: string) {
    || StartsWith(path, "/api") || StartsWith(path, "/_next/static") || StartsWith(path, "/_next/image")
    || StartsWith(path, "/site.webmanifest")
    || (|path| >= 12 && path[..8] == "/favicon" && path[9..12] == "ico")
    || exists e :: e in STATIC_EXTENSIONS && EndsWith(path, e)
  }

  // ----- Query parameters

  function First(query: seq<Param>, key: string): Option<string> {
    if query == [] then None
    else if query[0].key == key then Some(query[0].value)
    else First(query[1..], key)
  }

  function Without(query: seq<Param>, key: string): seq<Param> {
    if query == [] then []
    else (if query[0].key == key then [] else [query[0]]) + Without(query[1..], key)
  }

  function Search(query: seq<Param>): string {
    if query == [] then "" else "?" + Pairs(query)
  }

  function Pairs(query: seq<Param>): string
    requires query != []
  {
    query[0].key + "=" + query[0].value + if |query| == 1 then "" else "&" + Pairs(query[1..])
  }

  // ----- The proxy

  predicate AtCheckHost(site: Site, host: string) {
    site.check != "" && site.hostname(host) == site.check
  }

  /** The locale cookie is made sticky unless a valid one is there. */
  function Sticky(site: Site, cookies: Cookies, preferred: string): Option<string> {
    if Locale.Normalize(site.locales, cookies.locale).Some? then None else Some(preferred)
  }

  /** The supported locale a link asks for. */
  function FromLink(site: Site, url: Url): Option<string> {
    Locale.Normalize(site.locales, First(url.query, "lang"))
  }

  /** /login with the destination as `next`, provided it is a path of this origin. */
  function LoginFor(url: Url): Url {
    var dest := url.path + Search(url.query);
    if |dest| >= 2 && dest[0] == '/' && dest[1] != '/' && dest[1] != '\\'
    then Url(url.host, "/login", [Param("next", dest)])
    else Url(url.host, "/login", [])
  }

  function CheckTarget(path: string): Option<string> {
    if path == "/" then Some("/check")
    else if IsResultPath(path) || IsSavedCheckPath(path) || IsGalleryPath(path) then Some("/check" + path)
    else None
  }

  /** The check host serves the check and sends every other page to the app host; None leaves it to `Routed`. */
  function CheckHostResponse(site: Site, cookies: Cookies, preferred: string, url: Url): Option<Response> {
    var target := CheckTarget(url.path);
    if target.Some? then Some(Response(Rewrite(target.value, url.query), Sticky(site, cookies, preferred)))
    else if site.app == "" || IsCrawlerPath(url.path) || IsCardPath(url.path) then None
    else Some(Response(Redirect(url.(host := site.app)), None))
  }

  function Routed(site: Site, cookies: Cookies, preferred: string, url: Url): Response {
    var sticky := Sticky(site, cookies, preferred);
    if url.path == "/"
    then Response(Redirect(Url(url.host, if cookies.hasToken then "/dashboard" else "/login", [])), sticky)
    else if IsCrawlerPath(url.path) then Response(Serve, None)
    else if site.marketing != "" && url.host != site.marketing && IsMarketingPath(url.path) then
      Response(Leave(url.(host := site.marketing)), None)
    else if IsAuthPath(url.path) then
      if cookies.hasToken && !cookies.demo && !StartsWithSome(url.path, TOKEN_AUTH_PATHS)
      then Response(Redirect(Url(url.host, "/dashboard", [])), None)
      else Response(Serve, sticky)
    else if site.check != "" && IsCheckPath(url.path) then Response(Serve, sticky)
    else if IsPublicCompanyPath(url.path) || IsTokenPublicPath(url.path) then Response(Serve, sticky)
    else if !cookies.hasToken then Response(Redirect(LoginFor(url)), sticky)
    else Response(Serve, sticky)
  }

  /** The answer to a document request. `?lang=` is consumed before any routing. */
  function Respond(site: Site, cookies: Cookies, preferred: string, url: Url): Response {
    if Bypasses(url.path) then Response(Serve, None)
    else
      var lang := FromLink(site, url);
      if lang.Some? then Response(Redirect(url.(query := Without(url.query, "lang"))), lang)
      else
        var onCheck := if AtCheckHost(site, url.host) then CheckHostResponse(site, cookies, preferred, url) else None;
        onCheck.GetOr(Routed(site, cookies, preferred, url))
  }

  // ----- Following redirects

  function CookiesFor(site: Site, b: Browser, host: string): Cookies {
    if site.hostname(host) in b.jar then b.jar[site.hostname(host)] else Cookies(false, false, None)
  }

  function Answer(site: Site, b: Browser, url: Url): Response {
    Respond(site, CookiesFor(site, b, url.host), b.preferred, url)
  }

  /** The browser after a response: cookies belong to the answering host alone. */
  function Stored(site: Site, b: Browser, url: Url): Browser {
    match Answer(site, b, url).locale
    case None => b
    case Some(l) =>
      b.(jar := b.jar[site.hostname(url.host) := CookiesFor(site, b, url.host).(locale := Some(l))])
  }

  predicate AppIsCheckHost(site: Site) {
    site.app != "" && AtCheckHost(site, site.app)
  }

  /** The check host sends this page to the app host. */
  predicate Bounced(site: Site, url: Url) {
    && AtCheckHost(site, url.host) && CheckTarget(url.path).None? && site.app != ""
    && !IsCrawlerPath(url.path) && !IsCardPath(url.path)
  }

  /** How many redirects can still follow. */
  function Rank(site: Site, b: Browser, url: Url): nat {
    if Bypasses(url.path) then 0
    else
      (if FromLink(site, url).Some? then 1 else 0) +
      if Bounced(site, url) then 2
      else if Routed(site, CookiesFor(site, b, url.host), b.preferred, url).decision.Redirect? then 1
      else 0
  }

  lemma {:induction false} NoLangLeft(query: seq<Param>, key: string)
    ensures First(Without(query, key), key).None?
    ensures Without(Without(query, key), key) == Without(query, key)
  {
    if query != [] {
      NoLangLeft(query[1..], key);
      var rest := Without(query[1..], key);
      assert [] + rest == rest;
      assert ([query[0]] + rest)[0] == query[0] && ([query[0]] + rest)[1..] == rest;
    }
  }

  /** `path` begins with none of the prefixes, as it differs from each at the place given. */
  lemma NoneStarts(path: string, prefixes: seq<string>, at: seq<nat>)
    requires |at| == |prefixes|
    requires forall k :: 0 <= k < |at| ==> at[k] < |path| && at[k] < |prefixes[k]| && path[at[k]] != prefixes[k][at[k]]
    ensures !StartsWithSome(path, prefixes) && path !in prefixes
  {
    forall k | 0 <= k < |at| ensures !StartsWith(path, prefixes[k]) && path != prefixes[k] {
    }
  }

  lemma LoginIsPlain(site: Site, cookies: Cookies, preferred: string, host: string, query: seq<Param>)
    requires !cookies.hasToken
    ensures Routed(site, cookies, preferred, Url(host, "/login", query)).decision == Serve
  {
    var path := "/login";
    assert IsAuthPath(path) by {
      assert AUTH_PATHS[0] == path && StartsWith(path, path);
    }
    NoneStarts(path, MARKETING_PATHS, [1, 1, 1, 1, 1, 1, 1, 1, 1, 1]);
    NoneStarts(path, MARKETING_PREFIXES, [1, 1, 1]);
  }

  lemma DashboardIsPlain(site: Site, cookies: Cookies, preferred: string, host: string)
    requires cookies.hasToken
    ensures Routed(site, cookies, preferred, Url(host, "/dashboard", [])).decision == Serve
  {
    var path := "/dashboard";
    NoneStarts(path, MARKETING_PATHS, [1, 2, 1, 1, 1, 1, 1, 1, 1, 2]);
    NoneStarts(path, MARKETING_PREFIXES, [2, 1, 1]);
    NoneStarts(path, AUTH_PATHS, [1, 1, 1, 1, 1, 1, 1]);
  }

  lemma CardIsCheckPath(path: string)
    requires IsCardPath(path)
    ensures IsCheckPath(path) && |path| > 7 && path[..7] == "/check/"
  {
    assert path[6] == path[6..][0] == '/';
    assert path[..7] == path[..6] + [path[6]];
  }

  lemma CheckIsServed(site: Site, cookies: Cookies, preferred: string, url: Url)
    requires site.check != "" && IsCardPath(url.path)
    ensures Routed(site, cookies, preferred, url).decision == Serve
  {
    CardIsCheckPath(url.path);
    NoneStarts(url.path, MARKETING_PATHS, [1, 1, 1, 3, 1, 1, 1, 1, 1, 1]);
    NoneStarts(url.path, MARKETING_PREFIXES, [1, 1, 1]);
    NoneStarts(url.path, AUTH_PATHS, [1, 1, 1, 1, 1, 1, 1]);
    hide IsCardPath;
  }

  /** A redirect of the normal routing lands on a page that is served. */
  lemma LandsAtOnce(site: Site, cookies: Cookies, later: Cookies, preferred: string, url: Url)
    requires Routed(site, cookies, preferred, url).decision.Redirect?
    requires later.hasToken == cookies.hasToken && later.demo == cookies.demo
    ensures var next := Routed(site, cookies, preferred, url).decision.url;
            && next.host == url.host && First(next.query, "lang").None?
            && Routed(site, later, preferred, next).decision == Serve
  {
    var next := Routed(site, cookies, preferred, url).decision.url;
    assert next.path == (if cookies.hasToken then "/dashboard" else "/login");
    hide IsMarketingPath, IsAuthPath, IsCheckPath, IsPublicCompanyPath, IsTokenPublicPath, IsCrawlerPath,
         StartsWithSome;
    assert next.query == [] || (|next.query| == 1 && next.query[0].key == "next" && !cookies.hasToken);
    assert "next"[0] != "lang"[0];
    hide Routed;
    if cookies.hasToken {
      DashboardIsPlain(site, later, preferred, next.host);
    } else {
      LoginIsPlain(site, later, preferred, next.host, next.query);
    }
  }

  /** Which redirect the routing makes depends on the session cookies and the path only. */
  lemma SameKind(site: Site, cookies: Cookies, later: Cookies, preferred: string, url: Url, query: seq<Param>)
    requires later.hasToken == cookies.hasToken && later.demo == cookies.demo
    ensures Routed(site, later, preferred, url.(query := query)).decision.Redirect?
       <==> Routed(site, cookies, preferred, url).decision.Redirect?
  {
  }

  lemma StoredKeepsSession(site: Site, b: Browser, url: Url, host: string)
    ensures var before, after := CookiesFor(site, b, host), CookiesFor(site, Stored(site, b, url), host);
            && after.hasToken == before.hasToken && after.demo == before.demo
            && (site.hostname(host) != site.hostname(url.host) ==> after == before)
            && (site.hostname(host) == site.hostname(url.host) ==>
                  after.locale ==
                  (if Answer(site, b, url).locale.Some? then Answer(site, b, url).locale else before.locale))
    ensures Stored(site, b, url).preferred == b.preferred
  {
    hide Answer;
  }

  lemma RedirectLowersRank(site: Site, b: Browser, url: Url)
    requires !AppIsCheckHost(site) && Answer(site, b, url).decision.Redirect?
    ensures Rank(site, Stored(site, b, url), Answer(site, b, url).decision.url) < Rank(site, b, url)
  {
    var next, cookies := Answer(site, b, url).decision.url, CookiesFor(site, b, url.host);
    var later := CookiesFor(site, Stored(site, b, url), url.host);
    StoredKeepsSession(site, b, url, url.host);
    NoLangLeft(url.query, "lang");
    if FromLink(site, url).Some? {
      SameKind(site, cookies, later, b.preferred, url, next.query);
      hide Stored, Routed, CookiesFor, Bypasses, CheckTarget, IsCardPath, IsCrawlerPath;
    } else if Bounced(site, url) {
      hide Stored, Routed, CookiesFor, Bypasses, CheckTarget, IsCardPath, IsCrawlerPath;
    } else {
      assert Routed(site, cookies, b.preferred, url).decision == Answer(site, b, url).decision by {
        hide Routed, CookiesFor, Bypasses, CheckTarget, IsCardPath, IsCrawlerPath;
      }
      LandsAtOnce(site, cookies, later, b.preferred, url);
      assert !Bounced(site, next) by {
        if AtCheckHost(site, url.host) && IsCardPath(url.path) {
          CheckIsServed(site, cookies, b.preferred, url);
        }
        hide IsCardPath, CookiesFor, Bypasses, CheckTarget;
      }
      hide Stored, Routed, CookiesFor, Bypasses, CheckTarget, IsCardPath, IsCrawlerPath, Bounced;
    }
  }

  /** Where a chain of redirects ends: the last URL, the decision taken there, the browser after it, and the hops. */
  datatype Landing = Landing(url: Url, decision: Decision, browser: Browser, hops: nat)

  /** Following redirects ends, after at most three. */
  function Follow(site: Site, b: Browser, url: Url): (l: Landing)
    requires !AppIsCheckHost(site)
    ensures !l.decision.Redirect? && l.hops <= Rank(site, b, url) <= 3
    decreases Rank(site, b, url)
  {
    var answer := Answer(site, b, url);
    if answer.decision.Redirect? then
      RedirectLowersRank(site, b, url);
      var l := Follow(site, Stored(site, b, url), answer.decision.url);
      l.(hops := l.hops + 1)
    else Landing(url, answer.decision, Stored(site, b, url), 0)
  }

  // ----- When chains end

  /** The answer sends the browser to the very same URL and leaves it as it was. */
  predicate Loops(site: Site, b: Browser, url: Url) {
    Answer(site, b, url).decision == Redirect(url) && Stored(site, b, url) == b
  }

  /** Every chain ends, unless the app origin's host is the check host: then some request is sent to itself for ever. */
  lemma EndsUnlessAppIsCheckHost(site: Site)
    ensures AppIsCheckHost(site) <==> exists b, url :: Loops(site, b, url)
  {
    if AppIsCheckHost(site) {
      var b, url := Browser(map[], "en"), Url(site.app, "/x", []);
      ShortPathIsPlain(site, url);
      assert Loops(site, b, url) by {
        hide Bypasses, CheckTarget, IsCardPath, IsCrawlerPath, Routed, CookiesFor;
      }
    } else {
      forall b, url | Answer(site, b, url).decision == Redirect(url) ensures Stored(site, b, url) != b {
        RedirectLowersRank(site, b, url);
        hide Rank, Answer, Stored;
      }
    }
  }

  lemma ShortPathReachesRouting(path: string)
    requires path == "/x"
    ensures !Bypasses(path) && CheckTarget(path).None? && !IsCrawlerPath(path) && !IsCardPath(path)
  {
    assert forall e :: e in STATIC_EXTENSIONS ==> |e| >= 4;
    hide STATIC_EXTENSIONS, OneSegment, IsCard;
  }

  lemma ShortPathIsNoPublicPage(path: string)
    requires path == "/x"
    ensures !IsMarketingPath(path) && !IsAuthPath(path) && !IsTokenPublicPath(path)
  {
    NoneStarts(path, MARKETING_PATHS, [1, 1, 1, 1, 1, 1, 1, 1, 1, 1]);
    NoneStarts(path, MARKETING_PREFIXES, [1, 1, 1]);
    NoneStarts(path, AUTH_PATHS, [1, 1, 1, 1, 1, 1, 1]);
    NoneStarts(path, TOKEN_PUBLIC_PREFIXES, [1, 1, 1, 1, 1]);
  }

  /** A path of the app that is none of the special ones. */
  lemma ShortPathIsPlain(site: Site, url: Url)
    requires url.path == "/x"
    ensures !Bypasses(url.path) && CheckTarget(url.path).None? && !IsCrawlerPath(url.path) && !IsCardPath(url.path)
    ensures forall cookies: Cookies, preferred :: !cookies.hasToken ==>
              Routed(site, cookies, preferred, url).decision == Redirect(LoginFor(url))
  {
    ShortPathReachesRouting(url.path);
    ShortPathIsNoPublicPage(url.path);
    assert !IsCheckPath(url.path) && !IsPublicCompanyPath(url.path) && url.path != "/";
    hide IsMarketingPath, IsAuthPath, IsCheckPath, IsPublicCompanyPath, IsTokenPublicPath, IsCrawlerPath, Bypasses,
         CheckTarget, IsCardPath, LoginFor, Sticky;
  }

  /** Three redirects do happen: a link to the check host that carries a locale and names a page of the app. */
  lemma ThreeAreReached(site: Site, b: Browser, host: string, locale: string)
    requires AtCheckHost(site, host) && site.app != "" && !AppIsCheckHost(site)
    requires Locale.Normalize(site.locales, Some(locale)).Some? && !CookiesFor(site, b, site.app).hasToken
    ensures Follow(site, b, Url(host, "/x", [Param("lang", locale)])).hops == 3
  {
    var first, second, third := Url(host, "/x", [Param("lang", locale)]), Url(host, "/x", []), Url(site.app, "/x", []);
    ShortPathIsPlain(site, first);
    ShortPathIsPlain(site, second);
    ShortPathIsPlain(site, third);
    var b1 := Stored(site, b, first);
    var b2 := Stored(site, b1, second);
    StoredKeepsSession(site, b, first, site.app);
    StoredKeepsSession(site, b1, second, site.app);
    assert Answer(site, b, first).decision == Redirect(second) by {
      assert first.query[1..] == [] && first.query[0].key == "lang";
      assert First(first.query, "lang") == Some(locale) && Without(first.query, "lang") == [];
      hide First, Without, Bypasses, CheckTarget, IsCardPath, IsCrawlerPath, Routed, CookiesFor;
    }
    assert Answer(site, b1, second).decision == Redirect(third) by {
      hide Bypasses, CheckTarget, IsCardPath, IsCrawlerPath, Routed, CookiesFor;
    }
    assert Answer(site, b2, third).decision == Redirect(LoginFor(third)) by {
      hide Bypasses, CheckTarget, IsCardPath, IsCrawlerPath, Routed, CookiesFor, LoginFor;
    }
    hide Answer, Stored, Rank, CookiesFor;
    assert Follow(site, b2, third).hops >= 1;
    assert Follow(site, b1, second).hops == Follow(site, b2, third).hops + 1;
    assert Follow(site, b, first).hops == Follow(site, b1, second).hops + 1;
  }
}
