/** Where a browser ends up, path by path: the proxy's lists and orders of tests read off their outcome. */
module ProxyMap {
  import opened Common
  import opened Text
  import opened Proxy
  import opened ProxyLinks
  import opened ProxyPages

  /** The pages of the marketing site. */
  predicate OnMarketingSite(path: string) {
    || path == "/pricing" || path == "/docs" || path == "/tour" || path == "/changelog" || path == "/blog"
    || path == "/personal-brand" || path == "/privacy" || path == "/terms" || path == "/security" || path == "/demo"
    || StartsWith(path, "/docs/") || StartsWith(path, "/methodology/") || StartsWith(path, "/blog/")
  }

  predicate TakesToken(path: string) {
    || StartsWith(path, "/accept-invite") || StartsWith(path, "/magic-login")
    || StartsWith(path, "/verify-email") || StartsWith(path, "/reset-password")
  }

  /** The forms for those who are not signed in. */
  predicate IsForm(path: string) {
    || StartsWith(path, "/login") || StartsWith(path, "/register") || StartsWith(path, "/forgot-password")
    || TakesToken(path)
  }

  /** A company's page is public unless the app has a page of that name. */
  predicate IsCompanyPage(path: string) {
    && StartsWith(path, "/company/") && path != "/company/" && '/' !in path[9..]
    && path != "/company/positions" && path != "/company/divisions"
    && path != "/company/profile" && path != "/company/specializations"
  }

  predicate IsTokenPage(path: string) {
    || StartsWith(path, "/recruitment/invite/") || StartsWith(path, "/recruitment/consent/")
    || StartsWith(path, "/reports/share/") || StartsWith(path, "/public/assessments/")
    || StartsWith(path, "/demo-handoff")
  }

  predicate IsOpenToAll(site: Site, path: string) {
    || path == "/robots.txt" || path == "/sitemap.xml"
    || IsForm(path) || IsCompanyPage(path)
    || (site.check != "" && (path == "/check" || StartsWith(path, "/check/")))
    || IsTokenPage(path)
  }

  // The lists of the proxy hold these and no others.

  lemma ListedForms(path: string)
    ensures IsAuthPath(path) <==> IsForm(path)
    ensures StartsWithSome(path, TOKEN_AUTH_PATHS) <==> TakesToken(path)
  {
    assert forall p :: p in AUTH_PATHS <==> exists k :: 0 <= k < 7 && AUTH_PATHS[k] == p;
  }

  lemma ListedMarketing(path: string)
    ensures IsMarketingPath(path) <==> OnMarketingSite(path)
  {
  }

  lemma ListedTokenPages(path: string)
    ensures IsTokenPublicPath(path) <==> IsTokenPage(path)
  {
  }

  lemma ListedCompanyPages(path: string)
    ensures IsPublicCompanyPath(path) <==> IsCompanyPage(path)
  {
    if StartsWith(path, "/company/") {
      assert path == "/company/" + path[9..];
    }
  }

  /** What a path comes to for a browser on an ordinary host. */
  datatype End = Dashboard | Form | Leaves | Itself

  function EndOf(site: Site, cookies: Cookies, host: string, path: string): End {
    if path == "/robots.txt" || path == "/sitemap.xml" then Itself
    else if site.marketing != "" && host != site.marketing && OnMarketingSite(path) then Leaves
    else if cookies.hasToken then
      if path == "/" || (IsForm(path) && !TakesToken(path) && !cookies.demo) then Dashboard else Itself
    else if IsOpenToAll(site, path) then Itself
    else Form
  }

  ghost predicate DecidedAs(end: End, decision: Decision, site: Site, url: Url) {
    match end
    case Dashboard => decision == Redirect(Url(url.host, "/dashboard", []))
    case Form => decision == Redirect(if url.path == "/" then Url(url.host, "/login", []) else LoginFor(url))
    case Leaves => decision == Leave(url.(host := site.marketing))
    case Itself => decision == Serve
  }

  /** The login form is told the destination, unless that is the root or leads off the host. */
  function NextFor(url: Url): seq<Param> {
    var dest := url.path + Search(url.query);
    if url.path != "/" && dest != "/" && StartsWith(dest, "/") && !StartsWith(dest, "//") && !StartsWith(dest, "/\\")
    then [Param("next", dest)] else []
  }

  lemma LoginIsToldNext(url: Url)
    requires url.path != "/"
    ensures LoginFor(url) == Url(url.host, "/login", NextFor(url))
  {
    hide Search;
  }

  ghost predicate EndsAs(end: End, l: Landing, site: Site, url: Url) {
    match end
    case Dashboard => l.decision == Serve && l.url == Url(url.host, "/dashboard", [])
    case Form => l.decision == Serve && l.url == Url(url.host, "/login", NextFor(url))
    case Leaves => l.decision == Leave(url.(host := site.marketing))
    case Itself => l.decision == Serve && l.url == url
  }

  lemma RootIsListedNowhere(site: Site, path: string)
    ensures path == "/" ==> !IsForm(path) && !IsOpenToAll(site, path) && !OnMarketingSite(path)
  {
  }

  lemma RoutedByPath(site: Site, cookies: Cookies, preferred: string, url: Url)
    ensures DecidedAs(EndOf(site, cookies, url.host, url.path), Routed(site, cookies, preferred, url).decision,
                      site, url)
  {
    ListedForms(url.path);
    ListedMarketing(url.path);
    ListedTokenPages(url.path);
    ListedCompanyPages(url.path);
    RootIsListedNowhere(site, url.path);
    hide IsAuthPath, IsMarketingPath, IsTokenPublicPath, IsPublicCompanyPath, StartsWithSome, Sticky, LoginFor, IsForm,
         TakesToken, OnMarketingSite, IsCompanyPage, IsTokenPage;
  }

  /**
   Where every page ends for every browser, off the check host and static files aside. Crawler files
   answer everybody; marketing pages leave for their domain; a signed-in browser gets every other page
   itself, but the dashboard for `/` and, outside a demo, for the forms that take no token; one that is
   not gets what is open to all, and the login form of that host for everything else.
   */
  lemma WhereItEnds(site: Site, b: Browser, url: Url)
    requires !AppIsCheckHost(site) && !AtCheckHost(site, url.host) && !Bypasses(url.path)
    ensures var l, cookies := Follow(site, b, url), CookiesFor(site, b, url.host);
            var plain := if FromLink(site, url).Some? then url.(query := Without(url.query, "lang")) else url;
            EndsAs(EndOf(site, cookies, url.host, url.path), l, site, plain)
  {
    var plain := if FromLink(site, url).Some? then url.(query := Without(url.query, "lang")) else url;
    OffTheCheckHost(site, b, url);
    RoutedByPath(site, CookiesFor(site, b, url.host), b.preferred, plain);
    if url.path != "/" {
      LoginIsToldNext(plain);
    }
    hide Follow, Routed, CookiesFor, FromLink, Without, EndOf, LoginFor, Search, AtCheckHost, AppIsCheckHost, Bypasses;
  }

  /**
   Without a session the page of a company is served if and only if its name is none of four; these
   are pages of the app, which asks for a login.
   */
  lemma CompanyPages(site: Site, b: Browser, host: string, name: string)
    requires !AppIsCheckHost(site) && !AtCheckHost(site, host) && !CookiesFor(site, b, host).hasToken
    requires name != "" && '/' !in name && !Bypasses("/company/" + name)
    ensures var l := Follow(site, b, Url(host, "/company/" + name, []));
            && l.decision == Serve && l.url.host == host
            && l.url.path == if name == "positions" || name == "divisions" || name == "profile"
                                || name == "specializations" then "/login" else "/company/" + name
  {
    var url := Url(host, "/company/" + name, []);
    WhereItEnds(site, b, url);
    CompanyEnd(site, host, name);
    hide Follow, CookiesFor, FromLink, Without, AtCheckHost, AppIsCheckHost, Bypasses;
  }

  lemma CompanyNames(name: string)
    requires name != "" && '/' !in name
    ensures IsCompanyPage("/company/" + name) <==>
            name != "positions" && name != "divisions" && name != "profile" && name != "specializations"
  {
    assert ("/company/" + name)[9..] == name;
  }

  /** A path that begins with the letters of `/company/`. */
  predicate CompanyLetters(path: string) {
    |path| > 3 && path[1] == 'c' && path[2] == 'o' && path[3] == 'm'
  }

  lemma CompanyIsNoMarketing(path: string)
    requires CompanyLetters(path)
    ensures !OnMarketingSite(path)
  {
  }

  lemma CompanyIsNoForm(path: string)
    requires CompanyLetters(path)
    ensures !IsForm(path)
  {
  }

  lemma CompanyIsNoTokenPage(path: string)
    requires CompanyLetters(path)
    ensures !IsTokenPage(path) && path != "/robots.txt" && path != "/sitemap.xml"
    ensures path != "/check" && !StartsWith(path, "/check/")
  {
  }

  lemma CompanyEnd(site: Site, host: string, name: string)
    requires name != "" && '/' !in name
    ensures forall cookies: Cookies :: !cookies.hasToken ==>
              EndOf(site, cookies, host, "/company/" + name) ==
              if name == "positions" || name == "divisions" || name == "profile" || name == "specializations"
              then Form else Itself
  {
    CompanyNames(name);
    CompanyIsNoMarketing("/company/" + name);
    CompanyIsNoForm("/company/" + name);
    CompanyIsNoTokenPage("/company/" + name);
    hide IsCompanyPage, IsForm, OnMarketingSite, IsTokenPage;
  }

  // ----- Static files

  predicate EndsIn(path: string, ending: string) {
    exists k :: 0 <= k <= |path| && path == path[..k] + ending
  }

  /** What the proxy never touches. */
  predicate IsStatic(path: string) {
    || StartsWith(path, "/api") || StartsWith(path, "/_next/static") || StartsWith(path, "/_next/image")
    || StartsWith(path, "/site.webmanifest") || (exists c: char :: StartsWith(path, "/favicon" + [c] + "ico"))
    || HasEnding(path)
  }

  lemma EndsWithIsEndsIn(path: string, ending: string)
    ensures EndsWith(path, ending) <==> EndsIn(path, ending)
  {
    if EndsWith(path, ending) {
      var k := |path| - |ending|;
      assert path == path[..k] + ending;
    }
    if EndsIn(path, ending) {
      var k :| 0 <= k <= |path| && path == path[..k] + ending;
      assert k == |path| - |ending|;
    }
  }

  lemma FaviconPath(path: string)
    ensures (|path| >= 12 && path[..8] == "/favicon" && path[9..12] == "ico") <==>
            exists c: char :: StartsWith(path, "/favicon" + [c] + "ico")
  {
    if |path| >= 12 && path[..8] == "/favicon" && path[9..12] == "ico" {
      assert path[..12] == "/favicon" + [path[8]] + "ico";
    }
    if c: char :| StartsWith(path, "/favicon" + [c] + "ico") {
      assert path[..12] == "/favicon" + [c] + "ico";
    }
  }

  predicate HasEnding(path: string) {
    || EndsIn(path, ".jpg") || EndsIn(path, ".jpeg") || EndsIn(path, ".png") || EndsIn(path, ".svg")
    || EndsIn(path, ".gif") || EndsIn(path, ".ico") || EndsIn(path, ".webp") || EndsIn(path, ".webmanifest")
  }

  predicate IsEnding(e: string) {
    || e == ".jpg" || e == ".jpeg" || e == ".png" || e == ".svg"
    || e == ".gif" || e == ".ico" || e == ".webp" || e == ".webmanifest"
  }

  lemma ListedEndings()
    ensures forall e :: e in STATIC_EXTENSIONS <==> IsEnding(e)
  {
  }

  lemma AnyEnding(path: string)
    ensures (exists e :: IsEnding(e) && EndsWith(path, e)) <==> HasEnding(path)
  {
    EndsWithIsEndsIn(path, ".jpg");
    EndsWithIsEndsIn(path, ".jpeg");
    EndsWithIsEndsIn(path, ".png");
    EndsWithIsEndsIn(path, ".svg");
    EndsWithIsEndsIn(path, ".gif");
    EndsWithIsEndsIn(path, ".ico");
    EndsWithIsEndsIn(path, ".webp");
    EndsWithIsEndsIn(path, ".webmanifest");
    hide EndsIn, EndsWith;
  }

  lemma StaticFiles(path: string)
    ensures Bypasses(path) <==> IsStatic(path)
  {
    FaviconPath(path);
    ListedEndings();
    AnyEnding(path);
    hide EndsIn, EndsWith, HasEnding, IsEnding, STATIC_EXTENSIONS;
  }

  /** They are served as they are asked for, whatever the host, the cookies and the parameters. */
  lemma StaticFilesPass(site: Site, b: Browser, url: Url)
    requires !AppIsCheckHost(site) && IsStatic(url.path)
    ensures Follow(site, b, url) == Landing(url, Serve, b, 0)
  {
    StaticFiles(url.path);
    hide IsStatic, Bypasses, Rank, AppIsCheckHost;
    assert Answer(site, b, url) == Response(Serve, None);
  }

  // ----- The check host

  /** The path is `name` alone, or `name` and one further segment, or two of them. */
  predicate IsJust(path: string, name: string) {
    Split(path, '/') == ["", name]
  }

  predicate OneBelow(path: string, name: string) {
    var p := Split(path, '/'); |p| == 3 && p[0] == "" && p[1] == name && p[2] != ""
  }

  predicate TwoBelow(path: string, name: string) {
    var p := Split(path, '/'); |p| == 4 && p[0] == "" && p[1] == name && p[2] != "" && p[3] != ""
  }

  /** The pages of the check by their short paths, segment by segment. */
  predicate IsShown(path: string) {
    || IsJust(path, "") || IsJust(path, "gallery") || IsJust(path, "my")
    || OneBelow(path, "r") || OneBelow(path, "gallery") || OneBelow(path, "confirm") || OneBelow(path, "unsubscribe")
    || OneBelow(path, "my") || TwoBelow(path, "my")
  }

  lemma SplitAfterSlash(name: string, rest: string)
    requires '/' !in name
    ensures Split("/" + name + "/" + rest, '/') == ["", name] + Split(rest, '/')
  {
    assert "/" + name + "/" + rest == ("" + ['/'] + name) + ['/'] + rest;
    SplitAt("" + ['/'] + name, '/', rest);
    SplitAt("", '/', name);
    SplitWithout(name, '/');
    hide Split;
  }

  lemma BelowToSegments(path: string, name: string, prefix: string)
    requires '/' !in name && prefix == "/" + name + "/" && Below(path, prefix)
    ensures OneBelow(path, name)
  {
    assert path == prefix + path[|prefix|..];
    SplitAfterSlash(name, path[|prefix|..]);
    SplitWithout(path[|prefix|..], '/');
    hide Split;
  }

  lemma BelowFromSegments(path: string, name: string, prefix: string)
    requires '/' !in name && prefix == "/" + name + "/" && OneBelow(path, name)
    ensures Below(path, prefix)
  {
    hide Split, Join;
    var last := Split(path, '/')[2];
    JoinSplit(path, '/');
    PartsHoldNoSeparator(path, '/');
    assert Split(path, '/') == ["", name, last] && last in Split(path, '/');
    JoinThree("", name, last);
    assert path == prefix + last;
  }

  lemma BelowBySegments(path: string, name: string, prefix: string)
    requires '/' !in name && prefix == "/" + name + "/"
    ensures Below(path, prefix) <==> OneBelow(path, name)
  {
    hide *;
    if Below(path, prefix) {
      BelowToSegments(path, name, prefix);
    }
    if OneBelow(path, name) {
      BelowFromSegments(path, name, prefix);
    }
  }

  lemma JoinThree(a: string, b: string, c: string)
    ensures Join([a, b, c], '/') == a + "/" + b + "/" + c
  {
    assert [a, b, c][1..] == [b, c] && [b, c][1..] == [c];
    assert Join([b, c], '/') == b + "/" + c;
  }

  lemma MySegments(x: string, y: string)
    requires OneSegment(x) && OneSegment(y)
    ensures Split("/my/" + x + "/" + y, '/') == ["", "my", x, y]
  {
    SplitAfterSlash("my", x + "/" + y);
    assert "/my/" + x + "/" + y == "/" + "my" + "/" + (x + "/" + y);
    assert x + "/" + y == x + ['/'] + y;
    SplitAt(x, '/', y);
    SplitWithout(x, '/');
    SplitWithout(y, '/');
    hide Split;
  }

  lemma JoinFour(a: string, b: string, c: string, d: string)
    ensures Join([a, b, c, d], '/') == a + "/" + (b + "/" + c + "/" + d)
  {
    assert [a, b, c, d][1..] == [b, c, d];
    JoinThree(b, c, d);
  }

  lemma MyParts(path: string) returns (x: string, y: string)
    requires TwoBelow(path, "my")
    ensures OneSegment(x) && OneSegment(y) && path == "/my/" + x + "/" + y
  {
    hide Split, Join;
    var p := Split(path, '/');
    x, y := p[2], p[3];
    assert p == ["", "my", x, y] && x in p && y in p;
    JoinSplit(path, '/');
    PartsHoldNoSeparator(path, '/');
    assert OneSegment(x) && OneSegment(y);
    hide *;
    JoinFour("", "my", x, y);
  }

  lemma MyFromSegments(path: string)
    requires TwoBelow(path, "my")
    ensures TwoBelowMy(path)
  {
    hide *;
    var x, y := MyParts(path);
    MyIsTwoBelow(x, y);
  }

  lemma MyIsTwoBelow(x: string, y: string)
    requires OneSegment(x) && OneSegment(y)
    ensures TwoBelowMy("/my/" + x + "/" + y)
  {
    var path, i := "/my/" + x + "/" + y, 4 + |x|;
    assert path[4..i] == x && path[i] == '/' && path[i + 1..] == y;
    hide OneSegment;
  }

  lemma CutTwice(path: string, i: nat)
    requires 4 <= i < |path| && StartsWith(path, "/my/") && path[i] == '/'
    ensures path == "/my/" + path[4..i] + "/" + path[i + 1..]
  {
  }

  lemma MyToSegments(path: string)
    requires TwoBelowMy(path)
    ensures TwoBelow(path, "my")
  {
    hide Split;
    var i :| 4 <= i < |path| && path[i] == '/' && OneSegment(path[4..i]) && OneSegment(path[i + 1..]);
    CutTwice(path, i);
    MySegments(path[4..i], path[i + 1..]);
  }

  lemma MyBySegments(path: string)
    ensures TwoBelowMy(path) <==> TwoBelow(path, "my")
  {
    hide *;
    if TwoBelowMy(path) {
      MyToSegments(path);
    }
    if TwoBelow(path, "my") {
      MyFromSegments(path);
    }
  }

  lemma JustName(path: string, name: string, full: string)
    requires '/' !in name && full == "/" + name
    ensures path == full <==> IsJust(path, name)
  {
    SplitAt("", '/', name);
    SplitWithout(name, '/');
    assert "" + ['/'] + name == "/" + name;
    if Split(path, '/') == ["", name] {
      JoinSplit(path, '/');
      assert ["", name][1..] == [name];
    }
    hide Split;
  }

  /** The check host shows these pages and no others, each under `/check`. */
  lemma ShownByCheck(path: string)
    ensures CheckTarget(path) ==
            if !IsShown(path) then None else Some(if path == "/" then "/check" else "/check" + path)
  {
    BelowBySegments(path, "r", "/r/");
    BelowBySegments(path, "gallery", "/gallery/");
    BelowBySegments(path, "confirm", "/confirm/");
    BelowBySegments(path, "unsubscribe", "/unsubscribe/");
    BelowBySegments(path, "my", "/my/");
    MyBySegments(path);
    JustName(path, "", "/");
    JustName(path, "gallery", "/gallery");
    JustName(path, "my", "/my");
    hide Split, Below, OneSegment, IsJust, OneBelow, TwoBelow, TwoBelowMy;
  }

  /** The pages of the check that have a link-preview card. */
  predicate HasCard(page: string) {
    page == "/check" || page == "/check/gallery" || Below(page, "/check/r/") || Below(page, "/check/gallery/")
  }

  /** The card of such a page, whatever its name ends with. */
  ghost predicate IsPreview(path: string) {
    exists k :: 0 <= k <= |path| && HasCard(path[..k]) && StartsWith(path[k..], "/opengraph-image")
  }

  lemma PreviewAt(path: string, page: string, card: string)
    requires path == page + card && HasCard(page) && StartsWith(card, "/opengraph-image")
    ensures IsPreview(path)
  {
    assert path[..|page|] == page && path[|page|..] == card;
    hide HasCard;
  }

  /** What follows `/check` in the page of a result or of a gallery entry. */
  lemma BelowCheck(name: string, full: string, rest: string, i: nat)
    requires full == "/check" + name && |name| <= i <= |rest| && StartsWith(rest, name) && OneSegment(rest[|name|..i])
    ensures Below("/check" + rest[..i], full)
  {
    assert "/check" + rest[..i] == full + rest[|name|..i];
    assert (full + rest[|name|..i])[|full|..] == rest[|name|..i];
    hide OneSegment;
  }

  lemma CardBelowIsPreview(path: string, name: string, full: string, rest: string)
    requires path == "/check" + rest && full == "/check" + name && StartsWith(rest, name) && CardAfter(rest, |name|)
    requires full == "/check/r/" || full == "/check/gallery/"
    ensures IsPreview(path)
  {
    var i :| |name| <= i <= |rest| && OneSegment(rest[|name|..i]) && IsCard(rest[i..]);
    BelowCheck(name, full, rest, i);
    assert path == "/check" + rest[..i] + rest[i..];
    hide IsPreview, OneSegment, Below;
    PreviewAt(path, "/check" + rest[..i], rest[i..]);
  }

  lemma CardKinds(path: string)
    requires IsCardPath(path)
    ensures var rest := path[6..];
            && path == "/check" + rest
            && (IsCard(rest) || (StartsWith(rest, "/gallery") && IsCard(rest[8..]))
                || (StartsWith(rest, "/r/") && CardAfter(rest, 3))
                   || (StartsWith(rest, "/gallery/") && CardAfter(rest, 9)))
  {
    hide CardAfter, IsCard;
  }

  lemma PageCardIsPreview(path: string, rest: string)
    requires path == "/check" + rest && (IsCard(rest) || (StartsWith(rest, "/gallery") && IsCard(rest[8..])))
    ensures IsPreview(path)
  {
    if IsCard(rest) {
      PreviewAt(path, "/check", rest);
    } else {
      assert path == "/check/gallery" + rest[8..];
      PreviewAt(path, "/check/gallery", rest[8..]);
    }
    hide IsPreview;
  }

  lemma CardIsPreview(path: string)
    requires IsCardPath(path)
    ensures IsPreview(path)
  {
    CardKinds(path);
    hide *;
    var rest := path[6..];
    if StartsWith(rest, "/r/") && CardAfter(rest, 3) {
      CardBelowIsPreview(path, "/r/", "/check/r/", rest);
    } else if StartsWith(rest, "/gallery/") && CardAfter(rest, 9) {
      CardBelowIsPreview(path, "/gallery/", "/check/gallery/", rest);
    } else {
      PageCardIsPreview(path, rest);
    }
  }

  lemma CardOfResult(path: string, x: string, card: string)
    requires path == "/check/r/" + x + card && OneSegment(x) && IsCard(card)
    ensures IsCardPath(path)
  {
    var rest := path[6..];
    assert rest == "/r/" + x + card;
    assert rest[3..3 + |x|] == x && rest[3 + |x|..] == card;
    assert CardAfter(rest, 3);
    hide OneSegment, IsCard;
  }

  lemma CardOfEntry(path: string, x: string, card: string)
    requires path == "/check/gallery/" + x + card && OneSegment(x) && IsCard(card)
    ensures IsCardPath(path)
  {
    var rest := path[6..];
    assert rest == "/gallery/" + x + card;
    assert rest[9..9 + |x|] == x && rest[9 + |x|..] == card;
    assert CardAfter(rest, 9);
    hide OneSegment, IsCard;
  }

  lemma CardOfPage(path: string, card: string)
    requires (path == "/check" + card || path == "/check/gallery" + card) && IsCard(card)
    ensures IsCardPath(path)
  {
    if path == "/check" + card {
      assert path[6..] == card;
    } else {
      assert path[6..] == "/gallery" + card;
      assert path[6..][8..] == card;
    }
    hide OneSegment, IsCard;
  }

  lemma PreviewIsCard(path: string)
    requires IsPreview(path)
    ensures IsCardPath(path)
  {
    var k :| 0 <= k <= |path| && HasCard(path[..k]) && StartsWith(path[k..], "/opengraph-image");
    var page, card := path[..k], path[k..];
    assert path == page + card && IsCard(card);
    hide OneSegment, IsCardPath, IsCard;
    if Below(page, "/check/r/") {
      assert page == "/check/r/" + page[9..];
      CardOfResult(path, page[9..], card);
    } else if Below(page, "/check/gallery/") {
      assert page == "/check/gallery/" + page[15..];
      CardOfEntry(path, page[15..], card);
    } else {
      CardOfPage(path, card);
    }
  }

  lemma ServedOnCheckHost(site: Site, b: Browser, url: Url)
    requires !AppIsCheckHost(site) && AtCheckHost(site, url.host) && !Bypasses(url.path) && FromLink(site, url).None?
    requires !IsShown(url.path) && (IsCrawlerPath(url.path) || IsPreview(url.path))
    ensures var l := Follow(site, b, url); l.decision == Serve && l.url == url
  {
    var cookies := CookiesFor(site, b, url.host);
    ShownByCheck(url.path);
    if IsPreview(url.path) {
      PreviewIsCard(url.path);
      CheckIsServed(site, cookies, b.preferred, url);
    } else {
      RoutedByPath(site, cookies, b.preferred, url);
    }
    hide IsPreview, IsShown, IsCardPath, Routed, CookiesFor, Bypasses, CheckTarget, AtCheckHost, FromLink, IsOpenToAll,
         OnMarketingSite, IsForm, TakesToken;
    assert Answer(site, b, url).decision == Serve;
    hide Answer, Stored, Rank;
  }

  lemma SentToApp(site: Site, b: Browser, url: Url)
    requires !AppIsCheckHost(site) && AtCheckHost(site, url.host) && !Bypasses(url.path) && FromLink(site, url).None?
    requires site.app != "" && !IsShown(url.path) && !IsCrawlerPath(url.path) && !IsPreview(url.path)
    ensures var there := url.(host := site.app);
            EndsAs(EndOf(site, CookiesFor(site, b, site.app), site.app, url.path), Follow(site, b, url), site, there)
  {
    var there := url.(host := site.app);
    ShownByCheck(url.path);
    if IsCardPath(url.path) {
      CardIsPreview(url.path);
    }
    BouncedOnce(site, b, url);
    WhereItEnds(site, b, there);
    hide IsPreview, IsShown, IsCardPath, CheckTarget, Follow, EndOf, CookiesFor, Bypasses;
  }

  /**
   Where every page opened on the check host ends. The check's own pages, under their short paths, are
   shown in place; crawler files and link previews are served in place; everything else ends as it
   would have on the app host.
   */
  lemma WhereItEndsFromTheCheck(site: Site, b: Browser, url: Url)
    requires !AppIsCheckHost(site) && AtCheckHost(site, url.host) && site.app != "" && !Bypasses(url.path)
    ensures var l, cookies := Follow(site, b, url), CookiesFor(site, b, site.app);
            var plain := if FromLink(site, url).Some? then url.(query := Without(url.query, "lang")) else url;
            if IsShown(url.path) then
              l.url == plain
              && l.decision == Rewrite(if url.path == "/" then "/check" else "/check" + url.path, plain.query)
            else if url.path == "/robots.txt" || url.path == "/sitemap.xml" || IsPreview(url.path) then
              l.url == plain && l.decision == Serve
            else EndsAs(EndOf(site, cookies, site.app, url.path), l, site, plain.(host := site.app))
  {
    var plain := if FromLink(site, url).Some? then url.(query := Without(url.query, "lang")) else url;
    var b1 := if FromLink(site, url).Some? then Stored(site, b, url) else b;
    if FromLink(site, url).Some? {
      Consumed(site, b, url);
      StoredKeepsSession(site, b, url, site.app);
    }
    if IsShown(url.path) {
      ShownByCheck(url.path);
      CheckLinksKeepTheirUrl(site, b, url);
    } else if IsCrawlerPath(url.path) || IsPreview(url.path) {
      ServedOnCheckHost(site, b1, plain);
    } else {
      SentToApp(site, b1, plain);
    }
    hide Follow, Stored, Answer, IsShown, IsPreview, CookiesFor, AppIsCheckHost, AtCheckHost, Bypasses, FromLink,
         Without, CheckTarget, OnMarketingSite, IsForm, TakesToken, IsOpenToAll;
  }
}
