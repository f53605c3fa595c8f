/** What becomes of links: those on the proxy's token lists, and deep links into the app. */
module ProxyLinks {
  import opened Common
  import opened Text
  import opened Proxy
  import Locale

  // ----- Telling paths apart by the letters they begin with

  predicate Head(path: string, a: char, b: char, c: char) {
    |path| > 3 && path[1] == a && path[2] == b && path[3] == c
  }

  predicate SameHead(path: string, prefix: string) {
    |path| > 3 && |prefix| > 3 && Head(path, prefix[1], prefix[2], prefix[3])
  }

  lemma OneStarts(path: string, prefixes: seq<string>)
    requires StartsWithSome(path, prefixes) && forall p :: p in prefixes ==> |p| > 3
    ensures exists k :: 0 <= k < |prefixes| && StartsWith(path, prefixes[k]) && SameHead(path, prefixes[k])
  {
    var p :| p in prefixes && StartsWith(path, p);
    var k :| 0 <= k < |prefixes| && prefixes[k] == p;
    assert SameHead(path, prefixes[k]);
  }

  predicate IsTokenLink(path: string) {
    StartsWithSome(path, TOKEN_AUTH_PATHS) || IsTokenPublicPath(path)
  }

  predicate TokenAuthHead(path: string) {
    Head(path, 'a', 'c', 'c') || Head(path, 'm', 'a', 'g') || Head(path, 'v', 'e', 'r') || Head(path, 'r', 'e', 's')
  }

  predicate TokenPublicHead(path: string) {
    Head(path, 'r', 'e', 'c') || Head(path, 'r', 'e', 'p') || Head(path, 'p', 'u', 'b')
    || (Head(path, 'd', 'e', 'm') && |path| > 6)
  }

  lemma ListedHeads()
    ensures forall k :: 0 <= k < |TOKEN_AUTH_PATHS| ==> TokenAuthHead(TOKEN_AUTH_PATHS[k])
    ensures forall k :: 0 <= k < |TOKEN_PUBLIC_PREFIXES| ==> TokenPublicHead(TOKEN_PUBLIC_PREFIXES[k])
  {
  }

  lemma TokenAuthHeads(path: string)
    requires StartsWithSome(path, TOKEN_AUTH_PATHS)
    ensures TokenAuthHead(path)
  {
    ListedHeads();
    hide TOKEN_AUTH_PATHS, StartsWithSome;
    assert forall p :: p in TOKEN_AUTH_PATHS ==> TokenAuthHead(p);
    OneStarts(path, TOKEN_AUTH_PATHS);
  }

  lemma TokenAuthIsAuth(path: string)
    requires StartsWithSome(path, TOKEN_AUTH_PATHS)
    ensures IsAuthPath(path)
  {
    assert AUTH_PATHS[5] == TOKEN_AUTH_PATHS[0] && AUTH_PATHS[6] == TOKEN_AUTH_PATHS[1]
           && AUTH_PATHS[4] == TOKEN_AUTH_PATHS[2] && AUTH_PATHS[3] == TOKEN_AUTH_PATHS[3];
    assert forall k :: 0 <= k < |TOKEN_AUTH_PATHS| ==> TOKEN_AUTH_PATHS[k] in AUTH_PATHS;
    hide TOKEN_AUTH_PATHS, AUTH_PATHS;
  }

  lemma TokenPublicHeads(path: string)
    requires IsTokenPublicPath(path)
    ensures TokenPublicHead(path)
  {
    ListedHeads();
    hide TOKEN_PUBLIC_PREFIXES, StartsWithSome;
    assert forall p :: p in TOKEN_PUBLIC_PREFIXES ==> TokenPublicHead(p);
    OneStarts(path, TOKEN_PUBLIC_PREFIXES);
  }

  /** None of the prefixes begins with the letters of `path`. */
  predicate OtherHeads(path: string, prefixes: seq<string>) {
    |path| > 3 && forall k :: 0 <= k < |prefixes| ==> |prefixes[k]| > 3 && !SameHead(path, prefixes[k])
  }

  lemma OtherHeadsStart(path: string, prefixes: seq<string>)
    requires OtherHeads(path, prefixes)
    ensures !StartsWithSome(path, prefixes) && path !in prefixes
  {
    forall p | p in prefixes ensures !StartsWith(path, p) && path != p {
      var k :| 0 <= k < |prefixes| && prefixes[k] == p;
    }
  }

  lemma NotMarketing(path: string)
    requires TokenAuthHead(path) || TokenPublicHead(path)
    ensures !IsMarketingPath(path)
  {
    assert OtherHeads(path, MARKETING_PREFIXES);
    assert OtherHeads(path, MARKETING_PATHS[..9]);
    OtherHeadsStart(path, MARKETING_PREFIXES);
    OtherHeadsStart(path, MARKETING_PATHS[..9]);
    assert MARKETING_PATHS == MARKETING_PATHS[..9] + ["/demo"];
    hide TokenAuthHead, TokenPublicHead, StartsWithSome;
  }

  lemma NoCheckPage(path: string)
    requires TokenAuthHead(path) || TokenPublicHead(path)
    ensures path != "/" && CheckTarget(path).None? && !IsCrawlerPath(path) && !IsCardPath(path)
  {
    hide IsCard, OneSegment;
    assert path[2] != '/';
    assert path[1] != 'g' && path[1] != 'c' && path[1] != 'u' && (path[1] == 'm' ==> path[2] == 'a');
    hide TokenAuthHead, TokenPublicHead;
  }

  // ----- Token links

  /** Wherever it is opened, the normal routing serves a token link: signed in or not, demo or not. */
  lemma TokenLinkRouting(site: Site, cookies: Cookies, preferred: string, url: Url)
    requires IsTokenLink(url.path)
    ensures Routed(site, cookies, preferred, url) == Response(Serve, Sticky(site, cookies, preferred))
    ensures url.path != "/" && CheckTarget(url.path).None? && !IsCrawlerPath(url.path) && !IsCardPath(url.path)
  {
    var path := url.path;
    if StartsWithSome(path, TOKEN_AUTH_PATHS) {
      TokenAuthHeads(path);
      TokenAuthIsAuth(path);
    } else {
      TokenPublicHeads(path);
      assert OtherHeads(path, AUTH_PATHS);
      OtherHeadsStart(path, AUTH_PATHS);
    }
    hide TokenAuthHead, TokenPublicHead, OtherHeads;
    NotMarketing(path);
    NoCheckPage(path);
    hide IsMarketingPath, IsCheckPath, IsPublicCompanyPath, IsCrawlerPath, CheckTarget, IsCardPath, StartsWithSome,
         Sticky;
  }

  function HostAfter(site: Site, url: Url): string {
    if Bounced(site, url) then site.app else url.host
  }

  /** A token link whose locale has been consumed, or that has none: at most one redirect, to the app host. */
  lemma PlainTokenLink(site: Site, b: Browser, url: Url)
    requires IsTokenLink(url.path) && !Bypasses(url.path) && !AppIsCheckHost(site) && FromLink(site, url).None?
    ensures var there, l := url.(host := HostAfter(site, url)), Follow(site, b, url);
            && l.url == there && l.decision == Serve && l.browser == Stored(site, b, there)
            && Answer(site, b, there).locale == Sticky(site, CookiesFor(site, b, there.host), b.preferred)
  {
    var there := url.(host := HostAfter(site, url));
    TokenLinkRouting(site, CookiesFor(site, b, url.host), b.preferred, url);
    TokenLinkRouting(site, CookiesFor(site, b, there.host), b.preferred, there);
    hide Routed, CookiesFor, Sticky, Bypasses, CheckTarget, IsCrawlerPath, IsCardPath, IsTokenLink;
    assert Answer(site, b, there).decision == Serve;
    if Bounced(site, url) {
      assert Answer(site, b, url) == Response(Redirect(there), None);
      assert Stored(site, b, url) == b;
    }
    hide Answer, Stored, Bounced, Rank;
  }

  /**
   Any token link ends up served, at the same path and with every query parameter but a consumed
   `lang`, whatever the cookies; it changes host only to leave the check host.
   */
  lemma TokenLinkIsServed(site: Site, b: Browser, url: Url)
    requires IsTokenLink(url.path) && !AppIsCheckHost(site)
    ensures var l := Follow(site, b, url);
            && l.decision == Serve && l.url.path == url.path
            && l.url.query ==
               (if !Bypasses(url.path) && FromLink(site, url).Some? then Without(url.query, "lang") else url.query)
            && l.url.host == (if !Bypasses(url.path) then HostAfter(site, url) else url.host)
            && Without(l.url.query, "lang") == Without(url.query, "lang")
  {
    NoLangLeft(url.query, "lang");
    if !Bypasses(url.path) {
      if FromLink(site, url).Some? {
        Consumed(site, b, url);
        PlainTokenLink(site, Stored(site, b, url), url.(query := Without(url.query, "lang")));
      } else {
        PlainTokenLink(site, b, url);
      }
      hide Answer, Stored, Bypasses, IsTokenLink, Rank, Follow;
    }
  }

  lemma Consumed(site: Site, b: Browser, url: Url)
    requires !Bypasses(url.path) && !AppIsCheckHost(site) && FromLink(site, url).Some?
    ensures var plain := url.(query := Without(url.query, "lang"));
            var l := Follow(site, Stored(site, b, url), plain);
            && Follow(site, b, url) == l.(hops := l.hops + 1)
            && FromLink(site, plain).None? && HostAfter(site, plain) == HostAfter(site, url)
            && Answer(site, b, url).locale == FromLink(site, url)
  {
    NoLangLeft(url.query, "lang");
    hide Bypasses, Stored, Rank, Routed, CheckTarget, IsCrawlerPath, IsCardPath, AtCheckHost;
  }

  /** The interface locale that the cookie of a host stands for. */
  function Shown(site: Site, b: Browser, host: string): Option<string> {
    Locale.Normalize(site.locales, CookiesFor(site, b, host).locale)
  }

  /**
   The page opens in the locale of the link when no host change came between; on the app host it
   opens in the locale that host would have shown anyway, since the cookie stays with the check
   host. So the link's locale arrives exactly when there is no change, or the two agree.
   */
  lemma LocaleArrives(site: Site, b: Browser, url: Url)
    requires IsTokenLink(url.path) && !Bypasses(url.path) && !AppIsCheckHost(site)
    requires (forall l :: l in site.locales ==> Locale.TwoLetters(l)) && b.preferred in site.locales
    requires FromLink(site, url).Some?
    ensures var l, onApp := Follow(site, b, url), Shown(site, b, site.app).GetOr(b.preferred);
            && Shown(site, l.browser, l.url.host) == (if Bounced(site, url) then Some(onApp) else FromLink(site, url))
            && (Shown(site, l.browser, l.url.host) == FromLink(site, url) <==>
                  (!Bounced(site, url) || onApp == FromLink(site, url).value))
  {
    var lang := FromLink(site, url).value;
    var plain := url.(query := Without(url.query, "lang"));
    var there := plain.(host := HostAfter(site, url));
    var b1 := Stored(site, b, url);
    Consumed(site, b, url);
    PlainTokenLink(site, b1, plain);
    StoredKeepsSession(site, b, url, there.host);
    StoredKeepsSession(site, b1, there, there.host);
    SupportedIsStable(site.locales, lang);
    SupportedIsStable(site.locales, b.preferred);
    assert Bounced(site, url) ==> site.hostname(site.app) != site.hostname(url.host);
    hide Answer, Stored, Bypasses, IsTokenLink, Rank, Follow, CookiesFor, Bounced, FromLink;
  }

  lemma SupportedIsStable(locales: seq<string>, l: string)
    requires l in locales && Locale.TwoLetters(l)
    ensures Locale.Normalize(locales, Some(l)) == Some(l)
  {
    assert forall i :: 0 <= i < |l| ==> l[i] in l;
    StripClean(l);
    assert Lower(l) == l;
    assert l[1..][1..] == [];
    assert Locale.UpToSubtag(l[1..]) == [l[1]];
    assert Locale.UpToSubtag(l) == [l[0]] + [l[1]];
    assert l == [l[0]] + [l[1]];
  }

  // ----- Deep links

  /** How the login page reads `next` back: path, then the parameters. */
  datatype Destination = Destination(path: string, query: seq<Param>)

  function Before(s: string, c: char): string {
    if s == [] || s[0] == c then [] else [s[0]] + Before(s[1..], c)
  }

  function After(s: string, c: char): string {
    if s == [] then [] else if s[0] == c then s[1..] else After(s[1..], c)
  }

  function ReadAll(parts: seq<string>): seq<Param> {
    if parts == [] then [] else [Param(Before(parts[0], '='), After(parts[0], '='))] + ReadAll(parts[1..])
  }

  function ReadDestination(dest: string): Destination {
    Destination(Before(dest, '?'), if After(dest, '?') == [] then [] else ReadAll(Split(After(dest, '?'), '&')))
  }

  /** Encoded text: the characters that delimit paths and parameters stand for nothing else. */
  predicate Encoded(path: string, query: seq<Param>) {
    && '?' !in path
    && forall p :: p in query ==> '=' !in p.key && '&' !in p.key && '&' !in p.value
  }

  lemma {:induction false} CutAt(a: string, c: char, b: string)
    requires c !in a
    ensures Before(a + [c] + b, c) == a && After(a + [c] + b, c) == b
  {
    var s := a + [c] + b;
    if a == [] {
      assert s[1..] == b;
    } else {
      assert s[1..] == a[1..] + [c] + b;
      CutAt(a[1..], c, b);
      assert [a[0]] + a[1..] == a;
    }
  }

  lemma {:induction false} NoCut(a: string, c: char)
    requires c !in a
    ensures Before(a, c) == a && After(a, c) == []
  {
    if a != [] {
      NoCut(a[1..], c);
      assert [a[0]] + a[1..] == a;
    }
  }

  lemma {:induction false} PairsReadBack(path: string, query: seq<Param>)
    requires query != [] && Encoded(path, query)
    ensures ReadAll(Split(Pairs(query), '&')) == query && Pairs(query) != []
  {
    var p, one := query[0], query[0].key + ['='] + query[0].value;
    CutAt(p.key, '=', p.value);
    SplitWithout(one, '&');
    hide Before, After, Split;
    if |query| == 1 {
      assert Pairs(query) == one;
      assert [one][1..] == [];
      assert query == [p];
    } else {
      var rest := Pairs(query[1..]);
      PairsReadBack(path, query[1..]);
      assert Pairs(query) == one + ['&'] + rest;
      SplitAt(one, '&', rest);
      assert ([one] + Split(rest, '&'))[1..] == Split(rest, '&');
      assert query == [p] + query[1..];
    }
  }

  lemma DestinationReadBack(path: string, query: seq<Param>)
    requires Encoded(path, query)
    ensures ReadDestination(path + Search(query)) == Destination(path, query)
  {
    if query == [] {
      assert path + Search(query) == path;
      NoCut(path, '?');
    } else {
      PairsReadBack(path, query);
      assert path + Search(query) == path + ['?'] + Pairs(query);
      CutAt(path, '?', Pairs(query));
    }
    hide Search, Pairs, Before, After, ReadAll, Split;
  }

  /** A page of the app proper: neither public nor an auth page, nor one for crawlers or the marketing site. */
  predicate IsAppPage(site: Site, url: Url) {
    && url.path != "/" && !IsCrawlerPath(url.path)
    && !(site.marketing != "" && url.host != site.marketing && IsMarketingPath(url.path))
    && !IsAuthPath(url.path) && !(site.check != "" && IsCheckPath(url.path))
    && !IsPublicCompanyPath(url.path) && !IsTokenPublicPath(url.path)
  }

  lemma {:induction false} StillEncoded(path: string, query: seq<Param>)
    requires Encoded(path, query)
    ensures Encoded(path, Without(query, "lang"))
  {
    if query != [] {
      StillEncoded(path, query[1..]);
    }
  }

  /** Not one of the short paths under which the check host shows a page itself. */
  predicate NotShownByCheck(site: Site, url: Url) {
    AtCheckHost(site, url.host) ==> CheckTarget(url.path).None?
  }

  /** A path that `next` can hold. */
  predicate IsOwnPath(path: string) {
    |path| >= 2 && path[0] == '/' && path[1] != '/' && path[1] != '\\'
  }

  /**
   Opened without a session, on the check host too, a deep link ends at the login form of the app
   host, and the form's `next` reads back as the very same path and parameters, less a consumed
   `lang`.
   */
  lemma DeepLinkSurvives(site: Site, b: Browser, url: Url)
    requires !AppIsCheckHost(site) && NotShownByCheck(site, url) && !Bypasses(url.path)
    requires IsOwnPath(url.path) && Encoded(url.path, url.query)
    requires var there := url.(host := HostAfter(site, url));
             IsAppPage(site, there) && !CookiesFor(site, b, there.host).hasToken
    ensures var l := Follow(site, b, url);
            && l.decision == Serve && l.url.host == HostAfter(site, url) && l.url.path == "/login"
            && |l.url.query| == 1 && l.url.query[0].key == "next"
            && ReadDestination(l.url.query[0].value) ==
               Destination(url.path, if FromLink(site, url).Some? then Without(url.query, "lang") else url.query)
  {
    if FromLink(site, url).Some? {
      var plain := url.(query := Without(url.query, "lang"));
      Consumed(site, b, url);
      StoredKeepsSession(site, b, url, HostAfter(site, url));
      StillEncoded(url.path, url.query);
      SameAppPage(site, url, plain);
      ToLoginThere(site, Stored(site, b, url), plain);
    } else {
      ToLoginThere(site, b, url);
    }
    hide *;
  }

  lemma SameAppPage(site: Site, url: Url, plain: Url)
    requires plain.path == url.path && plain.host == url.host
    ensures HostAfter(site, plain) == HostAfter(site, url)
    ensures NotShownByCheck(site, plain) <==> NotShownByCheck(site, url)
    ensures IsAppPage(site, plain.(host := HostAfter(site, plain))) <==>
            IsAppPage(site, url.(host := HostAfter(site, url)))
  {
    hide AtCheckHost, CheckTarget, IsCrawlerPath, IsCardPath, IsMarketingPath, IsAuthPath, IsCheckPath,
         IsPublicCompanyPath, IsTokenPublicPath;
  }

  lemma NextIsNoLocale(site: Site, url: Url)
    requires |url.query| == 1 && url.query[0].key == "next"
    ensures FromLink(site, url).None?
  {
    assert "next"[0] != "lang"[0];
    assert First(url.query[1..], "lang").None?;
    assert First(url.query, "lang").None?;
  }

  lemma ToLoginThere(site: Site, b: Browser, url: Url)
    requires !AppIsCheckHost(site) && NotShownByCheck(site, url) && !Bypasses(url.path) && FromLink(site, url).None?
    requires IsOwnPath(url.path) && Encoded(url.path, url.query)
    requires var there := url.(host := HostAfter(site, url));
             IsAppPage(site, there) && !CookiesFor(site, b, there.host).hasToken
    ensures var l := Follow(site, b, url);
            && l.decision == Serve
            && l.url == Url(HostAfter(site, url), "/login", [Param("next", url.path + Search(url.query))])
            && ReadDestination(url.path + Search(url.query)) == Destination(url.path, url.query)
  {
    var there := url.(host := HostAfter(site, url));
    if Bounced(site, url) {
      BouncedOnce(site, b, url);
    }
    assert FromLink(site, there).None? && !Bounced(site, there) && NotShownByCheck(site, there);
    hide *;
    ToLogin(site, b, there);
  }

  lemma BouncedOnce(site: Site, b: Browser, url: Url)
    requires !AppIsCheckHost(site) && Bounced(site, url) && !Bypasses(url.path) && FromLink(site, url).None?
    ensures var l := Follow(site, b, url.(host := site.app));
            Follow(site, b, url) == l.(hops := l.hops + 1)
  {
    var there := url.(host := site.app);
    assert Answer(site, b, url) == Response(Redirect(there), None) by {
      hide Routed, CookiesFor, Bypasses, CheckTarget, IsCrawlerPath, IsCardPath;
    }
    assert Stored(site, b, url) == b;
    hide Answer, Stored, Bounced, Rank;
  }

  lemma AppPageIsNoCard(site: Site, url: Url)
    requires IsAppPage(site, url) && site.check != ""
    ensures !IsCardPath(url.path) && !IsCrawlerPath(url.path)
  {
    if IsCardPath(url.path) {
      CardIsCheckPath(url.path);
    }
    hide IsCardPath;
  }

  lemma LoginIsNoCheckPage()
    ensures CheckTarget("/login").None?
  {
    assert "/login"[1] == 'l';
    hide OneSegment;
  }

  /** On a host that routes, and does not send the browser elsewhere. */
  lemma RoutesHere(site: Site, b: Browser, url: Url)
    requires NotShownByCheck(site, url) && !Bounced(site, url) && !Bypasses(url.path) && FromLink(site, url).None?
    ensures Answer(site, b, url) == Routed(site, CookiesFor(site, b, url.host), b.preferred, url)
  {
    hide Routed, CookiesFor, Bypasses, CheckTarget, IsCrawlerPath, IsCardPath;
  }

  lemma ToLogin(site: Site, b: Browser, url: Url)
    requires !AppIsCheckHost(site) && !Bounced(site, url) && NotShownByCheck(site, url)
    requires !CookiesFor(site, b, url.host).hasToken && IsOwnPath(url.path)
    requires !Bypasses(url.path) && IsAppPage(site, url) && Encoded(url.path, url.query) && FromLink(site, url).None?
    ensures var l := Follow(site, b, url);
            && l.decision == Serve && l.url == Url(url.host, "/login", [Param("next", url.path + Search(url.query))])
            && ReadDestination(url.path + Search(url.query)) == Destination(url.path, url.query)
  {
    var next := Url(url.host, "/login", [Param("next", url.path + Search(url.query))]);
    var b1 := Stored(site, b, url);
    DestinationReadBack(url.path, url.query);
    StoredKeepsSession(site, b, url, url.host);
    LoginIsPlain(site, CookiesFor(site, b1, url.host), b1.preferred, url.host, next.query);
    LoginIsNoCheckPage();
    NextIsNoLocale(site, next);
    RoutesHere(site, b, url);
    assert LoginFor(url) == next;
    assert Answer(site, b, url).decision == Redirect(next) by {
      hide Answer, CookiesFor, Bypasses, Sticky, LoginFor, Search, IsCheckPath, IsMarketingPath, IsAuthPath,
           IsPublicCompanyPath, IsTokenPublicPath, IsCrawlerPath;
    }
    assert !Bounced(site, next) by {
      if AtCheckHost(site, url.host) {
        AppPageIsNoCard(site, url);
      }
      hide IsCardPath, IsCrawlerPath, CheckTarget, IsAppPage;
    }
    assert Answer(site, b1, next).decision == Serve by {
      if !Bypasses(next.path) {
        RoutesHere(site, b1, next);
      }
      hide CookiesFor, Bypasses, Routed, CheckTarget, FromLink, Bounced, AtCheckHost;
    }
    hide Answer, Stored, CookiesFor, Rank, AppIsCheckHost, LoginFor, Search, ReadDestination, Bounced;
  }
}
