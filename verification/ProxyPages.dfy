/** Which pages a browser can end up on: auth pages, app pages, and the pages of the check host. */
module ProxyPages {
  import opened Common
  import opened Text
  import opened Proxy
  import opened ProxyLinks

  /** The chain's last answer, which is no redirect. */
  lemma {:induction false} LastAnswer(site: Site, b: Browser, url: Url) returns (before: Browser)
    requires !AppIsCheckHost(site)
    ensures var l := Follow(site, b, url);
            && Answer(site, before, l.url).decision == l.decision && !l.decision.Redirect?
            && l.browser == Stored(site, before, l.url)
    decreases Rank(site, b, url)
  {
    hide Answer, Stored, Rank, AppIsCheckHost;
    if Answer(site, b, url).decision.Redirect? {
      RedirectLowersRank(site, b, url);
      before := LastAnswer(site, Stored(site, b, url), Answer(site, b, url).decision.url);
    } else {
      before := b;
    }
  }

  /** No page of the app proper is ever served to a browser without a session on that host. */
  lemma AppPagesNeedSession(site: Site, b: Browser, url: Url)
    requires !AppIsCheckHost(site)
    ensures var l := Follow(site, b, url);
            l.decision == Serve && !Bypasses(l.url.path) && IsAppPage(site, l.url) ==>
            CookiesFor(site, l.browser, l.url.host).hasToken
  {
    var before := LastAnswer(site, b, url);
    var l := Follow(site, b, url);
    StoredKeepsSession(site, before, l.url, l.url.host);
    hide Follow, Stored, CookiesFor, Bypasses, CheckTarget, IsMarketingPath, IsAuthPath, IsCheckPath,
         IsPublicCompanyPath, IsTokenPublicPath, IsCrawlerPath, IsCardPath, LoginFor, Sticky, AtCheckHost;
  }

  /** `page` is the check page that the check host shows under the short path. */
  predicate IsPageOf(page: string, path: string) {
    IsCheckPath(page) && page == if path == "/" then "/check" else "/check" + path
  }

  /**
   The check host serves the check and nothing else: what is served or rewritten there is a check
   page, or what answers crawlers; static files aside.
   */
  lemma CheckHostServesTheCheck(site: Site, b: Browser, url: Url)
    requires !AppIsCheckHost(site) && site.app != ""
    ensures var l := Follow(site, b, url);
            AtCheckHost(site, l.url.host) && !Bypasses(l.url.path) ==>
              match l.decision
              case Rewrite(page, query) => IsPageOf(page, l.url.path) && query == l.url.query
              case _ => l.decision == Serve && (IsCrawlerPath(l.url.path) || IsCheckPath(l.url.path))
  {
    var before := LastAnswer(site, b, url);
    var l := Follow(site, b, url);
    if AtCheckHost(site, l.url.host) && !Bypasses(l.url.path) {
      OnTheCheckHost(site, before, l.url);
    }
    hide *;
  }

  lemma OnTheCheckHost(site: Site, b: Browser, url: Url)
    requires AtCheckHost(site, url.host) && !Bypasses(url.path) && site.app != ""
             && !Answer(site, b, url).decision.Redirect?
    ensures var decision := Answer(site, b, url).decision;
            match decision
            case Rewrite(page, query) => IsPageOf(page, url.path) && query == url.query
            case _ => decision == Serve && (IsCrawlerPath(url.path) || IsCheckPath(url.path))
  {
    var cookies := CookiesFor(site, b, url.host);
    if CheckTarget(url.path).Some? {
      TargetIsCheckPage(url.path);
    } else if IsCardPath(url.path) {
      CheckIsServed(site, cookies, b.preferred, url);
      CardIsCheckPath(url.path);
    } else if IsCrawlerPath(url.path) {
      assert Routed(site, cookies, b.preferred, url).decision == Serve by {
        hide IsMarketingPath, IsAuthPath, IsCheckPath, IsPublicCompanyPath, IsTokenPublicPath, Sticky, LoginFor,
             IsCardPath;
      }
    }
    hide Routed, IsCardPath, IsCheckPath, IsCrawlerPath, Bypasses, CookiesFor, CheckTarget;
  }

  lemma TargetIsCheckPage(path: string)
    requires CheckTarget(path).Some?
    ensures IsPageOf(CheckTarget(path).value, path)
  {
    if path != "/" {
      assert path[0] == '/' by {
        hide OneSegment;
      }
      hide IsResultPath, IsSavedCheckPath, IsGalleryPath;
      assert "/check" + path == "/check" + [path[0]] + path[1..];
    }
  }

  /**
   The check's own links, those of its letters included: opened on the check host they show their
   page under the very URL of the letter, with every parameter but a consumed `lang`.
   */
  lemma CheckLinksKeepTheirUrl(site: Site, b: Browser, url: Url)
    requires !AppIsCheckHost(site) && AtCheckHost(site, url.host) && !Bypasses(url.path) && CheckTarget(url.path).Some?
    ensures var l := Follow(site, b, url);
            var query := if FromLink(site, url).Some? then Without(url.query, "lang") else url.query;
            && l.url == url.(query := query) && l.hops <= 1
            && l.decision.Rewrite? && l.decision.query == query && IsPageOf(l.decision.page, url.path)
  {
    TargetIsCheckPage(url.path);
    var plain := if FromLink(site, url).Some? then url.(query := Without(url.query, "lang")) else url;
    if FromLink(site, url).Some? {
      Consumed(site, b, url);
    }
    var b1 := if FromLink(site, url).Some? then Stored(site, b, url) else b;
    assert Answer(site, b1, plain).decision == Rewrite(CheckTarget(url.path).value, plain.query) by {
      hide Routed, CookiesFor, Bypasses, CheckTarget, Stored, AtCheckHost, IsPageOf;
    }
    hide Answer, Stored, Rank, CookiesFor, Bypasses, CheckTarget, FromLink, AtCheckHost, IsPageOf;
  }

  /** The three kinds of links that the check's letters carry are such links. */
  lemma LettersAreCheckLinks(token: string)
    requires OneSegment(token)
    ensures CheckTarget("/confirm/" + token) == Some("/check/confirm/" + token)
    ensures CheckTarget("/my/" + token) == Some("/check/my/" + token)
    ensures CheckTarget("/unsubscribe/" + token) == Some("/check/unsubscribe/" + token)
  {
    hide OneSegment, IsResultPath, IsGalleryPath;
    LetterPath("/confirm/", token);
    LetterPath("/my/", token);
    LetterPath("/unsubscribe/", token);
    assert "/check" + ("/confirm/" + token) == "/check/confirm/" + token;
    assert "/check" + ("/my/" + token) == "/check/my/" + token;
    assert "/check" + ("/unsubscribe/" + token) == "/check/unsubscribe/" + token;
  }

  lemma LetterPath(prefix: string, token: string)
    requires OneSegment(token)
    ensures Below(prefix + token, prefix)
  {
    assert (prefix + token)[|prefix|..] == token;
    assert prefix <= prefix + token;
  }

  // ----- Auth pages and the marketing site

  /** Off the check host a chain is: consume the locale, then route; a redirect of the routing is the last. */
  lemma OffTheCheckHost(site: Site, b: Browser, url: Url)
    requires !AppIsCheckHost(site) && !AtCheckHost(site, url.host) && !Bypasses(url.path)
    ensures var plain := if FromLink(site, url).Some? then url.(query := Without(url.query, "lang")) else url;
            var l, routed := Follow(site, b, url),
                             Routed(site, CookiesFor(site, b, url.host), b.preferred, plain).decision;
            if routed.Redirect? then l.url == routed.url && l.decision == Serve
            else l.url == plain && l.decision == routed
  {
    if FromLink(site, url).Some? {
      var plain := url.(query := Without(url.query, "lang"));
      Consumed(site, b, url);
      StoredKeepsSession(site, b, url, url.host);
      SameRouting(site, CookiesFor(site, b, url.host), CookiesFor(site, Stored(site, b, url), url.host), b.preferred,
                  plain);
      RoutedAtOnce(site, Stored(site, b, url), plain);
    } else {
      RoutedAtOnce(site, b, url);
    }
    hide *;
  }

  lemma SameRouting(site: Site, cookies: Cookies, later: Cookies, preferred: string, url: Url)
    requires later.hasToken == cookies.hasToken && later.demo == cookies.demo
    ensures Routed(site, later, preferred, url).decision == Routed(site, cookies, preferred, url).decision
  {
  }

  lemma RoutedAtOnce(site: Site, b: Browser, url: Url)
    requires !AppIsCheckHost(site) && !AtCheckHost(site, url.host) && !Bypasses(url.path) && FromLink(site, url).None?
    ensures var l, routed := Follow(site, b, url),
                             Routed(site, CookiesFor(site, b, url.host), b.preferred, url).decision;
            if routed.Redirect? then l.url == routed.url && l.decision == Serve
            else l.url == url && l.decision == routed
  {
    var cookies := CookiesFor(site, b, url.host);
    var routed := Routed(site, cookies, b.preferred, url).decision;
    assert Answer(site, b, url).decision == routed by {
      hide Routed, CookiesFor, Bypasses, CheckTarget;
    }
    if routed.Redirect? {
      var b1, next := Stored(site, b, url), routed.url;
      var later := CookiesFor(site, b1, url.host);
      StoredKeepsSession(site, b, url, url.host);
      LandsAtOnce(site, cookies, later, b.preferred, url);
      assert Answer(site, b1, next).decision == Serve by {
        hide Routed, CookiesFor, Bypasses, CheckTarget, Stored, First;
      }
    }
    hide Answer, Routed, CookiesFor, Stored, Rank, Bypasses, FromLink, AtCheckHost;
  }

  predicate AuthHead(path: string) {
    || Head(path, 'l', 'o', 'g') || Head(path, 'r', 'e', 'g') || Head(path, 'f', 'o', 'r') || Head(path, 'r', 'e', 's')
    || Head(path, 'v', 'e', 'r') || Head(path, 'a', 'c', 'c') || Head(path, 'm', 'a', 'g')
  }

  lemma ListedAuthHeads()
    ensures forall k :: 0 <= k < |AUTH_PATHS| ==> AuthHead(AUTH_PATHS[k])
  {
  }

  lemma AuthHeads(path: string)
    requires IsAuthPath(path)
    ensures AuthHead(path)
  {
    ListedAuthHeads();
    hide AUTH_PATHS, StartsWithSome;
    assert forall p :: p in AUTH_PATHS ==> AuthHead(p);
    OneStarts(path, AUTH_PATHS);
  }

  lemma AuthIsNoMarketing(path: string)
    requires IsAuthPath(path)
    ensures !IsMarketingPath(path) && path != "/" && !IsCrawlerPath(path)
  {
    AuthHeads(path);
    hide IsAuthPath;
    assert OtherHeads(path, MARKETING_PREFIXES) && OtherHeads(path, MARKETING_PATHS);
    OtherHeadsStart(path, MARKETING_PREFIXES);
    OtherHeadsStart(path, MARKETING_PATHS);
    assert !IsCrawlerPath(path) by {
      hide OtherHeads, StartsWithSome, IsMarketingPath;
    }
    hide AuthHead, OtherHeads, StartsWithSome, IsCrawlerPath;
  }

  /**
   The auth pages: a signed-in browser is taken to the dashboard from those without a token of
   their own; everybody else, a demo session included, gets the form.
   */
  lemma AuthPages(site: Site, b: Browser, url: Url)
    requires !AppIsCheckHost(site) && !AtCheckHost(site, url.host) && !Bypasses(url.path) && IsAuthPath(url.path)
    ensures var l, cookies := Follow(site, b, url), CookiesFor(site, b, url.host);
            && l.decision == Serve && l.url.host == url.host
            && l.url.path == (if cookies.hasToken && !cookies.demo && !StartsWithSome(url.path, TOKEN_AUTH_PATHS)
                              then "/dashboard" else url.path)
  {
    AuthIsNoMarketing(url.path);
    OffTheCheckHost(site, b, url);
    hide Follow, CookiesFor, IsMarketingPath, IsAuthPath, IsCheckPath, IsPublicCompanyPath, IsTokenPublicPath,
         IsCrawlerPath, StartsWithSome, Sticky, Bypasses, AtCheckHost, FromLink, Without;
  }

  /** A marketing path opened off the marketing domain goes there, path and parameters unchanged; nothing else does. */
  lemma MarketingLeaves(site: Site, b: Browser, url: Url)
    requires !AppIsCheckHost(site) && !AtCheckHost(site, url.host) && !Bypasses(url.path)
    requires url.path != "/" && !IsCrawlerPath(url.path)
    ensures var l := Follow(site, b, url);
            && (l.decision.Leave? <==> site.marketing != "" && url.host != site.marketing && IsMarketingPath(url.path))
            && (l.decision.Leave? ==>
                  l.decision.marketing ==
                  Url(site.marketing, url.path,
                      if FromLink(site, url).Some? then Without(url.query, "lang") else url.query))
  {
    OffTheCheckHost(site, b, url);
    hide Follow, CookiesFor, IsMarketingPath, IsAuthPath, IsCheckPath, IsPublicCompanyPath, IsTokenPublicPath,
         IsCrawlerPath, StartsWithSome, Sticky, Bypasses, AtCheckHost, FromLink, Without, LoginFor;
  }

  /** A chain that leaves for the marketing site got there by consuming a locale and leaving the check host, no more. */
  lemma {:induction false} LeavesWithinTwo(site: Site, b: Browser, url: Url)
    requires !AppIsCheckHost(site)
    ensures var l := Follow(site, b, url);
            l.decision.Leave? ==>
              l.hops <= (if FromLink(site, url).Some? then 1 else 0) + (if Bounced(site, url) then 1 else 0)
    decreases Rank(site, b, url)
  {
    if Answer(site, b, url).decision.Redirect? {
      var b1, next := Stored(site, b, url), Answer(site, b, url).decision.url;
      RedirectLowersRank(site, b, url);
      LeavesWithinTwo(site, b1, next);
      NextOfRedirect(site, b, url);
      if FromLink(site, url).None? && !Bounced(site, url) {
        NoLeaveAfterRouting(site, b, url);
      }
    }
    hide Answer, Stored, Rank, AppIsCheckHost, FromLink, Bounced;
  }

  /** What is left to do after a redirect: no locale, and no way out of the check host twice. */
  lemma NextOfRedirect(site: Site, b: Browser, url: Url)
    requires !AppIsCheckHost(site) && Answer(site, b, url).decision.Redirect?
    ensures var next := Answer(site, b, url).decision.url;
            && (FromLink(site, url).Some? ==>
                FromLink(site, next).None? && (Bounced(site, next) <==> Bounced(site, url)))
            && (FromLink(site, url).None? && Bounced(site, url) ==> FromLink(site, next).None? && !Bounced(site, next))
  {
    NoLangLeft(url.query, "lang");
    hide Routed, CookiesFor, Bypasses, CheckTarget, IsCardPath, IsCrawlerPath;
  }

  lemma NoLeaveAfterRouting(site: Site, b: Browser, url: Url)
    requires !AppIsCheckHost(site) && Answer(site, b, url).decision.Redirect?
    requires FromLink(site, url).None? && !Bounced(site, url)
    ensures !Follow(site, Stored(site, b, url), Answer(site, b, url).decision.url).decision.Leave?
  {
    var cookies, b1 := CookiesFor(site, b, url.host), Stored(site, b, url);
    var next := Answer(site, b, url).decision.url;
    assert Routed(site, cookies, b.preferred, url).decision == Answer(site, b, url).decision by {
      hide Routed, CookiesFor, Bypasses, CheckTarget, IsCardPath, IsCrawlerPath;
    }
    StoredKeepsSession(site, b, url, url.host);
    LandsAtOnce(site, cookies, CookiesFor(site, b1, url.host), b.preferred, url);
    RedirectLowersRank(site, b, url);
    assert Rank(site, b, url) <= 1 by {
      hide Routed, CookiesFor, Bypasses, Bounced;
    }
    assert !Answer(site, b1, next).decision.Leave? by {
      hide Routed, CookiesFor, Bypasses, CheckTarget, Stored, IsCardPath, IsCrawlerPath;
    }
    hide Answer, Stored, Rank, Routed, CookiesFor, FromLink, Bounced, AppIsCheckHost;
  }

  /**
   Should traffic of the marketing domain reach this proxy too, and be it not the check host, a chain through it
   takes one redirect more: it ends after at most four, and does not leave for the marketing site again.
   */
  lemma ThroughMarketing(site: Site, b: Browser, url: Url)
    requires !AppIsCheckHost(site) && !AtCheckHost(site, site.marketing)
    ensures var l := Follow(site, b, url);
            l.decision.Leave? ==>
              var m := Follow(site, l.browser, l.decision.marketing);
              l.hops + 1 + m.hops <= 4 && !m.decision.Leave?
  {
    var l := Follow(site, b, url);
    if l.decision.Leave? {
      LeavesWithinTwo(site, b, url);
      var before := LastAnswer(site, b, url);
      var there := l.decision.marketing;
      LeavesAs(site, before, l.url);
      hide *;
      OnMarketing(site, l.browser, there);
    }
  }

  /** On the marketing domain itself, with no locale to consume: one redirect at most, and not away again. */
  lemma OnMarketing(site: Site, b: Browser, url: Url)
    requires !AppIsCheckHost(site) && !AtCheckHost(site, url.host) && url.host == site.marketing
    requires !Bypasses(url.path) && FromLink(site, url).None?
    ensures var m := Follow(site, b, url); m.hops <= 1 && !m.decision.Leave?
  {
    OffTheCheckHost(site, b, url);
    assert Rank(site, b, url) <= 1 by {
      hide Routed, CookiesFor, Bypasses, Follow;
    }
    hide Rank, Follow, CookiesFor, Bypasses, FromLink, AtCheckHost, IsMarketingPath, IsAuthPath, IsCheckPath,
         IsPublicCompanyPath, IsTokenPublicPath, IsCrawlerPath, StartsWithSome, Sticky, LoginFor;
  }

  lemma LeavesAs(site: Site, b: Browser, url: Url)
    requires Answer(site, b, url).decision.Leave?
    ensures Answer(site, b, url).decision.marketing == url.(host := site.marketing)
    ensures !Bypasses(url.path) && FromLink(site, url).None?
  {
    hide Bypasses, CheckTarget, IsMarketingPath, IsAuthPath, IsCheckPath, IsPublicCompanyPath, IsTokenPublicPath,
         IsCrawlerPath, IsCardPath, StartsWithSome, Sticky, LoginFor, CookiesFor, AtCheckHost;
  }
}
