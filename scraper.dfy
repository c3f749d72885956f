/** `scrape_site_adaptive` (news_harvester.py:43-74): derive the source name
    from the site URL, fetch and parse the page, then run the three strategies
    in turn and keep the output of the first one that yields anything. */
module Scraper {
  import opened Text
  import opened Page
  import opened UrlClassifier
  import opened Extractors
  import opened Tiers

  /** The source name every record carries: the site's host name
      (`urlparse(site_url).netloc`) with every "www." removed. */
  function SourceName(host: string): (r: string)
    ensures |r| <= |host|
    ensures r == host <==> !Contains(host, "www.")
  {
    RemoveWwwFixedIff(host);
    RemoveWww(host)
  }

  /** The strategy cascade on a parsed page: tier 1, else tier 2 when tier 1
      found nothing, else tier 3. */
  function Cascade(dom: Dom, ctx: Ctx, maxArticles: int): seq<Article> {
    var containers := ArticleTier(dom, ctx, maxArticles);
    if containers != [] then containers
    else
      var headlines := HeadlineTier(dom, ctx, maxArticles);
      if headlines != [] then headlines
      else GenericTier(dom, ctx, maxArticles)
  }

  /** What one call returns. `page` is the parsed response, or `None` when the
      request fails or answers with an error status: the exception handler
      then leaves the list empty. `host` is `urlparse(site_url).netloc`, `now`
      the timestamp of the call and `join` is `urljoin`. */
  function ScrapeSite(siteUrl: string, host: string, now: string, join: (string, string) -> string,
                      page: Option<Dom>, maxArticles: int): seq<Article>
  {
    match page
    case None => []
    case Some(dom) => Cascade(dom, Ctx(siteUrl, SourceName(host), now, join), maxArticles)
  }

  /** `scrape_site_adaptive`, after the request: the three strategies in turn. */
  method ScrapeSiteAdaptive(siteUrl: string, host: string, now: string, join: (string, string) -> string,
                            page: Option<Dom>, maxArticles: int)
    returns (articles: seq<Article>)
    ensures articles == ScrapeSite(siteUrl, host, now, join, page, maxArticles)
  {
    articles := [];
    var domain := SourceName(host);
    if page.None? {
      return;
    }
    var dom := page.value;
    var ctx := Ctx(siteUrl, domain, now, join);
    articles := TryArticleSelectors(dom, ctx, maxArticles);
    if articles == [] {
      articles := TryHeadlineSelectors(dom, ctx, maxArticles);
    }
    if articles == [] {
      articles := TryGenericLinkPatterns(dom, ctx, maxArticles);
    }
  }

  // ---------------------------------------------------------------------------
  // What a call returns, whichever tier produced it.

  /** Every record has a non-empty title, carries the site's source name and
      the call's timestamp, and has a summary of at most 203 characters. When
      tier 1 found nothing, no record has an author. */
  lemma CascadeRecords(dom: Dom, ctx: Ctx, maxArticles: int)
    ensures forall a :: a in Cascade(dom, ctx, maxArticles) ==> Emitted(a, ctx)
    ensures ArticleTier(dom, ctx, maxArticles) == [] ==>
      forall a :: a in Cascade(dom, ctx, maxArticles) ==> a.author.None?
  {
    if ArticleTier(dom, ctx, maxArticles) != [] {
      ArticleTierEmitted(dom, ctx, maxArticles, ArticleSelectors);
    } else if HeadlineTier(dom, ctx, maxArticles) != [] {
      HeadlineTierEmitted(dom, ctx, maxArticles);
    } else {
      GenericTierEmitted(dom, ctx, maxArticles);
    }
  }

  /** Every record of a call carries the host name without "www." as its
      source. */
  lemma ScrapeSiteSource(siteUrl: string, host: string, now: string, join: (string, string) -> string,
                         page: Option<Dom>, maxArticles: int)
    ensures forall a :: a in ScrapeSite(siteUrl, host, now, join, page, maxArticles) ==>
      && a.source == RemoveWww(host)
      && a.publishedDate == now
      && a.title != ""
      && |a.summary| <= SummaryLimit + 3
  {
    if page.Some? {
      CascadeRecords(page.value, Ctx(siteUrl, SourceName(host), now, join), maxArticles);
    }
  }

  /** Tiers 1 and 3 never return more than `maxArticles` records, but tier 2
      can add up to two more, so a call returns at most `maxArticles + 2`. */
  lemma CascadeBound(dom: Dom, ctx: Ctx, maxArticles: int)
    requires maxArticles >= 0
    ensures |Cascade(dom, ctx, maxArticles)| <= maxArticles + EnoughHeadlines - 1
    ensures ArticleTier(dom, ctx, maxArticles) != [] ==> |Cascade(dom, ctx, maxArticles)| <= maxArticles
  {
    HeadlineTierBound(dom, ctx, maxArticles, HeadlineSelectors, []);
  }

  /** A call yields nothing exactly when the page could not be fetched or all
      three strategies come back empty. */
  lemma ScrapeSiteEmptyIff(siteUrl: string, host: string, now: string, join: (string, string) -> string,
                           page: Option<Dom>, maxArticles: int)
    ensures ScrapeSite(siteUrl, host, now, join, page, maxArticles) == [] <==>
      || page.None?
      || (var ctx := Ctx(siteUrl, SourceName(host), now, join);
          && ArticleTier(page.value, ctx, maxArticles) == []
          && HeadlineTier(page.value, ctx, maxArticles) == []
          && GenericTier(page.value, ctx, maxArticles) == [])
  {
  }

  /** With `maxArticles` 0 a call returns nothing: tiers 1 and 2 take no
      element from any selector and tier 3 keeps no record. */
  lemma ZeroMaxYieldsNothing(dom: Dom, ctx: Ctx)
    ensures Cascade(dom, ctx, 0) == []
  {
    HeadlineTierZero(dom, ctx, HeadlineSelectors);
  }

  /** A negative `maxArticles` does not empty tier 1: Python's slice then
      keeps all but the last `-maxArticles` matches of a selector. */
  lemma NegativeMaxKeepsContainers(dom: Dom, ctx: Ctx, maxArticles: int)
    requires maxArticles < 0
    requires |dom.select(dom.root, ArticleSelectors[0])| >= MinMatches - maxArticles
    requires forall e :: e in dom.select(dom.root, ArticleSelectors[0]) ==> ContainerArticle(dom, ctx, e).Some?
    ensures |Cascade(dom, ctx, maxArticles)| == |dom.select(dom.root, ArticleSelectors[0])| + maxArticles
  {
    var batch := PyPrefix(dom.select(dom.root, ArticleSelectors[0]), maxArticles);
    assert forall e :: e in batch ==> e in dom.select(dom.root, ArticleSelectors[0]);
    ContainerRecordsAll(dom, ctx, batch);
  }
}
