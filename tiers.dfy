/** The three strategies of the scraper's cascade, each a method with the
    source's loops proved equal to a function:
    tier 1 `_try_article_selectors` (news_harvester.py:76-100),
    tier 2 `_try_headline_selectors` (news_harvester.py:102-126),
    tier 3 `_try_generic_link_patterns` (news_harvester.py:128-163). */
module Tiers {
  import opened Text
  import opened Page
  import opened UrlClassifier
  import opened Extractors

  /** Container selectors of tier 1, in order. */
  const ArticleSelectors: seq<string> := [
    "article", ".post", ".entry", ".story",
    "[class*=\"article\"]", "[class*=\"post\"]", "[class*=\"story\"]",
    ".content-item", ".feed-item", ".news-item"]

  /** Headline-link selectors of tier 2, in order. */
  const HeadlineSelectors: seq<string> := [
    "h1 a[href]", "h2 a[href]", "h3 a[href]",
    ".headline a", ".title a", ".entry-title a",
    "[class*=\"headline\"] a", "[class*=\"title\"] a",
    "a[href*=\"/2024/\"]", "a[href*=\"/2025/\"]"]

  /** Tiers 1 and 2 try a selector only when it matches at least this many elements. */
  const MinMatches: nat := 3

  /** Tier 2 stops once it holds at least this many records. */
  const EnoughHeadlines: nat := 3

  /** Tier 3 skips links whose lower-cased text contains one of these. */
  const NavigationWords: seq<string> := ["home", "about", "contact", "subscribe", "login", "menu"]

  /** Tier 3 skips links whose text is shorter than this. */
  const MinLinkText: nat := 10

  /** Tier 3 cuts titles longer than this to this many characters plus "...". */
  const TitleLimit: nat := 100

  // ---------------------------------------------------------------------------
  // Tier 1: container selectors

  /** What one container adds to tier 1: its record, if it yields one. */
  function ContainerYield(dom: Dom, ctx: Ctx): ElementId -> seq<Article> {
    (e: ElementId) => match ContainerArticle(dom, ctx, e)
         case None => []
         case Some(a) => [a]
  }

  /** The container-path records of `elems`, in order; elements that yield no
      record are skipped. */
  function ContainerRecords(dom: Dom, ctx: Ctx, elems: seq<ElementId>): (r: seq<Article>)
    ensures |r| <= |elems|
  {
    assert forall e :: |ContainerYield(dom, ctx)(e)| <= 1;
    FlatMapShort(ContainerYield(dom, ctx), elems);
    FlatMap(ContainerYield(dom, ctx), elems)
  }

  /** When every element yields a record, none is dropped. */
  lemma ContainerRecordsAll(dom: Dom, ctx: Ctx, elems: seq<ElementId>)
    requires forall e :: e in elems ==> ContainerArticle(dom, ctx, e).Some?
    ensures |ContainerRecords(dom, ctx, elems)| == |elems|
  {
    assert forall e :: e in elems ==> |ContainerYield(dom, ctx)(e)| == 1;
    FlatMapSingletons(ContainerYield(dom, ctx), elems);
  }

  /** What one tier-1 selector yields: the records of its first `maxArticles`
      matches (Python slice), or nothing when it matches fewer than three. */
  function ArticleBatch(dom: Dom, ctx: Ctx, maxArticles: int, css: string): (r: seq<Article>)
    ensures maxArticles >= 0 ==> |r| <= maxArticles
  {
    var elements := dom.select(dom.root, css);
    if |elements| >= MinMatches then ContainerRecords(dom, ctx, PyPrefix(elements, maxArticles))
    else []
  }

  function ArticleBatchOf(dom: Dom, ctx: Ctx, maxArticles: int): string -> seq<Article> {
    (css: string) => ArticleBatch(dom, ctx, maxArticles, css)
  }

  /** The output of the first selector of `sels` whose batch is non-empty, or
      nothing. */
  function ArticleTierFrom(dom: Dom, ctx: Ctx, maxArticles: int, sels: seq<string>): (r: seq<Article>)
    ensures maxArticles >= 0 ==> |r| <= maxArticles
  {
    if maxArticles >= 0 then
      FirstNonEmptyBound(ArticleBatchOf(dom, ctx, maxArticles), sels, maxArticles);
      FirstNonEmpty(ArticleBatchOf(dom, ctx, maxArticles), sels)
    else FirstNonEmpty(ArticleBatchOf(dom, ctx, maxArticles), sels)
  }

  function ArticleTier(dom: Dom, ctx: Ctx, maxArticles: int): seq<Article> {
    ArticleTierFrom(dom, ctx, maxArticles, ArticleSelectors)
  }

  /** Every container record is well formed. */
  lemma ContainerRecordsEmitted(dom: Dom, ctx: Ctx, elems: seq<ElementId>)
    ensures forall a :: a in ContainerRecords(dom, ctx, elems) ==> Emitted(a, ctx)
  {
    var f := ContainerYield(dom, ctx);
    forall e, a | e in elems && a in f(e)
      ensures Emitted(a, ctx)
    {
      assert ContainerArticle(dom, ctx, e) == Some(a);
    }
    FlatMapAll(f, elems, (a: Article) => Emitted(a, ctx));
  }

  /** Every tier-1 record is well formed. */
  lemma {:induction false} ArticleTierEmitted(dom: Dom, ctx: Ctx, maxArticles: int, sels: seq<string>)
    ensures forall a :: a in ArticleTierFrom(dom, ctx, maxArticles, sels) ==> Emitted(a, ctx)
    decreases |sels|
  {
    if sels != [] {
      ContainerRecordsEmitted(dom, ctx, PyPrefix(dom.select(dom.root, sels[0]), maxArticles));
      assert ArticleBatchOf(dom, ctx, maxArticles)(sels[0]) == ArticleBatch(dom, ctx, maxArticles, sels[0]);
      ArticleTierEmitted(dom, ctx, maxArticles, sels[1..]);
    }
  }

  /** The inner loop of `_try_article_selectors`: extract every element of
      the batch and keep the records obtained, in order. */
  method ExtractContainers(dom: Dom, ctx: Ctx, batch: seq<ElementId>) returns (articles: seq<Article>)
    ensures articles == ContainerRecords(dom, ctx, batch)
  {
    articles := [];
    for j := 0 to |batch|
      invariant articles == ContainerRecords(dom, ctx, batch[..j])
    {
      FlatMapSnoc(ContainerYield(dom, ctx), batch, j);
      var article := ExtractArticleFromElement(dom, ctx, batch[j]);
      if article.Some? {
        assert ContainerYield(dom, ctx)(batch[j]) == [article.value];
        articles := articles + [article.value];
      } else {
        assert ContainerYield(dom, ctx)(batch[j]) == [];
      }
    }
    assert batch[..|batch|] == batch;
  }

  /** One step of the tier-1 loop over `sels[i]`: the records `articles`
      obtained from that selector (none when it matches fewer than three
      elements) end the tier when there are any. */
  lemma ArticleTierStep(dom: Dom, ctx: Ctx, maxArticles: int, sels: seq<string>, i: int, articles: seq<Article>)
    requires 0 <= i < |sels|
    requires var elements := dom.select(dom.root, sels[i]);
      articles == if |elements| >= MinMatches then ContainerRecords(dom, ctx, PyPrefix(elements, maxArticles)) else []
    ensures ArticleTierFrom(dom, ctx, maxArticles, sels[i..]) ==
      if articles != [] then articles else ArticleTierFrom(dom, ctx, maxArticles, sels[i + 1..])
  {
    assert sels[i..][0] == sels[i];
    assert sels[i..][1..] == sels[i + 1..];
    assert ArticleBatchOf(dom, ctx, maxArticles)(sels[i]) == articles;
  }

  /** `_try_article_selectors`. */
  method TryArticleSelectors(dom: Dom, ctx: Ctx, maxArticles: int) returns (articles: seq<Article>)
    ensures articles == ArticleTier(dom, ctx, maxArticles)
    ensures maxArticles >= 0 ==> |articles| <= maxArticles
  {
    articles := [];
    for i := 0 to |ArticleSelectors|
      invariant articles == []
      invariant ArticleTierFrom(dom, ctx, maxArticles, ArticleSelectors[i..]) == ArticleTier(dom, ctx, maxArticles)
    {
      var elements := dom.select(dom.root, ArticleSelectors[i]);
      if |elements| >= MinMatches {
        articles := ExtractContainers(dom, ctx, PyPrefix(elements, maxArticles));
      }
      ArticleTierStep(dom, ctx, maxArticles, ArticleSelectors, i, articles);
      if articles != [] {
        break;
      }
    }
  }

  /** Tier 1 output comes from ONE selector: the first one that matches at
      least three elements and yields a record; every earlier selector yielded
      nothing. An empty output means no selector yielded anything. */
  lemma ArticleTierFromOneSelector(dom: Dom, ctx: Ctx, maxArticles: int, sels: seq<string>)
    ensures var r := ArticleTierFrom(dom, ctx, maxArticles, sels);
      r != [] ==> exists k :: && 0 <= k < |sels|
                              && |dom.select(dom.root, sels[k])| >= MinMatches
                              && r == ArticleBatch(dom, ctx, maxArticles, sels[k])
                              && forall j :: 0 <= j < k ==> ArticleBatch(dom, ctx, maxArticles, sels[j]) == []
    ensures ArticleTierFrom(dom, ctx, maxArticles, sels) == [] <==>
      forall k :: 0 <= k < |sels| ==> ArticleBatch(dom, ctx, maxArticles, sels[k]) == []
  {
    var f := ArticleBatchOf(dom, ctx, maxArticles);
    FirstNonEmptyIs(f, sels);
    assert forall j :: 0 <= j < |sels| ==> f(sels[j]) == ArticleBatch(dom, ctx, maxArticles, sels[j]);
  }

  // ---------------------------------------------------------------------------
  // Tier 2: headline links

  /** What one link adds to tier 2: its link-path record, if it yields one
      whose URL is valid. */
  function LinkYield(dom: Dom, ctx: Ctx): ElementId -> seq<Article> {
    (link: ElementId) => match LinkArticle(dom, ctx, link)
            case None => []
            case Some(a) => if IsValidArticleUrl(a.url) then [a] else []
  }

  /** What one link adds, in terms of its record `a`. */
  lemma LinkYieldOf(dom: Dom, ctx: Ctx, link: ElementId, a: Option<Article>)
    requires a == LinkArticle(dom, ctx, link)
    ensures LinkYield(dom, ctx)(link) == if a.Some? && IsValidArticleUrl(a.value.url) then [a.value] else []
  {
  }

  /** The accepted link-path records of `links`, in order. */
  function LinkRecords(dom: Dom, ctx: Ctx, links: seq<ElementId>): (r: seq<Article>)
    ensures |r| <= |links|
  {
    assert forall l :: |LinkYield(dom, ctx)(l)| <= 1;
    FlatMapShort(LinkYield(dom, ctx), links);
    FlatMap(LinkYield(dom, ctx), links)
  }

  /** A record tier 2 keeps: emitted by the link path, so without an author,
      and with a URL that passes `_is_valid_article_url`. */
  predicate HeadlineRecord(a: Article, ctx: Ctx) {
    Emitted(a, ctx) && IsValidArticleUrl(a.url) && a.author.None?
  }

  lemma LinkRecordsAccepted(dom: Dom, ctx: Ctx, links: seq<ElementId>)
    ensures forall a :: a in LinkRecords(dom, ctx, links) ==> HeadlineRecord(a, ctx)
  {
    FlatMapMember(LinkYield(dom, ctx), links);
  }

  /** What one qualifying tier-2 selector contributes: the accepted records of
      its first `maxArticles` links (Python slice). */
  function HeadlineBatch(dom: Dom, ctx: Ctx, maxArticles: int, css: string): seq<Article> {
    LinkRecords(dom, ctx, PyPrefix(dom.select(dom.root, css), maxArticles))
  }

  /** The headline loop continued from the records `acc` gathered so far: each
      selector with at least three matches appends its batch, and the loop
      stops once at least three records are held. */
  function HeadlineTierFrom(dom: Dom, ctx: Ctx, maxArticles: int, sels: seq<string>, acc: seq<Article>)
    : (r: seq<Article>)
    ensures |acc| <= |r| && r[..|acc|] == acc
    decreases |sels|
  {
    if sels == [] then acc
    else if |dom.select(dom.root, sels[0])| >= MinMatches then
      var more := acc + HeadlineBatch(dom, ctx, maxArticles, sels[0]);
      if |more| >= EnoughHeadlines then more
      else
        var r := HeadlineTierFrom(dom, ctx, maxArticles, sels[1..], more);
        assert r[..|acc|] == r[..|more|][..|acc|];
        r
    else HeadlineTierFrom(dom, ctx, maxArticles, sels[1..], acc)
  }

  function HeadlineTier(dom: Dom, ctx: Ctx, maxArticles: int): seq<Article> {
    HeadlineTierFrom(dom, ctx, maxArticles, HeadlineSelectors, [])
  }

  /** One step of the headline loop over `sels[i]`. */
  lemma HeadlineTierStep(dom: Dom, ctx: Ctx, maxArticles: int, sels: seq<string>, i: int, acc: seq<Article>)
    requires 0 <= i < |sels|
    ensures HeadlineTierFrom(dom, ctx, maxArticles, sels[i..], acc) ==
      if |dom.select(dom.root, sels[i])| >= MinMatches then
        var more := acc + HeadlineBatch(dom, ctx, maxArticles, sels[i]);
        if |more| >= EnoughHeadlines then more
        else HeadlineTierFrom(dom, ctx, maxArticles, sels[i + 1..], more)
      else HeadlineTierFrom(dom, ctx, maxArticles, sels[i + 1..], acc)
  {
    assert sels[i..][0] == sels[i];
    assert sels[i..][1..] == sels[i + 1..];
  }

  /** One step of the inner headline loop: appending the next link's record,
      when it has one with a valid URL, keeps `articles` equal to `acc`
      followed by the accepted records of the links seen so far. */
  lemma CollectHeadlinesStep(dom: Dom, ctx: Ctx, batch: seq<ElementId>, j: int,
                             acc: seq<Article>, articles: seq<Article>, a: Option<Article>)
    requires 0 <= j < |batch|
    requires articles == acc + LinkRecords(dom, ctx, batch[..j])
    requires a == LinkArticle(dom, ctx, batch[j])
    ensures (if a.Some? && IsValidArticleUrl(a.value.url) then articles + [a.value] else articles)
            == acc + LinkRecords(dom, ctx, batch[..j + 1])
  {
    LinkYieldOf(dom, ctx, batch[j], a);
    FlatMapSnocAfter(LinkYield(dom, ctx), batch, j, acc, articles);
  }

  /** The inner loop of `_try_headline_selectors`: turn every link of the
      batch into a record and append those with a valid URL to `acc`. */
  method CollectHeadlines(dom: Dom, ctx: Ctx, batch: seq<ElementId>, acc: seq<Article>)
    returns (articles: seq<Article>)
    ensures articles == acc + LinkRecords(dom, ctx, batch)
  {
    articles := acc;
    for j := 0 to |batch|
      invariant articles == acc + LinkRecords(dom, ctx, batch[..j])
    {
      var article := CreateArticleFromLink(dom, ctx, batch[j]);
      CollectHeadlinesStep(dom, ctx, batch, j, acc, articles, article);
      if article.Some? && IsValidArticleUrl(article.value.url) {
        articles := articles + [article.value];
      }
    }
    assert batch[..|batch|] == batch;
  }

  /** `_try_headline_selectors`. */
  method TryHeadlineSelectors(dom: Dom, ctx: Ctx, maxArticles: int) returns (articles: seq<Article>)
    ensures articles == HeadlineTier(dom, ctx, maxArticles)
  {
    articles := [];
    for i := 0 to |HeadlineSelectors|
      invariant HeadlineTierFrom(dom, ctx, maxArticles, HeadlineSelectors[i..], articles)
             == HeadlineTier(dom, ctx, maxArticles)
    {
      HeadlineTierStep(dom, ctx, maxArticles, HeadlineSelectors, i, articles);
      var links := dom.select(dom.root, HeadlineSelectors[i]);
      if |links| >= MinMatches {
        articles := CollectHeadlines(dom, ctx, PyPrefix(links, maxArticles), articles);
        if |articles| >= EnoughHeadlines {
          break;
        }
      }
    }
    assert HeadlineSelectors[|HeadlineSelectors|..] == [];
  }

  /** Every record tier 2 adds to `acc` is a `HeadlineRecord`. */
  lemma {:induction false} HeadlineTierRecords(
    dom: Dom, ctx: Ctx, maxArticles: int, sels: seq<string>, acc: seq<Article>)
    ensures forall a :: a in HeadlineTierFrom(dom, ctx, maxArticles, sels, acc) ==>
      a in acc || HeadlineRecord(a, ctx)
    decreases |sels|
  {
    if sels != [] {
      var more := acc + HeadlineBatch(dom, ctx, maxArticles, sels[0]);
      LinkRecordsAccepted(dom, ctx, PyPrefix(dom.select(dom.root, sels[0]), maxArticles));
      if |dom.select(dom.root, sels[0])| >= MinMatches {
        HeadlineTierRecords(dom, ctx, maxArticles, sels[1..], more);
      } else {
        HeadlineTierRecords(dom, ctx, maxArticles, sels[1..], acc);
      }
    }
  }

  /** Every tier-2 record is well formed and has no author. */
  lemma HeadlineTierEmitted(dom: Dom, ctx: Ctx, maxArticles: int)
    ensures forall a :: a in HeadlineTier(dom, ctx, maxArticles) ==> Emitted(a, ctx) && a.author.None?
  {
    HeadlineTierRecords(dom, ctx, maxArticles, HeadlineSelectors, []);
    forall a | a in HeadlineTier(dom, ctx, maxArticles)
      ensures Emitted(a, ctx) && a.author.None?
    {
      assert HeadlineRecord(a, ctx);
    }
  }

  /** Tier 2 is not capped at `maxArticles`: it appends whole batches until it
      holds three records, so it can return up to `maxArticles + 2`. */
  lemma {:induction false} HeadlineTierBound(
    dom: Dom, ctx: Ctx, maxArticles: int, sels: seq<string>, acc: seq<Article>)
    requires maxArticles >= 0
    requires |acc| < EnoughHeadlines
    ensures |HeadlineTierFrom(dom, ctx, maxArticles, sels, acc)| <= maxArticles + EnoughHeadlines - 1
    decreases |sels|
  {
    if sels != [] && |dom.select(dom.root, sels[0])| >= MinMatches {
      var more := acc + HeadlineBatch(dom, ctx, maxArticles, sels[0]);
      if |more| < EnoughHeadlines {
        HeadlineTierBound(dom, ctx, maxArticles, sels[1..], more);
      }
    } else if sels != [] {
      HeadlineTierBound(dom, ctx, maxArticles, sels[1..], acc);
    }
  }

  /** With `maxArticles` 0 every batch is empty, so tier 2 finds nothing. */
  lemma {:induction false} HeadlineTierZero(dom: Dom, ctx: Ctx, sels: seq<string>)
    ensures HeadlineTierFrom(dom, ctx, 0, sels, []) == []
    decreases |sels|
  {
    if sels != [] {
      assert PyPrefix(dom.select(dom.root, sels[0]), 0) == [];
      assert HeadlineBatch(dom, ctx, 0, sels[0]) == [];
      HeadlineTierZero(dom, ctx, sels[1..]);
      assert [] + HeadlineBatch(dom, ctx, 0, sels[0]) == [];
    }
  }

  /** The bound is reached: two qualifying selectors with two accepted links
      each give four records when `maxArticles` is 2. */
  lemma HeadlineTierCanExceedCap(dom: Dom, ctx: Ctx)
    requires |dom.select(dom.root, HeadlineSelectors[0])| >= MinMatches
    requires |dom.select(dom.root, HeadlineSelectors[1])| >= MinMatches
    requires |HeadlineBatch(dom, ctx, 2, HeadlineSelectors[0])| == 2
    requires |HeadlineBatch(dom, ctx, 2, HeadlineSelectors[1])| == 2
    ensures |HeadlineTier(dom, ctx, 2)| == 4
  {
    var sels := HeadlineSelectors;
    var first := [] + HeadlineBatch(dom, ctx, 2, sels[0]);
    assert sels[0..] == sels;
    HeadlineTierStep(dom, ctx, 2, sels, 0, []);
    HeadlineTierStep(dom, ctx, 2, sels, 1, first);
  }

  // ---------------------------------------------------------------------------
  // Tier 3: every link

  /** `any(skip in text.lower() for skip in [...])`. */
  predicate IsNavigationText(text: string) {
    ContainsAny(Lower(text), NavigationWords)
  }

  /** The record one link yields in tier 3, if it passes every filter. */
  function GenericCandidate(dom: Dom, ctx: Ctx, link: ElementId): (r: Option<Article>)
    ensures r.Some? ==> Emitted(r.value, ctx) && r.value.summary == "" && r.value.author.None?
  {
    var text := dom.text(link);
    var href := Href(dom, link);
    if text == "" || |text| < MinLinkText then None
    else if IsNavigationText(text) then None
    else if LooksLikeArticleUrl(href) && IsValidArticleUrl(href) then
      Some(Article(Truncate(text, TitleLimit), ResolveUrl(ctx, href), "", ctx.now, ctx.domain, None))
    else None
  }

  /** A link yields a tier-3 record exactly when its text has at least 10
      characters and no navigation word and its raw href passes both URL
      predicates; the title is the text cut at 100 characters. */
  lemma GenericCandidateIff(dom: Dom, ctx: Ctx, link: ElementId)
    ensures var text := dom.text(link); var href := Href(dom, link);
      GenericCandidate(dom, ctx, link).Some? <==>
        && |text| >= MinLinkText
        && !IsNavigationText(text)
        && LooksLikeArticleUrl(href)
        && IsValidArticleUrl(href)
    ensures var r := GenericCandidate(dom, ctx, link);
      r.Some? ==> && r.value.title == Truncate(dom.text(link), TitleLimit)
                  && |r.value.title| <= TitleLimit + 3
                  && r.value.url == ResolveUrl(ctx, Href(dom, link))
  {
    TruncateIdempotent(dom.text(link), TitleLimit);
  }

  /** What one link adds to tier 3: its candidate, if any. */
  function GenericYield(dom: Dom, ctx: Ctx): ElementId -> seq<Article> {
    (link: ElementId) => match GenericCandidate(dom, ctx, link)
            case None => []
            case Some(a) => [a]
  }

  /** Every tier-3 record of `links`, in document order, before the cap. */
  function GenericRecords(dom: Dom, ctx: Ctx, links: seq<ElementId>): (r: seq<Article>)
    ensures |r| <= |links|
  {
    assert forall l :: |GenericYield(dom, ctx)(l)| <= 1;
    FlatMapShort(GenericYield(dom, ctx), links);
    FlatMap(GenericYield(dom, ctx), links)
  }

  /** Tier 3: the first `maxArticles` records over all anchors with an href;
      none when `maxArticles <= 0`. */
  function GenericTier(dom: Dom, ctx: Ctx, maxArticles: int): seq<Article> {
    TakeUpTo(GenericRecords(dom, ctx, AnchorsWithHref(dom)), maxArticles)
  }

  /** One more link extends the tier-3 records by its candidate, if any. */
  lemma GenericRecordsSnoc(dom: Dom, ctx: Ctx, links: seq<ElementId>, i: int,
                           articles: seq<Article>, candidate: Option<Article>)
    requires 0 <= i < |links|
    requires articles == GenericRecords(dom, ctx, links[..i])
    requires candidate == GenericCandidate(dom, ctx, links[i])
    ensures GenericRecords(dom, ctx, links[..i + 1]) ==
      if candidate.Some? then articles + [candidate.value] else articles
  {
    FlatMapSnoc(GenericYield(dom, ctx), links, i);
  }

  /** The body of the `_try_generic_link_patterns` loop for one link: the
      filters in the source's order, each ending the iteration early. */
  method CheckGenericLink(dom: Dom, ctx: Ctx, link: ElementId) returns (candidate: Option<Article>)
    ensures candidate == GenericCandidate(dom, ctx, link)
  {
    var href := Href(dom, link);
    var text := dom.text(link);
    if text == "" || |text| < MinLinkText {
      return None;
    }
    if IsNavigationText(text) {
      return None;
    }
    if LooksLikeArticleUrl(href) && IsValidArticleUrl(href) {
      var fullUrl := ResolveUrl(ctx, href);
      return Some(Article(Truncate(text, TitleLimit), fullUrl, "", ctx.now, ctx.domain, None));
    }
    return None;
  }

  /** Where the tier-3 loop may stop: after all links, or once it holds
      `maxArticles` records (none when `maxArticles <= 0`). Either way the
      records held are the tier's output. */
  lemma GenericTierStops(dom: Dom, ctx: Ctx, maxArticles: int, links: seq<ElementId>, i: int)
    requires links == AnchorsWithHref(dom)
    requires 0 <= i <= |links|
    requires i == |links| || |GenericRecords(dom, ctx, links[..i])| >= maxArticles
    requires GenericRecords(dom, ctx, links[..i]) == [] || |GenericRecords(dom, ctx, links[..i])| <= maxArticles
    ensures GenericTier(dom, ctx, maxArticles) == GenericRecords(dom, ctx, links[..i])
  {
    if |GenericRecords(dom, ctx, links[..i])| >= maxArticles {
      FlatMapTakeCut(GenericYield(dom, ctx), links, i, maxArticles);
    } else {
      assert links[..i] == links;
    }
  }

  /** `_try_generic_link_patterns`: the loop stops as soon as it holds
      `maxArticles` records, which gives the same list as filtering every
      link and keeping the first `maxArticles`. */
  method TryGenericLinkPatterns(dom: Dom, ctx: Ctx, maxArticles: int) returns (articles: seq<Article>)
    ensures articles == GenericTier(dom, ctx, maxArticles)
  {
    articles := [];
    var allLinks := AnchorsWithHref(dom);
    for i := 0 to |allLinks|
      invariant articles == GenericRecords(dom, ctx, allLinks[..i])
      invariant articles == [] || |articles| <= maxArticles
    {
      if |articles| >= maxArticles {
        GenericTierStops(dom, ctx, maxArticles, allLinks, i);
        return;
      }
      var candidate := CheckGenericLink(dom, ctx, allLinks[i]);
      GenericRecordsSnoc(dom, ctx, allLinks, i, articles, candidate);
      if candidate.Some? {
        articles := articles + [candidate.value];
      }
    }
    GenericTierStops(dom, ctx, maxArticles, allLinks, |allLinks|);
  }

  /** Every tier-3 record comes from an anchor with an href whose text has at
      least 10 characters and no navigation word, and whose raw href passes
      both URL predicates; its title is that text cut at 100 characters, its
      summary is empty and it has no author. */
  lemma GenericTierRecordsQualify(dom: Dom, ctx: Ctx, maxArticles: int)
    ensures forall a :: a in GenericTier(dom, ctx, maxArticles) ==>
      exists l :: && l in AnchorsWithHref(dom)
                  && dom.href(l).Some?
                  && |dom.text(l)| >= MinLinkText
                  && !IsNavigationText(dom.text(l))
                  && LooksLikeArticleUrl(Href(dom, l))
                  && IsValidArticleUrl(Href(dom, l))
                  && a.title == Truncate(dom.text(l), TitleLimit)
                  && a.url == ResolveUrl(ctx, Href(dom, l))
                  && a.summary == ""
                  && a.author.None?
  {
    var links := AnchorsWithHref(dom);
    var all := GenericRecords(dom, ctx, links);
    FlatMapMember(GenericYield(dom, ctx), links);
    forall a | a in GenericTier(dom, ctx, maxArticles)
      ensures exists l :: && l in links
                          && dom.href(l).Some?
                          && |dom.text(l)| >= MinLinkText
                          && !IsNavigationText(dom.text(l))
                          && LooksLikeArticleUrl(Href(dom, l))
                          && IsValidArticleUrl(Href(dom, l))
                          && a.title == Truncate(dom.text(l), TitleLimit)
                          && a.url == ResolveUrl(ctx, Href(dom, l))
                          && a.summary == ""
                          && a.author.None?
    {
      assert a in all;
      var l :| l in links && a in GenericYield(dom, ctx)(l);
      assert GenericCandidate(dom, ctx, l) == Some(a);
      GenericCandidateIff(dom, ctx, l);
    }
  }

  /** Every tier-3 record is well formed and has no author. */
  lemma GenericTierEmitted(dom: Dom, ctx: Ctx, maxArticles: int)
    ensures forall a :: a in GenericTier(dom, ctx, maxArticles) ==> Emitted(a, ctx) && a.author.None?
  {
    var links := AnchorsWithHref(dom);
    var f := GenericYield(dom, ctx);
    forall l, a | l in links && a in f(l)
      ensures Emitted(a, ctx) && a.author.None?
    {
      assert GenericCandidate(dom, ctx, l) == Some(a);
    }
    FlatMapAll(f, links, (a: Article) => Emitted(a, ctx) && a.author.None?);
    assert forall a :: a in GenericTier(dom, ctx, maxArticles) ==> a in GenericRecords(dom, ctx, links);
  }

  /** A link reading "Subscribe to our newsletter" never becomes a tier-3
      record, whatever its URL. */
  lemma SubscribeLinkIsSkipped(dom: Dom, ctx: Ctx, link: ElementId)
    requires dom.text(link) == "Subscribe to our newsletter"
    ensures GenericCandidate(dom, ctx, link).None?
  {
    var low := Lower(dom.text(link));
    assert low[..9] == "subscribe";
    assert OccursAt(low, NavigationWords[3], 0);
    assert Contains(low, NavigationWords[3]);
  }
}
