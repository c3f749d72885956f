# news-harvester extraction engine in Dafny

This project models the adaptive extraction engine of `TechNewsScraper`. The
engine takes a site URL and its parsed home page and returns the articles it
finds, as `Article` records (title, url, summary, published date, source,
author). It tries three strategies in turn and keeps the output of the first
one that yields anything:

1. **Container scan** (`_try_article_selectors`). Ten container selectors are
   tried in order. The first one that matches at least three elements and
   yields a record from its first `max_articles` matches wins.
2. **Headline-link scan** (`_try_headline_selectors`). Ten link selectors are
   tried in order. Each selector with at least three matches turns its first
   `max_articles` links into records. Only records whose URL passes
   `_is_valid_article_url` are kept. Records accumulate until three or more
   are held.
3. **Generic link scan** (`_try_generic_link_patterns`). Every anchor with an
   href is checked. It is kept when its text is at least 10 characters, holds
   no navigation word, and its href passes `_looks_like_article_url` and
   `_is_valid_article_url`. The scan stops once `max_articles` records are
   held.

The source contains this engine twice, byte for byte:
`news_harvester.py:43-286` and `scrape_news.py:42-285`. The table below cites
`news_harvester.py`. The same code in `scrape_news.py` sits one line earlier.

Modules, one per part of the engine:

- `Text` (`text.dfy`): string primitives. These are ASCII lower-casing, Python's `in`, the
  `[:n] + "..."` truncation rule and `replace('www.', '')`.
- `Page` (`page.dfy`): what the engine sees and emits. The parsed page is a
  `Dom` value whose fields stand for BeautifulSoup's `select`, `get_text`,
  `get('href')`, `parent` and `find_all`. `urljoin` is a field of the call
  context `Ctx`. The module also defines the `Article` record, Python's
  slice `xs[:m]` and a generic "concatenate what each element yields" with
  its lemmas.
- `UrlClassifier` (`url_classifier.dfy`): `_looks_like_article_url` and
  `_is_valid_article_url`, with each regular expression written out.
- `Extractors` (`extractors.dfy`): `_extract_article_from_element` and
  `_create_article_from_link`.
- `Tiers` (`tiers.dfy`): the three strategy methods.
- `Scraper` (`scraper.dfy`): the cascade of `scrape_site_adaptive`.

Every loop of the source is a method whose postcondition equates its result
with a function. That function says what the loop computes without stepping
through it. The properties of the engine are lemmas about those functions.
Extraction never changes the scraper object, so there is no class.

The model keeps these quirks of the code:

- A host name loses every non-overlapping "www." that a left-to-right scan
  finds, not only a leading one, because `replace('www.', '')` works that
  way (news_harvester.py:48). The result can still hold a "www.": the
  characters around a removed one may form another.
- `.html` anywhere in a URL makes it look like an article, not only at the
  end, because the pattern `\.html` is not anchored (news_harvester.py:267).
- The container summary is not always a substantial text. When no candidate
  is longer than 20 characters, it is the text of the last matching
  candidate, however short (news_harvester.py:197-203).
- Tier 2 does not stop after the first qualifying selector. It appends the
  batches of successive qualifying selectors until three records are held,
  so for a non-negative `max_articles` it can return up to `max_articles + 2`
  records (news_harvester.py:113-124).

## Model

| member | source | states |
|---|---|---|
| Text.Truncate | news_harvester.py:155 | a string longer than n keeps its first n characters followed by "..."; a shorter one is unchanged |
| Text.TruncateIdempotent | news_harvester.py:155 | truncating a truncated title changes nothing, and a truncated string is at most n + 3 long |
| Text.RemoveWww | news_harvester.py:48 | removing "www." never lengthens a host name |
| Text.RemoveWwwShrinks | news_harvester.py:48 | a host name holding "www." somewhere loses at least four characters |
| Text.RemoveWwwFixedIff | news_harvester.py:48 | a host name is unchanged exactly when it holds no "www." at all |
| Text.RemoveWwwLeading | news_harvester.py:48 | "www." + host becomes host whenever host itself holds no "www.", e.g. "www.wired.com" gives "wired.com" |
| Text.RemoveWwwInner | news_harvester.py:48 | a "www." in the middle of a host name is removed too, whenever neither side holds another "www." |
| Text.RemoveWwwCanLeaveWww | news_harvester.py:48 | one pass can leave a "www.": "wwww.ww." becomes "www." |
| Page.SelectOne | news_harvester.py:176 | `select_one` finds nothing exactly when `select` finds nothing, and otherwise returns its first match |
| Page.KeepWithHref | news_harvester.py:133 | the anchors kept are exactly those of the input that have an href |
| Page.ResolveUrl | news_harvester.py:189 | an href starting with "http" is kept as is; any other is joined onto the site URL |
| Page.PyPrefix | news_harvester.py:92 | `xs[:m]` is a prefix of xs of length min(m, len(xs)) for m >= 0, and drops the last -m elements for m < 0 |
| Page.TakeUpTo | news_harvester.py:135-137 | a loop that stops once it holds m items keeps a prefix of min(m, len) items, none when m <= 0 |
| UrlClassifier.TrailingDigits | news_harvester.py:268 | the count of digits a string ends with: all of them are digits and the character before them is not |
| UrlClassifier.DashDigitsAtEndIff | news_harvester.py:268 | `-\d+$` matches exactly when some dash is followed by one or more digits up to the end |
| UrlClassifier.ArticleMarkerAnywhereLooks | news_harvester.py:260-271 | a URL with "/article/", "/post/", "/story/", "/news/", "/blog/" or ".html" anywhere, in any letter case, looks like an article |
| UrlClassifier.SkipMarkerAnywhereRejects | news_harvester.py:279-286 | a URL with "#", "javascript:", "mailto:", "/tag/", "/category/", "/author/", "/search", "/login" or "/register" anywhere, in any letter case, is rejected |
| UrlClassifier.SkipExtensionBeforeNewlineRejects | news_harvester.py:283-286 | an extension .pdf, .jpg, .png or .gif just before a final newline is rejected too, as `$` allows |
| UrlClassifier.HasYearSegmentLower | news_harvester.py:261 | lower-casing a URL does not change whether it has a `/NNNN/` segment |
| UrlClassifier.TrailingDigitsLower | news_harvester.py:268 | lower-casing a URL does not change its trailing digits |
| UrlClassifier.DashDigitsAtEndLower | news_harvester.py:268 | lower-casing a URL does not change whether it ends in a dash and digits |
| UrlClassifier.EndsWithDashDigitsLower | news_harvester.py:268 | the same, with `$` also matching before a final newline |
| UrlClassifier.CaseInsensitive | news_harvester.py:255-286 | both URL predicates give the same answer for a URL and its lower-cased form |
| UrlClassifier.TagUrlIsInvalid | news_harvester.py:281 | "/tag/ai" is rejected |
| UrlClassifier.DatedHtmlUrlIsValid | news_harvester.py:273-286 | "/2025/05/01/foo.html" is accepted |
| UrlClassifier.ArticlePathLooksLikeArticle | news_harvester.py:255-271 | "/article/123" looks like an article |
| UrlClassifier.AboutPathDoesNotLookLikeArticle | news_harvester.py:255-271 | "/about" does not look like an article |
| Extractors.FirstMatchIndex | news_harvester.py:175-178 | the position of the first selector with a match; every earlier selector matches nothing |
| Extractors.SelectFirst | news_harvester.py:174-178 | the title and author loops return the first match of the first selector that matches anything |
| Extractors.ExtractSummary | news_harvester.py:197-203 | the summary loop computes the container summary |
| Extractors.SummaryTakesFirstSubstantial | news_harvester.py:198-203 | the first matching candidate longer than 20 characters is the summary, whatever came before it |
| Extractors.SummaryKeepsLastShortMatch | news_harvester.py:198-203 | with no candidate longer than 20 characters, the summary is the text of the last matching candidate |
| Extractors.SummaryWithoutMatchKeeps | news_harvester.py:197-203 | with no matching candidate, the summary stays empty |
| Extractors.ContainerAuthor | news_harvester.py:206-215 | the author is the text of the first hit of the first author selector with any hit, even when that text is empty, and absent when no author selector matches |
| Extractors.ContainerArticle | news_harvester.py:165-224 | a container yields no record exactly when no title selector matches or the first matching link has an empty text or href; otherwise the title is that link's text, never truncated, the url is its href when it starts with "http" and the href joined onto the site URL otherwise, the summary is the container summary cut at 200 characters, the author is the container author, and the record is well formed |
| Extractors.ExtractArticleFromElement | news_harvester.py:165-224 | the method returns the container record |
| Extractors.NearbyCandidates | news_harvester.py:238-241 | the candidates are the first min(3, n) of the parent's n `p`, `div` and `span` descendants, in order, and none when the link has no parent |
| Extractors.FirstAcceptableIndex | news_harvester.py:241-245 | the position of the first nearby text that is non-empty, longer than 20 characters and not the title |
| Extractors.NearbySummary | news_harvester.py:236-245 | the link summary is empty exactly when no nearby candidate is acceptable, and otherwise is the first acceptable one |
| Extractors.LinkArticle | news_harvester.py:226-253 | a link yields no record exactly when its text or href is empty; otherwise the title is the link text, the url is the resolved href, the summary is the nearby summary cut at 200 characters, there is no author, and the record is well formed |
| Extractors.CreateArticleFromLink | news_harvester.py:226-253 | the method returns the link record |
| Tiers.ContainerRecords | news_harvester.py:92-95 | at most one record per container |
| Tiers.ContainerRecordsEmitted | news_harvester.py:92-95 | every container record is well formed: a non-empty title, the call's source and timestamp, a summary of at most 203 characters |
| Tiers.ContainerRecordsAll | news_harvester.py:92-95 | when every container yields a record, none is dropped |
| Tiers.ExtractContainers | news_harvester.py:92-95 | the inner tier-1 loop returns the container records of the batch |
| Tiers.ArticleBatch | news_harvester.py:88-95 | one selector's batch holds at most max_articles records when max_articles >= 0 |
| Tiers.ArticleTierFrom | news_harvester.py:87-98 | tier 1 returns at most max_articles records when max_articles >= 0 |
| Tiers.ArticleTierStep | news_harvester.py:87-98 | one selector: its records, when there are any, end tier 1; otherwise the next selector is tried |
| Tiers.ArticleTierEmitted | news_harvester.py:87-98 | every tier-1 record is well formed |
| Tiers.TryArticleSelectors | news_harvester.py:76-100 | the method returns tier 1's output, at most max_articles records when max_articles >= 0 |
| Tiers.ArticleTierFromOneSelector | news_harvester.py:87-98 | a non-empty tier-1 output is the batch of one selector with at least three matches, and every earlier selector yielded nothing; tier 1 is empty exactly when every selector yields nothing |
| Tiers.LinkRecords | news_harvester.py:118-121 | at most one record per link |
| Tiers.LinkRecordsAccepted | news_harvester.py:118-121 | every record kept is well formed, has a valid URL and has no author |
| Tiers.HeadlineTierFrom | news_harvester.py:113-124 | the records already held stay, in order, at the front of the output |
| Tiers.HeadlineTierStep | news_harvester.py:113-124 | one selector: a qualifying batch is appended, and the loop stops once three records are held |
| Tiers.CollectHeadlinesStep | news_harvester.py:118-121 | appending a link's record when it has one with a valid URL keeps the accepted records of the links seen so far |
| Tiers.CollectHeadlines | news_harvester.py:118-121 | the inner tier-2 loop appends the accepted records of the batch |
| Tiers.TryHeadlineSelectors | news_harvester.py:102-126 | the method returns tier 2's output |
| Tiers.HeadlineTierRecords | news_harvester.py:113-124 | every record tier 2 adds is well formed, has a valid URL and has no author |
| Tiers.HeadlineTierEmitted | news_harvester.py:113-124 | every tier-2 record is well formed and has no author |
| Tiers.HeadlineTierBound | news_harvester.py:113-124 | tier 2 returns at most max_articles + 2 records when max_articles >= 0 |
| Tiers.HeadlineTierZero | news_harvester.py:118 | with max_articles 0, tier 2 returns nothing |
| Tiers.HeadlineTierCanExceedCap | news_harvester.py:113-124 | two selectors of two accepted links each give four records when max_articles is 2 |
| Tiers.GenericCandidate | news_harvester.py:139-161 | a tier-3 record is well formed, with an empty summary and no author |
| Tiers.GenericCandidateIff | news_harvester.py:139-161 | a link yields a record exactly when its text has at least 10 characters and no navigation word and its href passes both URL predicates; the title is the text cut at 100 characters |
| Tiers.GenericRecords | news_harvester.py:135-161 | at most one record per link |
| Tiers.CheckGenericLink | news_harvester.py:139-161 | checking one link, filter by filter, gives the link's tier-3 record or nothing |
| Tiers.GenericRecordsSnoc | news_harvester.py:139-161 | one step of the tier-3 loop appends the link's record, if it has one, to the records of the links seen so far |
| Tiers.GenericTierStops | news_harvester.py:135-137 | stopping once max_articles records are held, or after the last link, leaves exactly tier 3's output |
| Tiers.TryGenericLinkPatterns | news_harvester.py:128-163 | the method returns the first max_articles tier-3 records in document order, none when max_articles <= 0 |
| Tiers.GenericTierEmitted | news_harvester.py:139-161 | every tier-3 record is well formed and has no author |
| Tiers.GenericTierRecordsQualify | news_harvester.py:133-161 | every tier-3 record comes from an anchor with an href that passes every filter, with the text cut at 100 characters as title |
| Tiers.SubscribeLinkIsSkipped | news_harvester.py:147-148 | a link reading "Subscribe to our newsletter" never yields a record |
| Scraper.SourceName | news_harvester.py:48 | the source name is the host name unchanged exactly when it holds no "www.", and is never longer |
| Scraper.ScrapeSiteAdaptive | news_harvester.py:43-74 | the method returns the cascade's output, or nothing when the page could not be fetched |
| Scraper.CascadeRecords | news_harvester.py:59-68 | every record is well formed; when tier 1 found nothing, no record has an author |
| Scraper.ScrapeSiteSource | news_harvester.py:48-68 | every record carries the host name without "www." as source, the call's timestamp, a non-empty title and a summary of at most 203 characters |
| Scraper.CascadeBound | news_harvester.py:59-68 | when max_articles >= 0, a call returns at most max_articles + 2 records, and at most max_articles when tier 1 succeeds |
| Scraper.ScrapeSiteEmptyIff | news_harvester.py:50-74 | a call returns nothing exactly when the page could not be fetched or all three tiers come back empty |
| Scraper.ZeroMaxYieldsNothing | news_harvester.py:59-68 | with max_articles 0 a call returns nothing |
| Scraper.NegativeMaxKeepsContainers | news_harvester.py:92 | a negative max_articles keeps all but the last -max_articles matches of a selector in tier 1 |

## Left out

- Fetching is not modelled: the session, its headers, the 15-second timeout and `raise_for_status`. A failed request is the `None` page, for which the call returns nothing.
- The model does not sleep for `self.delay` after a call, and it does no logging.
- HTML parsing is not modelled. CSS selection, `get_text(strip=True)`, `get('href')`, `parent` and `find_all` are parameters in `Dom`, so every property holds whatever they return.
- Python's `urljoin` and `urlparse(...).netloc` are parameters too. An exception that `urlparse` may raise outside the `try` is not modelled.
- Ctx.join is total. Python's `urljoin` can raise, for instance `ValueError` on an href whose host part has an unbalanced '['. In the source such an exception inside the `try` makes the whole call return nothing (news_harvester.py:70-74). The model returns the records instead.
- Timestamps: each one comes from `datetime.now()` in the source, once per record. The model uses one `now` value per call, so all records of a call share it.
- UrlClassifier.CaseInsensitive: the model lower-cases ASCII letters only. Python's `re.IGNORECASE` and `str.lower()` also fold non-ASCII letters.
- UrlClassifier.HasYearSegmentLower: `\d` is read as an ASCII digit. Python's `\d` on `str` also matches other Unicode decimal digits.
- UrlClassifier.TrailingDigits, UrlClassifier.DashDigitsAtEnd, UrlClassifier.DashDigitsAtEndIff: the `\d` of `-\d+$` is read as an ASCII digit too, so a URL ending in a dash and non-ASCII decimal digits is not modelled as looking like an article.
- Everything outside `scrape_site_adaptive` and what it calls is not part of this model. That covers site lists, `scrape_all_sites`, JSON and CSV output, report printing and the command-line entry points.
- Tiers.ExtractContainers, Tiers.CollectHeadlines, Tiers.CheckGenericLink, Extractors.SelectFirst and Extractors.ExtractSummary are inner loops or loop bodies of the source. They are written as methods of their own, with the enclosing method calling them.
