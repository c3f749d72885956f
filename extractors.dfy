/** The two field extractors of the scraper: `_extract_article_from_element`
    (news_harvester.py:165-224), which reads a record out of a container
    element, and `_create_article_from_link` (news_harvester.py:226-253),
    which builds one from a headline link. Each is a method with the source's
    loops, proved equal to a function that says what it computes. */
module Extractors {
  import opened Text
  import opened Page

  /** Where the container path looks for the title link, in order. */
  const TitleSelectors: seq<string> :=
    ["h1 a", "h2 a", "h3 a", "h4 a", ".title a", ".headline a", ".entry-title a", "a[href]"]

  /** Where the container path looks for a summary, in order. */
  const SummarySelectors: seq<string> :=
    [".excerpt", ".summary", ".description", ".intro", "p", ".content"]

  /** Where the container path looks for an author, in order. */
  const AuthorSelectors: seq<string> := [".author", ".byline", ".writer", "[class*=\"author\"]"]

  /** The link path looks at the first three `p`, `div` or `span` elements
      under the link's parent. */
  const NearbyTags: seq<string> := ["p", "div", "span"]
  const NearbyLimit: nat := 3

  /** A summary candidate is used only when its text is longer than this. */
  const SubstantialLength: nat := 20

  // ---------------------------------------------------------------------------
  // Container path

  /** The position of the first selector with a match inside `scope`, or
      `|sels|` when none matches. */
  function FirstMatchIndex(dom: Dom, scope: ElementId, sels: seq<string>): (k: nat)
    ensures k <= |sels|
    ensures forall j :: 0 <= j < k ==> SelectOne(dom, scope, sels[j]).None?
    ensures k < |sels| ==> SelectOne(dom, scope, sels[k]).Some?
    decreases |sels|
  {
    if sels == [] then 0
    else if SelectOne(dom, scope, sels[0]).Some? then 0
    else
      var k := 1 + FirstMatchIndex(dom, scope, sels[1..]);
      assert forall j :: 1 <= j < k ==> sels[j] == sels[1..][j - 1];
      k
  }

  /** `select_one` of the first selector that matches anything; later
      selectors are not consulted. */
  function FirstMatch(dom: Dom, scope: ElementId, sels: seq<string>): Option<ElementId> {
    var k := FirstMatchIndex(dom, scope, sels);
    if k < |sels| then SelectOne(dom, scope, sels[k]) else None
  }

  /** The summary loop of the container path, continued from `current`: a
      matching selector replaces the summary by its element's text, and the
      first text longer than 20 characters ends the search. */
  function SummaryFrom(dom: Dom, scope: ElementId, sels: seq<string>, current: string): string
    decreases |sels|
  {
    if sels == [] then current
    else match SelectOne(dom, scope, sels[0])
      case None => SummaryFrom(dom, scope, sels[1..], current)
      case Some(e) =>
        if |dom.text(e)| > SubstantialLength then dom.text(e)
        else SummaryFrom(dom, scope, sels[1..], dom.text(e))
  }

  function ContainerSummary(dom: Dom, element: ElementId): string {
    SummaryFrom(dom, element, SummarySelectors, "")
  }

  /** The text of the first author-like element, even when that text is
      empty: the first hit of the first author selector with any hit. */
  function ContainerAuthor(dom: Dom, element: ElementId): (r: Option<string>)
    ensures r.None? <==> forall j :: 0 <= j < |AuthorSelectors| ==> dom.select(element, AuthorSelectors[j]) == []
    ensures r.Some? ==> exists k :: && 0 <= k < |AuthorSelectors| && dom.select(element, AuthorSelectors[k]) != []
                                    && r.value == dom.text(dom.select(element, AuthorSelectors[k])[0])
                                    && forall j :: 0 <= j < k ==> dom.select(element, AuthorSelectors[j]) == []
  {
    var k := FirstMatchIndex(dom, element, AuthorSelectors);
    match FirstMatch(dom, element, AuthorSelectors)
    case None => None
    case Some(e) =>
      assert e == dom.select(element, AuthorSelectors[k])[0];
      Some(dom.text(e))
  }

  /** The record a container yields. There is none when no title selector
      matches, or when the first matching link has an empty text or href; a
      later title selector is never tried after the first hit. */
  function ContainerArticle(dom: Dom, ctx: Ctx, element: ElementId): (r: Option<Article>)
    ensures r.None? <==>
      match FirstMatch(dom, element, TitleSelectors)
      case None => true
      case Some(link) => dom.text(link) == "" || Href(dom, link) == ""
    ensures r.Some? ==> Emitted(r.value, ctx)
    ensures r.Some? ==> FirstMatch(dom, element, TitleSelectors).Some?
    ensures r.Some? ==>
      var link := FirstMatch(dom, element, TitleSelectors).value;
      && r.value.title == dom.text(link)
      && r.value.url == ResolveUrl(ctx, Href(dom, link))
      && r.value.summary == Truncate(ContainerSummary(dom, element), SummaryLimit)
      && r.value.author == ContainerAuthor(dom, element)
  {
    match FirstMatch(dom, element, TitleSelectors)
    case None => None
    case Some(link) =>
      var title := dom.text(link);
      var href := Href(dom, link);
      if title == "" || href == "" then None
      else Some(Article(
        title,
        ResolveUrl(ctx, href),
        Truncate(ContainerSummary(dom, element), SummaryLimit),
        ctx.now,
        ctx.domain,
        ContainerAuthor(dom, element)))
  }

  /** The title and author loops of `_extract_article_from_element`: try each
      selector in turn and stop at the first that matches anything. */
  method SelectFirst(dom: Dom, scope: ElementId, sels: seq<string>) returns (found: Option<ElementId>)
    ensures found == FirstMatch(dom, scope, sels)
  {
    found := None;
    var t := 0;
    while t < |sels|
      invariant 0 <= t <= |sels|
      invariant found.None?
      invariant forall j :: 0 <= j < t ==> SelectOne(dom, scope, sels[j]).None?
    {
      found := SelectOne(dom, scope, sels[t]);
      if found.Some? {
        break;
      }
      t := t + 1;
    }
  }

  /** The summary loop of `_extract_article_from_element`. */
  method ExtractSummary(dom: Dom, element: ElementId) returns (summary: string)
    ensures summary == ContainerSummary(dom, element)
  {
    summary := "";
    for s := 0 to |SummarySelectors|
      invariant SummaryFrom(dom, element, SummarySelectors[s..], summary) == ContainerSummary(dom, element)
    {
      assert SummarySelectors[s..][1..] == SummarySelectors[s + 1..];
      var summaryElem := SelectOne(dom, element, SummarySelectors[s]);
      if summaryElem.Some? {
        summary := dom.text(summaryElem.value);
        if |summary| > SubstantialLength {
          break;
        }
      }
    }
  }

  /** `_extract_article_from_element`. */
  method ExtractArticleFromElement(dom: Dom, ctx: Ctx, element: ElementId) returns (article: Option<Article>)
    ensures article == ContainerArticle(dom, ctx, element)
  {
    var linkElem := SelectFirst(dom, element, TitleSelectors);
    if linkElem.None? {
      return None;
    }
    var link := linkElem.value;
    var title := dom.text(link);
    var href := Href(dom, link);
    if title == "" || href == "" {
      return None;
    }
    var fullUrl := ResolveUrl(ctx, href);
    var summary := ExtractSummary(dom, element);
    var authorElem := SelectFirst(dom, element, AuthorSelectors);
    var author := if authorElem.Some? then Some(dom.text(authorElem.value)) else None;
    article := Some(Article(title, fullUrl, Truncate(summary, SummaryLimit), ctx.now, ctx.domain, author));
  }

  // ---------------------------------------------------------------------------
  // What the summary loop picks, stated without the loop.

  /** The first matching candidate longer than 20 characters is the summary,
      whatever shorter candidates came before it. */
  lemma {:induction false} SummaryTakesFirstSubstantial(
    dom: Dom, scope: ElementId, sels: seq<string>, current: string, k: nat)
    requires k < |sels|
    requires SelectOne(dom, scope, sels[k]).Some?
    requires |dom.text(SelectOne(dom, scope, sels[k]).value)| > SubstantialLength
    requires forall j :: 0 <= j < k ==>
      match SelectOne(dom, scope, sels[j])
      case None => true
      case Some(e) => |dom.text(e)| <= SubstantialLength
    ensures SummaryFrom(dom, scope, sels, current) == dom.text(SelectOne(dom, scope, sels[k]).value)
    decreases k
  {
    if k > 0 {
      var next := match SelectOne(dom, scope, sels[0]) case None => current case Some(e) => dom.text(e);
      assert forall j :: 0 <= j < k - 1 ==> sels[1..][j] == sels[j + 1];
      SummaryTakesFirstSubstantial(dom, scope, sels[1..], next, k - 1);
    }
  }

  /** With no candidate longer than 20 characters and none matching after
      position `k`, the summary is the text of the match at `k`, short as it is. */
  lemma {:induction false} SummaryKeepsLastShortMatch(
    dom: Dom, scope: ElementId, sels: seq<string>, current: string, k: nat)
    requires k < |sels|
    requires SelectOne(dom, scope, sels[k]).Some?
    requires forall j :: 0 <= j < |sels| ==>
      match SelectOne(dom, scope, sels[j])
      case None => true
      case Some(e) => |dom.text(e)| <= SubstantialLength
    requires forall j :: k < j < |sels| ==> SelectOne(dom, scope, sels[j]).None?
    ensures SummaryFrom(dom, scope, sels, current) == dom.text(SelectOne(dom, scope, sels[k]).value)
    decreases |sels|
  {
    var next := match SelectOne(dom, scope, sels[0]) case None => current case Some(e) => dom.text(e);
    assert forall j :: 0 <= j < |sels| - 1 ==> sels[1..][j] == sels[j + 1];
    if k > 0 {
      SummaryKeepsLastShortMatch(dom, scope, sels[1..], next, k - 1);
    } else {
      SummaryWithoutMatchKeeps(dom, scope, sels[1..], next);
    }
  }

  /** With no candidate matching at all, the summary stays what it was (the
      empty string, for the container path). */
  lemma {:induction false} SummaryWithoutMatchKeeps(
    dom: Dom, scope: ElementId, sels: seq<string>, current: string)
    requires forall j :: 0 <= j < |sels| ==> SelectOne(dom, scope, sels[j]).None?
    ensures SummaryFrom(dom, scope, sels, current) == current
    decreases |sels|
  {
    if sels != [] {
      assert forall j :: 0 <= j < |sels| - 1 ==> sels[1..][j] == sels[j + 1];
      SummaryWithoutMatchKeeps(dom, scope, sels[1..], current);
    }
  }

  // ---------------------------------------------------------------------------
  // Link path

  /** A nearby text is used as a summary when it is non-empty, longer than 20
      characters and not the title itself. */
  predicate AcceptableNearby(text: string, title: string) {
    text != "" && |text| > SubstantialLength && text != title
  }

  /** `link.parent.find_all(['p', 'div', 'span'], limit=3)`, or nothing when the
      link has no parent. */
  function NearbyCandidates(dom: Dom, link: ElementId): (r: seq<ElementId>)
    ensures |r| <= NearbyLimit
    ensures dom.parent(link).None? ==> r == []
    ensures dom.parent(link).Some? ==>
      var all := dom.findAll(dom.parent(link).value, NearbyTags);
      |r| == Min(NearbyLimit, |all|) && r == all[..|r|]
  {
    match dom.parent(link)
    case None => []
    case Some(p) => TakeUpTo(dom.findAll(p, NearbyTags), NearbyLimit)
  }

  /** The position of the first acceptable candidate, or `|cands|`. */
  function FirstAcceptableIndex(dom: Dom, cands: seq<ElementId>, title: string): (k: nat)
    ensures k <= |cands|
    ensures forall j :: 0 <= j < k ==> !AcceptableNearby(dom.text(cands[j]), title)
    ensures k < |cands| ==> AcceptableNearby(dom.text(cands[k]), title)
    decreases |cands|
  {
    if cands == [] then 0
    else if AcceptableNearby(dom.text(cands[0]), title) then 0
    else
      var k := 1 + FirstAcceptableIndex(dom, cands[1..], title);
      assert forall j :: 1 <= j < k ==> cands[j] == cands[1..][j - 1];
      k
  }

  /** The summary of the link path: the first acceptable candidate's text, or
      "" when none of the (at most three) candidates is acceptable. */
  function NearbySummary(dom: Dom, link: ElementId, title: string): (r: string)
    ensures var cands := NearbyCandidates(dom, link);
      r == "" <==> forall j :: 0 <= j < |cands| ==> !AcceptableNearby(dom.text(cands[j]), title)
    ensures var cands := NearbyCandidates(dom, link);
      r != "" ==> exists k :: && 0 <= k < |cands| && r == dom.text(cands[k])
                              && AcceptableNearby(r, title)
                              && forall j :: 0 <= j < k ==> !AcceptableNearby(dom.text(cands[j]), title)
  {
    var cands := NearbyCandidates(dom, link);
    var k := FirstAcceptableIndex(dom, cands, title);
    if k < |cands| then dom.text(cands[k]) else ""
  }

  /** The record a headline link yields: none when its text or href is empty;
      otherwise its own text as title, never truncated, and no author. */
  function LinkArticle(dom: Dom, ctx: Ctx, link: ElementId): (r: Option<Article>)
    ensures r.None? <==> dom.text(link) == "" || Href(dom, link) == ""
    ensures r.Some? ==> Emitted(r.value, ctx)
    ensures r.Some? ==> r.value.title == dom.text(link) && r.value.author.None?
    ensures r.Some? ==> r.value.url == ResolveUrl(ctx, Href(dom, link))
    ensures r.Some? ==> r.value.summary == Truncate(NearbySummary(dom, link, dom.text(link)), SummaryLimit)
  {
    var title := dom.text(link);
    var href := Href(dom, link);
    if title == "" || href == "" then None
    else Some(Article(
      title,
      ResolveUrl(ctx, href),
      Truncate(NearbySummary(dom, link, title), SummaryLimit),
      ctx.now,
      ctx.domain,
      None))
  }

  /** `_create_article_from_link`. */
  method CreateArticleFromLink(dom: Dom, ctx: Ctx, link: ElementId) returns (article: Option<Article>)
    ensures article == LinkArticle(dom, ctx, link)
  {
    var title := dom.text(link);
    var href := Href(dom, link);
    if title == "" || href == "" {
      return None;
    }
    var fullUrl := ResolveUrl(ctx, href);

    var summary := "";
    var parent := dom.parent(link);
    if parent.Some? {
      var elems := TakeUpTo(dom.findAll(parent.value, NearbyTags), NearbyLimit);
      for i := 0 to |elems|
        invariant summary == ""
        invariant forall j :: 0 <= j < i ==> !AcceptableNearby(dom.text(elems[j]), title)
      {
        var text := dom.text(elems[i]);
        if text != "" && |text| > SubstantialLength && text != title {
          summary := text;
          break;
        }
      }
    }

    article := Some(Article(title, fullUrl, Truncate(summary, SummaryLimit), ctx.now, ctx.domain, None));
  }
}
