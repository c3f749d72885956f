/** The two URL predicates of the scraper (news_harvester.py:255-286), written
    without a regular-expression engine. Every pattern of the source is either
    a plain substring, the year segment `/\d{4}/`, the end-anchored `-\d+$`, or
    an end-anchored file extension; letters are compared after ASCII
    lower-casing, which stands for `re.IGNORECASE`. */
module UrlClassifier {
  import opened Text

  /** Substrings that make a URL look like an article. */
  const ArticleMarkers: seq<string> := ["/article/", "/post/", "/story/", "/news/", "/blog/", ".html"]

  /** Substrings that make a URL navigation, taxonomy, a script or a mail link. */
  const SkipMarkers: seq<string> :=
    ["#", "javascript:", "mailto:", "/tag/", "/category/", "/author/", "/search", "/login", "/register"]

  /** File extensions rejected at the end of a URL. */
  const SkipExtensions: seq<string> := [".pdf", ".jpg", ".png", ".gif"]

  /** `/\d{4}/` matches at offset `i`. */
  predicate YearSegmentAt(s: string, i: int) {
    && 0 <= i && i + 6 <= |s|
    && s[i] == '/' && s[i + 5] == '/'
    && IsDigit(s[i + 1]) && IsDigit(s[i + 2]) && IsDigit(s[i + 3]) && IsDigit(s[i + 4])
  }

  /** `re.search(r'/\d{4}/', s)`: the segment occurs at some offset. */
  predicate HasYearSegment(s: string) {
    exists i :: 0 <= i <= |s| - 6 && YearSegmentAt(s, i)
  }

  /** The number of digits `s` ends with. */
  function TrailingDigits(s: string): (k: nat)
    ensures k <= |s|
    ensures forall j :: |s| - k <= j < |s| ==> IsDigit(s[j])
    ensures k < |s| ==> !IsDigit(s[|s| - 1 - k])
    decreases |s|
  {
    if s != [] && IsDigit(s[|s| - 1]) then 1 + TrailingDigits(s[..|s| - 1]) else 0
  }

  /** `-\d+` running up to the very end of `s`. */
  predicate DashDigitsAtEnd(s: string) {
    var k := TrailingDigits(s);
    0 < k < |s| && s[|s| - 1 - k] == '-'
  }

  /** Python's `$` without MULTILINE matches at the end of the string and also
      just before a newline that ends it. */
  predicate EndsWithDashDigits(s: string) {
    DashDigitsAtEnd(s) || (|s| > 0 && s[|s| - 1] == '\n' && DashDigitsAtEnd(s[..|s| - 1]))
  }

  /** `re.search(re.escape(ext) + '$', s)`. */
  predicate EndsWithAnchored(s: string, ext: string) {
    HasSuffix(s, ext) || HasSuffix(s, ext + "\n")
  }

  /** `any(re.search(re.escape(ext) + '$', s) for ext in exts)`. */
  predicate EndsWithAny(s: string, exts: seq<string>) {
    exists k :: 0 <= k < |exts| && EndsWithAnchored(s, exts[k])
  }

  /** `_looks_like_article_url`: a non-empty URL with a year segment, one of the
      article markers anywhere (".html" included, not only at the end), or a
      final dash followed by digits. */
  predicate LooksLikeArticleUrl(url: string) {
    && url != ""
    && (HasYearSegment(url) || ContainsAny(Lower(url), ArticleMarkers) || EndsWithDashDigits(url))
  }

  /** `_is_valid_article_url`: a non-empty URL with no skip marker anywhere and
      no rejected extension at its end. */
  predicate IsValidArticleUrl(url: string) {
    && url != ""
    && !ContainsAny(Lower(url), SkipMarkers)
    && !EndsWithAny(Lower(url), SkipExtensions)
  }

  // ---------------------------------------------------------------------------
  // What the patterns mean.

  /** `-\d+` reaches the end exactly when some dash is followed only by (at
      least one) digits. */
  lemma DashDigitsAtEndIff(s: string)
    ensures DashDigitsAtEnd(s) <==>
      exists j :: 0 <= j < |s| - 1 && s[j] == '-' && forall m :: j < m < |s| ==> IsDigit(s[m])
  {
    var k := TrailingDigits(s);
    if DashDigitsAtEnd(s) {
      var j := |s| - 1 - k;
      assert forall m :: j < m < |s| ==> IsDigit(s[m]);
    }
  }

  /** A skip marker ANYWHERE in the URL, in any letter case, rejects it. */
  lemma SkipMarkerAnywhereRejects(url: string, pre: string, k: int, post: string)
    requires 0 <= k < |SkipMarkers|
    requires Lower(url) == pre + SkipMarkers[k] + post
    ensures !IsValidArticleUrl(url)
  {
    var m := SkipMarkers[k];
    assert Lower(url)[|pre|..|pre| + |m|] == m;
    assert OccursAt(Lower(url), m, |pre|);
    assert Contains(Lower(url), SkipMarkers[k]);
  }

  /** ".html" anywhere in a URL, not only at its end, makes it look like an
      article, as do the other article markers. */
  lemma ArticleMarkerAnywhereLooks(url: string, pre: string, k: int, post: string)
    requires 0 <= k < |ArticleMarkers|
    requires Lower(url) == pre + ArticleMarkers[k] + post
    ensures LooksLikeArticleUrl(url)
  {
    var m := ArticleMarkers[k];
    assert Lower(url)[|pre|..|pre| + |m|] == m;
    assert OccursAt(Lower(url), m, |pre|);
    assert Contains(Lower(url), ArticleMarkers[k]);
    assert |url| == |Lower(url)| >= |m| > 0;
  }

  /** A rejected extension is caught at the very end and also just before a
      final newline, as `$` allows. */
  lemma SkipExtensionBeforeNewlineRejects(url: string, pre: string, k: int)
    requires 0 <= k < |SkipExtensions|
    requires Lower(url) == pre + SkipExtensions[k] + "\n"
    ensures !IsValidArticleUrl(url)
  {
    var e := SkipExtensions[k];
    assert Lower(url)[|Lower(url)| - |e + "\n"|..] == e + "\n";
    assert EndsWithAnchored(Lower(url), SkipExtensions[k]);
  }

  // ---------------------------------------------------------------------------
  // Both predicates ignore ASCII case.

  lemma HasYearSegmentLower(s: string)
    ensures HasYearSegment(Lower(s)) == HasYearSegment(s)
  {
    forall i | 0 <= i <= |s| - 6
      ensures YearSegmentAt(Lower(s), i) == YearSegmentAt(s, i)
    {
    }
  }

  lemma {:induction false} TrailingDigitsLower(s: string)
    ensures TrailingDigits(Lower(s)) == TrailingDigits(s)
    decreases |s|
  {
    if s != [] {
      assert Lower(s)[..|s| - 1] == Lower(s[..|s| - 1]);
      TrailingDigitsLower(s[..|s| - 1]);
    }
  }

  lemma DashDigitsAtEndLower(s: string)
    ensures DashDigitsAtEnd(Lower(s)) == DashDigitsAtEnd(s)
  {
    TrailingDigitsLower(s);
  }

  lemma EndsWithDashDigitsLower(s: string)
    ensures EndsWithDashDigits(Lower(s)) == EndsWithDashDigits(s)
  {
    DashDigitsAtEndLower(s);
    if |s| > 0 {
      var init := s[..|s| - 1];
      assert Lower(s)[..|s| - 1] == Lower(init);
      assert Lower(s)[|s| - 1] == LowerChar(s[|s| - 1]);
      assert (Lower(s)[|s| - 1] == '\n') == (s[|s| - 1] == '\n');
      DashDigitsAtEndLower(init);
    }
  }

  /** Upper- and lower-case spellings of a URL are classified alike. */
  lemma CaseInsensitive(url: string)
    ensures LooksLikeArticleUrl(Lower(url)) == LooksLikeArticleUrl(url)
    ensures IsValidArticleUrl(Lower(url)) == IsValidArticleUrl(url)
  {
    assert Lower(Lower(url)) == Lower(url);
    HasYearSegmentLower(url);
    EndsWithDashDigitsLower(url);
  }

  // ---------------------------------------------------------------------------
  // Examples.

  /** "/tag/ai" is a taxonomy link and is rejected. */
  lemma TagUrlIsInvalid()
    ensures !IsValidArticleUrl("/tag/ai")
  {
    SkipMarkerAnywhereRejects("/tag/ai", "", 3, "ai");
  }

  const DatedHtmlUrl: string := "/2025/05/01/foo.html"

  predicate FreeOf(u: string, c: char) {
    forall i :: 0 <= i < |u| ==> u[i] != c
  }

  /** Helper for the examples: a URL free of the characters '#', ':', 'g',
      'c', 'u' and 's' carries no skip marker, since every marker holds one of
      them. */
  lemma NoSkipMarkerWithoutKeyChars(u: string)
    requires FreeOf(u, '#') && FreeOf(u, ':') && FreeOf(u, 'g')
    requires FreeOf(u, 'c') && FreeOf(u, 'u') && FreeOf(u, 's')
    ensures !ContainsAny(u, SkipMarkers)
  {
    AbsentCharNotContained(u, "#", '#');
    AbsentCharNotContained(u, "javascript:", ':');
    AbsentCharNotContained(u, "mailto:", ':');
    AbsentCharNotContained(u, "/tag/", 'g');
    AbsentCharNotContained(u, "/category/", 'c');
    AbsentCharNotContained(u, "/author/", 'u');
    AbsentCharNotContained(u, "/search", 's');
    AbsentCharNotContained(u, "/login", 'g');
    AbsentCharNotContained(u, "/register", 'g');
    assert forall k :: 0 <= k < |SkipMarkers| ==> !Contains(u, SkipMarkers[k]);
  }

  lemma DatedHtmlUrlHasNoSkipMarker()
    ensures !ContainsAny(DatedHtmlUrl, SkipMarkers)
  {
    NoSkipMarkerWithoutKeyChars(DatedHtmlUrl);
  }

  lemma DatedHtmlUrlHasNoSkipExtension()
    ensures !EndsWithAny(DatedHtmlUrl, SkipExtensions)
  {
    var u := DatedHtmlUrl;
    forall k | 0 <= k < |SkipExtensions|
      ensures !EndsWithAnchored(u, SkipExtensions[k])
    {
      var e := SkipExtensions[k];
      assert |e| == 4 && e[0] == '.';
      assert u[|u| - 4..][0] == 'h';
      assert u[|u| - 5..][4] == 'l' && (e + "\n")[4] == '\n';
    }
  }

  /** "/2025/05/01/foo.html" passes every skip rule. */
  lemma DatedHtmlUrlIsValid()
    ensures IsValidArticleUrl("/2025/05/01/foo.html")
  {
    assert Lower(DatedHtmlUrl) == DatedHtmlUrl;
    DatedHtmlUrlHasNoSkipMarker();
    DatedHtmlUrlHasNoSkipExtension();
  }

  /** "/article/123" looks like an article. */
  lemma ArticlePathLooksLikeArticle()
    ensures LooksLikeArticleUrl("/article/123")
  {
    ArticleMarkerAnywhereLooks("/article/123", "", 0, "123");
  }

  /** "/about" holds no article marker: each marker has a character that
      "/about" lacks. */
  lemma AboutPathHasNoArticleMarker()
    ensures !ContainsAny("/about", ArticleMarkers)
  {
    var u := "/about";
    AbsentCharNotContained(u, "/article/", 'r');
    AbsentCharNotContained(u, "/post/", 'p');
    AbsentCharNotContained(u, "/story/", 's');
    AbsentCharNotContained(u, "/news/", 'n');
    AbsentCharNotContained(u, "/blog/", 'l');
    AbsentCharNotContained(u, ".html", '.');
    assert forall k :: 0 <= k < |ArticleMarkers| ==> !Contains(u, ArticleMarkers[k]);
  }

  /** "/about" does not look like an article. */
  lemma AboutPathDoesNotLookLikeArticle()
    ensures !LooksLikeArticleUrl("/about")
  {
    var u := "/about";
    assert Lower(u) == u;
    assert !HasYearSegment(u) by {
      assert !YearSegmentAt(u, 0);
    }
    AboutPathHasNoArticleMarker();
    assert !EndsWithDashDigits(u) by {
      assert TrailingDigits(u) == 0;
      assert TrailingDigits(u[..5]) == 0;
    }
  }
}
