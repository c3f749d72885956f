/** What the extraction engine sees of a page and what it emits.

    The parsed page is not modelled as HTML: BeautifulSoup's CSS engine,
    `get_text` and attribute lookup are given as functions in a `Dom` value,
    and `urljoin` as a function in a `Ctx` value, so that every property proved
    here holds whatever those collaborators return. */
module Page {
  import opened Text

  datatype Option<+T> = None | Some(value: T)

  /** An element of the parsed page, identified by its position in the tree. */
  type ElementId = nat

  datatype Dom = Dom(
    /** The document itself (`soup`). */
    root: ElementId,
    /** `scope.select(css)`: the matching descendants of `scope`, in document order. */
    select: (ElementId, string) -> seq<ElementId>,
    /** `e.get_text(strip=True)`. */
    text: ElementId -> string,
    /** The `href` attribute of `e`, if it has one. */
    href: ElementId -> Option<string>,
    /** `e.parent`. */
    parent: ElementId -> Option<ElementId>,
    /** `scope.find_all(names)`: the descendants of `scope` whose tag is one of
        `names`, in document order. */
    findAll: (ElementId, seq<string>) -> seq<ElementId>)

  /** `scope.select_one(css)`: the first element `select` would return. */
  function SelectOne(dom: Dom, scope: ElementId, css: string): (r: Option<ElementId>)
    ensures r.None? <==> dom.select(scope, css) == []
    ensures r.Some? ==> r.value == dom.select(scope, css)[0]
  {
    var hits := dom.select(scope, css);
    if hits == [] then None else Some(hits[0])
  }

  /** `e.get('href', '')`. */
  function Href(dom: Dom, e: ElementId): string {
    match dom.href(e)
    case Some(h) => h
    case None => ""
  }

  function KeepWithHref(dom: Dom, es: seq<ElementId>): (r: seq<ElementId>)
    ensures forall e :: e in r ==> e in es && dom.href(e).Some?
    ensures forall e :: e in es && dom.href(e).Some? ==> e in r
    ensures |r| <= |es|
  {
    if es == [] then []
    else (if dom.href(es[0]).Some? then [es[0]] else []) + KeepWithHref(dom, es[1..])
  }

  /** `soup.find_all('a', href=True)`: every anchor that has an href, in
      document order. */
  function AnchorsWithHref(dom: Dom): seq<ElementId> {
    KeepWithHref(dom, dom.findAll(dom.root, ["a"]))
  }

  /** The `Article` record of the source. `publishedDate` is the extraction
      time, passed in by the caller; `author` is absent unless an author-like
      element was found. */
  datatype Article = Article(
    title: string,
    url: string,
    summary: string,
    publishedDate: string,
    source: string,
    author: Option<string>)

  /** What every extraction call receives besides the page: the page URL
      (`site_url`), the source name derived from it once (`domain`), the
      timestamp given to every record and the URL-joining function. */
  datatype Ctx = Ctx(
    siteUrl: string,
    domain: string,
    now: string,
    join: (string, string) -> string)

  /** `urljoin(site_url, href) if not href.startswith('http') else href`. */
  function ResolveUrl(ctx: Ctx, href: string): (url: string)
    ensures HasPrefix(href, "http") ==> url == href
    ensures !HasPrefix(href, "http") ==> url == ctx.join(ctx.siteUrl, href)
  {
    if HasPrefix(href, "http") then href else ctx.join(ctx.siteUrl, href)
  }

  /** The longest summary a record can carry: 200 characters plus "...". */
  const SummaryLimit: nat := 200

  /** The properties every emitted record has, whichever tier produced it: a
      non-empty title, the source and timestamp of the call, and a summary of
      at most 203 characters. */
  predicate Emitted(a: Article, ctx: Ctx) {
    && a.title != ""
    && a.source == ctx.domain
    && a.publishedDate == ctx.now
    && |a.summary| <= SummaryLimit + 3
  }

  function Min(a: int, b: int): int {
    if a <= b then a else b
  }

  /** Python's `xs[:m]` for any integer `m`: the first `m` elements, or, for a
      negative `m`, all but the last `-m`. */
  function PyPrefix<T>(xs: seq<T>, m: int): (r: seq<T>)
    ensures |r| <= |xs| && r == xs[..|r|]
    ensures m >= 0 ==> |r| == Min(m, |xs|)
    ensures m < 0 ==> |r| == if |xs| + m < 0 then 0 else |xs| + m
  {
    if m >= 0 then xs[..Min(m, |xs|)]
    else if |xs| + m < 0 then []
    else xs[..|xs| + m]
  }

  /** `[y for x in xs for y in f(x)]`: what `f` yields for each element of
      `xs`, concatenated in order. Each loop of the scraper that appends the
      record an element yields, if any, computes one of these. */
  function FlatMap<T, U>(f: T -> seq<U>, xs: seq<T>): seq<U>
    decreases |xs|
  {
    if xs == [] then [] else FlatMap(f, xs[..|xs| - 1]) + f(xs[|xs| - 1])
  }

  /** One more element appends what it yields: the step of such a loop. */
  lemma FlatMapSnoc<T, U>(f: T -> seq<U>, xs: seq<T>, i: int)
    requires 0 <= i < |xs|
    ensures FlatMap(f, xs[..i + 1]) == FlatMap(f, xs[..i]) + f(xs[i])
  {
    assert xs[..i + 1][..i] == xs[..i];
  }

  /** The step of a loop that appends what each element yields to `acc`. */
  lemma FlatMapSnocAfter<T, U>(f: T -> seq<U>, xs: seq<T>, i: int, acc: seq<U>, ys: seq<U>)
    requires 0 <= i < |xs|
    requires ys == acc + FlatMap(f, xs[..i])
    ensures ys + f(xs[i]) == acc + FlatMap(f, xs[..i + 1])
  {
    FlatMapSnoc(f, xs, i);
  }

  lemma {:induction false} FlatMapAppend<T, U>(f: T -> seq<U>, xs: seq<T>, ys: seq<T>)
    ensures FlatMap(f, xs + ys) == FlatMap(f, xs) + FlatMap(f, ys)
    decreases |ys|
  {
    if ys == [] {
      assert xs + ys == xs;
    } else {
      var n := |ys| - 1;
      assert (xs + ys)[..|xs + ys| - 1] == xs + ys[..n];
      assert (xs + ys)[|xs + ys| - 1] == ys[n];
      FlatMapAppend(f, xs, ys[..n]);
      assert FlatMap(f, xs + ys) == (FlatMap(f, xs) + FlatMap(f, ys[..n])) + f(ys[n]);
    }
  }

  /** Everything in the result was yielded by some element of `xs`. */
  lemma {:induction false} FlatMapMember<T, U>(f: T -> seq<U>, xs: seq<T>)
    ensures forall u :: u in FlatMap(f, xs) ==> exists x :: x in xs && u in f(x)
    decreases |xs|
  {
    if xs != [] {
      var n := |xs| - 1;
      FlatMapMember(f, xs[..n]);
      forall u | u in FlatMap(f, xs)
        ensures exists x :: x in xs && u in f(x)
      {
        if u in FlatMap(f, xs[..n]) {
          var x :| x in xs[..n] && u in f(x);
          assert x in xs;
        } else {
          assert u in f(xs[n]);
        }
      }
    }
  }

  /** When everything each element yields satisfies `p`, so does everything
      in the result. */
  lemma {:induction false} FlatMapAll<T, U>(f: T -> seq<U>, xs: seq<T>, p: U -> bool)
    requires forall x, u :: x in xs && u in f(x) ==> p(u)
    ensures forall u :: u in FlatMap(f, xs) ==> p(u)
    decreases |xs|
  {
    if xs != [] {
      var n := |xs| - 1;
      assert forall x :: x in xs[..n] ==> x in xs;
      FlatMapAll(f, xs[..n], p);
      assert xs[n] in xs;
    }
  }

  /** When each element yields at most one item, there are at most as many
      items as elements. */
  lemma {:induction false} FlatMapShort<T, U>(f: T -> seq<U>, xs: seq<T>)
    requires forall x :: |f(x)| <= 1
    ensures |FlatMap(f, xs)| <= |xs|
    decreases |xs|
  {
    if xs != [] {
      FlatMapShort(f, xs[..|xs| - 1]);
    }
  }

  /** When each element yields exactly one item, there are as many items as
      elements. */
  lemma {:induction false} FlatMapSingletons<T, U>(f: T -> seq<U>, xs: seq<T>)
    requires forall x :: x in xs ==> |f(x)| == 1
    ensures |FlatMap(f, xs)| == |xs|
    decreases |xs|
  {
    if xs != [] {
      FlatMapSingletons(f, xs[..|xs| - 1]);
    }
  }

  /** Stopping after the first `i` elements, once they have yielded at least
      `m` items (or none at all when `m <= 0`), keeps exactly the first `m`
      items of the whole result. */
  lemma FlatMapTakeCut<T, U>(f: T -> seq<U>, xs: seq<T>, i: int, m: int)
    requires 0 <= i <= |xs|
    requires |FlatMap(f, xs[..i])| >= m
    requires FlatMap(f, xs[..i]) == [] || |FlatMap(f, xs[..i])| <= m
    ensures TakeUpTo(FlatMap(f, xs), m) == FlatMap(f, xs[..i])
  {
    FlatMapAppend(f, xs[..i], xs[i..]);
    assert xs[..i] + xs[i..] == xs;
  }

  /** What `f` yields for the first element of `xs` for which it yields
      anything, or nothing: a loop that stops at its first non-empty batch. */
  function FirstNonEmpty<T, U>(f: T -> seq<U>, xs: seq<T>): seq<U>
    decreases |xs|
  {
    if xs == [] then []
    else if f(xs[0]) != [] then f(xs[0])
    else FirstNonEmpty(f, xs[1..])
  }

  /** A non-empty result is the batch of one element, and every earlier
      element yielded nothing; the result is empty exactly when every element
      yields nothing. */
  lemma {:induction false} FirstNonEmptyIs<T, U>(f: T -> seq<U>, xs: seq<T>)
    ensures FirstNonEmpty(f, xs) != [] ==>
      exists k :: && 0 <= k < |xs| && FirstNonEmpty(f, xs) == f(xs[k])
                  && forall j :: 0 <= j < k ==> f(xs[j]) == []
    ensures FirstNonEmpty(f, xs) == [] <==> forall k :: 0 <= k < |xs| ==> f(xs[k]) == []
    decreases |xs|
  {
    if xs != [] {
      FirstNonEmptyIs(f, xs[1..]);
      if f(xs[0]) == [] {
        assert forall j :: 0 <= j < |xs| - 1 ==> xs[1..][j] == xs[j + 1];
        if FirstNonEmpty(f, xs) != [] {
          var k :| && 0 <= k < |xs[1..]| && FirstNonEmpty(f, xs[1..]) == f(xs[1..][k])
                   && forall j :: 0 <= j < k ==> f(xs[1..][j]) == [];
          assert forall j :: 0 <= j < k + 1 ==> f(xs[j]) == [];
          assert FirstNonEmpty(f, xs) == f(xs[k + 1]);
        }
      }
    }
  }

  /** When no batch is longer than `m`, neither is the result. */
  lemma {:induction false} FirstNonEmptyBound<T, U>(f: T -> seq<U>, xs: seq<T>, m: nat)
    requires forall x :: |f(x)| <= m
    ensures |FirstNonEmpty(f, xs)| <= m
    decreases |xs|
  {
    if xs != [] {
      FirstNonEmptyBound(f, xs[1..], m);
    }
  }

  /** The first `m` elements, none when `m <= 0`: what a loop that stops as
      soon as it holds `m` items collects. */
  function TakeUpTo<T>(xs: seq<T>, m: int): (r: seq<T>)
    ensures |r| <= |xs| && r == xs[..|r|]
    ensures m <= 0 ==> r == []
    ensures m > 0 ==> |r| == Min(m, |xs|)
  {
    if m <= 0 then [] else xs[..Min(m, |xs|)]
  }
}
