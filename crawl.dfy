/**
 * Pagination and listing traversal of `scrape_books_from_category`
 * (module.py): how many extra listing pages a category has, the URL of
 * each, which anchors on a listing page are book links, and how their
 * relative hrefs become absolute catalogue URLs.
 *
 * The network is a parameter: `listing(url)` stands for the elements with
 * an href attribute on the page fetched from `url`, in document order, and
 * the total-items count is given as a natural number.
 */
module Crawl {
  import opened PyStr

  /** Capacity of one listing page. */
  const PageSize: nat := 20

  /** File name of the first listing page, replaced to reach the others. */
  const IndexName: string := "index.html"

  /** Substring a book link's href must contain. */
  const BookLinkMarker: string := "index"

  /** Relative prefix of a book link's href and its absolute replacement. */
  const RelativeRoot: string := "../../.."
  const CatalogueRoot: string := "http://books.toscrape.com/catalogue"

  /** An element with an href attribute, and whether it also has a title attribute. */
  datatype Link = Link(href: string, hasTitle: bool)

  /** Number of pages after the index page: `total // 20`. */
  function AdditionalPageCount(total: nat): nat {
    total / PageSize
  }

  /** `f"page-{n}.html"` */
  function PageName(n: nat): string {
    "page-" + NatToString(n) + ".html"
  }

  /** The index URL with every "index.html" replaced by `page-{n}.html`. */
  function PageUrl(indexUrl: string, n: nat): string {
    Replace(indexUrl, IndexName, PageName(n))
  }

  /** The extra page URLs, page-2 to page-(k+1), in order. */
  function AdditionalPages(indexUrl: string, total: nat): seq<string> {
    seq(AdditionalPageCount(total), i requires 0 <= i => PageUrl(indexUrl, i + 2))
  }

  /** `soup.find_all(href=re.compile("index"), title=True)` keeps this element. */
  predicate IsBookLink(l: Link) {
    Contains(l.href, BookLinkMarker) && l.hasTitle
  }

  /** `href.replace("../../..", "http://books.toscrape.com/catalogue")` */
  function RewriteHref(href: string): string {
    Replace(href, RelativeRoot, CatalogueRoot)
  }

  /** Book URLs found on one listing page: the rewritten hrefs of its book links, in document order. */
  function ListingBookUrls(links: seq<Link>): seq<string> {
    if links == [] then []
    else
      var last := links[|links| - 1];
      ListingBookUrls(links[..|links| - 1]) + (if IsBookLink(last) then [RewriteHref(last.href)] else [])
  }

  /** Book URLs of a sequence of listing pages: page by page, in the order the pages are given. */
  function CrawlBookUrls(pages: seq<string>, listing: string -> seq<Link>): seq<string> {
    if pages == [] then []
    else CrawlBookUrls(pages[..|pages| - 1], listing) + ListingBookUrls(listing(pages[|pages| - 1]))
  }

  /**
   * `scrape_books_from_category`: the list of listing pages (the index page
   * first, then page-2 .. page-(k+1) with k = total // 20) and the book URLs
   * found on them, page by page and within a page in document order.
   */
  method ScrapeBooksFromCategory(indexUrl: string, total: nat, listing: string -> seq<Link>)
    returns (pages: seq<string>, bookUrls: seq<string>)
    ensures |pages| == 1 + total / 20
    ensures pages[0] == indexUrl
    ensures forall i | 1 <= i < |pages| :: pages[i] == PageUrl(indexUrl, i + 1)
    ensures pages == [indexUrl] + AdditionalPages(indexUrl, total)
    ensures bookUrls == CrawlBookUrls(pages, listing)
  {
    var additional := total / PageSize;
    pages := [indexUrl];
    for i := 0 to additional
      invariant |pages| == 1 + i && pages[0] == indexUrl
      invariant forall j | 1 <= j < |pages| :: pages[j] == PageUrl(indexUrl, j + 1)
    {
      pages := pages + [PageUrl(indexUrl, i + 2)];
    }

    bookUrls := [];
    for p := 0 to |pages|
      invariant bookUrls == CrawlBookUrls(pages[..p], listing)
    {
      var links := listing(pages[p]);
      for t := 0 to |links|
        invariant bookUrls == CrawlBookUrls(pages[..p], listing) + ListingBookUrls(links[..t])
      {
        assert links[..t + 1][..t] == links[..t];
        if IsBookLink(links[t]) {
          bookUrls := bookUrls + [RewriteHref(links[t].href)];
        }
      }
      assert links[..|links|] == links;
      assert pages[..p + 1][..p] == pages[..p];
    }
    assert pages[..|pages|] == pages;
  }

  /**
   * Floor division, not ceiling: the crawler asks for one page more than
   * `total` items fill when `total` is a positive multiple of 20, and exactly
   * as many otherwise (the index page always being asked for).
   */
  lemma FloorPageCount(total: nat)
    ensures AdditionalPageCount(total) * PageSize <= total < (AdditionalPageCount(total) + 1) * PageSize
    ensures 1 + AdditionalPageCount(total)
            == (if total == 0 then 1 else (total + PageSize - 1) / PageSize)
               + (if total > 0 && total % PageSize == 0 then 1 else 0)
    ensures 1 + AdditionalPageCount(20) == 2 && 1 + AdditionalPageCount(37) == 2
    ensures 1 + AdditionalPageCount(45) == 3
  {
  }

  /**
   * For an index URL whose only "index.html" is its suffix, page n is that
   * URL with the suffix swapped for `page-{n}.html`.
   */
  lemma PageUrlShape(indexUrl: string, n: nat)
    requires EndsWith(indexUrl, IndexName)
    requires !Contains(indexUrl[..|indexUrl| - 1], IndexName)
    ensures PageUrl(indexUrl, n) == indexUrl[..|indexUrl| - |IndexName|] + PageName(n)
  {
    ReplaceTrailing(indexUrl, IndexName, PageName(n));
  }

  /**
   * For such an index URL all page URLs of a category differ from one another
   * and from the index URL, so no listing page is fetched twice.
   */
  lemma PageUrlsDistinct(indexUrl: string, m: nat, n: nat)
    requires EndsWith(indexUrl, IndexName)
    requires !Contains(indexUrl[..|indexUrl| - 1], IndexName)
    ensures PageUrl(indexUrl, m) != indexUrl
    ensures m != n ==> PageUrl(indexUrl, m) != PageUrl(indexUrl, n)
  {
    var prefix := indexUrl[..|indexUrl| - |IndexName|];
    PageUrlShape(indexUrl, m);
    PageUrlShape(indexUrl, n);
    assert indexUrl == prefix + IndexName;
    assert (prefix + PageName(m))[|prefix|] == 'p';
    assert (prefix + IndexName)[|prefix|] == 'i';
    if PageUrl(indexUrl, m) == PageUrl(indexUrl, n) {
      var a, b := prefix + PageName(m), prefix + PageName(n);
      assert |NatToString(m)| == |NatToString(n)|;
      assert NatToString(m) == a[|prefix| + 5..|a| - 5];
      assert NatToString(n) == b[|prefix| + 5..|b| - 5];
      NatToStringInjective(m, n);
    }
  }

  /**
   * An index URL without "index.html" is left as it is: every "additional"
   * page is the index page again, fetched once more.
   */
  lemma PagesWithoutIndexName(indexUrl: string, n: nat)
    requires !Contains(indexUrl, IndexName)
    ensures PageUrl(indexUrl, n) == indexUrl
  {
    ReplaceAbsent(indexUrl, IndexName, PageName(n));
  }

  /**
   * A book link in the usual relative form "../../../<slug>/index.html"
   * becomes "http://books.toscrape.com/catalogue/<slug>/index.html".
   */
  lemma RewriteRelativeHref(rest: string)
    requires !Contains(rest, RelativeRoot)
    ensures RewriteHref(RelativeRoot + rest) == CatalogueRoot + rest
  {
    ReplaceLeading(RelativeRoot, rest, CatalogueRoot);
    ReplaceAbsent(rest, RelativeRoot, CatalogueRoot);
  }

  /** A URL is found on a page exactly when some book link on it rewrites to that URL. */
  lemma {:induction false} ListingBookUrlsMembership(links: seq<Link>, url: string)
    ensures url in ListingBookUrls(links)
            <==> exists j | 0 <= j < |links| :: IsBookLink(links[j]) && RewriteHref(links[j].href) == url
  {
    if links != [] {
      var init := links[..|links| - 1];
      ListingBookUrlsMembership(init, url);
      assert forall j | 0 <= j < |init| :: init[j] == links[j];
    }
  }

  /** Scanning a page in two parts finds the first part's links first. */
  lemma {:induction false} ListingBookUrlsAppend(a: seq<Link>, b: seq<Link>)
    ensures ListingBookUrls(a + b) == ListingBookUrls(a) + ListingBookUrls(b)
    decreases |b|
  {
    if b == [] {
      assert a + b == a;
    } else {
      var b' := b[..|b| - 1];
      assert (a + b)[..|a + b| - 1] == a + b';
      ListingBookUrlsAppend(a, b');
    }
  }

  /** At most one URL per element, and one per element exactly when every element is a book link. */
  lemma {:induction false} ListingBookUrlsLength(links: seq<Link>)
    ensures |ListingBookUrls(links)| <= |links|
    ensures |ListingBookUrls(links)| == |links| <==> forall j | 0 <= j < |links| :: IsBookLink(links[j])
  {
    if links != [] {
      var init := links[..|links| - 1];
      ListingBookUrlsLength(init);
      assert forall j | 0 <= j < |init| :: init[j] == links[j];
    }
  }

  /** Crawling pages a then pages b finds a's books first, then b's. */
  lemma {:induction false} CrawlBookUrlsAppend(a: seq<string>, b: seq<string>, listing: string -> seq<Link>)
    ensures CrawlBookUrls(a + b, listing) == CrawlBookUrls(a, listing) + CrawlBookUrls(b, listing)
    decreases |b|
  {
    if b == [] {
      assert a + b == a;
    } else {
      var b' := b[..|b| - 1];
      assert (a + b)[..|a + b| - 1] == a + b';
      CrawlBookUrlsAppend(a, b', listing);
    }
  }

  /**
   * Visiting the index page first (module.py) or last (models/category.py)
   * finds the same book URLs, each as often, only in another order.
   */
  lemma VisitOrderSameBooks(indexUrl: string, extra: seq<string>, listing: string -> seq<Link>)
    ensures multiset(CrawlBookUrls([indexUrl] + extra, listing))
            == multiset(CrawlBookUrls(extra + [indexUrl], listing))
  {
    CrawlBookUrlsAppend([indexUrl], extra, listing);
    CrawlBookUrlsAppend(extra, [indexUrl], listing);
  }
}
