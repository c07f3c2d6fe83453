/**
 * The `Category` class of models/category.py, as written: `additional_urls`
 * and `books` are class attributes, so every instance reads and appends to
 * the same two lists. `CategoryClass` holds them; each `Category` refers to
 * it. `OwnedCategory` is the same class with the per-instance lists the
 * class evidently means to have.
 *
 * A `Book` is identified by the product page URL it is built with; what
 * `Book.load_data` fetches and `Book.serialize` returns lives in
 * models/book.py and reaches the model only through the `serialize`
 * parameter of `Csv`.
 */
module CategoryModel {
  import opened Wrappers
  import opened PyStr
  import opened Crawl
  import BookData

  /** `f"{self.name}"`: the name, or "None" before `load_data` has set it. */
  function NameText(name: Option<string>): string {
    match name
    case None => "None"
    case Some(n) => n
  }

  /** `for book in books: writer.writerow(book.serialize())`: one row per book, in list order. */
  method SerializeRows(books: seq<string>, serialize: string -> seq<string>) returns (rows: seq<seq<string>>)
    ensures |rows| == |books|
    ensures forall i | 0 <= i < |books| :: rows[i] == serialize(books[i])
  {
    rows := [];
    for i := 0 to |books|
      invariant |rows| == i
      invariant forall j | 0 <= j < i :: rows[j] == serialize(books[j])
    {
      rows := rows + [serialize(books[i])];
    }
  }

  /** The class object `Category`, owner of the class-level lists. */
  class CategoryClass {
    var additionalUrls: seq<string>
    var books: seq<string>

    constructor ()
      ensures additionalUrls == [] && books == []
    {
      additionalUrls, books := [], [];
    }
  }

  class Category {
    /** Where `self.additional_urls` and `self.books` resolve. */
    const cls: CategoryClass
    var mainUrl: string
    var name: Option<string>

    /** `Category(main_url)`: only `main_url` is set on the instance. */
    constructor (cls: CategoryClass, mainUrl: string)
      ensures this.cls == cls && this.mainUrl == mainUrl && name == None
    {
      this.cls := cls;
      this.mainUrl := mainUrl;
      name := None;
    }

    /**
     * `load_data`, given the heading text and total-items count of the index
     * page and the elements of each listing page. It sets the name, appends
     * page-2 .. page-(k+1) of this category (k = total // 20) to the shared
     * page list, then visits every URL of that shared list followed by the
     * index page, appending one book per book link found. Returns the two
     * counts it reports: pages, then books.
     */
    method LoadData(heading: string, total: nat, listing: string -> seq<Link>)
      returns (pageCount: nat, bookCount: nat)
      modifies this`name, cls
      ensures name == Some(heading) && mainUrl == old(mainUrl)
      ensures |cls.additionalUrls| == |old(cls.additionalUrls)| + total / 20
      ensures cls.additionalUrls[..|old(cls.additionalUrls)|] == old(cls.additionalUrls)
      ensures forall i | |old(cls.additionalUrls)| <= i < |cls.additionalUrls| ::
                cls.additionalUrls[i] == PageUrl(mainUrl, i - |old(cls.additionalUrls)| + 2)
      ensures cls.books == old(cls.books) + CrawlBookUrls(cls.additionalUrls + [mainUrl], listing)
      ensures pageCount == |cls.additionalUrls| + 1
      ensures bookCount == |cls.books|
    {
      name := Some(heading);
      AppendPages(total);
      pageCount := |cls.additionalUrls| + 1;
      VisitPages(listing);
      bookCount := |cls.books|;
    }

    /** Appends page-2 .. page-(k+1) of this category, k = total // 20, to the shared page list. */
    method AppendPages(total: nat)
      modifies cls
      ensures |cls.additionalUrls| == |old(cls.additionalUrls)| + total / 20
      ensures cls.additionalUrls[..|old(cls.additionalUrls)|] == old(cls.additionalUrls)
      ensures forall i | |old(cls.additionalUrls)| <= i < |cls.additionalUrls| ::
                cls.additionalUrls[i] == PageUrl(mainUrl, i - |old(cls.additionalUrls)| + 2)
      ensures cls.books == old(cls.books)
    {
      var additional := total / PageSize;
      ghost var before := cls.additionalUrls;
      for i := 0 to additional
        invariant |cls.additionalUrls| == |before| + i
        invariant cls.additionalUrls[..|before|] == before
        invariant forall j | |before| <= j < |cls.additionalUrls| ::
                    cls.additionalUrls[j] == PageUrl(mainUrl, j - |before| + 2)
        invariant cls.books == old(cls.books)
      {
        cls.additionalUrls := cls.additionalUrls + [PageUrl(mainUrl, i + 2)];
      }
    }

    /**
     * Visits every URL of the shared page list, then the index page, and
     * appends one book per book link to the shared book list.
     */
    method VisitPages(listing: string -> seq<Link>)
      modifies cls
      ensures cls.additionalUrls == old(cls.additionalUrls)
      ensures cls.books == old(cls.books) + CrawlBookUrls(cls.additionalUrls + [mainUrl], listing)
    {
      var visit := cls.additionalUrls + [mainUrl];
      for p := 0 to |visit|
        invariant cls.additionalUrls == visit[..|visit| - 1]
        invariant cls.books == old(cls.books) + CrawlBookUrls(visit[..p], listing)
      {
        var links := listing(visit[p]);
        for t := 0 to |links|
          invariant cls.additionalUrls == visit[..|visit| - 1]
          invariant cls.books == old(cls.books) + CrawlBookUrls(visit[..p], listing) + ListingBookUrls(links[..t])
        {
          assert links[..t + 1][..t] == links[..t];
          if IsBookLink(links[t]) {
            cls.books := cls.books + [RewriteHref(links[t].href)];
          }
        }
        assert links[..|links|] == links;
        assert visit[..p + 1][..p] == visit[..p];
      }
      assert visit[..|visit|] == visit;
    }

    /**
     * `csv`: the file is named after the category, the fixed header comes
     * first, then one row per book of the shared list, in list order.
     */
    method Csv(serialize: string -> seq<string>)
      returns (fileName: string, header: seq<string>, rows: seq<seq<string>>)
      ensures fileName == NameText(name) + ".csv"
      ensures header == BookData.Header
      ensures |rows| == |cls.books|
      ensures forall i | 0 <= i < |rows| :: rows[i] == serialize(cls.books[i])
    {
      fileName := NameText(name) + ".csv";
      header := BookData.Header;
      rows := SerializeRows(cls.books, serialize);
    }
  }

  /** A relative catalogue link with a title is a book link: its href contains "index". */
  lemma SampleLinkIsBookLink()
    ensures IsBookLink(Link("../../../book_1/index.html", true))
  {
    var href := "../../../book_1/index.html";
    assert href[16..] == "index.html";
    assert StartsWith(href[16..], BookLinkMarker);
  }

  /** When every page shows the same single book link, each visited page yields one book URL. */
  lemma {:induction false} CrawlOneBookPerPage(pages: seq<string>, listing: string -> seq<Link>, l: Link)
    requires IsBookLink(l)
    requires forall u :: listing(u) == [l]
    ensures CrawlBookUrls(pages, listing) == seq(|pages|, _ => RewriteHref(l.href))
  {
    assert [l][..0] == [];
    assert ListingBookUrls([l]) == [RewriteHref(l.href)];
    if pages != [] {
      var init := pages[..|pages| - 1];
      CrawlOneBookPerPage(init, listing, l);
      assert listing(pages[|pages| - 1]) == [l];
      assert seq(|pages|, _ => RewriteHref(l.href)) == seq(|init|, _ => RewriteHref(l.href)) + [RewriteHref(l.href)];
    }
  }

  /**
   * Two categories loaded one after the other: A has 20 items (one extra
   * page), B has 0, and every listing page shows one book. B's export holds
   * four rows although B's own index page lists a single book: A's books,
   * and A's second page fetched again during B's load.
   */
  method SharedListsLeak(aUrl: string, bUrl: string)
    returns (bOwnBooks: seq<string>, bRows: seq<seq<string>>)
    ensures |bOwnBooks| == 1
    ensures |bRows| == 4
  {
    var link := Link("../../../book_1/index.html", true);
    SampleLinkIsBookLink();
    var listing := (u: string) => [link];

    var cls := new CategoryClass();
    var a := new Category(cls, aUrl);
    var b := new Category(cls, bUrl);
    var _, _ := a.LoadData("A", 20, listing);
    CrawlOneBookPerPage(cls.additionalUrls + [aUrl], listing, link);
    assert |cls.books| == 2;
    var _, _ := b.LoadData("B", 0, listing);
    CrawlOneBookPerPage(cls.additionalUrls + [bUrl], listing, link);
    CrawlOneBookPerPage([bUrl], listing, link);
    assert [bUrl][..0] == [];
    bOwnBooks := ListingBookUrls(listing(bUrl));
    var _, _, rows := b.Csv((u: string) => [u]);
    bRows := rows;
  }

  /** `Category` with per-instance lists, each load starting from empty lists. */
  class OwnedCategory {
    var mainUrl: string
    var name: Option<string>
    var additionalUrls: seq<string>
    var books: seq<string>

    constructor (mainUrl: string)
      ensures this.mainUrl == mainUrl && name == None
      ensures additionalUrls == [] && books == []
    {
      this.mainUrl := mainUrl;
      name := None;
      additionalUrls, books := [], [];
    }

    /**
     * `load_data` on lists of its own: both lists start again from empty, so
     * they hold the pages and books of this category only, whatever was
     * loaded before on this or any other instance. The
     * books are those `scrape_books_from_category` finds, each as often,
     * with the index page's books last instead of first.
     */
    method LoadData(heading: string, total: nat, listing: string -> seq<Link>)
      returns (pageCount: nat, bookCount: nat)
      modifies this
      ensures name == Some(heading) && mainUrl == old(mainUrl)
      ensures |additionalUrls| == total / 20
      ensures forall i | 0 <= i < |additionalUrls| :: additionalUrls[i] == PageUrl(mainUrl, i + 2)
      ensures books == CrawlBookUrls(additionalUrls + [mainUrl], listing)
      ensures multiset(books) == multiset(CrawlBookUrls([mainUrl] + additionalUrls, listing))
      ensures pageCount == 1 + total / 20
      ensures bookCount == |books|
    {
      name := Some(heading);
      additionalUrls, books := [], [];
      var additional := total / PageSize;
      for i := 0 to additional
        invariant |additionalUrls| == i
        invariant forall j | 0 <= j < i :: additionalUrls[j] == PageUrl(mainUrl, j + 2)
        invariant name == Some(heading) && mainUrl == old(mainUrl) && books == []
      {
        additionalUrls := additionalUrls + [PageUrl(mainUrl, i + 2)];
      }
      pageCount := |additionalUrls| + 1;

      var visit := additionalUrls + [mainUrl];
      for p := 0 to |visit|
        invariant additionalUrls == visit[..|visit| - 1] && name == Some(heading) && mainUrl == old(mainUrl)
        invariant books == CrawlBookUrls(visit[..p], listing)
      {
        var links := listing(visit[p]);
        for t := 0 to |links|
          invariant additionalUrls == visit[..|visit| - 1] && name == Some(heading) && mainUrl == old(mainUrl)
          invariant books == CrawlBookUrls(visit[..p], listing) + ListingBookUrls(links[..t])
        {
          assert links[..t + 1][..t] == links[..t];
          if IsBookLink(links[t]) {
            books := books + [RewriteHref(links[t].href)];
          }
        }
        assert links[..|links|] == links;
        assert visit[..p + 1][..p] == visit[..p];
      }
      assert visit[..|visit|] == visit;
      bookCount := |books|;
      VisitOrderSameBooks(mainUrl, additionalUrls, listing);
    }

    /** `csv` over this category's own books. */
    method Csv(serialize: string -> seq<string>)
      returns (fileName: string, header: seq<string>, rows: seq<seq<string>>)
      ensures fileName == NameText(name) + ".csv"
      ensures header == BookData.Header
      ensures |rows| == |books|
      ensures forall i | 0 <= i < |rows| :: rows[i] == serialize(books[i])
    {
      fileName := NameText(name) + ".csv";
      header := BookData.Header;
      rows := SerializeRows(books, serialize);
    }
  }

  /** The scenario of `SharedListsLeak` on per-instance lists: B's export holds B's one book. */
  method OwnedListsIndependent(aUrl: string, bUrl: string)
    returns (bOwnBooks: seq<string>, bRows: seq<seq<string>>)
    ensures |bOwnBooks| == 1
    ensures bRows == [[bOwnBooks[0]]]
  {
    var link := Link("../../../book_1/index.html", true);
    SampleLinkIsBookLink();
    var listing := (u: string) => [link];

    var a := new OwnedCategory(aUrl);
    var b := new OwnedCategory(bUrl);
    var _, _ := a.LoadData("A", 20, listing);
    var _, _ := b.LoadData("B", 0, listing);
    assert b.additionalUrls + [bUrl] == [bUrl];
    CrawlOneBookPerPage([bUrl], listing, link);
    assert [bUrl][..0] == [];
    bOwnBooks := ListingBookUrls(listing(bUrl));
    assert b.books == bOwnBooks == [RewriteHref(link.href)];
    var _, _, rows := b.Csv((u: string) => [u]);
    bRows := rows;
  }
}
