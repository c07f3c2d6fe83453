# Books to Scrape crawler: verified model of its pagination, link and field rules

The crawler walks the "Books to Scrape" catalogue like this:
- For each category it takes the index listing page and computes the extra listing pages from the "total items" count (`total // 20` of them, named `page-2.html`, `page-3.html`, ...).
- It collects the book links of every listing page.
- It reads each book's detail page into a ten-field record, downloads the cover image and writes one CSV file per category.

HTTP and HTML querying stay outside the model. What is left is a small set of string and arithmetic rules, which this project states and proves in Dafny:

- `PyStr` models the Python string operations the code is built from: `str.replace`, `in`, the `isdigit` filter, `lower`, and `str(n)`/`int(s)` on naturals. Each comes with the lemmas the rest of the model needs, such as:
  - replacing an absent pattern changes nothing;
  - replacing a trailing pattern swaps only that suffix;
  - a one-character replace works position by position;
  - `int(str(n)) == n`.
- `Crawl` models `scrape_books_from_category` in module.py. It builds the page list and the book-URL list with the same loops as the source, and proves the floor-division page count, the shape and distinctness of page URLs, the link filter and rewrite, and the page-then-document order of the book URLs.
- `BookData` models `scrape_book_data` and `create_csv_file` in module.py:
  - the positional table cells;
  - the digit filter for the stock count;
  - `;` to `.` in the description;
  - image URL resolution and the early exit when that URL is empty;
  - the image file name;
  - the rating word;
  - the fixed ten-column header, with each row's cells matched to the header by name.
- `CategoryModel` models the `Category` class of models/category.py as written. Its `additional_urls` and `books` lists belong to the class object (`CategoryClass`), so all instances share them. `OwnedCategory` is the same class with lists of its own, which is the behaviour the code evidently intends (see Findings). Each of its loads starts again from empty lists, so loading one instance twice keeps only the second load.

The network is a set of parameters:
- the heading text and total-items count of an index page;
- a function `listing` from URL to the page's `(href, hasTitle)` elements in document order;
- a `DetailPage` record holding the strings the document queries return;
- a `serialize` function standing for `Book.serialize`.

A download is returned as an event (`Download`) and is not performed.

The model follows the code as written; in particular:
- A link matches when a title attribute is present (`title=True`), even an empty one.
- A page the crawler cannot index into (too few table cells, rating classes or breadcrumb links) raises. Nothing catches it, so one bad book ends the whole run instead of being skipped.
- The category lists are shared by all instances.

## Model

| member | source | states |
|---|---|---|
| `PyStr.ReplaceAbsent` | module.py:67 | `replace` of a pattern that does not occur returns the string unchanged |
| `PyStr.ReplaceLeading` | module.py:75 | a string that starts with the pattern becomes the replacement followed by the replaced rest |
| `PyStr.ReplaceTrailing` | module.py:67 | when the pattern occurs only as the suffix, `replace` keeps the prefix and swaps the suffix |
| `PyStr.ReplaceEmptyIff` | module.py:137-139 | with a non-empty replacement, the result is empty exactly when the input is |
| `PyStr.ReplaceChar` | module.py:132 | one-character `replace` equals position-wise substitution |
| `PyStr.KeepDigits` | module.py:111 | the digit filter returns only digits and is no longer than its input |
| `PyStr.KeepDigitsAppend` | module.py:111 | filtering distributes over concatenation, so the kept digits stay in input order |
| `PyStr.KeepDigitsFixed` | module.py:111 | the filter leaves a string unchanged exactly when it is all digits |
| `PyStr.KeepDigitsNone` | module.py:111 | a text with no digits filters to "" |
| `PyStr.KeepDigitsBetween` | module.py:111 | digits surrounded by digit-free text filter to exactly those digits |
| `PyStr.KeepDigitsIdempotent` | module.py:111 | filtering twice is the same as filtering once |
| `PyStr.Lower` | module.py:120 | `lower` keeps the length, shifts 'A'..'Z' to 'a'..'z' and leaves every other character alone |
| `PyStr.LowerCapitalised` | module.py:119-120 | lower-casing a capitalised lower-case word gives the word back |
| `PyStr.NatToString` | module.py:67 | `str(n)` is non-empty, all digits, with no leading zero |
| `PyStr.ParseNatToString` | module.py:67 | `int(str(n)) == n` |
| `PyStr.NatToStringInjective` | module.py:67 | different page numbers render as different strings |
| `Crawl.ScrapeBooksFromCategory` | module.py:62-75 | there are `1 + total // 20` pages; the index URL is first; page i is the index URL with "index.html" replaced by `page-{i+1}.html`, so the pages after the first are `AdditionalPages`; the book URLs are the rewritten book links of each page, in page order and then document order |
| `Crawl.FloorPageCount` | module.py:62 | floor division, not ceiling: one page more than the items fill when total is a positive multiple of 20; 20 and 37 give 2 pages, 45 gives 3 |
| `Crawl.PageUrlShape` | module.py:67 | for an index URL whose only "index.html" is its suffix, page n is the URL with that suffix swapped for `page-n.html` |
| `Crawl.PageUrlsDistinct` | module.py:66-67 | such page URLs differ from the index URL and from one another |
| `Crawl.PagesWithoutIndexName` | module.py:67 | an index URL without "index.html" gives every extra page the index URL itself |
| `Crawl.RewriteRelativeHref` | module.py:75 | "../../../rest" becomes "http://books.toscrape.com/catalogue/rest" |
| `Crawl.ListingBookUrlsMembership` | module.py:74-75 | a URL is found on a page iff some element has "index" in its href, has a title, and rewrites to that URL |
| `Crawl.ListingBookUrlsAppend` | module.py:74-75 | the links of a page are scanned in document order |
| `Crawl.ListingBookUrlsLength` | module.py:74-75 | at most one URL per element, and one per element exactly when all elements are book links |
| `Crawl.CrawlBookUrlsAppend` | module.py:72-75 | the book URLs of two runs of pages are the first run's followed by the second's |
| `Crawl.VisitOrderSameBooks` | models/category.py:33 | visiting the index page last finds the same book URLs, each as often, as visiting it first |
| `BookData.ParseRating` | module.py:120 | a parsed rating is the value whose word it is; a failure means the word is not one of zero..five |
| `BookData.ParseRatingWords` | module.py:120 | every word zero..five parses to its own value |
| `BookData.ParseCapitalisedRating` | module.py:119-120 | a capitalised class token ("Three") lower-cases and parses to its value |
| `BookData.NumberAvailable` | module.py:111 | the stock count is all digits, and an all-digit text is kept unchanged |
| `BookData.NumberAvailableExample` | module.py:111 | "In stock (22 available)" gives "22" |
| `BookData.SanitizeDescription` | module.py:129-132 | a missing description gives ""; otherwise the same length, no ';', and every other character kept in place |
| `BookData.SanitizeDescriptionExample` | module.py:132 | "Great; buy it; now" gives "Great. buy it. now" |
| `BookData.ResolveImageUrl` | module.py:136-139 | the resolved image URL is empty exactly when the `src` is empty |
| `BookData.ResolveRelativeImage` | module.py:137 | "../../rest" resolves to "http://books.toscrape.com/rest" |
| `BookData.ImageStem` | module.py:143 | the stem is the title with '/' made '-', then '-', then the UPC; it has no '/' when the UPC has none |
| `BookData.ScrapeBookData` | module.py:91-147 | fails exactly when there are fewer than 6 cells, fewer than 2 rating classes, an unknown rating word, or fewer than 3 breadcrumb links; abandons the book (no download) exactly when the image `src` is empty; otherwise returns cells 0, 2 and 3 as UPC and prices, the digit filter of cell 5, the title, the rating, breadcrumb link 2 as the category, the description with ';' made '.' ("" when missing) and the resolved image URL, with a download of that URL to `stem.jpg` |
| `BookData.BookRow` | module.py:164-169 | a row has the 10 header columns, and each cell is the record's value for that column's name |
| `BookData.CreateCsvFile` | module.py:150-169 | the file is `name.csv` with the fixed header, and row i, column j is book i's value for column j |
| `CategoryModel.SerializeRows` | models/category.py:49-50 | one serialized row per book, in list order |
| `CategoryModel.CategoryClass.constructor` | models/category.py:11-12 | the class-level lists start empty |
| `CategoryModel.Category.constructor` | models/category.py:15-16 | only `main_url` is set; the name is unset |
| `CategoryModel.Category.LoadData` | models/category.py:18-39 | sets the name and keeps `main_url`; appends `total // 20` page URLs (`page-2` onward) to the shared page list; appends the books of every shared page and then the index page to the shared book list; reports that list's length + 1 pages |
| `CategoryModel.Category.AppendPages` | models/category.py:25-29 | appends exactly `total // 20` page URLs and changes nothing already in the list |
| `CategoryModel.Category.VisitPages` | models/category.py:33-38 | visits the shared pages and then the index page, and only appends to the shared book list |
| `CategoryModel.Category.Csv` | models/category.py:41-51 | the file is `name.csv` ("None.csv" before loading) with the fixed header, then one row per book of the shared list, in order |
| `CategoryModel.SharedListsLeak` | models/category.py:11-12 | with shared lists, the export of a second category holds 4 rows although its own page lists 1 book |
| `CategoryModel.OwnedCategory.constructor` | models/category.py:15-16 | a fresh instance has empty lists of its own |
| `CategoryModel.OwnedCategory.LoadData` | models/category.py:18-39 | starts from empty lists, then holds this category's `total // 20` pages and their books only; the same books, each as often, as module.py's crawl |
| `CategoryModel.OwnedCategory.Csv` | models/category.py:41-51 | header, then one row per book of this category, in order |
| `CategoryModel.OwnedListsIndependent` | models/category.py:11-12 | with per-instance lists, the second category's export is exactly its own one book |

## Left out

- HTTP fetching (`get_soup`, `requests.get`, the `Soup` class): models/soup.py is not part of this model. A non-200 response makes the source crash later on `None`; that crash is not modelled.
- BeautifulSoup queries (`find`, `find_all`, `.string`, `.attrs`). Their results are inputs. A missing table, heading, image tag or description text raises `AttributeError`/`TypeError` in the source, and those crashes are not modelled. Only out-of-range indexing and the rating word are.
- `int(...)` of the total-items text: the count is taken as a natural number.
- `BookData.ParseRating`: models `text2num` only on the words zero..five. `text2num` accepts other number words too, and their results are not modelled.
- `PyStr.KeepDigits` and `PyStr.Lower`: ASCII only. Python's `isdigit` and `lower` also act on non-ASCII digits and letters.
- CSV quoting and escaping, the `utf-8-sig` byte-order mark, the output folder and `mkdir`. Rows are sequences of field strings.
- `download_pic` writing bytes: the download is an event carrying the URL and the file name.
- `scrape_categories`, the `__main__` block and `print` progress output. The page and book counts that `load_data` prints are returned as values instead.
- `Book.load_data` and `Book.serialize`: models/book.py is not part of this model. A book is identified by its page URL, and serialization is a parameter.
- The category name read in `scrape_books_from_category` is only printed, so it is not modelled.

## Findings

| source | as written | input that shows it | evidently intended | confidence | as-written member | corrected member |
|---|---|---|---|---|---|---|
| models/category.py:11-12 | `additional_urls` and `books` are class attributes that `load_data` appends to, so every `Category` instance shares them | load category A (20 items, so one extra page), then category B (0 items), with one book link per page: B revisits A's page-2 and B's export has 4 rows, while B lists 1 book | each category keeps its own page and book lists | high; not executed | `CategoryModel.SharedListsLeak` | `CategoryModel.OwnedListsIndependent` |
