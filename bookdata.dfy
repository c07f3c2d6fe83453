/**
 * Field extraction of `scrape_book_data` and the row layout of
 * `create_csv_file` (module.py). The detail page arrives as the strings
 * the document queries would have returned; the image download is returned
 * as an event instead of being performed.
 */
module BookData {
  import opened Wrappers
  import opened PyStr

  /** Site root, `URL` in module.py. */
  const SiteRoot: string := "http://books.toscrape.com/"

  /** Relative prefix of an image `src`. */
  const ImagePrefix: string := "../../"

  /** Table cells the extractor reads: UPC, the two prices, availability. */
  const UpcCell: nat := 0
  const PriceExcludingTaxCell: nat := 2
  const PriceIncludingTaxCell: nat := 3
  const AvailabilityCell: nat := 5

  /** Number words the rating is written in, indexed by their value. */
  const RatingWords: seq<string> := ["zero", "one", "two", "three", "four", "five"]

  /** Column names of the export, in order. */
  const Header: seq<string> := [
    "UPC", "product_page_url", "price_excluding_tax", "price_including_tax", "number_available",
    "title", "review_rating", "category", "product_description", "image_url"
  ]

  /**
   * What the document queries of a detail page yield: the `td` cells of the
   * product table, the product heading, the class tokens of the star-rating
   * paragraph, the breadcrumb link texts, the first paragraph without a class
   * (if any) and the `src` of the image whose `alt` is the title.
   */
  datatype DetailPage = DetailPage(
    cells: seq<string>,
    title: string,
    ratingClasses: seq<string>,
    breadcrumb: seq<string>,
    description: Option<string>,
    imageSrc: string
  )

  /** Why an extraction stops: an index past the end of a list, or a rating word outside the vocabulary. */
  datatype Error = MalformedDetailPage | UnrecognizedRating

  /** The dictionary `book_data`. */
  datatype BookRecord = BookRecord(
    productPageUrl: string,
    upc: string,
    priceExcludingTax: string,
    priceIncludingTax: string,
    numberAvailable: string,
    title: string,
    reviewRating: nat,
    category: string,
    productDescription: string,
    imageUrl: string
  )

  /** A call of `download_pic`: the image URL and the name of the file written. */
  datatype Download = Download(imageUrl: string, fileName: string)

  /** The outcome of one extraction that did not raise. */
  datatype Extraction =
    | Abandoned                                      // image URL came out empty: `return` (None)
    | Scraped(book: BookRecord, download: Download)  // record returned after the download

  /** `text2num(word, "en")` on the six rating words. */
  function ParseRating(word: string): (r: Result<nat, Error>)
    ensures r.Success? ==> r.value < |RatingWords| && RatingWords[r.value] == word
    ensures r.Failure? ==> r.error == UnrecognizedRating && word !in RatingWords
  {
    if word == "zero" then Success(0)
    else if word == "one" then Success(1)
    else if word == "two" then Success(2)
    else if word == "three" then Success(3)
    else if word == "four" then Success(4)
    else if word == "five" then Success(5)
    else Failure(UnrecognizedRating)
  }

  /** Every rating word parses back to its own value. */
  lemma ParseRatingWords(n: nat)
    requires n < |RatingWords|
    ensures ParseRating(RatingWords[n]) == Success(n)
  {
  }

  /** The site writes the rating class capitalised ("Three"); lower-casing it gives the word back. */
  lemma ParseCapitalisedRating(n: nat)
    requires n < |RatingWords|
    ensures var w := RatingWords[n]; ParseRating(Lower([(w[0] as int - 32) as char] + w[1..])) == Success(n)
  {
    LowerCapitalised(RatingWords[n]);
  }

  /** The stock count: only the digits of the availability text, in their order. */
  function NumberAvailable(availability: string): (r: string)
    ensures AllDigits(r)
    ensures AllDigits(availability) ==> r == availability
  {
    KeepDigitsFixed(availability);
    KeepDigits(availability)
  }

  /** "In stock (22 available)" gives "22". */
  lemma NumberAvailableExample()
    ensures NumberAvailable("In stock (22 available)") == "22"
  {
    KeepDigitsBetween("In stock (", "22", " available)");
    assert "In stock (" + "22" + " available)" == "In stock (22 available)";
  }

  /** The description with every ';' made a '.'; a missing paragraph gives "". */
  function SanitizeDescription(description: Option<string>): (r: string)
    ensures description.None? ==> r == ""
    ensures description.Some? ==> |r| == |description.value|
    ensures description.Some? ==> forall i | 0 <= i < |r| ::
              r[i] == (if description.value[i] == ';' then '.' else description.value[i])
    ensures forall i | 0 <= i < |r| :: r[i] != ';'
  {
    match description
    case None => ""
    case Some(text) =>
      ReplaceChar(text, ';', '.');
      Replace(text, ";", ".")
  }

  /** "Great; buy it; now" is stored as "Great. buy it. now". */
  lemma SanitizeDescriptionExample()
    ensures SanitizeDescription(Some("Great; buy it; now")) == "Great. buy it. now"
  {
  }

  /** The image `src` with every "../../" replaced by the site root. */
  function ResolveImageUrl(src: string): (r: string)
    ensures r == "" <==> src == ""
  {
    ReplaceEmptyIff(src, ImagePrefix, SiteRoot);
    Replace(src, ImagePrefix, SiteRoot)
  }

  /** A relative image path "../../media/..." resolves to the site root followed by "media/...". */
  lemma ResolveRelativeImage(rest: string)
    requires !Contains(rest, ImagePrefix)
    ensures ResolveImageUrl(ImagePrefix + rest) == SiteRoot + rest
  {
    ReplaceLeading(ImagePrefix, rest, SiteRoot);
    ReplaceAbsent(rest, ImagePrefix, SiteRoot);
  }

  /** Stem of the image file: the title with '/' made '-', a '-', then the UPC. */
  function ImageStem(title: string, upc: string): (r: string)
    ensures |r| == |title| + 1 + |upc|
    ensures r[|title|] == '-' && r[|title| + 1..] == upc
    ensures forall i | 0 <= i < |title| :: r[i] == (if title[i] == '/' then '-' else title[i])
    ensures '/' !in upc ==> '/' !in r
  {
    ReplaceChar(title, '/', '-');
    Replace(title, "/", "-") + "-" + upc
  }

  /** `f"{file_name}.jpg"` in `download_pic` */
  function ImageFileName(stem: string): string {
    stem + ".jpg"
  }

  /**
   * `scrape_book_data`, field by field in the source's order. Reading cell 5
   * of a table with fewer than six cells, the second class token of a rating
   * paragraph with one, or the third breadcrumb link of a trail with fewer
   * than three raises, as does a rating word outside the vocabulary. After all
   * fields are read, an empty image URL abandons the book; otherwise the
   * image is downloaded under the title-and-UPC name and the record returned.
   */
  function ScrapeBookData(url: string, page: DetailPage): (r: Result<Extraction, Error>)
    ensures r.Failure? <==>
              |page.cells| <= AvailabilityCell
              || |page.ratingClasses| < 2
              || ParseRating(Lower(page.ratingClasses[1])).Failure?
              || |page.breadcrumb| < 3
    ensures r.Failure? ==>
              (r.error == UnrecognizedRating <==>
                 |page.cells| > AvailabilityCell && |page.ratingClasses| >= 2
                 && ParseRating(Lower(page.ratingClasses[1])).Failure?)
    ensures r == Success(Abandoned) <==> r.Success? && page.imageSrc == ""
    ensures r.Success? && r.value.Scraped? ==>
              var b := r.value.book;
              && b.productPageUrl == url
              && b.upc == page.cells[UpcCell]
              && b.priceExcludingTax == page.cells[PriceExcludingTaxCell]
              && b.priceIncludingTax == page.cells[PriceIncludingTaxCell]
              && b.numberAvailable == NumberAvailable(page.cells[AvailabilityCell])
              && AllDigits(b.numberAvailable)
              && b.title == page.title
              && b.reviewRating < |RatingWords|
              && RatingWords[b.reviewRating] == Lower(page.ratingClasses[1])
              && b.category == page.breadcrumb[2]
              && b.productDescription == SanitizeDescription(page.description)
              && b.imageUrl == ResolveImageUrl(page.imageSrc)
              && b.imageUrl != ""
              && r.value.download == Download(b.imageUrl, ImageStem(page.title, b.upc) + ".jpg")
  {
    if |page.cells| <= AvailabilityCell then Failure(MalformedDetailPage)
    else if |page.ratingClasses| < 2 then Failure(MalformedDetailPage)
    else
      var rating := ParseRating(Lower(page.ratingClasses[1]));
      if rating.Failure? then Failure(rating.error)
      else if |page.breadcrumb| < 3 then Failure(MalformedDetailPage)
      else
        var book := BookRecord(
          url,
          page.cells[UpcCell],
          page.cells[PriceExcludingTaxCell],
          page.cells[PriceIncludingTaxCell],
          NumberAvailable(page.cells[AvailabilityCell]),
          page.title,
          rating.value,
          page.breadcrumb[2],
          SanitizeDescription(page.description),
          ResolveImageUrl(page.imageSrc)
        );
        if book.imageUrl == "" then Success(Abandoned)
        else Success(Scraped(book, Download(book.imageUrl, ImageFileName(ImageStem(page.title, book.upc)))))
  }

  /** `book_data[key]`: the record as the dictionary `csv.DictWriter` looks fields up in. */
  function Field(b: BookRecord, key: string): Option<string> {
    if key == "product_page_url" then Some(b.productPageUrl)
    else if key == "UPC" then Some(b.upc)
    else if key == "price_excluding_tax" then Some(b.priceExcludingTax)
    else if key == "price_including_tax" then Some(b.priceIncludingTax)
    else if key == "number_available" then Some(b.numberAvailable)
    else if key == "title" then Some(b.title)
    else if key == "review_rating" then Some(NatToString(b.reviewRating))
    else if key == "category" then Some(b.category)
    else if key == "product_description" then Some(b.productDescription)
    else if key == "image_url" then Some(b.imageUrl)
    else None
  }

  /** One CSV row: the record's fields in header order. */
  function BookRow(b: BookRecord): (row: seq<string>)
    ensures |row| == |Header|
    ensures forall j | 0 <= j < |Header| :: Field(b, Header[j]) == Some(row[j])
  {
    [b.upc, b.productPageUrl, b.priceExcludingTax, b.priceIncludingTax, b.numberAvailable,
     b.title, NatToString(b.reviewRating), b.category, b.productDescription, b.imageUrl]
  }

  /** A written CSV file: its name, header line and data rows, before quoting. */
  datatype CsvFile = CsvFile(name: string, header: seq<string>, rows: seq<seq<string>>)

  /**
   * `create_csv_file`: a file named after the category, the fixed header,
   * then one row per record in list order, each cell the record's value for
   * that column's name.
   */
  function CreateCsvFile(books: seq<BookRecord>, fileName: string): (f: CsvFile)
    ensures f.name == fileName + ".csv"
    ensures f.header == Header && |Header| == 10
    ensures |f.rows| == |books|
    ensures forall i | 0 <= i < |books| :: |f.rows[i]| == |Header|
    ensures forall i, j | 0 <= i < |books| && 0 <= j < |Header| :: Field(books[i], Header[j]) == Some(f.rows[i][j])
  {
    CsvFile(fileName + ".csv", Header, seq(|books|, i requires 0 <= i < |books| => BookRow(books[i])))
  }
}
