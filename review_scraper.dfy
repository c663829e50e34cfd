/**
 * Phase two of the restaurant-longevity study: open each business page that
 * phase one found, with its reviews sorted oldest first, and read the date,
 * rating and text of the oldest review, and whether the page reports the
 * business closed. A run skips the locations already in the output file and
 * saves its progress every ten rows.
 *
 * The browser is a parameter: `browse(url)` is the page the browser shows
 * for `url`, or None when loading or reading it raises. A page is its source
 * text and its spans in document order; each span comes with the elements
 * of the review container found for it (empty when none is found).
 */
module ReviewScraper {
  import opened Wrappers
  import opened Text
  import opened Seqs
  import UrlFinder

  // ---------------------------------------------------------------------
  // Sorted URLs
  // ---------------------------------------------------------------------

  /** `_add_sort_parameter`: the parameter is appended unless it is already there. */
  function AddSortParameter(url: string): string {
    if Contains(url, UrlFinder.SortParameter) then url else url + UrlFinder.SortParameter
  }

  /** The parameter is always present afterwards and is appended at most once,
      so adding it twice is adding it once. */
  lemma AddSortParameterShape(url: string)
    ensures Contains(AddSortParameter(url), UrlFinder.SortParameter)
    ensures AddSortParameter(url) == url || AddSortParameter(url) == url + UrlFinder.SortParameter
    ensures Contains(url, UrlFinder.SortParameter) <==> AddSortParameter(url) == url
    ensures AddSortParameter(AddSortParameter(url)) == AddSortParameter(url)
  {
    ContainsInfix(url, UrlFinder.SortParameter, "");
    assert url + UrlFinder.SortParameter + "" == url + UrlFinder.SortParameter;
  }

  /** The sorted URL of a column-less input: `?` starts a new query string,
      `&` extends an existing one. */
  function FallbackSortedUrl(url: string): string {
    url + (if !HasChar(url, '?') then "?sort_by=date_asc" else "&sort_by=date_asc")
  }

  /** The fallback adds one parameter with the separator the URL needs; for a
      URL without a query string it is what the scraper would request anyway. */
  lemma FallbackSortedUrlShape(url: string)
    ensures !HasChar(url, '?') ==> FallbackSortedUrl(url) == url + UrlFinder.SortParameter
    ensures HasChar(url, '?') ==> FallbackSortedUrl(url) == url + ['&'] + UrlFinder.SortParameter[1..]
    ensures HasChar(FallbackSortedUrl(url), '?')
    ensures !HasChar(url, '?') ==> AddSortParameter(FallbackSortedUrl(url)) == FallbackSortedUrl(url)
  {
    var r := FallbackSortedUrl(url);
    if !HasChar(url, '?') {
      assert r == url + UrlFinder.SortParameter;
      assert r[|url|] == '?';
      ContainsInfix(url, UrlFinder.SortParameter, "");
      assert url + UrlFinder.SortParameter + "" == r;
    } else {
      var i :| 0 <= i < |url| && url[i] == '?';
      assert r[i] == '?';
    }
  }

  /** The sorted URL phase one writes for a found row already carries the
      parameter, so the scraper requests exactly that URL. */
  lemma FoundRowNeedsNoSort(row: UrlFinder.InputRow, found: UrlFinder.Found, address: string)
    ensures var r := UrlFinder.BuildResultRow(row, Some(found), address);
      AddSortParameter(r.yelpUrlSorted) == r.yelpUrlSorted
  {
    UrlFinder.BuildResultRowShape(row, Some(found), address);
    var sorted := found.hit.url + UrlFinder.SortParameter;
    ContainsInfix(found.hit.url, UrlFinder.SortParameter, "");
    assert found.hit.url + UrlFinder.SortParameter + "" == sorted;
  }

  // ---------------------------------------------------------------------
  // Which span texts are dates
  // ---------------------------------------------------------------------

  /** Promotional phrases that rule a text out as a date. */
  const SkipPhrases: seq<string> := ["book your", "save $", "established", "founded"]

  predicate HasSkipPhrase(lowered: string) {
    exists k :: 0 <= k < |SkipPhrases| && Contains(lowered, SkipPhrases[k])
  }

  /** `_is_potential_date`: at most 30 characters and, ignoring case, none
      of the promotional phrases. */
  predicate IsPotentialDate(text: string) {
    |text| <= 30 && !HasSkipPhrase(Lower(text))
  }

  const Months: seq<string> := ["Jan", "Feb", "Mar", "Apr", "May", "Jun", "Jul", "Aug", "Sep", "Oct", "Nov", "Dec"]

  predicate HasMonth(text: string) {
    exists k :: 0 <= k < |Months| && Contains(text, Months[k])
  }

  function DigitChar(d: nat): (c: char)
    requires d < 10
    ensures IsDigit(c)
  {
    ('0' as int + d) as char
  }

  function DigitValue(c: char): int {
    c as int - '0' as int
  }

  /** `str(year)` for a four-digit year. */
  function YearText(year: nat): (r: string)
    requires 1000 <= year <= 9999
    ensures |r| == 4
  {
    [DigitChar(year / 10 / 10 / 10), DigitChar(year / 10 / 10 % 10), DigitChar(year / 10 % 10), DigitChar(year % 10)]
  }

  /** `any(str(year) in text for year in range(1990, 2030))`. */
  predicate HasYear(text: string) {
    exists year :: 1990 <= year < 2030 && Contains(text, YearText(year))
  }

  /** `_is_valid_date_format`: a month abbreviation, a year from 1990 to
      2029, and at most 20 characters. */
  predicate IsValidDateFormat(text: string) {
    HasMonth(text) && HasYear(text) && |text| <= 20
  }

  /** Four digits at position `i` that read as a year from 1990 to 2029. */
  predicate YearAt(text: string, i: int) {
    0 <= i <= |text| - 4 &&
    IsDigit(text[i]) && IsDigit(text[i + 1]) && IsDigit(text[i + 2]) && IsDigit(text[i + 3]) &&
    1990 <= 1000 * DigitValue(text[i]) + 100 * DigitValue(text[i + 1]) + 10 * DigitValue(text[i + 2]) + DigitValue(text[i + 3]) < 2030
  }

  lemma DigitCharValue(d: nat)
    requires d < 10
    ensures DigitValue(DigitChar(d)) == d
  {
  }

  lemma DigitValueChar(c: char)
    requires IsDigit(c)
    ensures 0 <= DigitValue(c) < 10 && DigitChar(DigitValue(c)) == c
  {
  }

  /** The decimal digits of a four-digit number. */
  lemma DecimalDigits(y: nat)
    requires 1000 <= y <= 9999
    ensures y == 1000 * (y / 10 / 10 / 10) + 100 * (y / 10 / 10 % 10) + 10 * (y / 10 % 10) + y % 10
  {
    var r1 := y / 10;
    var r2 := r1 / 10;
    assert y == 10 * r1 + y % 10;
    assert r1 == 10 * r2 + r1 % 10;
    assert r2 == 10 * (r2 / 10) + r2 % 10;
  }

  /** A number written with four digits has those digits. */
  lemma DigitsOfNumber(a: nat, b: nat, c: nat, d: nat)
    requires 1 <= a < 10 && b < 10 && c < 10 && d < 10
    ensures var y := 1000 * a + 100 * b + 10 * c + d;
      y / 10 / 10 / 10 == a && y / 10 / 10 % 10 == b && y / 10 % 10 == c && y % 10 == d
  {
    var y := 1000 * a + 100 * b + 10 * c + d;
    assert y == 10 * (100 * a + 10 * b + c) + d;
    assert y / 10 == 100 * a + 10 * b + c;
    assert y / 10 == 10 * (10 * a + b) + c;
    assert y / 10 / 10 == 10 * a + b;
  }

  /** A year's text is its four digits. */
  lemma YearTextDigits(year: nat)
    requires 1000 <= year <= 9999
    ensures var t := YearText(year);
      IsDigit(t[0]) && IsDigit(t[1]) && IsDigit(t[2]) && IsDigit(t[3]) &&
      1000 * DigitValue(t[0]) + 100 * DigitValue(t[1]) + 10 * DigitValue(t[2]) + DigitValue(t[3]) == year
  {
    DigitCharValue(year / 10 / 10 / 10);
    DigitCharValue(year / 10 / 10 % 10);
    DigitCharValue(year / 10 % 10);
    DigitCharValue(year % 10);
    DecimalDigits(year);
  }

  /** Four digits are the text of the year they read as. */
  lemma DigitsYearText(w: string)
    requires |w| == 4 && IsDigit(w[0]) && IsDigit(w[1]) && IsDigit(w[2]) && IsDigit(w[3])
    requires 1000 <= 1000 * DigitValue(w[0]) + 100 * DigitValue(w[1]) + 10 * DigitValue(w[2]) + DigitValue(w[3])
    ensures YearText(1000 * DigitValue(w[0]) + 100 * DigitValue(w[1]) + 10 * DigitValue(w[2]) + DigitValue(w[3])) == w
  {
    DigitValueChar(w[0]);
    DigitValueChar(w[1]);
    DigitValueChar(w[2]);
    DigitValueChar(w[3]);
    DigitsOfNumber(DigitValue(w[0]), DigitValue(w[1]), DigitValue(w[2]), DigitValue(w[3]));
  }

  /** A year's text in the text is four digits there that form the year. */
  lemma YearTextAt(text: string, year: nat)
    requires 1990 <= year < 2030 && Contains(text, YearText(year))
    ensures exists i :: YearAt(text, i)
  {
    ContainsExists(text, YearText(year));
    var i :| OccursAt(text, YearText(year), i);
    var t := YearText(year);
    YearTextDigits(year);
    assert text[i..i + 4] == t;
    assert text[i] == t[0] && text[i + 1] == t[1] && text[i + 2] == t[2] && text[i + 3] == t[3];
    assert YearAt(text, i);
  }

  /** Four digits forming a year in range are that year's text. */
  lemma YearAtText(text: string, i: int)
    requires YearAt(text, i)
    ensures HasYear(text)
  {
    var w := text[i..i + 4];
    assert w[0] == text[i] && w[1] == text[i + 1] && w[2] == text[i + 2] && w[3] == text[i + 3];
    DigitsYearText(w);
    var year := 1000 * DigitValue(w[0]) + 100 * DigitValue(w[1]) + 10 * DigitValue(w[2]) + DigitValue(w[3]);
    assert OccursAt(text, YearText(year), i);
    ContainsExists(text, YearText(year));
  }

  /** Looking for each year's text is looking for four digits that form a
      year in range. */
  lemma HasYearIff(text: string)
    ensures HasYear(text) <==> exists i :: YearAt(text, i)
  {
    if HasYear(text) {
      var year :| 1990 <= year < 2030 && Contains(text, YearText(year));
      YearTextAt(text, year);
    }
    if exists i :: YearAt(text, i) {
      var i :| YearAt(text, i);
      YearAtText(text, i);
    }
  }

  /** A text without digits holds no year. */
  lemma NoDigitNoYear(text: string)
    requires forall i :: 0 <= i < |text| ==> !IsDigit(text[i])
    ensures !HasYear(text)
  {
    HasYearIff(text);
  }

  /** Both checks: the text of a review date. */
  predicate IsReviewDate(text: string) {
    IsPotentialDate(text) && IsValidDateFormat(text)
  }

  /** A well-formed date is short enough for the first check, so of the two
      checks only the promotional phrases can still reject it; case does not
      matter to that check. */
  lemma ReviewDateChecks(text: string)
    ensures IsValidDateFormat(text) ==> (IsReviewDate(text) <==> !HasSkipPhrase(Lower(text)))
    ensures IsPotentialDate(Lower(text)) <==> IsPotentialDate(text)
  {
    LowerIdempotent(text);
  }

  /** The marker date of a page without reviews. */
  const NoReviewsFound := "No reviews found"

  /** What a rating or review text reads when none is found. */
  const NotAvailable := "N/A"

  /** The marker date is never itself taken for a date. */
  lemma NoReviewsFoundIsNoDate()
    ensures !IsReviewDate(NoReviewsFound)
  {
    assert forall i :: 0 <= i < |NoReviewsFound| ==> !IsDigit(NoReviewsFound[i]);
    NoDigitNoYear(NoReviewsFound);
  }

  // ---------------------------------------------------------------------
  // Reading the oldest review off a page
  // ---------------------------------------------------------------------

  datatype Tag = SpanTag | DivTag | OtherTag

  /** An element of a review container: its tag, its text and its
      `aria-label` ("" when it has none). */
  datatype Element = Element(tag: Tag, text: string, ariaLabel: string)

  /** A span of the page and the elements, in document order, of the review
      container found for it. */
  datatype PageSpan = PageSpan(text: string, container: seq<Element>)

  /** `text[:limit]`. */
  function Truncate(text: string, limit: nat): (r: string)
    ensures |r| <= limit && |r| <= |text|
  {
    if |text| <= limit then text else text[..limit]
  }

  /** A span whose trimmed text is long enough to be the review itself. */
  predicate IsReviewText(e: Element) {
    e.tag == SpanTag && |Strip(e.text)| > 100
  }

  /** What `_extract_review_text` returns. */
  function ReviewTextOf(container: seq<Element>): string {
    if container == [] then NotAvailable
    else if IsReviewText(container[0]) then Truncate(Strip(container[0].text), 500)
    else ReviewTextOf(container[1..])
  }

  /** The review text is the first long span's trimmed text cut to 500
      characters, and "N/A" exactly when the container has no long span. */
  lemma {:induction false} ReviewTextSpec(container: seq<Element>)
    ensures ReviewTextOf(container) == NotAvailable <==> forall k :: 0 <= k < |container| ==> !IsReviewText(container[k])
    ensures ReviewTextOf(container) != NotAvailable ==>
      exists k :: 0 <= k < |container| && IsReviewText(container[k]) &&
        (forall j :: 0 <= j < k ==> !IsReviewText(container[j])) &&
        ReviewTextOf(container) == Truncate(Strip(container[k].text), 500)
    ensures ReviewTextOf(container) != NotAvailable ==> 100 < |ReviewTextOf(container)| <= 500
  {
    if container != [] {
      ReviewTextSpec(container[1..]);
      assert forall k :: 1 <= k < |container| ==> container[k] == container[1..][k - 1];
      if IsReviewText(container[0]) {
        assert |Truncate(Strip(container[0].text), 500)| > 100;
      } else if ReviewTextOf(container) != NotAvailable {
        var k :| 0 <= k < |container[1..]| && IsReviewText(container[1..][k]) &&
          (forall j :: 0 <= j < k ==> !IsReviewText(container[1..][j])) &&
          ReviewTextOf(container[1..]) == Truncate(Strip(container[1..][k].text), 500);
        assert IsReviewText(container[k + 1]);
      }
    }
  }

  /** `_extract_review_text`: the loop over the container's spans that
      returns at the first long one. */
  method ExtractReviewText(container: seq<Element>) returns (text: string)
    ensures text == ReviewTextOf(container)
  {
    var k := 0;
    while k < |container|
      invariant 0 <= k <= |container|
      invariant ReviewTextOf(container[k..]) == ReviewTextOf(container)
    {
      assert container[k..][1..] == container[k + 1..];
      var elem := container[k];
      if elem.tag == SpanTag {
        var t := Strip(elem.text);
        if |t| > 100 {
          return Truncate(t, 500);
        }
      }
      k := k + 1;
    }
    return NotAvailable;
  }

  /** An element whose label mentions a star rating and starts with a
      number such as `4.5`. */
  predicate IsRatingElement(e: Element) {
    (e.tag == SpanTag || e.tag == DivTag) &&
    Contains(Lower(e.ariaLabel), "star rating") &&
    SplitWs(e.ariaLabel) != [] && AllDigits(RemoveChar(SplitWs(e.ariaLabel)[0], '.'))
  }

  /** What `_extract_rating` returns. */
  function RatingOf(container: seq<Element>): string {
    if container == [] then NotAvailable
    else if IsRatingElement(container[0]) then SplitWs(container[0].ariaLabel)[0]
    else RatingOf(container[1..])
  }

  /** "N/A" is not a number, dots removed. */
  lemma NotAvailableIsNoNumber()
    ensures !AllDigits(RemoveChar(NotAvailable, '.'))
  {
    assert RemoveChar(NotAvailable, '.')[0] == 'N';
  }

  /** The rating is the first word of the first star-rating label that is a
      number once its dots are removed, and "N/A" exactly when no label is. */
  lemma {:induction false} RatingSpec(container: seq<Element>)
    ensures RatingOf(container) == NotAvailable <==> forall k :: 0 <= k < |container| ==> !IsRatingElement(container[k])
    ensures RatingOf(container) != NotAvailable ==>
      AllDigits(RemoveChar(RatingOf(container), '.')) &&
      exists k :: 0 <= k < |container| && IsRatingElement(container[k]) &&
        (forall j :: 0 <= j < k ==> !IsRatingElement(container[j])) &&
        RatingOf(container) == SplitWs(container[k].ariaLabel)[0]
  {
    NotAvailableIsNoNumber();
    if container != [] {
      RatingSpec(container[1..]);
      assert forall k :: 1 <= k < |container| ==> container[k] == container[1..][k - 1];
      if !IsRatingElement(container[0]) && RatingOf(container) != NotAvailable {
        var k :| 0 <= k < |container[1..]| && IsRatingElement(container[1..][k]) &&
          (forall j :: 0 <= j < k ==> !IsRatingElement(container[1..][j])) &&
          RatingOf(container[1..]) == SplitWs(container[1..][k].ariaLabel)[0];
        assert IsRatingElement(container[k + 1]);
      }
    }
  }

  /** `_extract_rating`: the loop over the container's divs and spans that
      returns at the first numeric star-rating label. */
  method ExtractRating(container: seq<Element>) returns (rating: string)
    ensures rating == RatingOf(container)
  {
    var k := 0;
    while k < |container|
      invariant 0 <= k <= |container|
      invariant RatingOf(container[k..]) == RatingOf(container)
    {
      assert container[k..][1..] == container[k + 1..];
      var elem := container[k];
      if elem.tag == SpanTag || elem.tag == DivTag {
        if Contains(Lower(elem.ariaLabel), "star rating") {
          var parts := SplitWs(elem.ariaLabel);
          if parts != [] && AllDigits(RemoveChar(parts[0], '.')) {
            return parts[0];
          }
        }
      }
      k := k + 1;
    }
    return NotAvailable;
  }

  /** The review data of a page; `isClosed` is filled in by the caller. */
  datatype Review = Review(date: string, rating: string, text: string, isClosed: bool)

  /** What `_extract_review_data` returns. */
  function ReviewDataOf(spans: seq<PageSpan>): Review {
    if spans == [] then Review(NoReviewsFound, NotAvailable, NotAvailable, false)
    else if IsDateSpan(spans[0]) then ReviewAt(spans[0])
    else ReviewDataOf(spans[1..])
  }

  /** A span whose trimmed text passes both date checks. */
  predicate IsDateSpan(span: PageSpan) {
    IsReviewDate(Strip(span.text))
  }

  /** The review read off one date span. */
  function ReviewAt(span: PageSpan): Review {
    Review(Strip(span.text), RatingOf(span.container), ReviewTextOf(span.container), false)
  }

  /** The review is that of the first date span, and the default when there
      is none. */
  lemma {:induction false} ReviewDataFirst(spans: seq<PageSpan>)
    ensures ReviewDataOf(spans) ==
      match FirstWhere(spans, IsDateSpan)
      case None => Review(NoReviewsFound, NotAvailable, NotAvailable, false)
      case Some(k) => ReviewAt(spans[k])
  {
    if spans != [] && !IsDateSpan(spans[0]) {
      ReviewDataFirst(spans[1..]);
    }
  }

  /** The review is that of the first span whose trimmed text passes both
      date checks, read off that span's container; the page has no such span
      exactly when the date is the marker, and then rating and text are "N/A". */
  lemma ReviewDataSpec(spans: seq<PageSpan>)
    ensures !ReviewDataOf(spans).isClosed
    ensures ReviewDataOf(spans).date == NoReviewsFound <==>
      forall k :: 0 <= k < |spans| ==> !IsDateSpan(spans[k])
    ensures ReviewDataOf(spans).date == NoReviewsFound ==>
      ReviewDataOf(spans).rating == NotAvailable && ReviewDataOf(spans).text == NotAvailable
    ensures ReviewDataOf(spans).date != NoReviewsFound ==>
      exists k :: 0 <= k < |spans| && IsDateSpan(spans[k]) &&
        (forall j :: 0 <= j < k ==> !IsDateSpan(spans[j])) &&
        ReviewDataOf(spans) == ReviewAt(spans[k])
  {
    ReviewDataFirst(spans);
    FirstWhereSpec(spans, IsDateSpan);
    var first := FirstWhere(spans, IsDateSpan);
    if first.Some? {
      var k := first.value;
      NoReviewsFoundIsNoDate();
      assert IsDateSpan(spans[k]);
      assert Strip(spans[k].text) != NoReviewsFound;
    }
  }

  /** `_extract_review_data`: the loop over the page's spans that returns at
      the first one passing both date checks. */
  method ExtractReviewData(spans: seq<PageSpan>) returns (review: Review)
    ensures review == ReviewDataOf(spans)
  {
    var k := 0;
    while k < |spans|
      invariant 0 <= k <= |spans|
      invariant ReviewDataOf(spans[k..]) == ReviewDataOf(spans)
    {
      assert spans[k..][1..] == spans[k + 1..];
      var text := Strip(spans[k].text);
      if IsPotentialDate(text) && IsValidDateFormat(text) {
        var reviewText := ExtractReviewText(spans[k].container);
        var rating := ExtractRating(spans[k].container);
        return Review(text, rating, reviewText, false);
      }
      k := k + 1;
    }
    return Review(NoReviewsFound, NotAvailable, NotAvailable, false);
  }

  /** A page as the browser shows it: its source and its spans. */
  datatype Page = Page(source: string, spans: seq<PageSpan>)

  /** The notice of a page whose business has closed. */
  const ClosedNotice := "Yelpers report this location has closed"

  /** What `get_oldest_review(url)` returns: None when the page cannot be
      loaded or read, and otherwise the page's review data with the closed
      flag. */
  function OldestReview(url: string, browse: string -> Option<Page>): Option<Review> {
    match browse(AddSortParameter(url))
    case None => None
    case Some(page) => Some(ReviewDataOf(page.spans).(isClosed := Contains(page.source, ClosedNotice)))
  }

  /** The page requested is the sorted one; a failed page gives no review,
      and a loaded one its review data, marked closed exactly when the page
      carries the notice. */
  lemma OldestReviewShape(url: string, browse: string -> Option<Page>)
    ensures Contains(AddSortParameter(url), UrlFinder.SortParameter)
    ensures OldestReview(url, browse).None? <==> browse(AddSortParameter(url)).None?
    ensures OldestReview(url, browse).Some? ==>
      var page := browse(AddSortParameter(url)).value;
      var r := OldestReview(url, browse).value;
      (r.isClosed <==> Contains(page.source, ClosedNotice)) &&
      r.date == ReviewDataOf(page.spans).date && r.rating == ReviewDataOf(page.spans).rating &&
      r.text == ReviewDataOf(page.spans).text
  {
    AddSortParameterShape(url);
  }

  /** `get_oldest_review`. */
  method GetOldestReview(url: string, browse: string -> Option<Page>) returns (review: Option<Review>)
    ensures review == OldestReview(url, browse)
  {
    var sortedUrl := AddSortParameter(url);
    var page := browse(sortedUrl);
    if page.None? {
      return None;
    }
    var isClosed := Contains(page.value.source, ClosedNotice);
    var data := ExtractReviewData(page.value.spans);
    return Some(data.(isClosed := isClosed));
  }

  // ---------------------------------------------------------------------
  // Output rows and the resumable run
  // ---------------------------------------------------------------------

  /** One output row: the location's identifying columns from phase one and
      its oldest review. */
  datatype ReviewRow = ReviewRow(
    adminProjectId: UrlFinder.Cell,
    projectLocationId: UrlFinder.Cell,
    locationName: string,
    projectName: UrlFinder.Cell,
    address: string,
    city: string,
    state: string,
    yelpUrl: string,
    yelpBusinessName: string,
    searchStrategy: string,
    isClosed: string,
    oldestReviewDate: string,
    oldestReviewRating: string,
    oldestReviewText: string)

  /** `_build_result_row`: phase one's rows have no `yelp_business_name`
      column, so the business name is the one read from the URL. */
  function BuildReviewRow(row: UrlFinder.ResultRow, review: Review): ReviewRow {
    ReviewRow(row.adminProjectId, row.projectLocationId, row.locationName, row.projectName, row.address,
              row.city, row.state, row.yelpUrl, row.urlBusinessName, row.searchStrategy,
              if review.isClosed then "Yes" else "No", review.date, review.rating, review.text)
  }

  /** The closed flag reads "Yes" or "No", the review fields are copied and
      so are the location's columns. */
  lemma BuildReviewRowShape(row: UrlFinder.ResultRow, review: Review)
    ensures var r := BuildReviewRow(row, review);
      (r.isClosed == "Yes" <==> review.isClosed) && (r.isClosed == "No" <==> !review.isClosed) &&
      r.oldestReviewDate == review.date && r.oldestReviewRating == review.rating &&
      r.oldestReviewText == review.text &&
      r.projectLocationId == row.projectLocationId && r.yelpUrl == row.yelpUrl &&
      r.yelpBusinessName == row.urlBusinessName
  {
  }

  /** `str(row['project_location_id'])`. */
  function RowId(row: UrlFinder.ResultRow): string {
    UrlFinder.Render(row.projectLocationId)
  }

  /** The id of an output row, as read back from the output file. */
  function ReviewId(r: ReviewRow): string {
    UrlFinder.Render(r.projectLocationId)
  }

  /** The ids of rows; those of the existing output are the processed ids a
      run starts from. */
  function IdsOf(rs: seq<ReviewRow>): set<string> {
    if rs == [] then {} else IdsOf(rs[..|rs| - 1]) + {ReviewId(rs[|rs| - 1])}
  }

  /** The rows to process: the found ones, or, without a `found` column, those
      with a URL. */
  predicate Selected(row: UrlFinder.ResultRow, hasFoundColumn: bool) {
    if hasFoundColumn then row.found else row.yelpUrl != ""
  }

  function ToProcess(rows: seq<UrlFinder.ResultRow>, hasFoundColumn: bool): seq<UrlFinder.ResultRow> {
    Filter(rows, row => Selected(row, hasFoundColumn))
  }

  /** The URL a row is scraped at: its sorted URL, or, without that column,
      the fallback. */
  function SortedUrlOf(row: UrlFinder.ResultRow, hasSortedColumn: bool): string {
    if hasSortedColumn then row.yelpUrlSorted else FallbackSortedUrl(row.yelpUrl)
  }

  /** What a run has done so far: the processed ids, the rows to write, the
      successful scrapes, the row counts of the periodic saves, and the ids
      of the rows it scraped. */
  datatype Progress = Progress(ids: set<string>, results: seq<ReviewRow>, successes: nat, saves: seq<nat>, scraped: seq<string>)

  /** The start of a run over an output file holding `existing`. */
  function Initial(existing: seq<ReviewRow>): Progress {
    Progress(IdsOf(existing), existing, 0, [], [])
  }

  /** One iteration of the loop, `outcome` being what scraping the row gives. */
  function Step(st: Progress, row: UrlFinder.ResultRow, outcome: Option<Review>): Progress {
    var id := RowId(row);
    if id in st.ids then st
    else
      match outcome
      case None => st.(scraped := st.scraped + [id])
      case Some(review) =>
        var results := st.results + [BuildReviewRow(row, review)];
        Progress(st.ids + {id}, results,
                 st.successes + (if review.date != NoReviewsFound then 1 else 0),
                 st.saves + (if |results| % 10 == 0 then [|results|] else []),
                 st.scraped + [id])
  }

  /** The loop over `rows`, scraping with `scrape`. */
  function Run(st: Progress, rows: seq<UrlFinder.ResultRow>, hasSortedColumn: bool, scrape: string -> Option<Review>): Progress
    decreases |rows|
  {
    if rows == [] then st
    else
      var row := rows[|rows| - 1];
      Step(Run(st, rows[..|rows| - 1], hasSortedColumn, scrape), row, scrape(SortedUrlOf(row, hasSortedColumn)))
  }

  /** The scraper of a run whose browser is `browse`. */
  function Scraper(browse: string -> Option<Page>): string -> Option<Review> {
    url => OldestReview(url, browse)
  }

  /** A row whose scrape found a review date. */
  predicate IsDated(r: ReviewRow) {
    r.oldestReviewDate != NoReviewsFound
  }

  /** The row counts, past `lo` and up to `hi`, that are multiples of ten. */
  function SaveCounts(lo: nat, hi: nat): seq<nat>
    decreases hi
  {
    if hi <= lo then [] else SaveCounts(lo, hi - 1) + (if hi % 10 == 0 then [hi] else [])
  }

  /** The saves fall on every multiple of ten between the bounds, and on
      nothing else, in increasing order. */
  lemma {:induction false} SaveCountsShape(lo: nat, hi: nat)
    ensures forall k :: 0 <= k < |SaveCounts(lo, hi)| ==>
      SaveCounts(lo, hi)[k] % 10 == 0 && lo < SaveCounts(lo, hi)[k] <= hi
    ensures forall i, j :: 0 <= i < j < |SaveCounts(lo, hi)| ==> SaveCounts(lo, hi)[i] < SaveCounts(lo, hi)[j]
    ensures forall m :: lo < m <= hi && m % 10 == 0 ==> m in SaveCounts(lo, hi)
    decreases hi
  {
    if lo < hi {
      SaveCountsShape(lo, hi - 1);
    }
  }

  lemma IdsOfHas(rs: seq<ReviewRow>, i: nat)
    requires i < |rs|
    ensures ReviewId(rs[i]) in IdsOf(rs)
    decreases |rs|
  {
    if i < |rs| - 1 {
      IdsOfHas(rs[..|rs| - 1], i);
    }
  }

  /** One more row is one more step. */
  lemma RunSnoc(st0: Progress, rows: seq<UrlFinder.ResultRow>, row: UrlFinder.ResultRow, hasSortedColumn: bool,
                scrape: string -> Option<Review>)
    ensures Run(st0, rows + [row], hasSortedColumn, scrape) ==
      Step(Run(st0, rows, hasSortedColumn, scrape), row, scrape(SortedUrlOf(row, hasSortedColumn)))
  {
    assert (rows + [row])[..|rows|] == rows;
  }

  /** A run keeps the rows it started with and scrapes at most once per row,
      writing at most one row per scrape. */
  lemma {:induction false} RunKeeps(st0: Progress, rows: seq<UrlFinder.ResultRow>, hasSortedColumn: bool, scrape: string -> Option<Review>)
    ensures var st := Run(st0, rows, hasSortedColumn, scrape);
      |st0.results| <= |st.results| && st.results[..|st0.results|] == st0.results &&
      |st.results| - |st0.results| <= |st.scraped| - |st0.scraped| <= |rows| &&
      st.scraped[..|st0.scraped|] == st0.scraped
    decreases |rows|
  {
    if rows != [] {
      var init := rows[..|rows| - 1];
      var prev := Run(st0, init, hasSortedColumn, scrape);
      RunKeeps(st0, init, hasSortedColumn, scrape);
      var st := Run(st0, rows, hasSortedColumn, scrape);
      assert st.results == prev.results || st.results == prev.results + [st.results[|st.results| - 1]];
      assert st.scraped == prev.scraped || st.scraped == prev.scraped + [st.scraped[|st.scraped| - 1]];
      assert st.results[..|st0.results|] == prev.results[..|st0.results|];
      assert st.scraped[..|st0.scraped|] == prev.scraped[..|st0.scraped|];
    }
  }

  /** The rows a step adds: none, or the row built from the scrape. */
  lemma StepAdds(st: Progress, row: UrlFinder.ResultRow, outcome: Option<Review>)
    ensures var next := Step(st, row, outcome);
      if RowId(row) !in st.ids && outcome.Some? then
        next.results == st.results + [BuildReviewRow(row, outcome.value)] && next.ids == st.ids + {RowId(row)} &&
        next.successes == st.successes + (if IsDated(BuildReviewRow(row, outcome.value)) then 1 else 0) &&
        next.saves == st.saves + (if |next.results| % 10 == 0 then [|next.results|] else [])
      else
        next.results == st.results && next.ids == st.ids && next.successes == st.successes && next.saves == st.saves
  {
  }

  /** The processed ids grow by the ids of the rows written. */
  lemma {:induction false} RunIds(st0: Progress, rows: seq<UrlFinder.ResultRow>, hasSortedColumn: bool, scrape: string -> Option<Review>)
    ensures var st := Run(st0, rows, hasSortedColumn, scrape);
      |st0.results| <= |st.results| && st.ids == st0.ids + IdsOf(st.results[|st0.results|..])
    decreases |rows|
  {
    RunKeeps(st0, rows, hasSortedColumn, scrape);
    if rows != [] {
      var init := rows[..|rows| - 1];
      var row := rows[|rows| - 1];
      var prev := Run(st0, init, hasSortedColumn, scrape);
      RunIds(st0, init, hasSortedColumn, scrape);
      var outcome := scrape(SortedUrlOf(row, hasSortedColumn));
      var st := Run(st0, rows, hasSortedColumn, scrape);
      assert st == Step(prev, row, outcome);
      StepAdds(prev, row, outcome);
      if RowId(row) !in prev.ids && outcome.Some? {
        var r := BuildReviewRow(row, outcome.value);
        var added := prev.results[|st0.results|..];
        assert st.results[|st0.results|..] == added + [r];
        assert (added + [r])[..|added|] == added;
      }
    }
  }

  /** The successes are the new rows with a review date. */
  lemma {:induction false} RunSuccesses(st0: Progress, rows: seq<UrlFinder.ResultRow>, hasSortedColumn: bool, scrape: string -> Option<Review>)
    ensures var st := Run(st0, rows, hasSortedColumn, scrape);
      |st0.results| <= |st.results| &&
      st.successes == st0.successes + CountWhere(st.results[|st0.results|..], IsDated)
    decreases |rows|
  {
    RunKeeps(st0, rows, hasSortedColumn, scrape);
    if rows != [] {
      var init := rows[..|rows| - 1];
      var row := rows[|rows| - 1];
      var prev := Run(st0, init, hasSortedColumn, scrape);
      RunSuccesses(st0, init, hasSortedColumn, scrape);
      var outcome := scrape(SortedUrlOf(row, hasSortedColumn));
      var st := Run(st0, rows, hasSortedColumn, scrape);
      assert st == Step(prev, row, outcome);
      StepAdds(prev, row, outcome);
      if RowId(row) !in prev.ids && outcome.Some? {
        var r := BuildReviewRow(row, outcome.value);
        var added := prev.results[|st0.results|..];
        assert st.results[|st0.results|..] == added + [r];
        CountWhereAppend(added, [r], IsDated);
      }
    }
  }

  /** The periodic saves fall on exactly the multiples of ten the row count
      passes. */
  lemma {:induction false} RunSaves(st0: Progress, rows: seq<UrlFinder.ResultRow>, hasSortedColumn: bool, scrape: string -> Option<Review>)
    ensures var st := Run(st0, rows, hasSortedColumn, scrape);
      st.saves == st0.saves + SaveCounts(|st0.results|, |st.results|)
    decreases |rows|
  {
    RunKeeps(st0, rows, hasSortedColumn, scrape);
    if rows != [] {
      var init := rows[..|rows| - 1];
      var row := rows[|rows| - 1];
      var prev := Run(st0, init, hasSortedColumn, scrape);
      RunSaves(st0, init, hasSortedColumn, scrape);
      RunKeeps(st0, init, hasSortedColumn, scrape);
      var outcome := scrape(SortedUrlOf(row, hasSortedColumn));
      var st := Run(st0, rows, hasSortedColumn, scrape);
      assert st == Step(prev, row, outcome);
      StepAdds(prev, row, outcome);
    }
  }

  /** A run never scrapes a row whose id is already processed, and never
      writes a location twice: the new rows' ids are new and distinct. */
  lemma {:induction false} RunFresh(st0: Progress, rows: seq<UrlFinder.ResultRow>, hasSortedColumn: bool, scrape: string -> Option<Review>)
    ensures var st := Run(st0, rows, hasSortedColumn, scrape);
      (forall k :: |st0.scraped| <= k < |st.scraped| ==> st.scraped[k] !in st0.ids) &&
      (forall i :: |st0.results| <= i < |st.results| ==> ReviewId(st.results[i]) !in st0.ids) &&
      (forall i, j :: |st0.results| <= i < j < |st.results| ==> ReviewId(st.results[i]) != ReviewId(st.results[j]))
    decreases |rows|
  {
    if rows != [] {
      var init := rows[..|rows| - 1];
      var row := rows[|rows| - 1];
      var prev := Run(st0, init, hasSortedColumn, scrape);
      RunFresh(st0, init, hasSortedColumn, scrape);
      RunIds(st0, init, hasSortedColumn, scrape);
      var outcome := scrape(SortedUrlOf(row, hasSortedColumn));
      var st := Step(prev, row, outcome);
      assert st == Run(st0, rows, hasSortedColumn, scrape);
      var id := RowId(row);
      if id !in prev.ids {
        assert id !in st0.ids;
        if outcome.Some? {
          var added := prev.results[|st0.results|..];
          forall i | |st0.results| <= i < |prev.results|
            ensures ReviewId(st.results[i]) != id
          {
            IdsOfHas(added, i - |st0.results|);
            assert added[i - |st0.results|] == prev.results[i];
          }
          assert ReviewId(st.results[|prev.results|]) == id;
        }
      }
    }
  }

  /** A run resumed from an output file holding `existing`: the file's rows
      stay first; every new row is a location not in the file and not
      written twice; no processed location is scraped; the successes are the
      new rows with a review date; the periodic saves are the multiples of
      ten past the file's row count. */
  lemma ResumedRun(existing: seq<ReviewRow>, rows: seq<UrlFinder.ResultRow>, hasFoundColumn: bool, hasSortedColumn: bool,
                   scrape: string -> Option<Review>)
    ensures |existing| <= |Run(Initial(existing), ToProcess(rows, hasFoundColumn), hasSortedColumn, scrape).results|
    ensures var fin := Run(Initial(existing), ToProcess(rows, hasFoundColumn), hasSortedColumn, scrape);
      var added := fin.results[|existing|..];
      fin.results[..|existing|] == existing &&
      |added| <= |fin.scraped| <= |ToProcess(rows, hasFoundColumn)| &&
      (forall k :: 0 <= k < |fin.scraped| ==> fin.scraped[k] !in IdsOf(existing)) &&
      (forall i :: 0 <= i < |added| ==> ReviewId(added[i]) !in IdsOf(existing)) &&
      (forall i, j :: 0 <= i < j < |added| ==> ReviewId(added[i]) != ReviewId(added[j])) &&
      fin.ids == IdsOf(existing) + IdsOf(added) &&
      fin.successes == CountWhere(added, IsDated) &&
      (forall k :: 0 <= k < |fin.saves| ==> fin.saves[k] % 10 == 0 && |existing| < fin.saves[k] <= |fin.results|) &&
      (forall m :: |existing| < m <= |fin.results| && m % 10 == 0 ==> m in fin.saves)
  {
    var st0 := Initial(existing);
    var todo := ToProcess(rows, hasFoundColumn);
    var fin := Run(st0, todo, hasSortedColumn, scrape);
    RunKeeps(st0, todo, hasSortedColumn, scrape);
    RunIds(st0, todo, hasSortedColumn, scrape);
    RunSuccesses(st0, todo, hasSortedColumn, scrape);
    RunSaves(st0, todo, hasSortedColumn, scrape);
    RunFresh(st0, todo, hasSortedColumn, scrape);
    SaveCountsShape(|existing|, |fin.results|);
    var added := fin.results[|existing|..];
    forall i, j | 0 <= i < j < |added| ensures ReviewId(added[i]) != ReviewId(added[j]) {
      assert added[i] == fin.results[|existing| + i] && added[j] == fin.results[|existing| + j];
    }
    forall i | 0 <= i < |added| ensures ReviewId(added[i]) !in IdsOf(existing) {
      assert added[i] == fin.results[|existing| + i];
    }
  }

  /** The body of the loop of `process_urls` for one row. */
  method VisitRow(processedIds: set<string>, results: seq<ReviewRow>, successfulScrapes: nat, saves: seq<nat>,
                  ghost scraped: seq<string>, row: UrlFinder.ResultRow, hasSortedColumn: bool, browse: string -> Option<Page>)
    returns (processedIds1: set<string>, results1: seq<ReviewRow>, successfulScrapes1: nat, saves1: seq<nat>,
             ghost scraped1: seq<string>)
    ensures Progress(processedIds1, results1, successfulScrapes1, saves1, scraped1) ==
      Step(Progress(processedIds, results, successfulScrapes, saves, scraped), row,
           OldestReview(SortedUrlOf(row, hasSortedColumn), browse))
  {
    processedIds1, results1, successfulScrapes1, saves1, scraped1 := processedIds, results, successfulScrapes, saves, scraped;
    var id := RowId(row);
    if id !in processedIds {
      var review := GetOldestReview(SortedUrlOf(row, hasSortedColumn), browse);
      if review.Some? {
        if review.value.date != NoReviewsFound {
          successfulScrapes1 := successfulScrapes1 + 1;
        }
        results1 := results1 + [BuildReviewRow(row, review.value)];
        processedIds1 := processedIds1 + {id};
        if |results1| % 10 == 0 {
          saves1 := saves1 + [|results1|];
        }
      }
      scraped1 := scraped1 + [id];
    }
  }

  /** `process_urls`: the rows to process, skipping the processed ids,
      scraping the rest, appending a row for each page that could be read,
      saving every tenth row and once at the end when there is anything to
      write; returns the number of rows written and of successful scrapes.
      `saves` lists the number of rows each save writes. */
  method ProcessUrls(existing: seq<ReviewRow>, rows: seq<UrlFinder.ResultRow>, hasFoundColumn: bool, hasSortedColumn: bool,
                     browse: string -> Option<Page>)
    returns (results: seq<ReviewRow>, saves: seq<nat>, total: nat, successfulScrapes: nat)
    ensures var fin := Run(Initial(existing), ToProcess(rows, hasFoundColumn), hasSortedColumn, Scraper(browse));
      results == fin.results && successfulScrapes == fin.successes && total == |results| &&
      saves == fin.saves + (if results != [] then [|results|] else [])
  {
    var todo := ToProcess(rows, hasFoundColumn);
    var processedIds := IdsOf(existing);
    results := existing;
    saves := [];
    successfulScrapes := 0;
    ghost var scraped: seq<string> := [];
    var i := 0;
    while i < |todo|
      invariant 0 <= i <= |todo|
      invariant Progress(processedIds, results, successfulScrapes, saves, scraped) ==
        Run(Initial(existing), todo[..i], hasSortedColumn, Scraper(browse))
    {
      var row := todo[i];
      processedIds, results, successfulScrapes, saves, scraped :=
        VisitRow(processedIds, results, successfulScrapes, saves, scraped, row, hasSortedColumn, browse);
      assert Scraper(browse)(SortedUrlOf(row, hasSortedColumn)) == OldestReview(SortedUrlOf(row, hasSortedColumn), browse);
      RunSnoc(Initial(existing), todo[..i], row, hasSortedColumn, Scraper(browse));
      assert todo[..i + 1] == todo[..i] + [row];
      i := i + 1;
    }
    assert todo[..|todo|] == todo;
    if results != [] {
      saves := saves + [|results|];
    }
    total := |results|;
  }
}
