/** The Indeed scraper: builds the search URL from the job title, loads the results page in
    the browser and reads the count from the first token of the count element's text. */
module IndeedScraper {
  import opened Outcomes
  import opened QueryEncoding
  import opened TextTokens
  import opened UsizeParse

  const SEARCH_URL_PREFIX := "https://nz.indeed.com/jobs?q="
  const COUNT_DIV_SELECTOR := "div.jobsearch-JobCountAndSortPane-jobCount"
  const COUNT_SPAN_SELECTOR := "span"
  const NO_COUNT_TEXT := "No job count text found"

  /** The `span` inside the count container; `innerHtml` is what `inner_html()` reports. */
  datatype CountSpan = CountSpan(innerHtml: Option<string>)

  /** The count container; `span` is what the lookup of `span` inside it finds. */
  datatype CountDiv = CountDiv(span: Option<CountSpan>)

  /** The results page once navigation has settled, as far as the scraper looks at it:
      what the lookup of the count container finds. */
  datatype ResultsPage = ResultsPage(countDiv: Option<CountDiv>)

  /** The search URL for a job title. */
  function SearchUrl(title: string): (url: string)
    ensures |url| == |SEARCH_URL_PREFIX| + |title|
    ensures url[..|SEARCH_URL_PREFIX|] == SEARCH_URL_PREFIX
    ensures url[|SEARCH_URL_PREFIX|..] == EncodeQuery(title)
    ensures ' ' !in url
  {
    SEARCH_URL_PREFIX + EncodeQuery(title)
  }

  /** Two titles lead to the same page exactly when their encoded queries agree. */
  lemma SearchUrlDeterminesQuery(a: string, b: string)
    ensures SearchUrl(a) == SearchUrl(b) <==> EncodeQuery(a) == EncodeQuery(b)
  {
  }

  predicate HasCountSpan(page: ResultsPage) {
    page.countDiv.Some? && page.countDiv.value.span.Some?
  }

  function CountHtml(page: ResultsPage): Option<string>
    requires HasCountSpan(page)
  {
    page.countDiv.value.span.value.innerHtml
  }

  /** A page whose count element holds `text`. */
  function PageShowing(text: string): ResultsPage {
    ResultsPage(Some(CountDiv(Some(CountSpan(Some(text))))))
  }

  /** `text` shows the count `n`: its first whitespace-delimited token is a decimal numeral,
      with at most one leading '+', whose value is `n`. */
  ghost predicate ShowsCount(text: string, n: nat) {
    exists start: nat, tok: string ::
      && FirstTokenAt(text, start, tok)
      && 0 < |Unsigned(tok)|
      && AllDigits(Unsigned(tok))
      && DecimalValue(Unsigned(tok)) == n
  }

  /** The count the page shows. A missing container or span is an error; a span without
      content is "no count shown"; otherwise the first token of the content, trimmed, is
      parsed as a `usize`, and a text without any token is an error. */
  function CountFromPage(page: ResultsPage): (r: JobCount)
    ensures page.countDiv.None? ==> r == Err(ElementNotFound(COUNT_DIV_SELECTOR))
    ensures page.countDiv.Some? && page.countDiv.value.span.None? ==> r == Err(ElementNotFound(COUNT_SPAN_SELECTOR))
    ensures r == Ok(None) <==> HasCountSpan(page) && CountHtml(page).None?
    ensures HasCountSpan(page) && CountHtml(page).Some? && AllWhitespace(CountHtml(page).value) ==>
      r == Err(Message(NO_COUNT_TEXT))
    ensures r.Ok? && r.value.Some? ==>
      HasCountSpan(page) && CountHtml(page).Some? &&
      r.value.value <= USIZE_MAX && ShowsCount(CountHtml(page).value, r.value.value)
    ensures HasCountSpan(page) && CountHtml(page).Some? && !AllWhitespace(CountHtml(page).value) ==>
      r.Ok? || r.error.ParseInt?
    ensures r.Err? && r.error.ParseInt? ==>
      HasCountSpan(page) && CountHtml(page).Some? && FirstToken(CountHtml(page).value).Some? &&
      ParseUsize(FirstToken(CountHtml(page).value).value) == Err(r.error.kind)
  {
    match page.countDiv
    case None => Err(ElementNotFound(COUNT_DIV_SELECTOR))
    case Some(div) =>
      match div.span
      case None => Err(ElementNotFound(COUNT_SPAN_SELECTOR))
      case Some(span) =>
        match span.innerHtml
        case None => Ok(None)
        case Some(text) =>
          match FirstToken(text)
          case None => Err(Message(NO_COUNT_TEXT))
          case Some(tok) =>
            match ParseUsize(Trim(tok))
            case Err(kind) => Err(ParseInt(kind))
            case Ok(n) =>
              assert FirstTokenAt(text, LeadingWhitespace(text), tok);
              Ok(Some(n))
  }

  /** Conversely, a page whose count text shows a count that fits a `usize` yields that count. */
  lemma CountFromShownText(page: ResultsPage, n: nat)
    requires HasCountSpan(page) && CountHtml(page).Some?
    requires ShowsCount(CountHtml(page).value, n) && n <= USIZE_MAX
    ensures CountFromPage(page) == Ok(Some(n))
  {
    var text := CountHtml(page).value;
    var start: nat, tok: string :| FirstTokenAt(text, start, tok) && 0 < |Unsigned(tok)|
      && AllDigits(Unsigned(tok)) && DecimalValue(Unsigned(tok)) == n;
    FirstTokenUnique(text, start, tok);
    assert Trim(tok) == tok;
    assert ParseUsize(tok) == Ok(n);
  }

  /** A count rendered after leading whitespace is read back whatever follows it, as long
      as whitespace separates the two. */
  lemma LeadingCountIsRead(lead: string, n: nat, rest: string)
    requires AllWhitespace(lead) && n <= USIZE_MAX
    requires |rest| == 0 || IsWhitespace(rest[0])
    ensures CountFromPage(PageShowing(lead + Decimal(n) + rest)) == Ok(Some(n))
  {
    FirstTokenIgnoresRest(lead, Decimal(n), rest);
    ParseUsizeRoundTrip(n);
  }

  lemma CountFromPageReadsLeadingToken()
    ensures CountFromPage(PageShowing("123 jobs")) == Ok(Some(123))
  {
    FirstTokenIgnoresRest("", "123", " jobs");
    assert "" + "123" + " jobs" == "123 jobs";
    assert Trim("123") == "123";
    ParseUsizeExamples();
  }

  /** Thousands separators are not stripped: the comma makes the token invalid. */
  lemma CountFromPageRejectsSeparator()
    ensures CountFromPage(PageShowing("1,234 jobs")) == Err(ParseInt(InvalidDigit))
  {
    FirstTokenIgnoresRest("", "1,234", " jobs");
    assert "" + "1,234" + " jobs" == "1,234 jobs";
    assert Trim("1,234") == "1,234";
    ParseUsizeExamples();
  }

  /** Empty or all-whitespace content is an error, not "no count shown". */
  lemma CountFromPageBlankText(text: string)
    requires AllWhitespace(text)
    ensures CountFromPage(PageShowing(text)) == Err(Message(NO_COUNT_TEXT))
  {
  }

  /** A span without content is "no count shown", not an error. */
  lemma CountFromPageNoContent()
    ensures CountFromPage(ResultsPage(Some(CountDiv(Some(CountSpan(None)))))) == Ok(None)
  {
  }

  /** `IndeedScraper::get_job_count`. `browse` stands for the browser: it opens a page,
      navigates to the URL, waits for the navigation response and reports the page, or the
      error that one of those steps (or reading the element) raised. */
  function GetJobCount(title: string, browse: string -> Result<ResultsPage, ScrapeError>): (r: JobCount)
    ensures browse(SearchUrl(title)).Err? ==> r == Err(browse(SearchUrl(title)).error)
    ensures r == Ok(None) <==>
      browse(SearchUrl(title)).Ok? && HasCountSpan(browse(SearchUrl(title)).value) &&
      CountHtml(browse(SearchUrl(title)).value).None?
    ensures r.Ok? && r.value.Some? ==>
      var page := browse(SearchUrl(title));
      page.Ok? && HasCountSpan(page.value) && CountHtml(page.value).Some? &&
      ShowsCount(CountHtml(page.value).value, r.value.value) && r.value.value <= USIZE_MAX
    ensures forall n: nat ::
      var page := browse(SearchUrl(title));
      (page.Ok? && HasCountSpan(page.value) && CountHtml(page.value).Some? &&
       ShowsCount(CountHtml(page.value).value, n) && n <= USIZE_MAX) ==> r == Ok(Some(n))
    ensures var page := browse(SearchUrl(title));
      page.Ok? && page.value.countDiv.None? ==> r == Err(ElementNotFound(COUNT_DIV_SELECTOR))
    ensures var page := browse(SearchUrl(title));
      page.Ok? && page.value.countDiv.Some? && page.value.countDiv.value.span.None? ==>
      r == Err(ElementNotFound(COUNT_SPAN_SELECTOR))
    ensures var page := browse(SearchUrl(title));
      page.Ok? && HasCountSpan(page.value) && CountHtml(page.value).Some? &&
      AllWhitespace(CountHtml(page.value).value) ==>
      r == Err(Message(NO_COUNT_TEXT))
    ensures var page := browse(SearchUrl(title));
      page.Ok? && HasCountSpan(page.value) && CountHtml(page.value).Some? &&
      !AllWhitespace(CountHtml(page.value).value) ==>
      r.Ok? || r.error.ParseInt?
    ensures var page := browse(SearchUrl(title));
      page.Ok? && r.Err? && r.error.ParseInt? ==>
      HasCountSpan(page.value) && CountHtml(page.value).Some? && FirstToken(CountHtml(page.value).value).Some? &&
      ParseUsize(FirstToken(CountHtml(page.value).value).value) == Err(r.error.kind)
  {
    match browse(SearchUrl(title))
    case Err(e) => Err(e)
    case Ok(page) =>
      assert forall n: nat :: (HasCountSpan(page) && CountHtml(page).Some? &&
        ShowsCount(CountHtml(page).value, n) && n <= USIZE_MAX) ==> CountFromPage(page) == Ok(Some(n)) by {
        forall n: nat | HasCountSpan(page) && CountHtml(page).Some? &&
          ShowsCount(CountHtml(page).value, n) && n <= USIZE_MAX
          ensures CountFromPage(page) == Ok(Some(n))
        {
          CountFromShownText(page, n);
        }
      }
      CountFromPage(page)
  }
}
