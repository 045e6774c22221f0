/** The `Scraper` capability: one `get_job_count` operation shared by every site, written
    as a choice of site. The browser and the HTTP client are what the scrapers are given. */
module Scrapers {
  import opened Outcomes
  import opened QueryEncoding
  import opened UsizeParse
  import opened Json
  import TextTokens
  import IndeedScraper
  import SeekScraper

  datatype Scraper = Indeed | Seek

  /** What the scrapers are given: `browse` loads a page in the shared browser, `fetch`
      sends a GET request with the shared HTTP client and parses the body as JSON. */
  datatype Backends = Backends(
    browse: string -> Result<IndeedScraper.ResultsPage, ScrapeError>,
    fetch: string -> Result<Json, ScrapeError>)

  /** The URL a scraper visits for a title. */
  function RequestUrl(scraper: Scraper, title: string): string {
    match scraper
    case Indeed => IndeedScraper.SearchUrl(title)
    case Seek => SeekScraper.CountsUrl(title)
  }

  /** `Scraper::get_job_count`. Only Indeed can report "no count shown"; an Indeed count
      always fits a `usize`. Each site answers with the count its page or body shows. */
  function GetJobCount(scraper: Scraper, title: string, backends: Backends): (r: JobCount)
    ensures scraper.Seek? ==> r != Ok(None)
    ensures scraper.Indeed? && r.Ok? && r.value.Some? ==> r.value.value <= USIZE_MAX
    ensures scraper.Indeed? && backends.browse(RequestUrl(scraper, title)).Err? ==>
      r == Err(backends.browse(RequestUrl(scraper, title)).error)
    ensures scraper.Seek? && backends.fetch(RequestUrl(scraper, title)).Err? ==>
      r == Err(backends.fetch(RequestUrl(scraper, title)).error)
    ensures scraper.Indeed? ==>
      var page := backends.browse(RequestUrl(scraper, title));
      (r == Ok(None) <==>
        page.Ok? && IndeedScraper.HasCountSpan(page.value) && IndeedScraper.CountHtml(page.value).None?)
    ensures forall n: nat ::
      var page := backends.browse(RequestUrl(scraper, title));
      (scraper.Indeed? && page.Ok? && IndeedScraper.HasCountSpan(page.value) &&
       IndeedScraper.CountHtml(page.value).Some? &&
       IndeedScraper.ShowsCount(IndeedScraper.CountHtml(page.value).value, n) && n <= USIZE_MAX) ==>
      r == Ok(Some(n))
    ensures scraper.Seek? && backends.fetch(RequestUrl(scraper, title)).Ok? ==>
      var body := backends.fetch(RequestUrl(scraper, title)).value;
      && (r.Ok? <==> SeekScraper.CountItems(body).Some? && SeekScraper.AllCounts(SeekScraper.CountItems(body).value))
      && (r.Ok? ==> r == Ok(Some(SeekScraper.ItemsTotal(SeekScraper.CountItems(body).value))))
      && (SeekScraper.CountItems(body).None? ==> r == Err(Message(SeekScraper.ITEMS_NOT_OBJECT)))
      && (SeekScraper.CountItems(body).Some? && !SeekScraper.AllCounts(SeekScraper.CountItems(body).value) ==>
          r == Err(Message(SeekScraper.COUNT_NOT_U64)))
    ensures scraper.Indeed? && r.Ok? && r.value.Some? ==>
      var page := backends.browse(RequestUrl(scraper, title));
      page.Ok? && IndeedScraper.HasCountSpan(page.value) && IndeedScraper.CountHtml(page.value).Some? &&
      IndeedScraper.ShowsCount(IndeedScraper.CountHtml(page.value).value, r.value.value)
    ensures scraper.Indeed? && backends.browse(RequestUrl(scraper, title)).Ok? ==>
      var page := backends.browse(RequestUrl(scraper, title)).value;
      && (page.countDiv.None? ==> r == Err(ElementNotFound(IndeedScraper.COUNT_DIV_SELECTOR)))
      && (page.countDiv.Some? && page.countDiv.value.span.None? ==>
          r == Err(ElementNotFound(IndeedScraper.COUNT_SPAN_SELECTOR)))
      && (IndeedScraper.HasCountSpan(page) && IndeedScraper.CountHtml(page).Some? &&
          TextTokens.AllWhitespace(IndeedScraper.CountHtml(page).value) ==>
          r == Err(Message(IndeedScraper.NO_COUNT_TEXT)))
      && (IndeedScraper.HasCountSpan(page) && IndeedScraper.CountHtml(page).Some? &&
          !TextTokens.AllWhitespace(IndeedScraper.CountHtml(page).value) ==>
          r.Ok? || r.error.ParseInt?)
      && (r.Err? && r.error.ParseInt? ==>
          IndeedScraper.HasCountSpan(page) && IndeedScraper.CountHtml(page).Some? &&
          TextTokens.FirstToken(IndeedScraper.CountHtml(page).value).Some? &&
          ParseUsize(TextTokens.FirstToken(IndeedScraper.CountHtml(page).value).value) == Err(r.error.kind))
  {
    match scraper
    case Indeed => IndeedScraper.GetJobCount(title, backends.browse)
    case Seek => SeekScraper.GetJobCount(title, backends.fetch)
  }

  /** A scraper sees a title only through its encoded query: titles that encode alike,
      such as "a b" and "a+b", get the same answer. */
  lemma GetJobCountDependsOnlyOnQuery(scraper: Scraper, a: string, b: string, backends: Backends)
    requires EncodeQuery(a) == EncodeQuery(b)
    ensures RequestUrl(scraper, a) == RequestUrl(scraper, b)
    ensures GetJobCount(scraper, a, backends) == GetJobCount(scraper, b, backends)
  {
  }

  /** The request URLs for "software engineer" carry the query "software+engineer". */
  lemma IndeedUrlExample()
    ensures RequestUrl(Indeed, "software engineer") == IndeedScraper.SEARCH_URL_PREFIX + "software+engineer"
  {
    EncodeQueryExample();
  }

  lemma SeekUrlExample()
    ensures RequestUrl(Seek, "software engineer") == SeekScraper.COUNTS_URL_PREFIX + "software+engineer"
  {
    EncodeQueryExample();
  }
}
