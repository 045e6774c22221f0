/** Result and option types shared by every scraper, and the errors a scrape can end in.
    Every scraper answers with a `JobCount`: a failure, "no count shown", or a count. */
module Outcomes {

  datatype Option<+T> = None | Some(value: T)

  datatype Result<+T, +E> = Ok(value: T) | Err(error: E)

  /** Why Rust's integer parser rejected a string (the kinds `usize::from_str` can report
      for an unsigned type). */
  datatype IntErrorKind = Empty | InvalidDigit | PosOverflow

  /** The boxed errors a `get_job_count` call can return. */
  datatype ScrapeError =
    /** A failure reported by the browser or the HTTP client (page creation, navigation,
        reading the element, sending the request, reading or parsing the body). */
    | Upstream(detail: string)
    /** An element lookup by CSS selector found nothing. */
    | ElementNotFound(selector: string)
    /** A fixed message raised by the scraper itself. */
    | Message(text: string)
    /** The count token was not an unsigned decimal integer. */
    | ParseInt(kind: IntErrorKind)

  /** The answer of one scrape: `Ok(Some(n))` a count, `Ok(None)` no count shown, `Err` a failure. */
  type JobCount = Result<Option<nat>, ScrapeError>
}
