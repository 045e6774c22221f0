# jobex scraper core, modelled in Dafny

jobex reports how many job postings match a job title on several New Zealand job sites.
Every site sits behind one `Scraper` trait with a single operation, `get_job_count`. It
answers `Err` (a failure), `Ok(None)` (the site showed no count) or `Ok(Some(n))`. This
project models the pure logic inside the two working scrapers of
`Backend/jobex_scraper/src/scrapers.rs`:

- **Query encoding** (`QueryEncoding`). A title becomes a query string: every ASCII space is
  replaced by `+`.
- **Indeed** (`IndeedScraper`). The search URL is `https://nz.indeed.com/jobs?q=` followed by
  the query. The rendered page is modelled as the outcome of its DOM lookups: an optional
  count container `div.jobsearch-JobCountAndSortPane-jobCount`, an optional `span` inside it,
  and the span's optional inner HTML. The count is read from the first whitespace-delimited
  token of that text. The token is trimmed and parsed with Rust's `usize::from_str`
  (`TextTokens`, `UsizeParse`).
- **Seek** (`SeekScraper`). The request URL is the fixed counts-endpoint prefix ending in
  `keywords=`, followed by the query. The response is an already-parsed JSON value (`Json`).
  The scraper walks `counts[2].items`, requires an object there, requires every value to be a
  `u64`, and returns the sum.
- **The trait** (`Scrapers`). `get_job_count` is a choice between the two sites.

The browser and the HTTP client are parameters: `browse(url)` gives the loaded page or the
error raised while opening, navigating or reading it, and `fetch(url)` gives the parsed body
or the transport or parse error. Their errors are passed on unchanged.

Modelling choices:
- `usize` and `u64` are 64 bits wide (maximum 2^64 - 1).
- The parser follows Rust's `from_str` for unsigned types:
  - one leading `+` is accepted;
  - `""` is `Empty`, and a lone `+` is `InvalidDigit`;
  - the digits are read left to right, stopping at the first non-digit (`InvalidDigit`) or
    at the first step that exceeds the maximum (`PosOverflow`).
- Whitespace means the six ASCII characters among those Rust's `char::is_whitespace` accepts:
  space, tab, line feed, vertical tab, form feed and carriage return.
- A JSON object is its list of members in iteration order. A key lookup takes the first
  member with that key; a parsed object's keys are distinct anyway.
- `as_u64` accepts only integers from 0 to 2^64 - 1. A float such as `3.0`, a negative
  number and a numeric string are all refused.
- Only the Indeed and Seek scrapers have behaviour, and the query encoder replaces each space
  with `+`. The errors are the boxed errors the code raises: the browser's "element not
  found", a fixed message string, or Rust's integer-parse error. The code also fails when the
  nested `span` is missing, not only when the outer container is.

## Model

| member | source | states |
|---|---|---|
| `QueryEncoding.EncodeQuery` | Backend/jobex_scraper/src/scrapers.rs:103-105 | every space becomes `+`, every other character is kept in place, the length is kept, and the query contains no space |
| `QueryEncoding.EncodeQueryFixpoints` | Backend/jobex_scraper/src/scrapers.rs:103-105 | a string is left unchanged by the encoder exactly when it contains no space |
| `QueryEncoding.EncodeQueryIdempotent` | Backend/jobex_scraper/src/scrapers.rs:103-105 | encoding an encoded title returns it unchanged |
| `QueryEncoding.EncodeQueryConcat` | Backend/jobex_scraper/src/scrapers.rs:103-105 | the encoding of a concatenation is the concatenation of the encodings |
| `QueryEncoding.EncodeQueryNotInjective` | Backend/jobex_scraper/src/scrapers.rs:103-105 | "a b" and "a+b" encode to the same query, so a query cannot be decoded |
| `QueryEncoding.EncodeQueryExample` | Backend/jobex_scraper/src/scrapers.rs:103-105 | "software engineer" encodes to "software+engineer" |
| `TextTokens.FirstToken` | Backend/jobex_scraper/src/scrapers.rs:40-42 | no token exactly when the text is all whitespace; otherwise a non-empty whitespace-free token, preceded only by whitespace and followed by whitespace or the end |
| `TextTokens.FirstTokenUnique` | Backend/jobex_scraper/src/scrapers.rs:40-42 | any token that fits that description is the one returned, so the description determines the result |
| `TextTokens.FirstTokenIgnoresRest` | Backend/jobex_scraper/src/scrapers.rs:40-42 | leading whitespace, then a token, then whitespace and any text: the token is returned and the rest ignored |
| `TextTokens.Trim` | Backend/jobex_scraper/src/scrapers.rs:44 | the result is the text with whitespace removed from both ends only, and a text without whitespace is kept as it is |
| `UsizeParse.ParseUsize` | Backend/jobex_scraper/src/scrapers.rs:45 | `Empty` exactly for the empty string; success exactly when the text after an optional `+` is a non-empty digit string of value at most 2^64 - 1, and the result is that value; `PosOverflow` exactly when some digit prefix already exceeds the maximum |
| `UsizeParse.AccumulateValue` | Backend/jobex_scraper/src/scrapers.rs:45 | the digit loop succeeds exactly when the remaining text is digits that fit, and it yields the positional value of all digits read |
| `UsizeParse.AccumulateOverflow` | Backend/jobex_scraper/src/scrapers.rs:45 | the digit loop stops with `PosOverflow` exactly when a digit prefix overflows before any non-digit is reached |
| `UsizeParse.ParseUsizeRoundTrip` | Backend/jobex_scraper/src/scrapers.rs:45 | parsing the decimal rendering of any `usize`, with or without `+`, gives it back |
| `UsizeParse.DecimalOfValue` | Backend/jobex_scraper/src/scrapers.rs:45 | a digit string without a leading zero is the decimal rendering of its own value |
| `UsizeParse.ParseUsizeExamples` | Backend/jobex_scraper/src/scrapers.rs:45 | "123" and "+7" parse; "1,234", "+" and "-1" are `InvalidDigit`; "" is `Empty` |
| `Json.Lookup` | Backend/jobex_scraper/src/scrapers.rs:71 | a key is found exactly when some member has it, and the value is that of the first such member |
| `Json.AsU64` | Backend/jobex_scraper/src/scrapers.rs:75 | a value is accepted exactly when it is an integer from 0 to 2^64 - 1, and the result is that integer |
| `Json.AsU64Examples` | Backend/jobex_scraper/src/scrapers.rs:75 | 3 is accepted; -3, 3.0, "3" and 2^64 are refused |
| `IndeedScraper.SearchUrl` | Backend/jobex_scraper/src/scrapers.rs:27-29 | the URL is `https://nz.indeed.com/jobs?q=` followed by the encoded title, and it contains no space |
| `IndeedScraper.SearchUrlDeterminesQuery` | Backend/jobex_scraper/src/scrapers.rs:27-29 | two titles give the same URL exactly when their encoded queries are equal |
| `IndeedScraper.CountFromPage` | Backend/jobex_scraper/src/scrapers.rs:32-47 | a missing container or span gives that selector's not-found error; `Ok(None)` exactly when the span has no content; all-whitespace content is the "No job count text found" error; other content gives a count or an integer-parse error, and a parse error is the one the parser reports for the text's first token; a count fits a `usize` and is what the text's first token shows |
| `IndeedScraper.CountFromShownText` | Backend/jobex_scraper/src/scrapers.rs:40-47 | conversely, a page whose span content has a first token showing a count that fits a `usize` yields that count |
| `IndeedScraper.LeadingCountIsRead` | Backend/jobex_scraper/src/scrapers.rs:40-47 | content made of whitespace, a rendered count, then whitespace and any text yields that count |
| `IndeedScraper.CountFromPageReadsLeadingToken` | Backend/jobex_scraper/src/scrapers.rs:40-47 | "123 jobs" gives `Ok(Some(123))` |
| `IndeedScraper.CountFromPageRejectsSeparator` | Backend/jobex_scraper/src/scrapers.rs:40-47 | "1,234 jobs" gives an `InvalidDigit` parse error, because the comma is not stripped |
| `IndeedScraper.CountFromPageBlankText` | Backend/jobex_scraper/src/scrapers.rs:40-43 | any empty or all-whitespace content gives the "No job count text found" error, not `Ok(None)` |
| `IndeedScraper.CountFromPageNoContent` | Backend/jobex_scraper/src/scrapers.rs:36-38 | a span without content gives `Ok(None)`, not an error |
| `IndeedScraper.GetJobCount` | Backend/jobex_scraper/src/scrapers.rs:24-48 | the page loaded is the one at the search URL; a browser error is returned unchanged; a missing container or span on that page gives that selector's not-found error; blank span content gives "No job count text found", and other content gives a count or an integer-parse error; `Ok(None)` exactly when the span has no content; a count is what the content's first token shows, and a first token showing a count that fits a `usize` yields it; a parse error is the one the first token gives |
| `SeekScraper.CountsUrl` | Backend/jobex_scraper/src/scrapers.rs:64-65 | the URL is the counts-endpoint prefix ending in `keywords=`, followed by the encoded title, and no space follows the prefix |
| `SeekScraper.CountsUrlDeterminesQuery` | Backend/jobex_scraper/src/scrapers.rs:64-65 | two titles give the same request exactly when their encoded queries are equal |
| `SeekScraper.CountItems` | Backend/jobex_scraper/src/scrapers.rs:71-72 | the walk through `counts[2].items` finds an object exactly when the body is an object whose `counts` is an array of at least three entries, the third an object whose `items` is an object |
| `SeekScraper.CollectCounts` | Backend/jobex_scraper/src/scrapers.rs:74-77 | the collection succeeds exactly when every value is a `u64`, and it then holds each member's count in member order |
| `SeekScraper.CollectedSumIsTotal` | Backend/jobex_scraper/src/scrapers.rs:74-79 | summing the collected counts gives the sum of the members' counts |
| `SeekScraper.CountFromBody` | Backend/jobex_scraper/src/scrapers.rs:71-81 | never `Ok(None)`; no `items` object gives the first message, a non-`u64` value the second; otherwise the answer is the sum of all members' counts |
| `SeekScraper.ItemsTotalAppend` | Backend/jobex_scraper/src/scrapers.rs:74-79 | the total of two groups of members is the sum of their totals |
| `SeekScraper.ItemsTotalPermutation` | Backend/jobex_scraper/src/scrapers.rs:74-79 | the total does not depend on the order the members are listed in |
| `SeekScraper.OneBadCountFails` | Backend/jobex_scraper/src/scrapers.rs:74-77 | one value that is not a `u64`, at any position, makes the whole answer the count-list error |
| `SeekScraper.CountFromBodySumsItems` | Backend/jobex_scraper/src/scrapers.rs:74-81 | `{"counts":[{},{},{"items":{"a":3,"b":5}}]}` gives `Ok(Some(8))` |
| `SeekScraper.CountFromBodyEmptyItems` | Backend/jobex_scraper/src/scrapers.rs:74-81 | an empty `items` object gives `Ok(Some(0))` |
| `SeekScraper.CountFromBodyRejectsNonInteger` | Backend/jobex_scraper/src/scrapers.rs:74-77 | a string, a float or a negative value among the counts gives the count-list error |
| `SeekScraper.CountFromBodyShapeErrors` | Backend/jobex_scraper/src/scrapers.rs:71-72 | a body without `counts`, a `counts` with two entries, a non-object `items` and a non-object body all give the first message |
| `SeekScraper.GetJobCount` | Backend/jobex_scraper/src/scrapers.rs:63-82 | never `Ok(None)`; a fetch error is returned unchanged; for a fetched body, success exactly when `items` is an object of `u64` values, the count is their sum, a body without such an `items` object gives "Failed to parse JSON returned from Seek job counts API.", and a non-`u64` value gives "Failed to parse list of job counts from Seek job count response." |
| `Scrapers.GetJobCount` | Backend/jobex_scraper/src/scrapers.rs:8-10 | Seek never answers `Ok(None)`; an Indeed count fits a `usize`; each site's backend error is passed on; Indeed answers `Ok(None)` exactly when the span has no content, a count it answers is one the span's first token shows, and any such count that fits a `usize` is the answer; a missing container or span, blank content and an unparseable first token give the same errors as `IndeedScraper.GetJobCount`; Seek succeeds exactly when the body's `items` object holds only `u64` values, answers with their sum, and otherwise gives the same two messages as `SeekScraper.GetJobCount` |
| `Scrapers.GetJobCountDependsOnlyOnQuery` | Backend/jobex_scraper/src/scrapers.rs:24-82 | titles with equal encoded queries visit the same URL and get the same answer from either site |
| `Scrapers.IndeedUrlExample` | Backend/jobex_scraper/src/scrapers.rs:27-29 | for "software engineer" Indeed visits `https://nz.indeed.com/jobs?q=software+engineer` |
| `Scrapers.SeekUrlExample` | Backend/jobex_scraper/src/scrapers.rs:64-65 | for "software engineer" Seek requests the counts prefix followed by `software+engineer` |

## Left out

- The browser session of `browser.rs` is not part of this model: the launch with a 1920x1080 window, the background task draining browser events, the user-agent page setup and `stop_context`. These are process and task lifecycle around a browser engine whose behaviour lies in the chromiumoxide crate.
- `main.rs`: a demonstration that opens two pages and prints. It is all input and output.
- Asynchronous execution, `create_page`, `goto`, `wait_for_navigation_response`, `find_element`, `inner_html`, and `reqwest`'s send and `text()`. These are foreign calls. Their outcomes are the `browse` and `fetch` parameters.
- IndeedScraper.CountFromPage: the model lets `inner_html` report `Some("")` for an empty span, which then gives "No job count text found". The chromiumoxide crate may report an empty property as `None` instead, which gives `Ok(None)`. That crate is not part of this model.
- IndeedScraper.GetJobCount: the order of failures among the browser calls is not modelled. One `browse` result stands for all of them. A failure of the `inner_html` call itself counts as a `browse` error, even though in the code it comes after the element lookups.
- `serde_json::from_str`: the model starts from an already-parsed JSON value. Parse failures are `fetch` errors.
- `JoraScraper` and `TradeMeScraper`: their bodies are `todo!()` panics, with no behaviour to state.
- SeekScraper.CountFromBody: the sum is an unbounded natural number. The code's `.sum::<u64>()` panics or wraps on overflow, depending on the build mode, and that is not modelled.
- SeekScraper.GetJobCount: the same unbounded sum. The final `total as usize` is taken as the identity on a 64-bit target.
- Scrapers.GetJobCount: the same unbounded Seek sum. No `usize` bound is stated for Seek counts.
- TextTokens.FirstToken: non-ASCII Unicode whitespace, which `split_whitespace` also splits on, is treated as an ordinary character.
- TextTokens.Trim: non-ASCII Unicode whitespace, which `trim` also removes, is kept.
- UsizeParse.ParseUsize: only 64-bit targets are modelled. On a 32-bit target the overflow bound would be 2^32 - 1.
- The text of the errors raised by the browser and the HTTP client is not modelled. They appear as `Upstream` with an uninterpreted detail string.
