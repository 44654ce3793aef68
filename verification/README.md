# patent_downloader, modelled in Dafny

This project models the decision logic of `patent_downloader`, a small Python
library that fetches patent PDFs and metadata from Google Patents. The model
covers:

- how a patent number is validated;
- how the PDF link is picked out of a patent page (three anchor scans, a
  guessed URL, normalisation to an absolute URL);
- how `download_patent`, `download_patent_data` and `get_patent_info` turn
  the outcomes of their HTTP and filesystem calls into a return value or one
  of the library's exceptions;
- how `download_patents` folds single downloads into a result map;
- how the bibliographic fields are extracted from a parsed page;
- the `ProgressLogger` state machine: bar arithmetic, progress lines, log-level
  routing and the process-wide singleton.

Everything outside the program is an oracle. The HTTP session, the
filesystem and BeautifulSoup are replaced by an `Env` value that says how
each external call turns out:

- whether `mkdir` succeeds;
- how the page fetch ends: fetched, a `requests` error, or some other error;
- how the PDF fetch ends, with the same three cases;
- whether the file write succeeds.

A parsed page is given twice. It is a sequence of anchors `(href, text)` in
document order, as `find_all("a", href=True)` returns them. It is also the
flat pre-order list of its elements `(tag, itemprop, text)`, which the
`find` and `find_all` queries search. Each operation returns a `Run`, which
holds:

- the Python outcome: a returned value or a raised exception;
- the GET requests issued, in order;
- the files written, in order.

Modules, one file each:

| file | module | contents |
|---|---|---|
| values.dfy | Values | `Option`, `byte` |
| strings.dfy | Strings | Python `in`, `startswith`, `endswith`, `lower`, `strip`, `c * n`, `str(n)` on `seq<char>` |
| search.dfy | Search | first-match search with its reference specification |
| validation.dfy | Validation | `_validate_patent_number` |
| link_resolver.dfy | LinkResolver | `_find_pdf_link` |
| info_extractor.dfy | InfoExtractor | `_parse_patent_info` and the `_extract_*` helpers |
| downloader.dfy | Downloader | the download, info and batch operations and their exception mapping |
| progress_logger.dfy | ProgressLogger | `ProgressLogger`, `ProgressLogHandler.emit`, `get_progress_logger` |

## Model

| member | source | states |
|---|---|---|
| Strings.Lower | src/patent_downloader/downloader.py:206-207 | `str.lower()` on ASCII letters: same length, no upper-case ASCII letter left, and a code point changes exactly when it is an upper-case ASCII letter |
| Strings.Strip | src/patent_downloader/downloader.py:158 | `str.strip()`: the result is the input with exactly its leading and trailing `isspace` code points cut, and it is empty exactly when the input is all whitespace |
| Strings.StripUnique | src/patent_downloader/downloader.py:158 | any cut of exactly the edge whitespace gives the strip, so the strip is uniquely determined |
| Strings.StripIdempotent | src/patent_downloader/downloader.py:324 | stripping a stripped text changes nothing, so inventor names come out already stripped |
| Strings.ContainsIgnoresStrip | src/patent_downloader/downloader.py:215-216 | a whitespace-free pattern occurs in the lower-cased stripped text exactly when it occurs in the lower-cased text |
| Strings.MissingCharExcludes | src/patent_downloader/downloader.py:208 | a text lacking one of a pattern's characters does not contain the pattern |
| Strings.Repeat | src/patent_downloader/progress_logger.py:65 | Python's `c * n`: exactly `n` copies of `c`, and the empty string when `n <= 0` |
| Strings.IntToString | src/patent_downloader/progress_logger.py:72-74 | `str(n)`: a minus sign exactly when `n` is negative, every other code point a decimal digit, and no leading zero |
| Strings.IntToStringValue | src/patent_downloader/progress_logger.py:72-74 | reading `str(n)` back gives `n`: the digits after the sign denote the magnitude |
| Strings.NatToStringValue | src/patent_downloader/progress_logger.py:72-74 | the decimal digits of a natural number denote that number |
| Search.Find | src/patent_downloader/downloader.py:205-210 | a scan with `break` on the first hit: nothing exactly when no element qualifies, otherwise the earliest qualifying element |
| Search.FirstExists | src/patent_downloader/downloader.py:205-210 | when some element qualifies, an earliest qualifying position exists |
| Validation.ValidatePatentNumber | src/patent_downloader/downloader.py:152-159 | accepted exactly when the value is a string whose stripped length is at least 3; "must be a non-empty string" exactly for falsy or non-string values; "too short" exactly for other strings whose stripped length is below 3 |
| Validation.TrimmedNumberVerdict | src/patent_downloader/downloader.py:152-159 | a number without edge whitespace is accepted exactly when it has at least three characters, and otherwise is too short |
| Validation.AcceptedTestNumbers | tests/test_downloader.py:30-35 | the three numbers of the validity test are accepted |
| Validation.RejectedTestValues | tests/test_downloader.py:37-49 | `""`, `"AB"`, `None` and `123` are rejected, each with its message |
| Validation.PaddedNumberAccepted | src/patent_downloader/downloader.py:158 | `" ABC "` is accepted: padding is ignored when counting but not removed |
| Validation.PaddedShortNumberRejected | src/patent_downloader/downloader.py:158 | `"  AB  "` is too short: padding does not count towards the length |
| LinkResolver.NormalizeUrl | src/patent_downloader/downloader.py:236-240 | a link beginning with "/" becomes exactly the origin followed by the link; any other link not beginning with "http" becomes exactly the origin, "/" and the link; a link beginning with "http" is kept; so the result always starts with "http" and ends with the link |
| LinkResolver.RootRelativeLink | src/patent_downloader/downloader.py:237-238 | a link beginning with "/" becomes the origin followed by the link |
| LinkResolver.NormalizeIdempotent | src/patent_downloader/downloader.py:236-240 | normalising a normalised URL changes nothing |
| LinkResolver.FindPdfLink | src/patent_downloader/downloader.py:197-242 | whatever the page, the result is a non-empty string starting with "http" |
| LinkResolver.QueryGuessUnreachable | src/patent_downloader/downloader.py:228-233 | the first guess always leaves a truthy link, so the second guess never runs |
| LinkResolver.Matches | src/patent_downloader/downloader.py:204-226 | the three scan tests; the text scan accepts exactly the anchors whose lower-cased text contains "download" (its equality test and its strip change nothing), and the first and third scans accept only anchors with a non-empty href |
| LinkResolver.CascadePdfHref | src/patent_downloader/downloader.py:204-210 | when some anchor has "download" in its lower-cased href or text and "pdf" in its lower-cased href, the earliest such anchor's href, normalised, is the result |
| LinkResolver.CascadeDownloadText | src/patent_downloader/downloader.py:212-218 | when the first scan finds nothing and the earliest text match has a non-empty href, that href, normalised, is the result |
| LinkResolver.TextScanLeavesFalsy | src/patent_downloader/downloader.py:212-218 | when the text scan finds nothing, or stops at an anchor whose href is empty, the link stays falsy |
| LinkResolver.NothingPicked | src/patent_downloader/downloader.py:204-226 | with no first-scan match, no usable text match and no href-pattern match, the three scans leave the link falsy |
| LinkResolver.CascadeDownloadHref | src/patent_downloader/downloader.py:220-226 | when the first two scans leave the link falsy, the earliest anchor whose href contains "/download" or "download=true" wins |
| LinkResolver.CascadeGuess | src/patent_downloader/downloader.py:228-230 | when no scan yields a usable href, the result is `https://patents.google.com/patent/{id}/en/download` |
| LinkResolver.GuessIsAbsolute | src/patent_downloader/downloader.py:230 | the guessed URL already starts with "http", so normalising keeps it |
| LinkResolver.GuessMentionsDownload | tests/test_downloader.py:162-166 | the guessed URL contains "download" |
| LinkResolver.LoneTextAnchor | src/patent_downloader/downloader.py:212-218 | a lone anchor that only the text scan accepts, with a non-empty href, decides the link |
| LinkResolver.LonePdfHrefAnchor | src/patent_downloader/downloader.py:204-210 | a lone anchor whose lower-cased href contains "download" and "pdf" decides the link |
| LinkResolver.EmptyTextMatchShadowsLaterOnes | src/patent_downloader/downloader.py:213-230 | on a page of two anchors, a first text match with an empty href hides the later text match, and with no href-pattern match the guess is returned (`TextScanYieldsNothing` with `CascadeDownloadHref` and `CascadeGuess` give the general case) |
| LinkResolver.PdfHrefLiteral | tests/test_downloader.py:148 | the href "/download.pdf" passes both of the first scan's tests |
| LinkResolver.PdfHrefExample | tests/test_downloader.py:147-150 | the "strategy 1" page yields `https://patents.google.com/download.pdf` |
| LinkResolver.NoPdfInLiterals | tests/test_downloader.py:153-158 | the hrefs "/some-link" and "/patent/download" do not contain "pdf" |
| LinkResolver.DownloadInLiterals | tests/test_downloader.py:153-158 | the texts "Download PDF" and "Download" contain "download" once lower-cased |
| LinkResolver.TextExample | tests/test_downloader.py:152-155 | the "strategy 2" page yields `https://patents.google.com/some-link` |
| LinkResolver.HrefPatternPageDecidedByText | tests/test_downloader.py:157-160 | the page labelled "strategy 3" is already decided by the text scan, and yields `https://patents.google.com/patent/download` |
| LinkResolver.NoAnchorsExample | tests/test_downloader.py:162-166 | a page without anchors yields the guessed URL, which contains "download" |
| LinkResolver.EmptyHrefExample | src/patent_downloader/downloader.py:213-230 | `[("", "Download"), ("/b", "download it")]` yields the guess, not "/b" |
| InfoExtractor.FirstTextOr | src/patent_downloader/downloader.py:330-352 | the stripped text of the first element with the given tag and itemprop, or the sentinel when there is none; a blank match yields "", not the sentinel. `ExtractAssignee`, `ExtractPublicationDate` and `ExtractAbstract` are its three uses, with the assignee, date and abstract selectors and sentinels |
| InfoExtractor.ExtractTitle | src/patent_downloader/downloader.py:305-316 | the first `span[itemprop=title]`, else the first `h1`, else "Unknown Title" |
| InfoExtractor.ExtractInventors | src/patent_downloader/downloader.py:318-328 | at most one name per element; which names, in which order and in what form are stated by the four inventor lemmas that follow |
| InfoExtractor.InventorsAreNamedInventors | src/patent_downloader/downloader.py:318-328 | a name is among the inventors exactly when some inventor span has it as its stripped, non-empty text |
| InfoExtractor.InventorNameSplit | src/patent_downloader/downloader.py:318-328 | a page names an inventor exactly when its first element or the rest of it does |
| InfoExtractor.InventorsAreStripped | src/patent_downloader/downloader.py:324-326 | every inventor name is non-empty and already stripped |
| InfoExtractor.InventorsOfConcat | src/patent_downloader/downloader.py:323-326 | document order is kept: the inventors of a concatenation are those of the first part, then those of the second |
| InfoExtractor.InventorsSkip | src/patent_downloader/downloader.py:321 | an element that is not an inventor span adds no name |
| InfoExtractor.InventorsTake | src/patent_downloader/downloader.py:323-326 | an inventor span whose text has no edge whitespace adds that text |
| InfoExtractor.ParsePatentInfo | src/patent_downloader/downloader.py:284-303 | the record carries the given number and page URL, and no PDF URL |
| InfoExtractor.TaggedPageTitle | tests/test_downloader.py:123-139 | the info test's page yields the title "Test Patent Title" |
| InfoExtractor.TaggedPageAssignee | tests/test_downloader.py:123-141 | the info test's page yields the assignee "Test Company" |
| InfoExtractor.TaggedPageDate | tests/test_downloader.py:123-142 | the info test's page yields the date "2023-01-01" |
| InfoExtractor.TaggedPageAbstract | tests/test_downloader.py:123-143 | the info test's page yields the abstract "Test abstract" |
| InfoExtractor.TaggedPageInventors | tests/test_downloader.py:123-140 | the info test's page yields exactly the inventor "John Doe" |
| InfoExtractor.TaggedPageExample | tests/test_downloader.py:115-143 | the info test's page yields the whole expected record |
| InfoExtractor.SentinelsForAbsentElements | src/patent_downloader/downloader.py:305-352 | an empty page yields every sentinel and no inventors; a blank assignee yields ""; a blank inventor is dropped |
| Downloader.RewrapDownloadError | src/patent_downloader/downloader.py:93-100 | a `requests` error becomes `NetworkError`; a project error passes through unchanged; any other error becomes `DownloadFailedError`; the result is always a project error |
| Downloader.RetrievePdfLink | src/patent_downloader/downloader.py:161-195 | one GET of the page without a referer; a fetched page gives the resolved link; a `requests` error raises `NetworkError`; any other failure raises `DownloadFailedError`; `PatentNotFoundError` never comes out |
| Downloader.DownloadPdfData | src/patent_downloader/downloader.py:244-266 | one GET of the link with the page as referer; a fetched response's bytes are returned unchanged, whatever the content type; every failure raises `DownloadFailedError`; nothing is written |
| Downloader.DownloadPdf | src/patent_downloader/downloader.py:268-282 | never raises; returns true exactly when the PDF was fetched and the write succeeded, and only then writes the fetched bytes to `{id}.pdf` in the output directory |
| Downloader.AttemptCases | src/patent_downloader/downloader.py:77-91 | the body of the `try` raises the validator's error before any request, raises from `mkdir` before any request, passes on the page fetch's `NetworkError` or `DownloadFailedError` after the one page request, or returns whatever `_download_pdf` returns after the page request and its own |
| Downloader.DownloadPatent | src/patent_downloader/downloader.py:60-100 | `InvalidPatentNumberError` exactly for an invalid number, with no request made; a failed `mkdir` raises `DownloadFailedError`; the first request is the page URL built from the number as given; a page-fetch `requests` error raises `NetworkError`, any other page failure `DownloadFailedError`; once the page is fetched, a value is returned and the requests are the page then the link; `PatentNotFoundError` is never raised; true exactly when every step succeeded, and a file is written only then |
| Downloader.DownloadPatentData | src/patent_downloader/downloader.py:47-58 | every failure, an invalid number included, raises `DownloadFailedError`; a value is returned exactly for a valid number with both fetches successful, and it is the PDF's bytes; nothing is written |
| Downloader.RewrapInfoError | src/patent_downloader/downloader.py:147-150 | a `requests` error becomes `NetworkError` and nothing else does; every other error becomes `PatentNotFoundError` |
| Downloader.GetPatentInfo | src/patent_downloader/downloader.py:125-150 | only `NetworkError` or `PatentNotFoundError` is raised; `NetworkError` exactly for a valid number whose fetch hit a `requests` error; a record is returned exactly for a valid number with a fetched page, and it is the parse of that page for the given number and URL; nothing is written |
| Downloader.LastAmongStep | src/patent_downloader/downloader.py:115-121 | an id whose last occurrence before position n+1 lies before n is not the id at n, and was already last before n |
| Downloader.DownloadEach | src/patent_downloader/downloader.py:113-123 | for any single-download function: the keys are exactly the distinct ids; each id's value is what its last call returned, false when that call raised; the requests and writes are those of the calls in order |
| Downloader.StubbedBatchExample | tests/test_downloader.py:102-113 | with the single download stubbed to return True, False, True for three distinct numbers, the map holds exactly those three values |
| Downloader.DuplicateIdExample | src/patent_downloader/downloader.py:115-121 | a number given twice keeps the value of its last download, even when the earlier one succeeded |
| Downloader.DownloadPatents | src/patent_downloader/downloader.py:102-123 | one `download_patent` per id, in order; one key per distinct id, valued by its last call's return value or false when it raised; no exception escapes |
| ProgressLogger.FloorDivBound | src/patent_downloader/progress_logger.py:64 | for a positive divisor, the floored quotient is at least m exactly when m divisors fit into the dividend |
| ProgressLogger.BarCells | src/patent_downloader/progress_logger.py:64-65 | cell k is filled exactly when `(k+1)*total <= 40*current`; the filled count lies in 0..40 within range, is at least 40 from `current == total` on, and is negative for a negative current |
| ProgressLogger.Bar | src/patent_downloader/progress_logger.py:61-65 | every cell is filled or empty, and cell k is filled exactly when the progress covers it; within `0 <= current <= total` the bar has exactly 40 cells; from `current >= total` on it has no empty part; a negative current gives more than 40 cells |
| ProgressLogger.PatentSuffix | src/patent_downloader/progress_logger.py:69-70 | nothing without a patent number, whatever the flag; otherwise `" [id] "` then the tick or the cross |
| ProgressLogger.ProgressLine | src/patent_downloader/progress_logger.py:59-74 | with a positive total, the line starts with a carriage return, the icon and the bar, and ends with the suffix; otherwise it is exactly `"\rProgress: {current} processed"` |
| ProgressLogger.Redraw | src/patent_downloader/progress_logger.py:59-76 | the new line is stored as the current line, the active flag is kept, and the line is printed once to standard output |
| ProgressLogger.ClearLine | src/patent_downloader/progress_logger.py:78-80 | one write to standard output: a carriage return, as many spaces as the current line has code points, and a carriage return |
| ProgressLogger.StartProgress | src/patent_downloader/progress_logger.py:19-23 | the bar becomes active, the line is drawn without a patent number, and it is printed |
| ProgressLogger.UpdateProgress | src/patent_downloader/progress_logger.py:25-29 | while inactive nothing changes and nothing is printed; while active the new line is stored and printed |
| ProgressLogger.FinishProgress | src/patent_downloader/progress_logger.py:31-36 | the bar ends inactive with its last line kept; something is printed exactly when it was active, and that is the blanking of the line |
| ProgressLogger.LevelPrefix | src/patent_downloader/progress_logger.py:46-53 | a cross and one space exactly for "error", the warning sign and two spaces exactly for "warning", a tick and one space exactly for "success", the information sign and two spaces exactly for every other level |
| ProgressLogger.MessageWrite | src/patent_downloader/progress_logger.py:45-53 | the message goes to standard error exactly for "error" and "warning"; the printed text is the level's prefix, then the message, then a newline |
| ProgressLogger.LogMessage | src/patent_downloader/progress_logger.py:38-57 | the logger's fields are unchanged; an inactive bar gets just the message; an active one is blanked, then the message is printed, then the same line is redrawn |
| ProgressLogger.OtherLevelsPrintAsInfo | src/patent_downloader/progress_logger.py:52-53 | any level other than error, warning and success, "debug" included, prints as info |
| ProgressLogger.LevelName | src/patent_downloader/progress_logger.py:98-105 | "error" exactly from ERROR up, "warning" exactly in WARNING..ERROR, "info" exactly in INFO..WARNING, "debug" exactly below INFO |
| ProgressLogger.Emit | src/patent_downloader/progress_logger.py:94-107 | the logger is unchanged, the record's message is printed, and it goes to standard error exactly from WARNING up |
| ProgressLogger.GetProgressLogger | src/patent_downloader/progress_logger.py:114-119 | the global always ends up set to the handle returned; a new logger is allocated only when the global was unset, and an existing one is returned untouched |
| ProgressLogger.GetProgressLoggerIsStable | src/patent_downloader/progress_logger.py:114-119 | a second call returns the same logger and allocates nothing |

## Left out

- HTTP: headers, user agent, timeouts, status codes and the `requests` session are replaced by the fetch oracle. `raise_for_status` failures count as `requests` errors.
- HTML parsing: BeautifulSoup and `get_text` are replaced by given anchor and element sequences. Nested text and entity decoding are not modelled.
- `lower()` maps only ASCII letters. The only non-ASCII code points whose lower case contains an ASCII letter (U+0130, U+212A) give "i" and "k", which none of the searched patterns contain.
- `Path(output_dir) / name` is kept as an uninterpreted pair.
- The filesystem is reduced to one success flag for `mkdir` and one for the write. A partially written file is not modelled.
- Logging calls are not modelled: the `logger.info`, `logger.warning` and `logger.error` calls of the downloader have no effect on results. This includes the non-PDF content-type warning in `_download_pdf_data`, which never changes the returned bytes.
- Exception messages and `raise ... from e` chaining are not modelled.
- `exceptions.py` is not part of this model. The four project exceptions are taken to be subclasses of `PatentDownloadError`, as the `except PatentDownloadError` clauses imply.
- `PatentInfo` (`models.py` is not part of this model) is taken as a plain record.
- `ProgressLogger.ProgressLine`: the percentage is a floating-point computation, `int((current / total) * 100)`. It is taken as a parameter rather than computed.
- The progress logger's lock, and its saved `stdout`/`stderr` handles, are not modelled. Printing is a trace of writes to the two streams.
- `ProgressLogger.Emit`: `self.format(record)` is taken as given, and the `handleError` fallback is not modelled.
- `setup_progress_logging` only reconfigures the root logger, so it is not modelled.
- `PatentDownloader.__init__`, `__enter__` and `__exit__` only manage the HTTP session, so they are not modelled.
- `cli.py`, `mcp_server.py` and the example scripts are not modelled: they are argument parsing, printing and async wiring around the modelled operations.
- `Downloader.DownloadPatents` takes one oracle per id, aligned with the ids. The HTTP session's state is not carried from one download to the next.
- `Downloader.DownloadPatents` returns a `map`, which has no order. The Python dict keeps the ids in the order each was first inserted, and a repeated id keeps its first position; callers that list successes and failures show them in that order. The model does not state this order.
- Batch progress reporting is not modelled: `download_patents` reports no progress and takes no callback.
