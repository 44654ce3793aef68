/**
 The download and info operations of `PatentDownloader`, with the HTTP
 session, the filesystem and the HTML parser replaced by an oracle (`Env`)
 that says how each of their calls turns out. Each operation returns a `Run`:
 its Python outcome (a return value or a raised exception), the GET requests
 it issued and the files it wrote, in order.
 */
module Downloader {
  import opened Values
  import opened Validation
  import opened LinkResolver
  import opened InfoExtractor

  /**
   The exceptions that reach the modelled handlers. `RequestException` is any
   error of the `requests` library, HTTP error statuses included;
   `OtherException` is any other non-project error (an `OSError` from
   `mkdir` or `open`, a parser failure). The last four are the project's own
   classes, all taken to be subclasses of `PatentDownloadError`.
   */
  datatype Exc =
    | RequestException
    | OtherException
    | InvalidPatentNumberError
    | PatentNotFoundError
    | DownloadFailedError
    | NetworkError

  predicate IsPatentDownloadError(e: Exc) {
    !e.RequestException? && !e.OtherException?
  }

  /** How a Python call ends: it returns a value or raises. */
  datatype Outcome<+T> = Returned(value: T) | Raised(exc: Exc)

  datatype Request = Get(url: string, referer: Option<string>)

  /** `Path(output_dir) / name`; the join itself is left uninterpreted. */
  datatype FilePath = FilePath(dir: string, name: string)

  datatype FileWrite = FileWrite(path: FilePath, data: seq<byte>)

  datatype Run<+T> = Run(outcome: Outcome<T>, requests: seq<Request>, writes: seq<FileWrite>)

  /** How one GET (with `raise_for_status` and parsing) turns out. */
  datatype Fetch<+T> = Fetched(body: T) | TransportError | UnexpectedError

  /** A parsed patent page: its anchors and its elements. */
  datatype Page = Page(anchors: seq<Anchor>, elements: seq<Element>)

  datatype PdfResponse = PdfResponse(contentType: string, content: seq<byte>)

  /** The oracle for one operation: how each external call it makes turns out. */
  datatype Env = Env(mkdirOk: bool, page: Fetch<Page>, pdf: Fetch<PdfResponse>, writeOk: bool)

  function FetchFailure<T>(f: Fetch<T>): Exc
    requires !f.Fetched?
  {
    if f.TransportError? then RequestException else OtherException
  }

  function PageUrl(id: string): string {
    Origin + "/patent/" + id + "/en"
  }

  function OutputFile(dir: string, id: string): FilePath {
    FilePath(dir, id + ".pdf")
  }

  /** Applies an `except` chain to a raised exception. */
  function Catch<T>(r: Run<T>, handler: Exc -> Exc): Run<T> {
    match r.outcome
    case Raised(e) => r.(outcome := Raised(handler(e)))
    case Returned(_) => r
  }

  /**
   The `except` chain of `download_patent` and `_retrieve_pdf_link`:
   request errors become `NetworkError`, project errors pass through, and
   anything else becomes `DownloadFailedError`.
   */
  function RewrapDownloadError(e: Exc): (r: Exc)
    ensures IsPatentDownloadError(r)
    ensures IsPatentDownloadError(e) ==> r == e
    ensures e == RequestException ==> r == NetworkError
    ensures e == OtherException ==> r == DownloadFailedError
  {
    if e == RequestException then NetworkError
    else if IsPatentDownloadError(e) then e
    else DownloadFailedError
  }

  /** `_retrieve_pdf_link`: fetch the page and resolve its PDF link. */
  function RetrievePdfLink(id: string, pageUrl: string, env: Env): (r: Run<string>)
    ensures r.requests == [Get(pageUrl, None)] && r.writes == []
    ensures env.page.Fetched? ==> r.outcome == Returned(FindPdfLink(env.page.body.anchors, id).value)
    ensures env.page.TransportError? ==> r.outcome == Raised(NetworkError)
    ensures env.page.UnexpectedError? ==> r.outcome == Raised(DownloadFailedError)
  {
    var attempt :=
      match env.page
      case Fetched(page) =>
        var link := FindPdfLink(page.anchors, id);
        if !Truthy(link) then Raised(PatentNotFoundError) else Returned(link.value)
      case _ => Raised(FetchFailure(env.page));
    Catch(Run(attempt, [Get(pageUrl, None)], []), RewrapDownloadError)
  }

  /** `_download_pdf_data`: fetch the PDF with the page as referer; every failure becomes `DownloadFailedError`. */
  function DownloadPdfData(link: string, referer: string, env: Env): (r: Run<seq<byte>>)
    ensures r.requests == [Get(link, Some(referer))] && r.writes == []
    ensures env.pdf.Fetched? ==> r.outcome == Returned(env.pdf.body.content)
    ensures !env.pdf.Fetched? ==> r.outcome == Raised(DownloadFailedError)
  {
    var attempt :=
      match env.pdf
      case Fetched(resp) => Returned(resp.content)
      case _ => Raised(FetchFailure(env.pdf));
    Catch(Run(attempt, [Get(link, Some(referer))], []), _ => DownloadFailedError)
  }

  /** `_download_pdf`: fetch, then write `{id}.pdf`; every failure returns `False`. */
  function DownloadPdf(link: string, id: string, dir: string, referer: string, env: Env): (r: Run<bool>)
    ensures r.outcome.Returned?
    ensures r.requests == [Get(link, Some(referer))]
    ensures r.outcome.value <==> env.pdf.Fetched? && env.writeOk
    ensures r.outcome.value ==> r.writes == [FileWrite(OutputFile(dir, id), env.pdf.body.content)]
    ensures !r.outcome.value ==> r.writes == []
  {
    var data := DownloadPdfData(link, referer, env);
    match data.outcome
    case Raised(_) => Run(Returned(false), data.requests, [])
    case Returned(bytes) =>
      if env.writeOk then Run(Returned(true), data.requests, [FileWrite(OutputFile(dir, id), bytes)])
      else Run(Returned(false), data.requests, [])
  }

  /** The body of `download_patent`'s `try`, before its `except` chain. */
  function DownloadPatentAttempt(v: PyValue, dir: string, env: Env): Run<bool> {
    match ValidatePatentNumber(v)
    case Rejected(_) => Run(Raised(InvalidPatentNumberError), [], [])
    case Accepted =>
      var id := v.s;
      var pageUrl := PageUrl(id);
      if !env.mkdirOk then Run(Raised(OtherException), [], [])
      else
        var link := RetrievePdfLink(id, pageUrl, env);
        match link.outcome
        case Raised(e) => Run(Raised(e), link.requests, [])
        case Returned(url) =>
          if url == "" then Run(Raised(PatentNotFoundError), link.requests, [])
          else
            var pdf := DownloadPdf(url, id, dir, pageUrl, env);
            Run(pdf.outcome, link.requests + pdf.requests, pdf.writes)
  }

  /**
   `download_patent`. An invalid number raises `InvalidPatentNumberError`
   before any I/O; a failed `mkdir` raises `DownloadFailedError`; a failed
   page fetch raises `NetworkError`; once the page is in, nothing is raised:
   `True` exactly when the PDF was fetched and written to `{id}.pdf`, `False`
   otherwise. `PatentNotFoundError` is never raised. The page URL embeds the
   number as given, untrimmed.
   */
  function DownloadPatent(v: PyValue, dir: string, env: Env): (r: Run<bool>)
    ensures r.outcome == Raised(InvalidPatentNumberError) <==> !IsValidPatentNumber(v)
    ensures !IsValidPatentNumber(v) ==> r.requests == []
    ensures IsValidPatentNumber(v) && !env.mkdirOk ==> r.outcome == Raised(DownloadFailedError) && r.requests == []
    ensures IsValidPatentNumber(v) && env.mkdirOk ==> |r.requests| > 0 && r.requests[0] == Get(PageUrl(v.s), None)
    ensures IsValidPatentNumber(v) && env.mkdirOk && env.page.TransportError? ==> r.outcome == Raised(NetworkError)
    ensures IsValidPatentNumber(v) && env.mkdirOk && env.page.UnexpectedError? ==> r.outcome == Raised(DownloadFailedError)
    ensures IsValidPatentNumber(v) && env.mkdirOk && env.page.Fetched? ==>
              && r.outcome.Returned?
              && r.requests == [Get(PageUrl(v.s), None),
                                Get(FindPdfLink(env.page.body.anchors, v.s).value, Some(PageUrl(v.s)))]
    ensures r.outcome != Raised(PatentNotFoundError)
    ensures r.outcome == Returned(true) <==>
              IsValidPatentNumber(v) && env.mkdirOk && env.page.Fetched? && env.pdf.Fetched? && env.writeOk
    ensures r.outcome == Returned(true) ==> r.writes == [FileWrite(OutputFile(dir, v.s), env.pdf.body.content)]
    ensures r.outcome != Returned(true) ==> r.writes == []
  {
    AttemptCases(v, dir, env);
    Catch(DownloadPatentAttempt(v, dir, env), RewrapDownloadError)
  }

  /** The four ways the body of `download_patent`'s `try` can go. */
  lemma AttemptCases(v: PyValue, dir: string, env: Env)
    ensures !IsValidPatentNumber(v) ==> DownloadPatentAttempt(v, dir, env) == Run(Raised(InvalidPatentNumberError), [], [])
    ensures IsValidPatentNumber(v) && !env.mkdirOk ==> DownloadPatentAttempt(v, dir, env) == Run(Raised(OtherException), [], [])
    ensures IsValidPatentNumber(v) && env.mkdirOk && env.page.TransportError? ==>
              DownloadPatentAttempt(v, dir, env) == Run(Raised(NetworkError), [Get(PageUrl(v.s), None)], [])
    ensures IsValidPatentNumber(v) && env.mkdirOk && env.page.UnexpectedError? ==>
              DownloadPatentAttempt(v, dir, env) == Run(Raised(DownloadFailedError), [Get(PageUrl(v.s), None)], [])
    ensures IsValidPatentNumber(v) && env.mkdirOk && env.page.Fetched? ==>
              var pdf := DownloadPdf(FindPdfLink(env.page.body.anchors, v.s).value, v.s, dir, PageUrl(v.s), env);
              DownloadPatentAttempt(v, dir, env) == Run(pdf.outcome, [Get(PageUrl(v.s), None)] + pdf.requests, pdf.writes)
  {
  }

  /** The body of `download_patent_data`'s `try`. */
  function DownloadPatentDataAttempt(v: PyValue, env: Env): Run<seq<byte>> {
    match ValidatePatentNumber(v)
    case Rejected(_) => Run(Raised(InvalidPatentNumberError), [], [])
    case Accepted =>
      var id := v.s;
      var pageUrl := PageUrl(id);
      var link := RetrievePdfLink(id, pageUrl, env);
      match link.outcome
      case Raised(e) => Run(Raised(e), link.requests, [])
      case Returned(url) =>
        var data := DownloadPdfData(url, pageUrl, env);
        Run(data.outcome, link.requests + data.requests, [])
  }

  /**
   `download_patent_data`: the PDF's bytes, returned unchanged whatever its
   content type, or `DownloadFailedError` for every failure, an invalid
   number included. Nothing is written.
   */
  function DownloadPatentData(v: PyValue, env: Env): (r: Run<seq<byte>>)
    ensures r.outcome.Raised? ==> r.outcome.exc == DownloadFailedError
    ensures r.outcome.Returned? <==> IsValidPatentNumber(v) && env.page.Fetched? && env.pdf.Fetched?
    ensures r.outcome.Returned? ==> r.outcome.value == env.pdf.body.content
    ensures !IsValidPatentNumber(v) ==> r.requests == []
    ensures r.writes == []
  {
    Catch(DownloadPatentDataAttempt(v, env), _ => DownloadFailedError)
  }

  /** The `except` chain of `get_patent_info`: request errors become `NetworkError`, all else `PatentNotFoundError`. */
  function RewrapInfoError(e: Exc): (r: Exc)
    ensures r == NetworkError <==> e == RequestException
    ensures r != NetworkError ==> r == PatentNotFoundError
  {
    if e == RequestException then NetworkError else PatentNotFoundError
  }

  /** The body of `get_patent_info`'s `try`. */
  function GetPatentInfoAttempt(v: PyValue, env: Env): Run<PatentInfo> {
    match ValidatePatentNumber(v)
    case Rejected(_) => Run(Raised(InvalidPatentNumberError), [], [])
    case Accepted =>
      var pageUrl := PageUrl(v.s);
      var outcome :=
        match env.page
        case Fetched(page) => Returned(ParsePatentInfo(page.elements, v.s, pageUrl))
        case _ => Raised(FetchFailure(env.page));
      Run(outcome, [Get(pageUrl, None)], [])
  }

  /**
   `get_patent_info`: a transport failure raises `NetworkError`; every other
   failure, an invalid number included, raises `PatentNotFoundError`; a
   fetched page always yields a record for the number and page URL.
   */
  function GetPatentInfo(v: PyValue, env: Env): (r: Run<PatentInfo>)
    ensures r.outcome.Raised? ==> r.outcome.exc in {NetworkError, PatentNotFoundError}
    ensures r.outcome == Raised(NetworkError) <==> IsValidPatentNumber(v) && env.page.TransportError?
    ensures r.outcome.Returned? <==> IsValidPatentNumber(v) && env.page.Fetched?
    ensures r.outcome.Returned? ==>
              && r.outcome.value.patentNumber == v.s
              && r.outcome.value.url == PageUrl(v.s)
              && r.outcome.value == ParsePatentInfo(env.page.body.elements, v.s, PageUrl(v.s))
    ensures r.writes == []
  {
    Catch(GetPatentInfoAttempt(v, env), RewrapInfoError)
  }

  /** What the batch records for one call: its return value, or `False` when it raised. */
  function Recorded(r: Run<bool>): bool {
    r.outcome.Returned? && r.outcome.value
  }

  /** `i` is the last position among the first `n` ids holding the id `ids[i]`. */
  ghost predicate LastAmong(ids: seq<string>, n: int, i: int) {
    0 <= i < n <= |ids| && forall j :: i < j < n ==> ids[j] != ids[i]
  }

  /** An id last seen before position `n` is not the id at `n`, and was already last before it. */
  lemma LastAmongStep(ids: seq<string>, n: int, i: int)
    requires LastAmong(ids, n + 1, i) && i < n
    ensures LastAmong(ids, n, i) && ids[i] != ids[n]
  {
  }

  /** The requests of the single downloads, one after the other. */
  function BatchRequests(ids: seq<string>, envs: seq<Env>, download: (string, Env) -> Run<bool>): seq<Request>
    requires |envs| == |ids|
  {
    if |ids| == 0 then []
    else
      var last := |ids| - 1;
      BatchRequests(ids[..last], envs[..last], download) + download(ids[last], envs[last]).requests
  }

  /** The files the single downloads write, one after the other. */
  function BatchWrites(ids: seq<string>, envs: seq<Env>, download: (string, Env) -> Run<bool>): seq<FileWrite>
    requires |envs| == |ids|
  {
    if |ids| == 0 then []
    else
      var last := |ids| - 1;
      BatchWrites(ids[..last], envs[..last], download) + download(ids[last], envs[last]).writes
  }

  /**
   The loop of `download_patents`, for any single-download function (the
   repository's tests substitute a stub for `download_patent` in the same way).
   */
  method DownloadEach(ids: seq<string>, envs: seq<Env>, download: (string, Env) -> Run<bool>)
    returns (results: map<string, bool>, requests: seq<Request>, writes: seq<FileWrite>)
    requires |envs| == |ids|
    ensures results.Keys == set i | 0 <= i < |ids| :: ids[i]
    ensures forall i :: LastAmong(ids, |ids|, i) ==> results[ids[i]] == Recorded(download(ids[i], envs[i]))
    ensures requests == BatchRequests(ids, envs, download)
    ensures writes == BatchWrites(ids, envs, download)
  {
    results, requests, writes := map[], [], [];
    var n := 0;
    while n < |ids|
      invariant 0 <= n <= |ids|
      invariant results.Keys == set i | 0 <= i < n :: ids[i]
      invariant forall i :: LastAmong(ids, n, i) ==> results[ids[i]] == Recorded(download(ids[i], envs[i]))
      invariant requests == BatchRequests(ids[..n], envs[..n], download)
      invariant writes == BatchWrites(ids[..n], envs[..n], download)
    {
      var run := download(ids[n], envs[n]);
      match run.outcome {
        case Returned(success) => results := results[ids[n] := success];
        case Raised(_) => results := results[ids[n] := false];
      }
      assert (set i | 0 <= i < n + 1 :: ids[i]) == (set i | 0 <= i < n :: ids[i]) + {ids[n]};
      forall i | LastAmong(ids, n + 1, i)
        ensures results[ids[i]] == Recorded(download(ids[i], envs[i]))
      {
        if i < n {
          LastAmongStep(ids, n, i);
        }
      }
      requests := requests + run.requests;
      writes := writes + run.writes;
      assert ids[..n + 1][..n] == ids[..n] && envs[..n + 1][..n] == envs[..n];
      n := n + 1;
    }
    assert ids[..n] == ids && envs[..n] == envs;
  }

  /**
   `download_patents`: one `download_patent` per id, in order, the i-th under
   oracle `envs[i]`. The map has one key per distinct id; its value is what
   the id's last call returned, `False` where that call raised. Nothing
   raised by a single download escapes, and every id is attempted whatever
   happened to the ones before it.
   */
  method DownloadPatents(ids: seq<string>, dir: string, envs: seq<Env>)
    returns (results: map<string, bool>, requests: seq<Request>, writes: seq<FileWrite>)
    requires |envs| == |ids|
    ensures results.Keys == set i | 0 <= i < |ids| :: ids[i]
    ensures forall i :: LastAmong(ids, |ids|, i) ==>
              results[ids[i]] == Recorded(DownloadPatent(PyStr(ids[i]), dir, envs[i]))
    ensures requests == BatchRequests(ids, envs, (id, env) => DownloadPatent(PyStr(id), dir, env))
    ensures writes == BatchWrites(ids, envs, (id, env) => DownloadPatent(PyStr(id), dir, env))
  {
    results, requests, writes := DownloadEach(ids, envs, (id, env) => DownloadPatent(PyStr(id), dir, env));
  }

  /**
   The repository's batch test: with `download_patent` stubbed to return
   True, False and True for three distinct numbers, the map records exactly
   those three values.
   */
  method StubbedBatchExample() returns (results: map<string, bool>)
    ensures results == map["WO2013078254A1" := true, "US20130123448A1" := false, "EP1234567A1" := true]
  {
    var ids := ["WO2013078254A1", "US20130123448A1", "EP1234567A1"];
    var env := Env(true, TransportError, TransportError, true);
    var stub := (id: string, e: Env) => Run(Returned(id != "US20130123448A1"), [], []);
    var requests, writes;
    results, requests, writes := DownloadEach(ids, [env, env, env], stub);
    assert LastAmong(ids, 3, 0) && LastAmong(ids, 3, 1) && LastAmong(ids, 3, 2);
    assert results.Keys == {ids[0], ids[1], ids[2]};
  }

  /** A number given twice keeps the value of its last download, even when an earlier one succeeded. */
  method DuplicateIdExample() returns (results: map<string, bool>)
    ensures results == map["WO2013078254A1" := false]
  {
    var ids := ["WO2013078254A1", "WO2013078254A1"];
    var ok, failing := Env(true, TransportError, TransportError, true), Env(true, TransportError, TransportError, false);
    var stub := (id: string, e: Env) => Run(Returned(e.writeOk), [], []);
    var requests, writes;
    results, requests, writes := DownloadEach(ids, [ok, failing], stub);
    assert LastAmong(ids, 2, 1);
    assert results.Keys == {ids[0]};
  }
}
