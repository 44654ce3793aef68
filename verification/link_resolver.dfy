/**
 Resolution of the PDF link on a patent page (`PatentDownloader._find_pdf_link`).
 The parsed page is the sequence of its `<a href=...>` elements in document
 order, each reduced to its `href` attribute and its visible text.
 */
module LinkResolver {
  import opened Values
  import opened Strings
  import opened Search

  /** An anchor element that carries an `href` attribute (possibly empty). */
  datatype Anchor = Anchor(href: string, text: string)

  /** The three anchor scans, in the order they are tried. */
  datatype Strategy =
    | PdfHref       // "download" in the href or the text, and "pdf" in the href (both lower-cased)
    | DownloadText  // the stripped, lower-cased text is "download pdf" or contains "download"
    | DownloadHref  // the href, case as written, contains "/download" or "download=true"

  /**
   Whether the scan `s` accepts anchor `a`. The text scan's equality test is
   subsumed by its substring test, and stripping the text first makes no
   difference: that scan accepts exactly the anchors whose lower-cased text
   contains "download". The other two scans only accept anchors with a
   non-empty href.
   */
  predicate Matches(s: Strategy, a: Anchor)
    ensures s == DownloadText ==> (Matches(s, a) <==> Contains(Lower(a.text), "download"))
    ensures s != DownloadText && Matches(s, a) ==> a.href != ""
  {
    ContainsIgnoresStrip(a.text, "download");
    assert Lower(Strip(a.text)) == "download pdf" ==> OccursAt(Lower(Strip(a.text)), "download", 0);
    match s
    case PdfHref =>
      (Contains(Lower(a.href), "download") || Contains(Lower(a.text), "download"))
      && Contains(Lower(a.href), "pdf")
    case DownloadText =>
      var text := Strip(a.text);
      Lower(text) == "download pdf" || Contains(Lower(text), "download")
    case DownloadHref =>
      Contains(a.href, "/download") || Contains(a.href, "download=true")
  }

  function Test(s: Strategy): Anchor -> bool {
    a => Matches(s, a)
  }

  /** Python truthiness of the `pdf_link` variable: neither `None` nor `""`. */
  predicate Truthy(link: Option<string>) {
    link.Some? && link.value != ""
  }

  const Origin := "https://patents.google.com"

  /** The URL the cascade guesses when no anchor is usable (line 230). */
  function DownloadGuessUrl(id: string): string {
    Origin + "/patent/" + id + "/en/download"
  }

  /** The second guess (line 233), which the first guess always pre-empts. */
  function QueryGuessUrl(id: string): string {
    Origin + "/xhr/query?url=patent=" + id + "&download=true"
  }

  /**
   One strategy loop: run only while `pdf_link` is falsy; the first matching
   anchor's href replaces it, and without a match it keeps its old value.
   */
  function TryStrategy(prev: Option<string>, anchors: seq<Anchor>, s: Strategy): Option<string> {
    if Truthy(prev) then prev
    else
      match Find(anchors, Test(s))
      case Some(a) => Some(a.href)
      case None => prev
  }

  /** `pdf_link` after the three anchor scans. */
  function Picked(anchors: seq<Anchor>): Option<string> {
    var afterPdfHref := TryStrategy(None, anchors, PdfHref);
    var afterText := TryStrategy(afterPdfHref, anchors, DownloadText);
    TryStrategy(afterText, anchors, DownloadHref)
  }

  /** `if not pdf_link: pdf_link = url`. */
  function OrElse(prev: Option<string>, url: string): Option<string> {
    if Truthy(prev) then prev else Some(url)
  }

  /**
   Turns a relative link into an absolute one on the patent site: a link
   beginning with "/" gets the origin, any other link not beginning with
   "http" gets the origin and a slash, and the rest is kept.
   */
  function NormalizeUrl(link: string): (r: string)
    ensures StartsWith(r, "http")
    ensures EndsWith(r, link)
    ensures StartsWith(link, "http") ==> r == link
    ensures !StartsWith(link, "http") ==> StartsWith(r, Origin + "/")
    ensures StartsWith(link, "/") ==> r == Origin + link
    ensures !StartsWith(link, "/") && !StartsWith(link, "http") ==> r == Origin + "/" + link
  {
    if StartsWith(link, "/") then
      assert link[0] == '/' by { assert link[..1][0] == link[0]; }
      Origin + link
    else if !StartsWith(link, "http") then Origin + "/" + link
    else link
  }

  /** The normalisation step, which only runs on a truthy link (line 236). */
  function Normalize(link: Option<string>): Option<string> {
    if Truthy(link) then Some(NormalizeUrl(link.value)) else link
  }

  /**
   The whole cascade. Whatever the page holds, the result is a non-empty
   absolute URL, so the callers' "no PDF link" branches never fire.
   */
  function FindPdfLink(anchors: seq<Anchor>, id: string): (r: Option<string>)
    ensures Truthy(r) && StartsWith(r.value, "http")
  {
    var guessed := OrElse(Picked(anchors), DownloadGuessUrl(id));
    var queried := OrElse(guessed, QueryGuessUrl(id));
    Normalize(queried)
  }

  /** The second guess is dead code: the first guess always leaves a truthy link behind. */
  lemma QueryGuessUnreachable(anchors: seq<Anchor>, id: string)
    ensures Truthy(OrElse(Picked(anchors), DownloadGuessUrl(id)))
    ensures FindPdfLink(anchors, id) == Normalize(OrElse(Picked(anchors), DownloadGuessUrl(id)))
  {
  }

  /** Normalising an already normalised URL changes nothing. */
  lemma NormalizeIdempotent(link: string)
    ensures NormalizeUrl(NormalizeUrl(link)) == NormalizeUrl(link)
  {
  }

  /** Anchor `i` is the first that scan `s` accepts. */
  ghost predicate FirstMatchBy(anchors: seq<Anchor>, s: Strategy, i: int) {
    IsFirst(anchors, Test(s), i)
  }

  /** Scan `s` accepts no anchor. */
  ghost predicate NoMatchBy(anchors: seq<Anchor>, s: Strategy) {
    NoneSatisfy(anchors, Test(s))
  }

  /** The first scan wins whenever some anchor satisfies it. */
  lemma CascadePdfHref(anchors: seq<Anchor>, id: string, i: int)
    requires FirstMatchBy(anchors, PdfHref, i)
    ensures FindPdfLink(anchors, id) == Some(NormalizeUrl(anchors[i].href))
  {
    assert Picked(anchors) == Some(anchors[i].href);
  }

  /** Without a first-scan match, the first text match with a non-empty href wins. */
  lemma CascadeDownloadText(anchors: seq<Anchor>, id: string, i: int)
    requires NoMatchBy(anchors, PdfHref)
    requires FirstMatchBy(anchors, DownloadText, i) && anchors[i].href != ""
    ensures FindPdfLink(anchors, id) == Some(NormalizeUrl(anchors[i].href))
  {
    assert TryStrategy(None, anchors, PdfHref) == None;
    assert Picked(anchors) == Some(anchors[i].href);
  }

  /** When the first two scans leave the link falsy, the first href-pattern match wins. */
  lemma CascadeDownloadHref(anchors: seq<Anchor>, id: string, i: int)
    requires NoMatchBy(anchors, PdfHref) && TextScanYieldsNothing(anchors)
    requires FirstMatchBy(anchors, DownloadHref, i)
    ensures FindPdfLink(anchors, id) == Some(NormalizeUrl(anchors[i].href))
  {
    assert TryStrategy(None, anchors, PdfHref) == None;
    TextScanLeavesFalsy(anchors);
    assert Picked(anchors) == Some(anchors[i].href);
  }

  /** With no usable anchor the constructed download URL is returned, already absolute. */
  lemma CascadeGuess(anchors: seq<Anchor>, id: string)
    requires NoMatchBy(anchors, PdfHref) && TextScanYieldsNothing(anchors)
    requires NoMatchBy(anchors, DownloadHref)
    ensures FindPdfLink(anchors, id) == Some(DownloadGuessUrl(id))
  {
    NothingPicked(anchors);
    GuessIsAbsolute(id);
  }

  /** The guessed URL is already absolute, so normalising keeps it. */
  lemma GuessIsAbsolute(id: string)
    ensures NormalizeUrl(DownloadGuessUrl(id)) == DownloadGuessUrl(id)
  {
    var url := DownloadGuessUrl(id);
    assert url[..4] == "http";
  }

  /** No scan leaves a truthy link behind. */
  lemma NothingPicked(anchors: seq<Anchor>)
    requires NoMatchBy(anchors, PdfHref) && TextScanYieldsNothing(anchors)
    requires NoMatchBy(anchors, DownloadHref)
    ensures !Truthy(Picked(anchors))
  {
    assert TryStrategy(None, anchors, PdfHref) == None;
    TextScanLeavesFalsy(anchors);
  }

  /** A text scan that finds nothing or an empty href leaves an unset link falsy. */
  lemma TextScanLeavesFalsy(anchors: seq<Anchor>)
    requires TextScanYieldsNothing(anchors)
    ensures !Truthy(TryStrategy(None, anchors, DownloadText))
  {
    var f := Find(anchors, Test(DownloadText));
    if f.Some? {
      var k := FirstExists(anchors, Test(DownloadText));
      assert FirstMatchBy(anchors, DownloadText, k);
    }
  }

  /** The text scan either matches nothing or stops at an anchor whose href is empty. */
  ghost predicate TextScanYieldsNothing(anchors: seq<Anchor>) {
    forall i :: FirstMatchBy(anchors, DownloadText, i) ==> anchors[i].href == ""
  }

  /** A single anchor that only the text scan accepts decides the link. */
  lemma LoneTextAnchor(a: Anchor, id: string)
    requires !Contains(Lower(a.href), "pdf") && Contains(Lower(a.text), "download") && a.href != ""
    ensures FindPdfLink([a], id) == Some(NormalizeUrl(a.href))
  {
    assert NoMatchBy([a], PdfHref);
    CascadeDownloadText([a], id, 0);
  }

  /**
   A text match with an empty href shadows every later text match: `b` is
   never looked at by the text scan, whatever its text says.
   */
  lemma EmptyTextMatchShadowsLaterOnes(a: Anchor, b: Anchor, id: string)
    requires a.href == "" && Contains(Lower(a.text), "download")
    requires !Matches(PdfHref, b) && !Matches(DownloadHref, b)
    ensures FindPdfLink([a, b], id) == Some(DownloadGuessUrl(id))
  {
    assert !Matches(PdfHref, a) by { assert !Contains(Lower(a.href), "pdf"); }
    assert !Matches(DownloadHref, a);
    assert FirstMatchBy([a, b], DownloadText, 0);
    assert TextScanYieldsNothing([a, b]);
    CascadeGuess([a, b], id);
  }

  /** The constructed guess always mentions "download". */
  lemma GuessMentionsDownload(id: string)
    ensures Contains(DownloadGuessUrl(id), "download")
  {
    var url := DownloadGuessUrl(id);
    assert OccursAt(url, "download", |url| - 8);
  }

  /** A relative link is resolved against the site's origin. */
  lemma RootRelativeLink(link: string)
    requires |link| > 0 && link[0] == '/'
    ensures NormalizeUrl(link) == Origin + link
  {
    assert StartsWith(link, "/");
  }

  /** A lone anchor whose href mentions both "download" and "pdf" decides the link. */
  lemma LonePdfHrefAnchor(a: Anchor, id: string)
    requires Contains(Lower(a.href), "download") && Contains(Lower(a.href), "pdf")
    ensures FindPdfLink([a], id) == Some(NormalizeUrl(a.href))
  {
    assert FirstMatchBy([a], PdfHref, 0);
    CascadePdfHref([a], id, 0);
  }

  // Pages from the repository's own link-finding test.

  lemma PdfHrefLiteral()
    ensures Contains(Lower("/download.pdf"), "download") && Contains(Lower("/download.pdf"), "pdf")
  {
    var h := "/download.pdf";
    LowerOfLowercase(h);
    assert OccursAt(h, "download", 1);
    assert OccursAt(h, "pdf", 10);
  }

  lemma PdfHrefExample(id: string)
    ensures FindPdfLink([Anchor("/download.pdf", "Download PDF")], id) == Some(Origin + "/download.pdf")
  {
    PdfHrefLiteral();
    LonePdfHrefAnchor(Anchor("/download.pdf", "Download PDF"), id);
    RootRelativeLink("/download.pdf");
  }

  /** "/some-link" and "/patent/download" have no "p" after their first two code points. */
  lemma NoPdfInLiterals()
    ensures !Contains(Lower("/some-link"), "pdf")
    ensures !Contains(Lower("/patent/download"), "pdf")
  {
    LowerOfLowercase("/some-link");
    MissingCharExcludes("/some-link", "pdf", 2);
    LowerOfLowercase("/patent/download");
    MissingCharExcludes("/patent/download", "pdf", 2);
  }

  lemma DownloadInLiterals()
    ensures Contains(Lower("Download PDF"), "download")
    ensures Contains(Lower("Download"), "download")
  {
    assert Lower("Download PDF") == "download pdf";
    assert OccursAt(Lower("Download PDF"), "download", 0);
    assert Lower("Download") == "download";
    assert OccursAt(Lower("Download"), "download", 0);
  }

  lemma TextExample(id: string)
    ensures FindPdfLink([Anchor("/some-link", "Download PDF")], id) == Some(Origin + "/some-link")
  {
    NoPdfInLiterals();
    DownloadInLiterals();
    LoneTextAnchor(Anchor("/some-link", "Download PDF"), id);
    RootRelativeLink("/some-link");
  }

  /** The page meant to exercise the href-pattern scan is already decided by the text scan. */
  lemma HrefPatternPageDecidedByText(id: string)
    ensures FindPdfLink([Anchor("/patent/download", "Download")], id) == Some(Origin + "/patent/download")
    ensures Matches(DownloadText, Anchor("/patent/download", "Download"))
  {
    var a := Anchor("/patent/download", "Download");
    NoPdfInLiterals();
    DownloadInLiterals();
    LoneTextAnchor(a, id);
    RootRelativeLink(a.href);
  }

  lemma NoAnchorsExample(id: string)
    ensures FindPdfLink([], id) == Some(DownloadGuessUrl(id))
    ensures Contains(FindPdfLink([], id).value, "download")
  {
    CascadeGuess([], id);
    GuessMentionsDownload(id);
  }

  lemma EmptyHrefExample(id: string)
    ensures FindPdfLink([Anchor("", "Download"), Anchor("/b", "download it")], id) == Some(DownloadGuessUrl(id))
  {
    var a, b := Anchor("", "Download"), Anchor("/b", "download it");
    assert Lower(b.href) == b.href;
    MissingCharExcludes(b.href, "pdf", 2);
    MissingCharExcludes(b.href, "/download", 1);
    MissingCharExcludes(b.href, "download=true", 0);
    assert OccursAt(Lower(a.text), "download", 0);
    EmptyTextMatchShadowsLaterOnes(a, b, id);
  }
}
