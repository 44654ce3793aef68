/**
 Extraction of a patent's metadata from its page (`_parse_patent_info` and the
 five `_extract_*` helpers). The parsed page is the flat pre-order list of its
 elements, each reduced to its tag name, its `itemprop` attribute and its
 visible text.
 */
module InfoExtractor {
  import opened Values
  import opened Strings
  import opened Search

  datatype Element = Element(tag: string, itemprop: Option<string>, text: string)

  /** A BeautifulSoup query: a tag name and, optionally, a required `itemprop` value. */
  datatype Selector = Selector(tag: string, itemprop: Option<string>)

  predicate Selects(sel: Selector, e: Element) {
    e.tag == sel.tag && (sel.itemprop.None? || e.itemprop == sel.itemprop)
  }

  function Query(sel: Selector): Element -> bool {
    e => Selects(sel, e)
  }

  const TitleSpan := Selector("span", Some("title"))
  const Heading := Selector("h1", None)
  const InventorSpan := Selector("span", Some("inventor"))
  const AssigneeSpan := Selector("span", Some("assignee"))
  const DateTime := Selector("time", Some("publicationDate"))
  const AbstractDiv := Selector("div", Some("abstract"))

  const UnknownTitle := "Unknown Title"
  const UnknownAssignee := "Unknown Assignee"
  const UnknownDate := "Unknown Date"
  const NoAbstract := "No abstract available"

  /** The record the info request returns (`PatentInfo`; `pdf_url` is never filled in). */
  datatype PatentInfo = PatentInfo(
    patentNumber: string,
    title: string,
    inventors: seq<string>,
    assignee: string,
    publicationDate: string,
    abstractText: string,
    url: string,
    pdfUrl: Option<string>)

  /**
   `soup.find(...)` followed by `get_text().strip()`, or the sentinel when
   nothing matches. A matching element with blank text yields "", not the
   sentinel.
   */
  function FirstTextOr(elements: seq<Element>, sel: Selector, sentinel: string): (r: string)
    ensures forall i :: IsFirst(elements, Query(sel), i) ==> r == Strip(elements[i].text)
    ensures NoneSatisfy(elements, Query(sel)) ==> r == sentinel
  {
    match Find(elements, Query(sel))
    case Some(e) => Strip(e.text)
    case None => sentinel
  }

  /** Title: the first `span[itemprop=title]`, else the first `h1`, else the sentinel. */
  function ExtractTitle(elements: seq<Element>): (r: string)
    ensures forall i :: IsFirst(elements, Query(TitleSpan), i) ==> r == Strip(elements[i].text)
    ensures NoneSatisfy(elements, Query(TitleSpan)) ==>
              forall i :: IsFirst(elements, Query(Heading), i) ==> r == Strip(elements[i].text)
    ensures NoneSatisfy(elements, Query(TitleSpan)) && NoneSatisfy(elements, Query(Heading)) ==>
              r == UnknownTitle
  {
    match Find(elements, Query(TitleSpan))
    case Some(e) => Strip(e.text)
    case None => FirstTextOr(elements, Heading, UnknownTitle)
  }

  function ExtractAssignee(elements: seq<Element>): string {
    FirstTextOr(elements, AssigneeSpan, UnknownAssignee)
  }

  function ExtractPublicationDate(elements: seq<Element>): string {
    FirstTextOr(elements, DateTime, UnknownDate)
  }

  function ExtractAbstract(elements: seq<Element>): string {
    FirstTextOr(elements, AbstractDiv, NoAbstract)
  }

  /** The stripped, non-empty text of an element, when it is an inventor span. */
  predicate NamesInventor(e: Element, name: string) {
    Selects(InventorSpan, e) && name == Strip(e.text) && name != ""
  }

  /** Inventors: the stripped texts of the inventor spans, blank ones dropped, in document order. */
  function ExtractInventors(elements: seq<Element>): (r: seq<string>)
    ensures |r| <= |elements|
  {
    if |elements| == 0 then []
    else
      var rest := ExtractInventors(elements[1..]);
      if Selects(InventorSpan, elements[0]) && Strip(elements[0].text) != "" then
        [Strip(elements[0].text)] + rest
      else
        rest
  }

  /** Some inventor span of the page carries `name` as its stripped, non-empty text. */
  ghost predicate IsInventorName(elements: seq<Element>, name: string) {
    exists i :: 0 <= i < |elements| && NamesInventor(elements[i], name)
  }

  /** A page names `name` when its first element or its remainder does. */
  lemma InventorNameSplit(elements: seq<Element>, name: string)
    requires |elements| > 0
    ensures IsInventorName(elements, name) <==>
              NamesInventor(elements[0], name) || IsInventorName(elements[1..], name)
  {
    var tail := elements[1..];
    if IsInventorName(elements, name) {
      var i :| 0 <= i < |elements| && NamesInventor(elements[i], name);
      if i > 0 { assert elements[i] == tail[i - 1]; }
    }
    if IsInventorName(tail, name) {
      var i :| 0 <= i < |tail| && NamesInventor(tail[i], name);
      assert tail[i] == elements[i + 1];
    }
  }

  /** The extracted list holds exactly the names the page's inventor spans give. */
  lemma {:induction false} InventorsAreNamedInventors(elements: seq<Element>, name: string)
    ensures name in ExtractInventors(elements) <==> IsInventorName(elements, name)
  {
    if |elements| > 0 {
      InventorsAreNamedInventors(elements[1..], name);
      InventorNameSplit(elements, name);
    }
  }

  /** Every extracted name is non-empty and already stripped. */
  lemma {:induction false} InventorsAreStripped(elements: seq<Element>)
    ensures forall k :: 0 <= k < |ExtractInventors(elements)| ==>
              ExtractInventors(elements)[k] != "" && Strip(ExtractInventors(elements)[k]) == ExtractInventors(elements)[k]
  {
    if |elements| > 0 {
      InventorsAreStripped(elements[1..]);
      StripIdempotent(elements[0].text);
    }
  }

  /** Order is kept: the inventors of a page split in two are those of the first part, then the second. */
  lemma {:induction false} InventorsOfConcat(a: seq<Element>, b: seq<Element>)
    ensures ExtractInventors(a + b) == ExtractInventors(a) + ExtractInventors(b)
  {
    if |a| > 0 {
      assert (a + b)[1..] == a[1..] + b;
      InventorsOfConcat(a[1..], b);
    } else {
      assert a + b == b;
    }
  }

  /** `_parse_patent_info`: the five extractions, plus the number and page URL passed in. */
  function ParsePatentInfo(elements: seq<Element>, patentNumber: string, url: string): (r: PatentInfo)
    ensures r.patentNumber == patentNumber && r.url == url && r.pdfUrl == None
  {
    PatentInfo(
      patentNumber,
      ExtractTitle(elements),
      ExtractInventors(elements),
      ExtractAssignee(elements),
      ExtractPublicationDate(elements),
      ExtractAbstract(elements),
      url,
      None)
  }

  /**
   The page of the repository's info test. Only the tagged elements matter:
   no selector picks the `html` element, so its text is a stand-in.
   */
  function TaggedPage(): seq<Element> {
    [ Element("html", None, "Test Patent Title John Doe Test Company 2023-01-01 Test abstract"),
      Element("span", Some("title"), "Test Patent Title"),
      Element("span", Some("inventor"), "John Doe"),
      Element("span", Some("assignee"), "Test Company"),
      Element("time", Some("publicationDate"), "2023-01-01"),
      Element("div", Some("abstract"), "Test abstract") ]
  }

  lemma TaggedPageTitle()
    ensures ExtractTitle(TaggedPage()) == "Test Patent Title"
  {
    var page := TaggedPage();
    StripOfTrimmed(page[1].text);
    assert IsFirst(page, Query(TitleSpan), 1);
  }

  lemma TaggedPageAssignee()
    ensures ExtractAssignee(TaggedPage()) == "Test Company"
  {
    var page := TaggedPage();
    StripOfTrimmed(page[3].text);
    assert IsFirst(page, Query(AssigneeSpan), 3);
  }

  lemma TaggedPageDate()
    ensures ExtractPublicationDate(TaggedPage()) == "2023-01-01"
  {
    var page := TaggedPage();
    StripOfTrimmed(page[4].text);
    assert IsFirst(page, Query(DateTime), 4);
  }

  lemma TaggedPageAbstract()
    ensures ExtractAbstract(TaggedPage()) == "Test abstract"
  {
    var page := TaggedPage();
    StripOfTrimmed(page[5].text);
    assert IsFirst(page, Query(AbstractDiv), 5);
  }

  /** An element that is not an inventor span adds no name. */
  lemma InventorsSkip(e: Element, rest: seq<Element>)
    requires !Selects(InventorSpan, e)
    ensures ExtractInventors([e] + rest) == ExtractInventors(rest)
  {
    assert ([e] + rest)[1..] == rest;
  }

  /** An inventor span whose text has no edge whitespace adds that text. */
  lemma InventorsTake(e: Element, rest: seq<Element>)
    requires Selects(InventorSpan, e) && e.text != []
    requires !IsWhitespace(e.text[0]) && !IsWhitespace(e.text[|e.text| - 1])
    ensures ExtractInventors([e] + rest) == [e.text] + ExtractInventors(rest)
  {
    assert ([e] + rest)[1..] == rest;
    StripOfTrimmed(e.text);
  }

  lemma TaggedPageInventors()
    ensures ExtractInventors(TaggedPage()) == ["John Doe"]
  {
    var page := TaggedPage();
    var e0, e1, e2, e3, e4, e5 := page[0], page[1], page[2], page[3], page[4], page[5];
    assert page == [e0] + ([e1] + ([e2] + ([e3] + ([e4] + ([e5] + [])))));
    assert ExtractInventors([]) == [];
    InventorsSkip(e5, []);
    InventorsSkip(e4, [e5] + []);
    InventorsSkip(e3, [e4] + ([e5] + []));
    InventorsTake(e2, [e3] + ([e4] + ([e5] + [])));
    InventorsSkip(e1, [e2] + ([e3] + ([e4] + ([e5] + []))));
    InventorsSkip(e0, [e1] + ([e2] + ([e3] + ([e4] + ([e5] + [])))));
  }

  /** The page of the repository's info test yields the tagged texts. */
  lemma TaggedPageExample()
    ensures ParsePatentInfo(TaggedPage(), "WO2013078254A1", "u")
              == PatentInfo("WO2013078254A1", "Test Patent Title", ["John Doe"], "Test Company",
                            "2023-01-01", "Test abstract", "u", None)
  {
    TaggedPageTitle();
    TaggedPageAssignee();
    TaggedPageDate();
    TaggedPageAbstract();
    TaggedPageInventors();
  }

  /** Absent elements give the sentinels; a present but blank element gives "". */
  lemma SentinelsForAbsentElements()
    ensures ParsePatentInfo([], "X", "u")
              == PatentInfo("X", UnknownTitle, [], UnknownAssignee, UnknownDate, NoAbstract, "u", None)
    ensures ExtractAssignee([Element("span", Some("assignee"), "  ")]) == ""
    ensures ExtractInventors([Element("span", Some("inventor"), "  ")]) == []
  {
    assert AllWhitespace("  ");
  }
}
