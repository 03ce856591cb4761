/** Normalisation of the proxy's OCR response into document records:
    one per page in `page` mode, exactly one in `single` mode. */
module Response {
  import opened Wrappers
  import opened Json
  import opened Text
  import opened LoaderConfig

  /** A loaded document: its text and its metadata map. */
  datatype Document = Document(content: string, metadata: map<string, Json>)

  datatype ResponseError =
    | MissingPages(response: map<string, Json>)   // echoes the raw response
    | MalformedPages                              // a page or field of the wrong JSON type

  const PageSeparator: string := "\n\n"

  /** The pages Python's `for page in pages` visits. A list must hold
      objects; an empty string or object iterates as no pages; anything
      else cannot be iterated as pages. */
  function PageItems(pages: Json): (r: Result<seq<map<string, Json>>, ResponseError>)
    ensures pages.JArr? ==> (r.Success? <==> forall i :: 0 <= i < |pages.items| ==> pages.items[i].JObj?)
    ensures pages.JArr? && r.Success? ==>
      |r.value| == |pages.items| && forall i :: 0 <= i < |r.value| ==> pages.items[i] == JObj(r.value[i])
  {
    match pages
    case JArr(items) =>
      if forall i :: 0 <= i < |items| ==> items[i].JObj? then
        Success(seq(|items|, i requires 0 <= i < |items| => items[i].fields))
      else Failure(MalformedPages)
    case JStr(s) => if s == "" then Success([]) else Failure(MalformedPages)
    case JObj(m) => if m == map[] then Success([]) else Failure(MalformedPages)
    case _ => Failure(MalformedPages)
  }

  /** `page.get("markdown", "")`, which must be text to become content. */
  function Markdown(page: map<string, Json>): Option<string> {
    var md := Get(page, "markdown", JStr(""));
    if md.JStr? then Some(md.s) else None
  }

  /** A page `page` mode can turn into a record. */
  predicate WellFormedPage(page: map<string, Json>) {
    && Markdown(page).Some?
    && ("dimensions" in page ==> page["dimensions"].JObj?)
  }

  /** `source` and `model` entries shared by every record. */
  function Provenance(l: Loader, response: map<string, Json>): (m: map<string, Json>)
    ensures "source" in m <==> NonEmpty(l.filePath) || NonEmpty(l.urlPath)
    ensures NonEmpty(l.filePath) ==> m["source"] == JStr(l.filePath.value)
    ensures !NonEmpty(l.filePath) && NonEmpty(l.urlPath) ==> m["source"] == JStr(l.urlPath.value)
    ensures "model" in m <==> "model" in response
    ensures "model" in m ==> m["model"] == response["model"]
    ensures m.Keys <= {"source", "model"}
  {
    var source: map<string, Json> :=
      if NonEmpty(l.filePath) then map["source" := JStr(l.filePath.value)]
      else if NonEmpty(l.urlPath) then map["source" := JStr(l.urlPath.value)]
      else map[];
    if "model" in response then source["model" := response["model"]] else source
  }

  /** The record for one page in `page` mode. */
  function PageDocument(page: map<string, Json>, provenance: map<string, Json>): (r: Result<Document, ResponseError>)
    requires provenance.Keys <= {"source", "model"}
    ensures r.Success? <==> WellFormedPage(page)
  {
    var md := Markdown(page);
    var meta := map["page" := Get(page, "index", JInt(0))];
    if "dimensions" in page && !page["dimensions"].JObj? then Failure(MalformedPages)
    else
      var meta := if "dimensions" in page then
        var dims := page["dimensions"].fields;
        meta["width" := Get(dims, "width", JNull)]["height" := Get(dims, "height", JNull)]
      else meta;
      if md.None? then Failure(MalformedPages)
      else Success(Document(md.value, meta + provenance))
  }

  /** Whether `d` is the record `page` mode makes of `page`. */
  predicate IsPageRecord(d: Document, page: map<string, Json>, provenance: map<string, Json>) {
    && Markdown(page).Some? && d.content == Markdown(page).value
    && "page" in d.metadata && d.metadata["page"] == Get(page, "index", JInt(0))
    && ("width" in d.metadata <==> "dimensions" in page)
    && ("height" in d.metadata <==> "dimensions" in page)
    && ("dimensions" in page ==>
          page["dimensions"].JObj?
          && d.metadata["width"] == Get(page["dimensions"].fields, "width", JNull)
          && d.metadata["height"] == Get(page["dimensions"].fields, "height", JNull))
    && (forall k :: k in provenance ==> k in d.metadata && d.metadata[k] == provenance[k])
    && d.metadata.Keys == {"page"} + (if "dimensions" in page then {"width", "height"} else {}) + provenance.Keys
  }

  lemma PageDocumentIsPageRecord(page: map<string, Json>, provenance: map<string, Json>)
    requires provenance.Keys <= {"source", "model"}
    requires WellFormedPage(page)
    ensures IsPageRecord(PageDocument(page, provenance).value, page, provenance)
  {
  }

  /** One record per page, in order, or an error if any page is malformed. */
  function PageDocuments(pages: seq<map<string, Json>>, provenance: map<string, Json>): (r: Result<seq<Document>, ResponseError>)
    requires provenance.Keys <= {"source", "model"}
    ensures r.Success? <==> forall i :: 0 <= i < |pages| ==> WellFormedPage(pages[i])
    ensures r.Success? ==> |r.value| == |pages|
    ensures r.Success? ==> forall i :: 0 <= i < |pages| ==> r.value[i] == PageDocument(pages[i], provenance).value
    decreases |pages|
  {
    if |pages| == 0 then Success([])
    else
      var first := PageDocument(pages[0], provenance);
      if first.Failure? then Failure(first.error)
      else
        var rest := PageDocuments(pages[1..], provenance);
        if rest.Failure? then Failure(rest.error)
        else
          assert forall i :: 1 <= i < |pages| ==> pages[i] == pages[1..][i - 1];
          Success([first.value] + rest.value)
  }

  /** The markdown of every page, or an error if one is not text. */
  function Markdowns(pages: seq<map<string, Json>>): (r: Result<seq<string>, ResponseError>)
    ensures r.Success? <==> forall i :: 0 <= i < |pages| ==> Markdown(pages[i]).Some?
    ensures r.Success? ==> |r.value| == |pages| && forall i :: 0 <= i < |pages| ==> r.value[i] == Markdown(pages[i]).value
    decreases |pages|
  {
    if |pages| == 0 then Success([])
    else
      var md := Markdown(pages[0]);
      if md.None? then Failure(MalformedPages)
      else
        var rest := Markdowns(pages[1..]);
        if rest.Failure? then Failure(rest.error)
        else
          assert forall i :: 1 <= i < |pages| ==> pages[i] == pages[1..][i - 1];
          Success([md.value] + rest.value)
  }

  /** `_process_response`. */
  function Process(l: Loader, response: map<string, Json>): (r: Result<seq<Document>, ResponseError>)
    ensures "pages" !in response ==> r == Failure(MissingPages(response))
    ensures r.Success? && l.mode == Single ==> |r.value| == 1
  {
    if "pages" !in response then Failure(MissingPages(response))
    else
      var pages :- PageItems(response["pages"]);
      var provenance := Provenance(l, response);
      match l.mode
      case Page => PageDocuments(pages, provenance)
      case Single =>
        var mds :- Markdowns(pages);
        Success([Document(Join(mds, PageSeparator), map["total_pages" := JInt(|pages|)] + provenance)])
  }

  /** `page` mode: one record per page, in response order, each holding
      that page's markdown, its index (0 if absent), its dimensions only
      when given, and the source and model entries; it fails exactly when
      some page is malformed. */
  lemma PageModeRecords(l: Loader, response: map<string, Json>, pages: seq<map<string, Json>>)
    requires l.mode == Page && "pages" in response && PageItems(response["pages"]) == Success(pages)
    ensures Process(l, response).Success? <==> forall i :: 0 <= i < |pages| ==> WellFormedPage(pages[i])
    ensures var r := Process(l, response);
      r.Success? ==> (|r.value| == |pages|
        && forall i :: 0 <= i < |pages| ==> IsPageRecord(r.value[i], pages[i], Provenance(l, response)))
  {
    var r := Process(l, response);
    if r.Success? {
      forall i | 0 <= i < |pages|
        ensures IsPageRecord(r.value[i], pages[i], Provenance(l, response))
      {
        PageDocumentIsPageRecord(pages[i], Provenance(l, response));
      }
    }
  }

  /** `single` mode: exactly one record whose content is the pages'
      markdown joined by blank lines and whose metadata counts the pages;
      it fails exactly when some page's markdown is not text. */
  lemma SingleModeRecord(l: Loader, response: map<string, Json>, pages: seq<map<string, Json>>)
    requires l.mode == Single && "pages" in response && PageItems(response["pages"]) == Success(pages)
    ensures Process(l, response).Success? <==> forall i :: 0 <= i < |pages| ==> Markdown(pages[i]).Some?
    ensures var r := Process(l, response);
      r.Success? ==>
        && |r.value| == 1
        && r.value[0].content == Join(Markdowns(pages).value, "\n\n")
        && r.value[0].metadata["total_pages"] == JInt(|pages|)
        && r.value[0].metadata.Keys == {"total_pages"} + Provenance(l, response).Keys
        && forall k :: k in Provenance(l, response) ==> r.value[0].metadata[k] == Provenance(l, response)[k]
  {
    var mdsResult := Markdowns(pages);
    if mdsResult.Success? {
      var prov := Provenance(l, response);
      var meta := map["total_pages" := JInt(|pages|)] + prov;
      assert Process(l, response) == Success([Document(Join(mdsResult.value, PageSeparator), meta)]);
      assert "total_pages" !in prov;
      assert meta.Keys == {"total_pages"} + prov.Keys;
    }
  }

  /** The two modes agree: whenever `page` mode succeeds, `single` mode
      succeeds too, with the page records' contents joined by blank lines
      and a page count equal to the number of page records. */
  lemma ModesAgree(l: Loader, response: map<string, Json>)
    requires Process(l.(mode := Page), response).Success?
    ensures var docs := Process(l.(mode := Page), response).value;
      var single := Process(l.(mode := Single), response);
      && single.Success?
      && single.value[0].content == Join(seq(|docs|, i requires 0 <= i < |docs| => docs[i].content), "\n\n")
      && single.value[0].metadata["total_pages"] == JInt(|docs|)
  {
    var pages := PageItems(response["pages"]).value;
    var docs := Process(l.(mode := Page), response).value;
    PageModeRecords(l.(mode := Page), response, pages);
    SingleModeRecord(l.(mode := Single), response, pages);
    assert Provenance(l.(mode := Page), response) == Provenance(l.(mode := Single), response);
    assert Markdowns(pages).value == seq(|docs|, i requires 0 <= i < |docs| => docs[i].content);
  }

  /** The unit tests' two-page response. */
  const Markdown1 := "# Page 1\n\nThis is the first page."
  const Markdown2 := "# Page 2\n\nThis is the second page."
  const FixtureModel := "azure_ai/doc-intelligence/prebuilt-layout"

  function FixtureDimensions(): Json {
    JObj(map["width" := JInt(612), "height" := JInt(792)])
  }

  function ExamplePage1(): map<string, Json> {
    map["index" := JInt(0), "markdown" := JStr(Markdown1), "dimensions" := FixtureDimensions()]
  }

  function ExamplePage2(): map<string, Json> {
    map["index" := JInt(1), "markdown" := JStr(Markdown2), "dimensions" := FixtureDimensions()]
  }

  function ExampleResponse(): map<string, Json> {
    map["pages" := JArr([JObj(ExamplePage1()), JObj(ExamplePage2())]),
        "model" := JStr(FixtureModel), "object" := JStr("ocr")]
  }

  lemma ExamplePages()
    ensures PageItems(ExampleResponse()["pages"]) == Success([ExamplePage1(), ExamplePage2()])
  {
    var items := PageItems(ExampleResponse()["pages"]);
    assert ExampleResponse()["pages"].items[0] == JObj(ExamplePage1());
    assert ExampleResponse()["pages"].items[1] == JObj(ExamplePage2());
    assert items.Success?;
    assert items.value == [ExamplePage1(), ExamplePage2()];
  }

  /** The fixture in `single` mode: one record holding both pages joined by
      a blank line, the page count, the URL as source and the model. */
  lemma SingleModeExample(l: Loader)
    requires l.mode == Single && l.urlPath == Some("https://example.com/doc.pdf") && l.filePath == None
    ensures var r := Process(l, ExampleResponse());
      && r.Success? && |r.value| == 1
      && r.value[0].content == Markdown1 + "\n\n" + Markdown2
      && r.value[0].metadata["total_pages"] == JInt(2)
      && r.value[0].metadata["source"] == JStr("https://example.com/doc.pdf")
      && r.value[0].metadata["model"] == JStr(FixtureModel)
  {
    var pages := [ExamplePage1(), ExamplePage2()];
    ExamplePages();
    SingleModeRecord(l, ExampleResponse(), pages);
    var mds := Markdowns(pages);
    assert mds.Success? && mds.value == [Markdown1] + [Markdown2];
    JoinSnoc([Markdown1], Markdown2, PageSeparator);
    assert Join(mds.value, PageSeparator) == Markdown1 + PageSeparator + Markdown2;
  }

  /** The fixture in `page` mode: two records, in order, each with its
      markdown, index and 612 by 792 dimensions, the URL and the model. */
  lemma PageModeExample(l: Loader)
    requires l.mode == Page && l.urlPath == Some("https://example.com/doc.pdf") && l.filePath == None
    ensures var r := Process(l, ExampleResponse());
      && r.Success? && |r.value| == 2
      && r.value[0].content == Markdown1
      && r.value[0].metadata["page"] == JInt(0)
      && r.value[0].metadata["width"] == JInt(612) && r.value[0].metadata["height"] == JInt(792)
      && r.value[0].metadata["source"] == JStr("https://example.com/doc.pdf")
      && r.value[0].metadata["model"] == JStr(FixtureModel)
      && r.value[1].content == Markdown2
      && r.value[1].metadata["page"] == JInt(1)
  {
    var pages := [ExamplePage1(), ExamplePage2()];
    ExamplePages();
    PageModeRecords(l, ExampleResponse(), pages);
  }
}
