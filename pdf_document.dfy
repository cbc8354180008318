/**
 * A decoded PDF document as the text extractors see it, and the page loop
 * both extractors share: pages are read in ascending order, each page's
 * text items are joined with a space, a separator follows every page, and
 * a page that fails is skipped.
 *
 * pdf.js itself is not modelled: a document is the list of what
 * `getPage(n)` followed by `getTextContent()` yields for each page.
 */
module PdfDocs {
  import opened JsRuntime
  import opened JsStrings

  /** One entry of `getTextContent().items`: a text run, or a marked-content entry, which has no `str`. */
  datatype TextItem = TextRun(str: string) | MarkedContent

  /** What reading one page yields: its text items, or the fault `getPage` or `getTextContent` threw. */
  datatype PageContent = PageText(items: seq<TextItem>) | PageFault(fault: Fault)

  /** A decoded document: `numPages` is |pages|, and page n (counting from 1) is pages[n - 1]. */
  datatype PdfDocument = PdfDocument(pages: seq<PageContent>)

  /** What `getDocument(...).promise` settles to. */
  datatype DecodeOutcome = Decoded(doc: PdfDocument) | DecodeFault(fault: Fault)

  /** A call an extractor makes on the document: `getPage(n)`, `page.cleanup()` or `pdf.destroy()`. */
  datatype DocEvent = GetPage(pageNum: nat) | CleanupPage(pageNum: nat) | Destroy

  /** `{ text, error? }` */
  datatype ExtractionResult = ExtractionResult(text: string, error: Option<string>)

  const NoTextError := "No text could be extracted from the PDF"
  const UnknownExtractionError := "Unknown error during PDF extraction"

  /** What the extractors' outer `catch` returns. */
  function Failed(message: string): ExtractionResult {
    ExtractionResult("", Some(message))
  }

  /** `item.str`; `join` renders an undefined `str` as "". */
  function ItemString(t: TextItem): string {
    match t
    case TextRun(s) => s
    case MarkedContent => ""
  }

  function ItemStrings(items: seq<TextItem>): seq<string> {
    seq(|items|, i requires 0 <= i < |items| => ItemString(items[i]))
  }

  /** `textContent.items.map((item) => item.str).join(' ')` */
  function PageString(items: seq<TextItem>): string {
    Join(ItemStrings(items), " ")
  }

  /** What one page adds to the accumulated text: its string and the separator, or nothing when it failed. */
  function Contribution(p: PageContent, sep: string): string {
    match p
    case PageText(items) => PageString(items) + sep
    case PageFault(_) => ""
  }

  /** The accumulated `fullText` after the given pages, in order. */
  function PagesText(pages: seq<PageContent>, sep: string): string {
    if pages == [] then "" else PagesText(pages[..|pages| - 1], sep) + Contribution(pages[|pages| - 1], sep)
  }

  /** The calls made for page `pageNum`: `getPage`, then `cleanup` only when its text was read. */
  function EventsFor(pageNum: nat, p: PageContent): seq<DocEvent> {
    [GetPage(pageNum)] + if p.PageText? then [CleanupPage(pageNum)] else []
  }

  /** The calls made on the document while reading the given pages, in order. */
  function PageEvents(pages: seq<PageContent>): seq<DocEvent> {
    if pages == [] then [] else PageEvents(pages[..|pages| - 1]) + EventsFor(|pages|, pages[|pages| - 1])
  }

  /** The pages requested with `getPage`, in the order they were requested. */
  function Requests(events: seq<DocEvent>): seq<nat> {
    if events == [] then []
    else Requests(events[..|events| - 1]) + if events[|events| - 1].GetPage? then [events[|events| - 1].pageNum] else []
  }

  /**
   * The end of both extractors: blank accumulated text is an error,
   * anything else is returned trimmed, without an error.
   */
  function Finish(fullText: string): (r: ExtractionResult)
    ensures r.error.Some? <==> r.text == ""
    ensures r.error.None? ==> r.text == Trim(fullText)
    ensures r.error.Some? <==> AllWhitespace(fullText)
    ensures r.error.Some? ==> r.error.value == NoTextError
  {
    TrimEmptyIff(fullText);
    if Trim(fullText) == [] then Failed(NoTextError) else ExtractionResult(Trim(fullText), None)
  }

  /**
   * The page loop: pages 1..lastPage in ascending order, each read page's
   * string followed by `sep`, failures skipped, and every read page cleaned up.
   */
  method ReadPages(doc: PdfDocument, lastPage: nat, sep: string) returns (fullText: string, events: seq<DocEvent>)
    requires lastPage <= |doc.pages|
    ensures fullText == PagesText(doc.pages[..lastPage], sep)
    ensures events == PageEvents(doc.pages[..lastPage])
  {
    fullText := "";
    events := [];
    for pageNum := 1 to lastPage + 1
      invariant fullText == PagesText(doc.pages[..pageNum - 1], sep)
      invariant events == PageEvents(doc.pages[..pageNum - 1])
    {
      var page := doc.pages[pageNum - 1];
      PrefixStep(doc.pages, pageNum - 1, sep);
      events := events + [GetPage(pageNum)];
      match page {
        case PageText(items) =>
          fullText := fullText + PageString(items) + sep;
          events := events + [CleanupPage(pageNum)];
        case PageFault(_) =>
      }
    }
  }

  /** One more page read: its contribution and its calls follow those of the pages before it. */
  lemma PrefixStep(pages: seq<PageContent>, i: nat, sep: string)
    requires i < |pages|
    ensures PagesText(pages[..i + 1], sep) == PagesText(pages[..i], sep) + Contribution(pages[i], sep)
    ensures PageEvents(pages[..i + 1]) == PageEvents(pages[..i]) + EventsFor(i + 1, pages[i])
  {
    assert pages[..i + 1][..i] == pages[..i];
  }

  /** The text of consecutive runs of pages is the concatenation of their texts. */
  lemma {:induction false} PagesTextAppend(a: seq<PageContent>, b: seq<PageContent>, sep: string)
    ensures PagesText(a + b, sep) == PagesText(a, sep) + PagesText(b, sep)
    decreases |b|
  {
    if b != [] {
      var last := b[|b| - 1];
      assert (a + b)[..|a + b| - 1] == a + b[..|b| - 1];
      PagesTextAppend(a, b[..|b| - 1], sep);
    } else {
      assert a + b == a;
    }
  }

  /**
   * Strict page order: the text is the earlier pages' text, then page i's
   * contribution, then the later pages' text.
   */
  lemma PagesTextSplit(pages: seq<PageContent>, i: nat, sep: string)
    requires i < |pages|
    ensures PagesText(pages, sep)
            == PagesText(pages[..i], sep) + Contribution(pages[i], sep) + PagesText(pages[i + 1..], sep)
  {
    assert pages == pages[..i] + [pages[i]] + pages[i + 1..];
    PagesTextAppend(pages[..i] + [pages[i]], pages[i + 1..], sep);
    PagesTextAppend(pages[..i], [pages[i]], sep);
    assert PagesText([pages[i]], sep) == Contribution(pages[i], sep) by {
      assert [pages[i]][..0] == [];
    }
  }

  /** Failure isolation: a failing page removes exactly its own text, and every other page still contributes. */
  lemma PageFailureIsolated(pages: seq<PageContent>, i: nat, f: Fault, sep: string)
    requires i < |pages|
    ensures PagesText(pages[i := PageFault(f)], sep) == PagesText(pages[..i], sep) + PagesText(pages[i + 1..], sep)
  {
    PagesTextSplit(pages[i := PageFault(f)], i, sep);
    UpdateKeepsOthers(pages, i, PageFault(f));
  }

  /** Replacing one page leaves the pages before it and after it as they were. */
  lemma UpdateKeepsOthers(pages: seq<PageContent>, i: nat, p: PageContent)
    requires i < |pages|
    ensures pages[i := p][..i] == pages[..i]
    ensures pages[i := p][i + 1..] == pages[i + 1..]
  {
  }

  /** With a whitespace separator, the text is blank exactly when every page read has a blank string. */
  lemma {:induction false} PagesTextBlankIff(pages: seq<PageContent>, sep: string)
    requires AllWhitespace(sep)
    ensures AllWhitespace(PagesText(pages, sep))
            <==> forall i :: 0 <= i < |pages| && pages[i].PageText? ==> AllWhitespace(PageString(pages[i].items))
  {
    if pages != [] {
      var init := pages[..|pages| - 1];
      var last := pages[|pages| - 1];
      PagesTextBlankIff(init, sep);
      var a := PagesText(init, sep);
      var c := Contribution(last, sep);
      assert AllWhitespace(a + c) <==> AllWhitespace(a) && AllWhitespace(c) by {
        if AllWhitespace(a + c) {
          assert forall k :: 0 <= k < |a| ==> (a + c)[k] == a[k];
          assert forall k :: 0 <= k < |c| ==> (a + c)[|a| + k] == c[k];
        }
      }
      if last.PageText? {
        var ps := PageString(last.items);
        assert AllWhitespace(ps + sep) <==> AllWhitespace(ps) by {
          if AllWhitespace(ps) {
            assert forall k :: 0 <= k < |ps + sep| ==> (ps + sep)[k] == if k < |ps| then ps[k] else sep[k - |ps|];
          }
          if AllWhitespace(ps + sep) {
            assert forall k :: 0 <= k < |ps| ==> (ps + sep)[k] == ps[k];
          }
        }
      }
      assert forall i :: 0 <= i < |init| ==> init[i] == pages[i];
    }
  }

  /** Pages are requested one by one, 1, 2, ..., |pages|, whatever each of them yields. */
  lemma {:induction false} PagesRequestedInOrder(pages: seq<PageContent>)
    ensures Requests(PageEvents(pages)) == seq(|pages|, i => i + 1)
  {
    if pages != [] {
      var init := pages[..|pages| - 1];
      var last := pages[|pages| - 1];
      PagesRequestedInOrder(init);
      RequestsAppend(PageEvents(init), EventsFor(|pages|, last));
      var es := EventsFor(|pages|, last);
      if last.PageText? {
        assert es[..1] == [GetPage(|pages|)];
        assert Requests([GetPage(|pages|)]) == [|pages|] by { assert [GetPage(|pages|)][..0] == []; }
      } else {
        assert es[..0] == [];
      }
    }
  }

  lemma {:induction false} RequestsAppend(a: seq<DocEvent>, b: seq<DocEvent>)
    ensures Requests(a + b) == Requests(a) + Requests(b)
    decreases |b|
  {
    if b == [] {
      assert a + b == a;
    } else {
      assert (a + b)[..|a + b| - 1] == a + b[..|b| - 1];
      RequestsAppend(a, b[..|b| - 1]);
    }
  }

  /** A page is cleaned up exactly when its text was read, and reading pages never destroys the document. */
  lemma {:induction false} CleanupIffRead(pages: seq<PageContent>, n: nat)
    ensures CleanupPage(n) in PageEvents(pages) <==> 1 <= n <= |pages| && pages[n - 1].PageText?
    ensures Destroy !in PageEvents(pages)
  {
    if pages != [] {
      var init := pages[..|pages| - 1];
      CleanupIffRead(init, n);
      assert forall i :: 0 <= i < |init| ==> init[i] == pages[i];
    }
  }
}
