/**
 * The direct-first PDF text extractor (`src/utils/simplePdfExtractor.ts`),
 * the one the paper page uses, and the arXiv PDF link it builds.
 *
 * The PDF is fetched directly, and through one proxy only when that fails.
 * Bodies under 100 bytes are refused before decoding, at most the first
 * five pages are read, and the document is destroyed once the pages have
 * been read.
 *
 * Request k (counting from 0) has outcome `net(k)`. `encode` stands for
 * `encodeURIComponent` and `decode` for pdf.js.
 */
module SimplePdfExtractor {
  import opened JsRuntime
  import opened JsStrings
  import opened PdfDocs
  import opened ArxivIds

  const ProxyPrefix := "https://api.allorigins.win/raw?url="
  const MinBodyBytes := 100
  const MaxPages := 5
  const PageSeparator := "\n\n"
  const TooSmallError := "PDF file appears empty or corrupted"

  /** Its result, the URLs it requested in order, and its calls on the document. */
  datatype Run = Run(result: ExtractionResult, requested: seq<string>, events: seq<DocEvent>)

  function Min(a: int, b: int): int {
    if a <= b then a else b
  }

  /** The message thrown when the proxy answers with a status outside 200-299. */
  function ProxyStatusError(status: int): string {
    "Failed to fetch PDF via proxy: " + IntToString(status)
  }

  /**
   * The URLs requested, and the response to decode or the message of the
   * error thrown. The direct fetch's own error is discarded once the proxy
   * is tried; a rejected proxy fetch propagates as it is.
   */
  function FetchPdf(url: string, encode: string -> string, net: Network<seq<byte>>)
    : (seq<string>, Result<HttpResponse<seq<byte>>, string>)
  {
    if Succeeded(net(0)) then ([url], Ok(net(0).response))
    else
      var requested := [url, ProxyPrefix + encode(url)];
      match net(1)
      case Rejected(f) => (requested, Err(MessageOr(f, UnknownExtractionError)))
      case Responded(r) =>
        if r.Ok() then (requested, Ok(r)) else (requested, Err(ProxyStatusError(r.status)))
  }

  /** What `extractPdfText` does, as a function of the network and the decoder. */
  function Spec(url: string, encode: string -> string, net: Network<seq<byte>>,
                decode: seq<byte> -> DecodeOutcome): Run
  {
    var (requested, fetched) := FetchPdf(url, encode, net);
    match fetched
    case Err(m) => Run(Failed(m), requested, [])
    case Ok(response) =>
      match response.body
      case Err(f) => Run(Failed(MessageOr(f, UnknownExtractionError)), requested, [])
      case Ok(bytes) =>
        if |bytes| < MinBodyBytes then Run(Failed(TooSmallError), requested, [])
        else
          match decode(bytes)
          case DecodeFault(f) => Run(Failed(MessageOr(f, UnknownExtractionError)), requested, [])
          case Decoded(doc) => ReadDocument(doc, requested)
  }

  /** The pages read from a decoded document: at most the first five. */
  function PagesRead(doc: PdfDocument): seq<PageContent> {
    doc.pages[..Min(|doc.pages|, MaxPages)]
  }

  /** The rest of a run once decoding succeeded: the capped page loop, then `destroy`. */
  function ReadDocument(doc: PdfDocument, requested: seq<string>): Run {
    Run(Finish(PagesText(PagesRead(doc), PageSeparator)), requested, PageEvents(PagesRead(doc)) + [Destroy])
  }

  /** When the body is large enough, the run is decided by the document alone. */
  lemma DecodedRun(url: string, encode: string -> string, net: Network<seq<byte>>, bytes: seq<byte>, doc: PdfDocument)
    requires FetchPdf(url, encode, net).1.Ok? && FetchPdf(url, encode, net).1.value.body == Ok(bytes)
    requires |bytes| >= MinBodyBytes
    ensures Spec(url, encode, net, _ => Decoded(doc)) == ReadDocument(doc, FetchPdf(url, encode, net).0)
  {
  }

  /** `extractPdfText(pdfUrl)` */
  method ExtractPdfText(url: string, encode: string -> string, net: Network<seq<byte>>,
                        decode: seq<byte> -> DecodeOutcome)
    returns (result: ExtractionResult, requested: seq<string>, events: seq<DocEvent>)
    ensures Run(result, requested, events) == Spec(url, encode, net, decode)
  {
    events := [];
    var outcome := net(0);
    requested := [url];
    var response: HttpResponse<seq<byte>>;
    if Succeeded(outcome) {
      response := outcome.response;
    } else {
      outcome := net(|requested|);
      requested := requested + [ProxyPrefix + encode(url)];
      if outcome.Rejected? {
        result := Failed(MessageOr(outcome.fault, UnknownExtractionError));
        return;
      }
      response := outcome.response;
      if !response.Ok() {
        result := Failed(ProxyStatusError(response.status));
        return;
      }
    }
    if response.body.Err? {
      result := Failed(MessageOr(response.body.error, UnknownExtractionError));
      return;
    }
    var bytes := response.body.value;
    if |bytes| < MinBodyBytes {
      result := Failed(TooSmallError);
      return;
    }
    var decoded := decode(bytes);
    if decoded.DecodeFault? {
      result := Failed(MessageOr(decoded.fault, UnknownExtractionError));
      return;
    }
    var pdf := decoded.doc;
    var maxPages := Min(|pdf.pages|, MaxPages);
    var fullText;
    fullText, events := ReadPages(pdf, maxPages, PageSeparator);
    assert pdf.pages[..maxPages] == PagesRead(pdf);
    events := events + [Destroy];
    result := Finish(fullText);
  }

  /** The direct fetch comes first; the proxy, with the encoded URL, is tried exactly when it fails. */
  lemma DirectThenProxy(url: string, encode: string -> string, net: Network<seq<byte>>,
                        decode: seq<byte> -> DecodeOutcome)
    ensures var r := Spec(url, encode, net, decode).requested;
      && 1 <= |r| <= 2 && r[0] == url
      && (|r| == 2 <==> !Succeeded(net(0)))
      && (|r| == 2 ==> r[1] == ProxyPrefix + encode(url))
  {
  }

  /** A proxy answering with a bad status ends the run with that status in the message. */
  lemma ProxyStatusReported(url: string, encode: string -> string, net: Network<seq<byte>>,
                            decode: seq<byte> -> DecodeOutcome)
    requires !Succeeded(net(0)) && net(1).Responded? && !net(1).response.Ok()
    ensures Spec(url, encode, net, decode).result == Failed(ProxyStatusError(net(1).response.status))
    ensures Spec(url, encode, net, decode).events == []
  {
  }

  /** A body under 100 bytes is refused before the decoder runs: the decoder does not matter. */
  lemma SmallBodyRefusedBeforeDecoding(url: string, encode: string -> string, net: Network<seq<byte>>,
                                       decode: seq<byte> -> DecodeOutcome, other: seq<byte> -> DecodeOutcome,
                                       bytes: seq<byte>)
    requires FetchPdf(url, encode, net).1.Ok? && FetchPdf(url, encode, net).1.value.body == Ok(bytes)
    requires |bytes| < MinBodyBytes
    ensures Spec(url, encode, net, decode) == Spec(url, encode, net, other)
    ensures Spec(url, encode, net, decode).result == Failed(TooSmallError)
  {
  }

  /**
   * The page cap: only pages 1..min(numPages, 5) are requested, in order,
   * and two documents that agree on their first five pages give the same
   * run; nothing from page 6 on can show up in the text.
   */
  lemma PageCap(url: string, encode: string -> string, net: Network<seq<byte>>,
                bytes: seq<byte>, doc: PdfDocument, doc': PdfDocument)
    requires FetchPdf(url, encode, net).1.Ok? && FetchPdf(url, encode, net).1.value.body == Ok(bytes)
    requires |bytes| >= MinBodyBytes
    requires |doc.pages| >= MaxPages && |doc'.pages| >= MaxPages
    requires doc.pages[..MaxPages] == doc'.pages[..MaxPages]
    ensures Spec(url, encode, net, _ => Decoded(doc)) == Spec(url, encode, net, _ => Decoded(doc'))
    ensures Requests(Spec(url, encode, net, _ => Decoded(doc)).events) == seq(MaxPages, i => i + 1)
  {
    DecodedRun(url, encode, net, bytes, doc);
    DecodedRun(url, encode, net, bytes, doc');
    var read := PagesRead(doc);
    assert read == doc.pages[..MaxPages] == PagesRead(doc');
    CappedRequests(read);
  }

  /** Reading the five pages and destroying the document requests pages 1..5. */
  lemma CappedRequests(read: seq<PageContent>)
    requires |read| == MaxPages
    ensures Requests(PageEvents(read) + [Destroy]) == seq(MaxPages, i => i + 1)
  {
    PagesRequestedInOrder(read);
    RequestsAppend(PageEvents(read), [Destroy]);
    assert Requests([Destroy]) == [] by { assert [Destroy][..0] == []; }
  }

  /**
   * Once decoding succeeds the document is destroyed, exactly once and as
   * the last call, before the empty-text check; each page read is cleaned up.
   */
  lemma DestroyedOnceDecoded(url: string, encode: string -> string, net: Network<seq<byte>>,
                             bytes: seq<byte>, doc: PdfDocument, n: nat)
    requires FetchPdf(url, encode, net).1.Ok? && FetchPdf(url, encode, net).1.value.body == Ok(bytes)
    requires |bytes| >= MinBodyBytes
    ensures var events := Spec(url, encode, net, _ => Decoded(doc)).events;
      && |events| >= 1 && events[|events| - 1] == Destroy
      && Destroy !in events[..|events| - 1]
      && (CleanupPage(n) in events <==> 1 <= n <= Min(|doc.pages|, MaxPages) && doc.pages[n - 1].PageText?)
  {
    DecodedRun(url, encode, net, bytes, doc);
    var read := PagesRead(doc);
    var events := PageEvents(read) + [Destroy];
    assert events[..|events| - 1] == PageEvents(read);
    CleanupIffRead(read, n);
  }

  /** Every thrown error ends as empty text with a message, and success never carries one. */
  lemma ErrorIffEmptyText(url: string, encode: string -> string, net: Network<seq<byte>>,
                          decode: seq<byte> -> DecodeOutcome)
    ensures var r := Spec(url, encode, net, decode).result;
      r.error.Some? <==> r.text == ""
  {
  }

  /**
   * `getArxivPdfUrl(arxivId)`: the link for the first new-style identifier
   * in the string, or else for what follows its last '/'.
   */
  function GetArxivPdfUrl(arxivId: string): (r: string)
    ensures FindArxivId(arxivId).Some? ==> r == PdfUrlFor(FindArxivId(arxivId).value)
    ensures FindArxivId(arxivId).None? ==> r == PdfUrlFor(StripThroughLastSlash(arxivId))
  {
    var idMatch := FindArxivId(arxivId);
    var cleanId := if idMatch.Some? then idMatch.value else StripThroughLastSlash(arxivId);
    PdfUrlFor(cleanId)
  }

  /** The link always has the form https://arxiv.org/pdf/<id>.pdf, where <id> is never longer than the input. */
  lemma ArxivPdfUrlShape(arxivId: string)
    ensures var r := GetArxivPdfUrl(arxivId);
      exists id :: |id| <= |arxivId| && Contains(arxivId, id) && r == "https://arxiv.org/pdf/" + id + ".pdf"
  {
    var m := FindArxivId(arxivId);
    if m.Some? {
      var i :| IdAt(arxivId, i) && m.value == arxivId[i..i + IdLength(arxivId, i)];
      assert OccursAt(arxivId, m.value, i);
    } else {
      var id := StripThroughLastSlash(arxivId);
      assert OccursAt(arxivId, id, |arxivId| - |id|);
    }
  }
}
