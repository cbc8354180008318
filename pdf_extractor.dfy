/**
 * The proxy-first PDF text extractor (`src/utils/pdfExtractor.ts`).
 *
 * It fetches the PDF through four CORS proxies in a fixed order, stopping
 * at the first one that answers with an ok status. Only when all of them
 * fail does it try a direct fetch. It then decodes the bytes, racing the
 * decoder against a timer, reads every page and returns the trimmed text,
 * or an error.
 *
 * Request k (counting from 0) has outcome `net(k)`. `encode` stands for
 * `encodeURIComponent`, `decode` for pdf.js, and `timedOut` says that the
 * 30-second timer settled the race before the decoder did.
 */
module PdfExtractor {
  import opened JsRuntime
  import opened JsStrings
  import opened PdfDocs

  const CorsProxies: seq<string> := [
    "https://api.allorigins.win/raw?url=",
    "https://cors-anywhere.herokuapp.com/",
    "https://proxy.cors.sh/",
    "https://api.codetabs.com/v1/proxy?quest="
  ]

  const PageSeparator := "\n"
  const ParseTimeoutError := "PDF parsing timeout"
  const UnknownError := "Unknown error"

  /** What one call of the extractor does: its result, the URLs it requested in order, and its calls on the document. */
  datatype Run = Run(result: ExtractionResult, requested: seq<string>, events: seq<DocEvent>)

  /** The URLs of the first n proxy attempts. */
  function ProxiedUrls(url: string, encode: string -> string, n: nat): (r: seq<string>)
    requires n <= |CorsProxies|
    ensures |r| == n
    ensures forall i :: 0 <= i < n ==> r[i] == CorsProxies[i] + encode(url)
  {
    seq(n, i requires 0 <= i < n => CorsProxies[i] + encode(url))
  }

  /** The message `lastError` records for a failed proxy attempt. */
  function ProxyFailure(o: FetchOutcome<seq<byte>>): string
    requires !Succeeded(o)
  {
    match o
    case Rejected(f) => MessageOr(f, UnknownError)
    case Responded(r) => "Proxy failed: " + IntToString(r.status) + " " + r.statusText
  }

  /** The message of a failed direct fetch. */
  function DirectFailure(o: FetchOutcome<seq<byte>>): string
    requires !Succeeded(o)
  {
    match o
    case Rejected(f) => MessageOr(f, UnknownError)
    case Responded(r) => "Direct fetch failed: " + IntToString(r.status)
  }

  /** The error thrown when the direct fetch fails as well; an absent `lastError` renders as "undefined". */
  function AllFailedMessage(lastError: Option<string>, direct: string): string {
    "All proxy attempts failed. Last error: " + (if lastError.Some? then lastError.value else "undefined")
    + ". Direct fetch also failed: " + direct
  }

  /** The first proxy, from index `from` on, whose attempt succeeds; |CorsProxies| when none does. */
  function FirstOkProxy(net: Network<seq<byte>>, from: nat): (k: nat)
    requires from <= |CorsProxies|
    ensures from <= k <= |CorsProxies|
    ensures k < |CorsProxies| ==> Succeeded(net(k))
    ensures forall i :: from <= i < k ==> !Succeeded(net(i))
    decreases |CorsProxies| - from
  {
    if from == |CorsProxies| || Succeeded(net(from)) then from else FirstOkProxy(net, from + 1)
  }

  /** The URLs requested before decoding, and the response obtained or the message of the error thrown. */
  function FetchPdf(url: string, encode: string -> string, net: Network<seq<byte>>)
    : (r: (seq<string>, Result<HttpResponse<seq<byte>>, string>))
  {
    var k := FirstOkProxy(net, 0);
    if k < |CorsProxies| then
      (ProxiedUrls(url, encode, k + 1), Ok(net(k).response))
    else
      var requested := ProxiedUrls(url, encode, |CorsProxies|) + [url];
      var direct := net(|CorsProxies|);
      if Succeeded(direct) then (requested, Ok(direct.response))
      else (requested, Err(AllFailedMessage(Some(ProxyFailure(net(|CorsProxies| - 1))), DirectFailure(direct))))
  }

  /** What `extractPdfText` does, as a function of the network, the decoder and the race. */
  function Spec(url: string, encode: string -> string, net: Network<seq<byte>>,
                decode: seq<byte> -> DecodeOutcome, timedOut: bool): Run
  {
    var (requested, fetched) := FetchPdf(url, encode, net);
    match fetched
    case Err(m) => Run(Failed(m), requested, [])
    case Ok(response) =>
      match response.body
      case Err(f) => Run(Failed(MessageOr(f, UnknownExtractionError)), requested, [])
      case Ok(bytes) =>
        if timedOut then Run(Failed(ParseTimeoutError), requested, [])
        else
          match decode(bytes)
          case DecodeFault(f) => Run(Failed(MessageOr(f, UnknownExtractionError)), requested, [])
          case Decoded(doc) =>
            Run(Finish(PagesText(doc.pages, PageSeparator)), requested, PageEvents(doc.pages))
  }

  /** `extractPdfText(pdfUrl)` */
  method ExtractPdfText(url: string, encode: string -> string, net: Network<seq<byte>>,
                        decode: seq<byte> -> DecodeOutcome, timedOut: bool)
    returns (result: ExtractionResult, requested: seq<string>, events: seq<DocEvent>)
    ensures Run(result, requested, events) == Spec(url, encode, net, decode, timedOut)
  {
    var fetched;
    requested, fetched := FetchThroughProxies(url, encode, net);
    events := [];
    if fetched.Err? {
      result := Failed(fetched.error);
      return;
    }
    match fetched.value.body {
      case Err(f) =>
        result := Failed(MessageOr(f, UnknownExtractionError));
      case Ok(bytes) =>
        if timedOut {
          result := Failed(ParseTimeoutError);
        } else {
          match decode(bytes) {
            case DecodeFault(f) =>
              result := Failed(MessageOr(f, UnknownExtractionError));
            case Decoded(doc) =>
              var fullText;
              fullText, events := ReadPages(doc, |doc.pages|, PageSeparator);
              assert doc.pages[..|doc.pages|] == doc.pages;
              result := Finish(fullText);
          }
        }
    }
  }

  /** The fetch part of `extractPdfText`: each proxy in turn until one answers ok, then the direct fetch. */
  method FetchThroughProxies(url: string, encode: string -> string, net: Network<seq<byte>>)
    returns (requested: seq<string>, fetched: Result<HttpResponse<seq<byte>>, string>)
    ensures (requested, fetched) == FetchPdf(url, encode, net)
  {
    requested := [];
    var lastError: Option<string> := None;
    var i := 0;
    while i < |CorsProxies|
      invariant 0 <= i <= |CorsProxies|
      invariant forall j :: 0 <= j < i ==> !Succeeded(net(j))
      invariant requested == ProxiedUrls(url, encode, i)
      invariant lastError == if i == 0 then None else Some(ProxyFailure(net(i - 1)))
    {
      var outcome := net(|requested|);
      requested := requested + [CorsProxies[i] + encode(url)];
      if Succeeded(outcome) {
        assert FirstOkProxy(net, 0) == i;
        assert requested == ProxiedUrls(url, encode, i + 1);
        return requested, Ok(outcome.response);
      }
      lastError := Some(ProxyFailure(outcome));
      i := i + 1;
    }
    assert FirstOkProxy(net, 0) == |CorsProxies|;
    var outcome := net(|requested|);
    requested := requested + [url];
    if !Succeeded(outcome) {
      return requested, Err(AllFailedMessage(lastError, DirectFailure(outcome)));
    }
    fetched := Ok(outcome.response);
  }

  /**
   * The proxies are tried in their fixed order, each with the encoded URL
   * appended; every attempt before the last failed, so the loop stops at
   * the first success.
   */
  lemma ProxiesTriedInOrder(url: string, encode: string -> string, net: Network<seq<byte>>,
                            decode: seq<byte> -> DecodeOutcome, timedOut: bool)
    ensures var r := Spec(url, encode, net, decode, timedOut).requested;
      && 1 <= |r| <= |CorsProxies| + 1
      && (forall i :: 0 <= i < |r| && i < |CorsProxies| ==> r[i] == CorsProxies[i] + encode(url))
      && (forall i :: 0 <= i < |r| - 1 ==> !Succeeded(net(i)))
      && (|r| <= |CorsProxies| ==> Succeeded(net(|r| - 1)))
  {
    var k := FirstOkProxy(net, 0);
  }

  /** The direct fetch is made exactly when every proxy failed, and it is the last request. */
  lemma DirectOnlyAfterAllProxies(url: string, encode: string -> string, net: Network<seq<byte>>,
                                  decode: seq<byte> -> DecodeOutcome, timedOut: bool)
    ensures var r := Spec(url, encode, net, decode, timedOut).requested;
      && (|r| == |CorsProxies| + 1 <==> forall i :: 0 <= i < |CorsProxies| ==> !Succeeded(net(i)))
      && (|r| == |CorsProxies| + 1 ==> r[|CorsProxies|] == url)
  {
    var k := FirstOkProxy(net, 0);
    if k < |CorsProxies| {
      assert Succeeded(net(k));
    }
  }

  /** When the direct fetch fails too, the error names the last proxy error and the direct one, and no page is read. */
  lemma AllFailedReportsBoth(url: string, encode: string -> string, net: Network<seq<byte>>,
                             decode: seq<byte> -> DecodeOutcome, timedOut: bool)
    requires forall i :: 0 <= i <= |CorsProxies| ==> !Succeeded(net(i))
    ensures var run := Spec(url, encode, net, decode, timedOut);
      && run.result.text == ""
      && run.result.error.Some?
      && Contains(run.result.error.value, ProxyFailure(net(|CorsProxies| - 1)))
      && Contains(run.result.error.value, DirectFailure(net(|CorsProxies|)))
      && run.events == []
  {
    assert FirstOkProxy(net, 0) == |CorsProxies|;
    var last := ProxyFailure(net(|CorsProxies| - 1));
    var direct := DirectFailure(net(|CorsProxies|));
    var m := AllFailedMessage(Some(last), direct);
    ContainsParts("All proxy attempts failed. Last error: ", last, ". Direct fetch also failed: " + direct);
    assert m == "All proxy attempts failed. Last error: " + last + (". Direct fetch also failed: " + direct);
    ContainsParts("All proxy attempts failed. Last error: " + last + ". Direct fetch also failed: ", direct, "");
    assert m == "All proxy attempts failed. Last error: " + last + ". Direct fetch also failed: " + direct + "";
  }

  /** Every error, the parse timeout among them, ends as empty text with a message: the error is set exactly when the text is empty. */
  lemma ErrorIffEmptyText(url: string, encode: string -> string, net: Network<seq<byte>>,
                          decode: seq<byte> -> DecodeOutcome, timedOut: bool)
    ensures var r := Spec(url, encode, net, decode, timedOut).result;
      r.error.Some? <==> r.text == ""
  {
  }

  /**
   * Once a response body is in hand and the decoder wins the race, the
   * result is the trimmed text of all pages, in order, each followed by a
   * line break; and every page is requested, in ascending order.
   */
  lemma DecodedDocumentText(url: string, encode: string -> string, net: Network<seq<byte>>,
                            decode: seq<byte> -> DecodeOutcome, bytes: seq<byte>, doc: PdfDocument)
    requires FetchPdf(url, encode, net).1.Ok? && FetchPdf(url, encode, net).1.value.body == Ok(bytes)
    requires decode(bytes) == Decoded(doc)
    ensures var run := Spec(url, encode, net, decode, false);
      && run.result == Finish(PagesText(doc.pages, PageSeparator))
      && (run.result.error.Some? <==>
            forall i :: 0 <= i < |doc.pages| && doc.pages[i].PageText? ==> AllWhitespace(PageString(doc.pages[i].items)))
      && Requests(run.events) == seq(|doc.pages|, i => i + 1)
  {
    PagesTextBlankIff(doc.pages, PageSeparator);
    PagesRequestedInOrder(doc.pages);
  }

  /** A timer that fires first ends the run with the timeout error, before any page is read. */
  lemma TimeoutBeforePages(url: string, encode: string -> string, net: Network<seq<byte>>,
                           decode: seq<byte> -> DecodeOutcome, bytes: seq<byte>)
    requires FetchPdf(url, encode, net).1.Ok? && FetchPdf(url, encode, net).1.value.body == Ok(bytes)
    ensures var run := Spec(url, encode, net, decode, true);
      run.result == Failed(ParseTimeoutError) && run.events == []
  {
  }
}
