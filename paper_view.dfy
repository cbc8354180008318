/**
 * The side panel that shows a selected paper (`src/components/PaperViewer.tsx`):
 * the name a download is saved under, and which of the full text, the
 * extraction error and the "Extracting" placeholder it shows.
 */
module PaperViewer {
  import opened JsRuntime
  import opened JsStrings
  import opened Types

  /**
   * `title.replace(/[^a-z0-9]/gi, '_').toLowerCase()`: every character that
   * is not an ASCII letter or digit becomes '_', and letters are lowered.
   */
  function SanitizeTitle(title: string): (r: string)
    ensures |r| == |title|
    ensures forall i :: 0 <= i < |title| ==>
              r[i] == (if IsAsciiAlnum(title[i]) then LowerChar(title[i]) else '_')
  {
    seq(|title|, i requires 0 <= i < |title| => if IsAsciiAlnum(title[i]) then LowerChar(title[i]) else '_')
  }

  /** Line 16 (and `src/pages/PaperView.tsx`, line 53): the sanitised title and ".pdf". */
  function DownloadName(title: string): string {
    SanitizeTitle(title) + ".pdf"
  }

  /** A character the sanitised title may hold. */
  predicate NameChar(c: char) {
    ('a' <= c <= 'z') || IsDigit(c) || c == '_'
  }

  /**
   * The name is four characters longer than the title, ends in ".pdf", and
   * holds only lower-case letters, digits and '_' before it: each ASCII
   * letter or digit of the title at its own position, lowered, and '_'
   * everywhere else.
   */
  lemma DownloadNameShape(title: string)
    ensures var name := DownloadName(title);
      && |name| == |title| + 4
      && name[|title|..] == ".pdf"
      && (forall i :: 0 <= i < |title| ==> NameChar(name[i]))
      && (forall i :: 0 <= i < |title| && IsAsciiAlnum(title[i]) ==> name[i] == LowerChar(title[i]))
      && (forall i :: 0 <= i < |title| && !IsAsciiAlnum(title[i]) ==> name[i] == '_')
  {
    var name := DownloadName(title);
    var s := SanitizeTitle(title);
    assert name == s + ".pdf";
    forall i | 0 <= i < |title| ensures NameChar(name[i]) {
      assert name[i] == s[i];
    }
  }

  /** Sanitising a sanitised title changes nothing. */
  lemma SanitizeIdempotent(title: string)
    ensures SanitizeTitle(SanitizeTitle(title)) == SanitizeTitle(title)
  {
    var s := SanitizeTitle(title);
    forall i | 0 <= i < |s| ensures SanitizeTitle(s)[i] == s[i] {
      if IsAsciiAlnum(title[i]) {
        assert LowerChar(LowerChar(title[i])) == LowerChar(title[i]);
      } else {
        assert !IsAsciiAlnum('_');
      }
    }
  }

  /** Line 70: the error banner shows when the extraction error is truthy. */
  predicate ShowsErrorBanner(paper: Paper) {
    Truthy(paper.textExtractionError)
  }

  /** What the content area shows below the banner. */
  datatype ContentView = FullText(text: string) | ExtractingPlaceholder

  /** Lines 78-104: the full text when it is truthy, else the placeholder. */
  function ContentOf(paper: Paper): (v: ContentView)
    ensures v.FullText? <==> Truthy(paper.fullText)
    ensures v.FullText? ==> v.text == paper.fullText.value
  {
    if Truthy(paper.fullText) then FullText(paper.fullText.value) else ExtractingPlaceholder
  }
}

/**
 * The paper page (`src/pages/PaperView.tsx`): on mount it reads the stored
 * paper, or sends the user back to the search; it starts text extraction
 * when the paper has a PDF link and merges the result into the paper.
 *
 * Session storage is given as the two entries read; navigation is recorded
 * in `navigated`.
 */
module PaperView {
  import opened JsRuntime
  import opened JsStrings
  import opened Types
  import opened PdfDocs
  import SimplePdfExtractor
  import PaperViewer

  /** Lines 36-40: the extraction result laid over the paper; no paper stays no paper. */
  function MergeExtraction(paper: Option<Paper>, result: ExtractionResult): (r: Option<Paper>)
    ensures paper.None? ==> r.None?
    ensures paper.Some? ==> r == Some(paper.value.(fullText := if result.text != "" then Some(result.text) else None,
                                                     textExtractionError := result.error))
  {
    match paper
    case None => None
    case Some(p) => Some(p.(fullText := if result.text != "" then Some(result.text) else None,
                            textExtractionError := result.error))
  }

  /**
   * After the merge of a result whose error is set exactly when its text is
   * empty, the text shows exactly when there is no error, the banner shows
   * exactly for a non-empty error, and an empty error message leaves only
   * the "Extracting" placeholder.
   */
  lemma MergedDisplay(p: Paper, result: ExtractionResult)
    requires result.error.Some? <==> result.text == ""
    ensures var q := MergeExtraction(Some(p), result).value;
      && (PaperViewer.ContentOf(q).FullText? <==> result.error.None?)
      && (PaperViewer.ContentOf(q).FullText? ==> PaperViewer.ContentOf(q).text == result.text)
      && (PaperViewer.ShowsErrorBanner(q) <==> Truthy(result.error))
      && (result.error == Some("") ==> !PaperViewer.ShowsErrorBanner(q) && PaperViewer.ContentOf(q) == PaperViewer.ExtractingPlaceholder)
      && q.title == p.title && q.authors == p.authors && q.summary == p.summary && q.pdfUrl == p.pdfUrl
  {
  }

  /** A download: the link and the file name. */
  datatype Download = Download(href: string, name: string)

  /** The page's state. */
  class PaperPage {
    var paper: Option<Paper>
    var geminiApiKey: string
    var isAbstractOpen: bool
    var isLoading: bool
    var navigated: seq<string>

    /** Lines 17-20. */
    constructor ()
      ensures paper == None && geminiApiKey == "" && !isAbstractOpen && isLoading && navigated == []
    {
      paper := None;
      geminiApiKey := "";
      isAbstractOpen := false;
      isLoading := true;
      navigated := [];
    }

    /**
     * Lines 22-47: with a stored paper it is shown with the stored key (or
     * ""), and the PDF link to extract from is returned when it is truthy;
     * without one the page navigates to '/' and stays loading.
     */
    method Mount(paperData: Option<Paper>, apiKey: Option<string>) returns (extractFrom: Option<string>)
      modifies this
      ensures paperData.Some? ==>
                && paper == paperData && !isLoading && navigated == old(navigated)
                && geminiApiKey == (if Truthy(apiKey) then apiKey.value else "")
                && extractFrom == (if paperData.value.pdfUrl != "" then Some(paperData.value.pdfUrl) else None)
      ensures paperData.None? ==>
                && navigated == old(navigated) + ["/"] && extractFrom == None
                && paper == old(paper) && isLoading == old(isLoading) && geminiApiKey == old(geminiApiKey)
      ensures isAbstractOpen == old(isAbstractOpen)
    {
      if paperData.None? {
        navigated := navigated + ["/"];
        return None;
      }
      var parsedPaper := paperData.value;
      paper := Some(parsedPaper);
      geminiApiKey := if Truthy(apiKey) then apiKey.value else "";
      isLoading := false;
      extractFrom := if parsedPaper.pdfUrl != "" then Some(parsedPaper.pdfUrl) else None;
    }

    /** Lines 35-41: the extraction has settled. */
    method ExtractionSettled(result: ExtractionResult)
      modifies this
      ensures paper == MergeExtraction(old(paper), result)
      ensures geminiApiKey == old(geminiApiKey) && isAbstractOpen == old(isAbstractOpen)
      ensures isLoading == old(isLoading) && navigated == old(navigated)
    {
      paper := MergeExtraction(paper, result);
    }

    /**
     * Mounting with a stored paper, then extracting its text with the
     * direct-first extractor and merging the result: the text shows exactly
     * when extraction succeeded. A paper without a PDF link is left as it was.
     */
    method MountAndExtract(paperData: Option<Paper>, apiKey: Option<string>, encode: string -> string,
                           net: Network<seq<byte>>, decode: seq<byte> -> DecodeOutcome)
      modifies this
      ensures paperData.Some? && paperData.value.pdfUrl != "" ==>
                var result := SimplePdfExtractor.Spec(paperData.value.pdfUrl, encode, net, decode).result;
                && paper == MergeExtraction(paperData, result)
                && (PaperViewer.ContentOf(paper.value).FullText? <==> result.error.None?)
      ensures paperData.Some? && paperData.value.pdfUrl == "" ==> paper == paperData
      ensures paperData.None? ==> navigated == old(navigated) + ["/"] && paper == old(paper)
    {
      var extractFrom := Mount(paperData, apiKey);
      if extractFrom.Some? {
        var result, _, _ := SimplePdfExtractor.ExtractPdfText(extractFrom.value, encode, net, decode);
        SimplePdfExtractor.ErrorIffEmptyText(extractFrom.value, encode, net, decode);
        ExtractionSettled(result);
        MergedDisplay(paperData.value, result);
      }
    }

    /** Lines 49-58: nothing without a paper, else its PDF link under the sanitised title. */
    method HandleDownload() returns (download: Option<Download>)
      ensures paper.None? ==> download == None
      ensures paper.Some? ==> download == Some(Download(paper.value.pdfUrl, PaperViewer.DownloadName(paper.value.title)))
    {
      if paper.None? {
        return None;
      }
      var p := paper.value;
      download := Some(Download(p.pdfUrl, PaperViewer.DownloadName(p.title)));
    }

    /** Lines 65-67. */
    method HandleBack()
      modifies this
      ensures navigated == old(navigated) + ["/"]
      ensures paper == old(paper) && isLoading == old(isLoading)
    {
      navigated := navigated + ["/"];
    }

    /** Line 69: the loading view shows while loading or without a paper. */
    function ShowsLoading(): bool
      reads this
    {
      isLoading || paper.None?
    }

    /** Line 156: the error banner shows when the paper has a truthy extraction error. */
    function ShowsErrorBanner(): bool
      reads this
    {
      paper.Some? && PaperViewer.ShowsErrorBanner(paper.value)
    }
  }
}
