# arxiv-scribe-view, modelled in Dafny

arxiv-scribe-view is a browser application for searching arXiv and reading papers. It shows the results as cards, and it shows a selected paper next to a chat with a language model about that paper. This project models its logic in Dafny and proves properties of the model. Each source file of the core is one module: a class where the source keeps state that it updates, and functions and lemmas where it computes values.

- **PDF retrieval and text extraction.** These live in `PdfDocs`, `PdfExtractor` and `SimplePdfExtractor`.
  - The four-proxy extractor tries its CORS proxies in a fixed order and falls back to a direct fetch.
  - The direct-first extractor fetches directly, tries one proxy, refuses tiny bodies and reads at most five pages.
  - Both read pages in ascending order, skip the pages that fail, trim the text, and report an error exactly when no text is left.
  - The network is a `Network`: the outcome of the k-th request. pdf.js is a decoder that gives a page-indexed document whose pages may fail. The 30-second timeout is a parameter.
- **Page rendering** (`PdfCanvasViewer`). The viewer is a class holding the page count, the per-page status array, the job error and the cancellation flag. Its page loop runs over abstract per-page outcomes.
- **arXiv search** (`ArxivApi`, `ArxivIds`). This covers:
  - the query built from a parameter record, and the URL built from the query;
  - the retry with a fallback query when a search finds nothing;
  - the PDF link taken from a feed entry's id.
- **Query parsing** (`QueryParser`). The date filter, the sort key, the word pipeline, and the synonym set capped at twelve terms.
- **Pagination.** `PaginationControls` covers the five-page window, the ellipses and the result range. `PaginationHook` is the page state machine of `usePagination`.
- **Saved search state** (`SearchStateManager`). This covers:
  - session storage as a map;
  - the shallow merge on save;
  - the 24-hour expiry on read, with the clock as a parameter.
- **Chat.** `GeminiApi` builds the prompt and the ordered `contents` of a request. The model call is a `generate` parameter. `ChatSidebar` is the append-only message list and the send handler.
- **Small pieces.**
  - the demonstration search page (`IndexPage`);
  - the filter panel (`SearchFilters`);
  - the card's category colour, author line and citation slots (`PaperCard`);
  - the link taken from a model answer, in both copies of `getArxivUrlFromQuery` (`GeminiResponses`, `GeminiArxivUrlTsx`, `GeminiArxivUrlTs`);
  - the download file name, the display rules and the merge of the extraction result (`PaperViewer`, `PaperView`).
- **Shared modules.** `JsRuntime` holds optional values, thrown values and fetch outcomes. `JsStrings` holds the JavaScript string operations the code uses: `trim`, `includes`, `indexOf`, `replace`, `split` and `join`. `Types` holds the paper and message records.

The two extractors have no content-type check, no batched or parallel page reading, no truncation and no per-page timeout. The model follows the code.

## Model

| member | source | states |
|---|---|---|
| JsRuntime.MessageOr | src/utils/pdfExtractor.ts:125 | an `Error` gives its message; any other thrown value the fallback text |
| JsStrings.TrimStart | src/utils/arxivApi.ts:139-142 | a suffix of the string, beginning with no whitespace, with only whitespace cut off |
| JsStrings.TrimEnd | src/utils/arxivApi.ts:139-142 | a prefix of the string, ending with no whitespace, with only whitespace cut off |
| JsStrings.Trim | src/utils/arxivApi.ts:139-142 | the result is a slice of the string with only whitespace before and after it, and it neither starts nor ends with whitespace |
| JsStrings.TrimEmptyIff | src/utils/simplePdfExtractor.ts:75 | trimming gives the empty string exactly when the string is all whitespace |
| JsStrings.ContainsParts | src/utils/geminiApi.ts:25-33 | a concatenation contains its middle part |
| JsStrings.ContainsEach | src/utils/geminiApi.ts:25-33 | a concatenation of three strings contains each of them |
| JsStrings.ContainsTransitive | src/pages/Index.tsx:69-71 | a substring of a substring is a substring |
| JsStrings.IndexFrom | src/utils/arxivApi.ts:153 | the first occurrence at or after the start, or -1 when there is none there |
| JsStrings.IndexOf | src/utils/arxivApi.ts:153 | -1 iff the pattern does not occur; otherwise the leftmost occurrence |
| JsStrings.ReplaceFirst | src/utils/arxivApi.ts:153 | with a string pattern only the leftmost occurrence is replaced; without one the string is unchanged |
| JsStrings.FirstPiece | src/components/EnhancedPaperCard.tsx:35 | the longest prefix without the separator, ended by the separator or the string's end |
| JsStrings.ReplaceWhitespaceRuns | src/utils/arxivApi.ts:139-142 | `replace(/\s+/g, rep)` equals the one-character-at-a-time scan `Collapsed`: other characters are kept in order, the first whitespace character of each maximal run becomes `rep`, and the rest of the run is dropped |
| JsStrings.ReplaceWhitespaceRunsNoWhitespace | src/utils/arxivApi.ts:42 | replacing whitespace runs by a text without whitespace leaves no whitespace |
| JsStrings.ReplaceWhitespaceRunsIdentity | src/utils/arxivApi.ts:139 | a string without whitespace is left unchanged |
| JsStrings.NatToString | src/utils/arxivApi.ts:75-76 | the decimal rendering is non-empty and made of digits |
| JsStrings.NatToStringRoundTrip | src/utils/arxivApi.ts:75-76 | reading the decimal rendering back gives the number |
| JsStrings.NatToStringInjective | src/components/ChatSidebar.tsx:31-46 | distinct numbers render differently, so distinct clock readings give distinct message ids |
| PdfDocs.Finish | src/utils/pdfExtractor.ts:116-120 | an error iff the accumulated text is blank, and then exactly the no-text message; otherwise the trimmed text with no error |
| PdfDocs.ReadPages | src/utils/pdfExtractor.ts:93-112 | the loop yields the text of pages 1..n in order, each read page's string followed by the separator, failed pages skipped; it calls getPage for each page in turn and cleanup for each page read |
| PdfDocs.PrefixStep | src/utils/pdfExtractor.ts:96-112 | one more page's contribution and calls follow those of the pages before it |
| PdfDocs.PagesTextAppend | src/utils/pdfExtractor.ts:96-112 | the text of consecutive runs of pages is the concatenation of their texts |
| PdfDocs.PagesTextSplit | src/utils/pdfExtractor.ts:96-112 | strict page order: earlier pages' text, then page i's, then the later pages' |
| PdfDocs.PageFailureIsolated | src/utils/pdfExtractor.ts:108-111 | a failing page removes exactly its own text, and every other page still contributes |
| PdfDocs.UpdateKeepsOthers | src/utils/pdfExtractor.ts:108-111 | replacing one page leaves the others as they were |
| PdfDocs.PagesTextBlankIff | src/utils/pdfExtractor.ts:101-116 | with a whitespace separator, the text is blank iff every page read has a blank string |
| PdfDocs.PagesRequestedInOrder | src/utils/pdfExtractor.ts:96-99 | pages are requested 1, 2, …, numPages, whatever each yields |
| PdfDocs.RequestsAppend | src/utils/pdfExtractor.ts:96-99 | the pages requested by two runs of calls are those of the first, then those of the second |
| PdfDocs.CleanupIffRead | src/utils/pdfExtractor.ts:99-107 | a page is cleaned up iff its text was read, and reading pages never destroys the document |
| PdfExtractor.ProxiedUrls | src/utils/pdfExtractor.ts:10-18 | attempt i requests proxy i's prefix followed by the encoded URL |
| PdfExtractor.FirstOkProxy | src/utils/pdfExtractor.ts:43-53 | the first proxy whose attempt succeeds, every earlier one having failed |
| PdfExtractor.FetchThroughProxies | src/utils/pdfExtractor.ts:39-71 | the proxies in order until one answers ok, then the direct fetch only when all failed, with the combined error when that fails too |
| PdfExtractor.ExtractPdfText | src/utils/pdfExtractor.ts:32-128 | the result, the URLs requested and the document calls equal those of `Spec`, the composition of the proxy fetch, the timeout race, the decode and the page loop, whose properties the lemmas below state |
| PdfExtractor.ProxiesTriedInOrder | src/utils/pdfExtractor.ts:43-53 | proxies are tried in their fixed order with the encoded URL; all attempts before the last failed, and the loop stops at the first success |
| PdfExtractor.DirectOnlyAfterAllProxies | src/utils/pdfExtractor.ts:55-71 | the direct fetch is made iff every proxy failed, and it is the last request |
| PdfExtractor.AllFailedReportsBoth | src/utils/pdfExtractor.ts:64-69 | when all fetches fail, the error names the last proxy error and the direct one, and no page is read |
| PdfExtractor.ErrorIffEmptyText | src/utils/pdfExtractor.ts:116-126 | the error is set iff the text is empty |
| PdfExtractor.DecodedDocumentText | src/utils/pdfExtractor.ts:90-120 | once decoded, the result is the trimmed text of all pages; an error iff every page read is blank; pages requested in ascending order |
| PdfExtractor.TimeoutBeforePages | src/utils/pdfExtractor.ts:86-90 | a timer that fires first gives the timeout error before any page is read |
| SimplePdfExtractor.DecodedRun | src/utils/simplePdfExtractor.ts:36-80 | with a body of 100 bytes or more, the run is decided by the decoded document alone |
| SimplePdfExtractor.ExtractPdfText | src/utils/simplePdfExtractor.ts:10-89 | the result, the URLs requested and the document calls equal those of `Spec`, the composition of the direct-then-proxy fetch, the size check, the decode and the five-page loop |
| SimplePdfExtractor.DirectThenProxy | src/utils/simplePdfExtractor.ts:17-31 | the direct fetch comes first; the proxy, with the encoded URL, is tried iff it fails |
| SimplePdfExtractor.ProxyStatusReported | src/utils/simplePdfExtractor.ts:27-30 | a proxy answering with a bad status ends the run with that status in the message, before any page call |
| SimplePdfExtractor.SmallBodyRefusedBeforeDecoding | src/utils/simplePdfExtractor.ts:36-38 | a body under 100 bytes is refused before the decoder runs |
| SimplePdfExtractor.PageCap | src/utils/simplePdfExtractor.ts:55-58 | only pages 1..5 are requested, in order, and pages from 6 on cannot change the run |
| SimplePdfExtractor.DestroyedOnceDecoded | src/utils/simplePdfExtractor.ts:58-73 | once decoded, the document is destroyed exactly once, last; each page read is cleaned up |
| SimplePdfExtractor.ErrorIffEmptyText | src/utils/simplePdfExtractor.ts:75-88 | the error is set iff the text is empty |
| SimplePdfExtractor.GetArxivPdfUrl | src/utils/simplePdfExtractor.ts:92-98 | the link of the first new-style identifier, or else of what follows the last '/' |
| SimplePdfExtractor.ArxivPdfUrlShape | src/utils/simplePdfExtractor.ts:92-98 | the link is `https://arxiv.org/pdf/<id>.pdf` for an id taken from the input |
| PdfCanvasViewer.Repeat | src/components/PdfCanvasViewer.tsx:39 | `Array(n).fill(x)`: n copies of x |
| PdfCanvasViewer.WithStatus | src/components/PdfCanvasViewer.tsx:59-69 | the copied statuses with index k set; an index past the end grows the array with empty slots |
| PdfCanvasViewer.PagesInOrder | src/components/PdfCanvasViewer.tsx:42-71 | drawing the next page from the statuses so far gives that page the status of its own outcome |
| PdfCanvasViewer.PageIsolated | src/components/PdfCanvasViewer.tsx:42-71 | whatever happens to one page, every other page ends with its own status; a skipped page stays pending |
| PdfCanvasViewer.ScreenFor | src/components/PdfCanvasViewer.tsx:86-124 | the error box iff the error is a non-empty string; else the spinner iff the page count is unknown; else one note per page from its status |
| PdfCanvasViewer.FinishedJobNotes | src/components/PdfCanvasViewer.tsx:42-122 | after a full job a page shows "Rendering..." iff it had no canvas or context, and the failure note iff drawing it threw |
| PdfCanvasViewer.Viewer.constructor | src/components/PdfCanvasViewer.tsx:17-19 | no page count, no statuses, no error |
| PdfCanvasViewer.Viewer.Reset | src/components/PdfCanvasViewer.tsx:24-27 | a fresh flag and the state cleared before any work |
| PdfCanvasViewer.Viewer.Cancel | src/components/PdfCanvasViewer.tsx:81-83 | the cleanup sets the job's `cancelled` |
| PdfCanvasViewer.Viewer.Load | src/components/PdfCanvasViewer.tsx:32-76 | a failure sets only the error; after a successful decode only a job not cancelled sets the page count and all-pending statuses |
| PdfCanvasViewer.Viewer.RenderPage | src/components/PdfCanvasViewer.tsx:43-70 | page i writes only index i - 1, or nothing when skipped; the flag is not consulted |
| PdfCanvasViewer.Viewer.RenderPdf | src/components/PdfCanvasViewer.tsx:29-77 | a failed load sets only the error; a cancelled job changes nothing more; otherwise pages 1..n are drawn in order and each ends with its own status |
| ArxivApi.TermQueries | src/utils/arxivApi.ts:42 | one `all:"…"` query per term, in order, with whitespace runs replaced by '+' |
| ArxivApi.Renders | src/utils/arxivApi.ts:42-57 | one clause text per clause, in order |
| ArxivApi.ClausesInOrder | src/utils/arxivApi.ts:38-57 | clauses come in the order terms, category, author, year, each at most once |
| ArxivApi.FallbackIffNoClause | src/utils/arxivApi.ts:60 | the first fallback query is searched iff no parameter yields a clause |
| ArxivApi.TermsClausePresence | src/utils/arxivApi.ts:40-44 | the terms clause is present iff there are search terms, and it carries them |
| ArxivApi.CategoryClausePresence | src/utils/arxivApi.ts:46-49 | the category clause is present iff the category is set, is not "all" and holds a '.' |
| ArxivApi.AuthorClausePresence | src/utils/arxivApi.ts:51-53 | the author clause is present iff the author is a non-empty string |
| ArxivApi.YearClausePresence | src/utils/arxivApi.ts:55-57 | the year clause is present iff the year is a non-empty string |
| ArxivApi.BuildArxivQuery | src/utils/arxivApi.ts:29-82 | the URL of the encoded clauses joined by `+AND+` (or the fallback), the sort, `descending`, and the page size and offset with defaults 50 and 0 |
| ArxivApi.EntryPdfUrl | src/utils/arxivApi.ts:147-155 | the PDF link of the first new-style identifier in the id, else of the id after its last '/' with a first "abs/" removed |
| ArxivApi.EntryPdfUrlAgreesWithGetArxivPdfUrl | src/utils/arxivApi.ts:147-155 | on a single-line id the feed's PDF link equals the one `getArxivPdfUrl` builds |
| ArxivApi.TrimAll | src/utils/arxivApi.ts:141 | every author name trimmed, in order |
| ArxivApi.PaperFromEntry | src/utils/arxivApi.ts:137-166 | the paper keeps the entry's id, trims its names, takes the PDF link above, and has no citations or extracted text |
| ArxivApi.ParseFeed | src/utils/arxivApi.ts:121-170 | malformed XML gives no papers and zero results; otherwise one paper per entry, in order, and the feed's total |
| ArxivApi.FetchArxivPapers | src/utils/arxivApi.ts:84-119 | one request for the built URL; a bad status throws; a second, fallback request iff the first answer had zero results for a search with terms; the fallback's answer is used only when it is ok; a rejected fetch or a failed body read, of either request, rethrows that very error |
| ArxivIds.IdLength | src/utils/arxivApi.ts:149 | `\d{4,5}` is greedy: a match is 9 or 10 characters long |
| ArxivIds.FindIdFrom | src/utils/arxivApi.ts:149 | the leftmost match position at or after `from`, and no match before it |
| ArxivIds.FindArxivId | src/utils/arxivApi.ts:149-151 | no identifier iff the pattern matches nowhere; otherwise the leftmost match |
| ArxivIds.FoundIdShape | src/utils/arxivApi.ts:149 | a found identifier is four digits, a '.', and four or five digits |
| ArxivIds.FirstLineLength | src/utils/arxivApi.ts:153 | the position of the first line terminator, which `.` does not match |
| ArxivIds.LastSlashBefore | src/utils/arxivApi.ts:153 | the last '/' among the first n characters, or -1 |
| ArxivIds.StripThroughLastSlash | src/utils/arxivApi.ts:153 | `/^.*\//` removes a prefix of the first line that ends with '/', and no '/' remains in that line |
| ArxivIds.StripSingleLineHasNoSlash | src/utils/arxivApi.ts:153 | on a single line no '/' remains |
| QueryParser.FindYearFrom | src/utils/queryParser.ts:22 | the leftmost position at or after `from` where `\b(20[0-2][0-9])\b` matches, and no match before it |
| QueryParser.YearMention | src/utils/queryParser.ts:22-25 | no year exactly when the pattern matches nowhere; otherwise the four digits of the leftmost match |
| QueryParser.DateFilter | src/utils/queryParser.ts:15-25 | an explicit year wins; otherwise the current year when "recent", "latest" or "new" occurs; otherwise none |
| QueryParser.SortBy | src/utils/queryParser.ts:27-34 | "citations" iff "most cited" or "popular" occurs; "date" iff not that but "latest", "newest" or "recent"; else "relevance" |
| QueryParser.Sanitize | src/utils/queryParser.ts:41 | same length; every character that is neither a word character nor whitespace becomes a space |
| QueryParser.FirstWhitespace | src/utils/queryParser.ts:42 | the first whitespace position, or the length when there is none |
| QueryParser.SplitWhitespace | src/utils/queryParser.ts:42 | at least one piece; no piece holds whitespace; the first piece is empty iff the string is empty or starts with whitespace |
| QueryParser.SplitWhitespaceJoin | src/utils/queryParser.ts:42 | the pieces joined with " " are the string with every whitespace run collapsed to one space, and every piece but the first and the last is non-empty |
| QueryParser.KeepWords | src/utils/queryParser.ts:43-46 | a word is in the result iff it is in the input, longer than two characters and no stop word; the result is no longer than the input |
| QueryParser.KeepWordsAppend | src/utils/queryParser.ts:43-46 | the filter keeps the order of the pieces: filtering a concatenation concatenates the filtered parts |
| QueryParser.WordsShape | src/utils/queryParser.ts:39-46 | the words are exactly the kept pieces of the lower-cased, sanitized query; each is longer than two characters, no stop word, of word characters only, and has no upper-case ASCII letter |
| QueryParser.SplitPiecesFromSanitized | src/utils/queryParser.ts:41-42 | splitting a sanitized string yields pieces of word characters only |
| QueryParser.AiNeverLookedUp | src/utils/queryParser.ts:43-50 | "ai" is never a word, so its synonym entry never applies |
| QueryParser.AllSynonymsStep | src/utils/queryParser.ts:66-70 | the synonyms of one more word follow those of the words before it |
| QueryParser.DedupIsSet | src/utils/queryParser.ts:63 | a `Set` built by adding values holds each added value exactly once, and nothing else |
| QueryParser.DedupAppend | src/utils/queryParser.ts:63-77 | adding more values keeps the earlier set as a prefix, and whatever follows it was not among the earlier values |
| QueryParser.Take | src/utils/queryParser.ts:79 | `slice(0, 12)`: a prefix, of length 12 when there are enough values, else everything |
| QueryParser.Add | src/utils/queryParser.ts:68 | `set.add(x)`: the set of the values added so far, plus x |
| QueryParser.AddAll | src/utils/queryParser.ts:63-76 | adding values one by one gives the set of all values added |
| QueryParser.AddWordsAndSynonyms | src/utils/queryParser.ts:63-70 | the set after the words and then each word's synonyms |
| QueryParser.ExpandTerms | src/utils/queryParser.ts:62-79 | with the corrected lookup (see ParseAsWritten): the first twelve values of the set of words, synonyms and combinations, in insertion order |
| QueryParser.ParseNaturalLanguageQuery | src/utils/queryParser.ts:9-83 | with the corrected lookup (see ParseAsWritten): the category is never set; the sort key, the date filter and the capped search terms are `SortBy` of the lowered query, `DateFilter`, and the first twelve of the de-duplicated words, synonyms and combinations |
| QueryParser.SearchTermsShape | src/utils/queryParser.ts:62-79 | at most twelve distinct terms, each a word, synonym or combination; the distinct words come first, and later terms are not words |
| QueryParser.TakeDedupShape | src/utils/queryParser.ts:63-79 | the first twelve values of a set: distinct, added values, the first group's values first |
| QueryParser.CombinationsIff | src/utils/queryParser.ts:73-77 | the three combination terms are added iff the lowercased query contains both "ai" and "econom" |
| QueryParser.ParseAsWritten | src/utils/queryParser.ts:49-70 | as written: a TypeError iff some word names an inherited object property; otherwise the corrected result |
| QueryParser.SingleWordQuery | src/utils/queryParser.ts:39-46 | a lower-case kept word is its own word list |
| QueryParser.ConstructorQueryThrows | src/utils/queryParser.ts:66-68 | the query "constructor" throws as written |
| QueryParser.ProtoQueryThrows | src/utils/queryParser.ts:66-68 | the query "__proto__" throws as written |
| QueryParser.ConstructorQueryCorrected | src/utils/queryParser.ts:63-79 | with the corrected lookup, "constructor" searches for itself |
| QueryParser.UnknownWordAdditions | src/utils/queryParser.ts:63-77 | a single word with no synonyms and no "econom" adds only itself |
| QueryParser.ConstructorAdditions | src/utils/queryParser.ts:63-77 | "constructor" adds only itself |
| QueryParser.NoEconom | src/utils/queryParser.ts:73 | a string without an 'e' gets no combination terms |
| PaginationControls.Window | src/components/PaginationControls.tsx:38-45 | the window holds min(5, totalPages) pages within 1..totalPages, holds the current page when it is in range, and is centred on it when there is room |
| PaginationControls.LinksSnoc | src/components/PaginationControls.tsx:60-72 | one more page link goes after the links before it |
| PaginationControls.RenderPaginationItems | src/components/PaginationControls.tsx:36-88 | the items pushed are page 1 and the leading ellipsis, the window's links, then the trailing ellipsis and the last page |
| PaginationControls.PushLeading | src/components/PaginationControls.tsx:47-58 | page 1 only when the window starts after it, and the ellipsis only when it starts after page 2 |
| PaginationControls.PushLinks | src/components/PaginationControls.tsx:60-72 | one link per page of the window; the link of the current page is active |
| PaginationControls.PushTrailing | src/components/PaginationControls.tsx:74-85 | the ellipsis only when the window ends two or more pages before the last, then the last page only when the window ends before it |
| PaginationControls.IncreasingConcat | src/components/PaginationControls.tsx:47-85 | items pushed in three groups of increasing pages stay increasing |
| PaginationControls.LinksOrdered | src/components/PaginationControls.tsx:60-72 | the window's links are increasing and within the window |
| PaginationControls.WithinConcat | src/components/PaginationControls.tsx:47-85 | pages within bounds in every group stay within bounds together |
| PaginationControls.ItemsEnds | src/components/PaginationControls.tsx:40-85 | the bar starts with page 1 and ends with page totalPages |
| PaginationControls.ItemsInOrdered | src/components/PaginationControls.tsx:40-85 | page numbers strictly increase, lie within 1..totalPages, and run from page 1 to totalPages |
| PaginationControls.PageNumbersOrdered | src/components/PaginationControls.tsx:34-88 | with more than one page, the bar's page numbers strictly increase from 1 to totalPages |
| PaginationControls.LeadingRule | src/components/PaginationControls.tsx:47-58 | page 1 precedes the window iff it starts after 1; the start ellipsis appears iff it starts after 2 |
| PaginationControls.TrailingRule | src/components/PaginationControls.tsx:74-85 | the last page follows iff the window ends before it; the end ellipsis appears iff it ends before totalPages - 1 |
| PaginationControls.ActiveLink | src/components/PaginationControls.tsx:50-80 | with the current page in range, a link is active iff it is the current page's, and that link is on the bar |
| PaginationControls.StartResult | src/components/PaginationControls.tsx:90 | on a page >= 1 the first result number is at least 1, and a full page starting there ends at currentPage * resultsPerPage |
| PaginationControls.EndResult | src/components/PaginationControls.tsx:91 | the last result number is the smaller of the page's last slot and totalResults |
| PaginationControls.ResultRange | src/components/PaginationControls.tsx:90-91 | on a page holding results the range covers exactly that page's results, within 1..totalResults |
| PaginationControls.Render | src/components/PaginationControls.tsx:34-117 | nothing iff at most one page; else the items, the result range, and previous and next enabled iff possible and not loading |
| PaginationHook.CeilDiv | src/hooks/usePagination.ts:17 | `Math.ceil(a / b)`: the least q with a <= q * b |
| PaginationHook.Pagination.constructor | src/hooks/usePagination.ts:9-15 | the initial page and results per page (defaults 1 and 50), no results, not loading |
| PaginationHook.Pagination.TotalPages | src/hooks/usePagination.ts:17 | the least page count whose pages hold all results, never negative for a non-negative count |
| PaginationHook.Pagination.StartIndex | src/hooks/usePagination.ts:18 | one less than the bar's first result number, and never negative from page 1 on |
| PaginationHook.Pagination.HasNextPage | src/hooks/usePagination.ts:46 | there is a next page iff results remain after the current page's last slot |
| PaginationHook.Pagination.HasPrevPage | src/hooks/usePagination.ts:47 | there is a previous page iff at least a page of results comes before the start index |
| PaginationHook.Pagination.GoToPage | src/hooks/usePagination.ts:20-24 | moves to the page iff it lies in 1..totalPages, else nothing changes |
| PaginationHook.Pagination.NextPage | src/hooks/usePagination.ts:26-46 | from page >= 1, the page moves forward by one iff there is a next page |
| PaginationHook.Pagination.PrevPage | src/hooks/usePagination.ts:27-47 | within the page count, the page moves back by one iff there is a previous page |
| PaginationHook.Pagination.ResetPagination | src/hooks/usePagination.ts:28-31 | page 1 and no results |
| PaginationHook.Pagination.SetTotalResults | src/hooks/usePagination.ts:14-41 | the result count is set |
| PaginationHook.Pagination.SetIsLoadingMore | src/hooks/usePagination.ts:15-40 | the loading flag is set |
| PaginationHook.TotalPagesIsLeast | src/hooks/usePagination.ts:17 | the page count is the least number of pages that hold all results |
| PaginationHook.StartIndexMatchesStartResult | src/hooks/usePagination.ts:18 | for a hook on a page in 1..totalPages, the bar's first result is the hook's start index plus one, and that index is the index of a result |
| SearchStateManager.Pick | src/utils/searchStateManager.ts:28-29 | a supplied field wins over the current one |
| SearchStateManager.Merge | src/utils/searchStateManager.ts:27-31 | each of the eight fields is the partial's value when supplied and the current one otherwise, and the timestamp is the time of the save |
| SearchStateManager.Read | src/utils/searchStateManager.ts:39-74 | the stored state when one parses and has not expired, else the default state |
| SearchStateManager.MergeIsShallow | src/utils/searchStateManager.ts:27-31 | for each of the eight fields a supplied value replaces the current one whole (the filters too), an absent one keeps it, and a supplied timestamp is ignored |
| SearchStateManager.MergeTwice | src/utils/searchStateManager.ts:24-37 | two saves in a row equal one save of the second partial laid over the first |
| SearchStateManager.EmptySaveRefreshes | src/utils/searchStateManager.ts:27-31 | saving an empty partial only refreshes the timestamp |
| SearchStateManager.ExpiryBoundary | src/utils/searchStateManager.ts:22-67 | a saved state is read back while at most 24 hours old, and the default after that |
| SearchStateManager.DefaultIsNotReturning | src/utils/searchStateManager.ts:40-88 | the default state does not count as returning from a paper |
| SearchStateManager.SessionStore.constructor | src/utils/searchStateManager.ts:58 | an empty session storage |
| SearchStateManager.SessionStore.GetSearchState | src/utils/searchStateManager.ts:39-74 | returns what Read gives, and removes the entry exactly when it had expired |
| SearchStateManager.SessionStore.SaveSearchState | src/utils/searchStateManager.ts:24-37 | the entry becomes the merged state stamped now; a refused write changes only what the read removed |
| SearchStateManager.SessionStore.ClearSearchState | src/utils/searchStateManager.ts:76-83 | the entry is removed and nothing else changes |
| SearchStateManager.SessionStore.IsReturningFromPaperView | src/utils/searchStateManager.ts:85-88 | true iff the state read has searched and holds papers, which needs a saved entry; an expired entry is removed by the read, and otherwise storage is unchanged |
| SearchStateManager.SaveThenGet | src/utils/searchStateManager.ts:24-74 | a save read back within 24 hours gives the merged state |
| SearchStateManager.ClearThenGet | src/utils/searchStateManager.ts:39-83 | after a clear a read gives the default state |
| GeminiApi.PromptContents | src/utils/geminiApi.ts:21-59 | with a paper, the prompt holds the metadata and the closing; the full text when it is not blank, else the metadata-only passage and the extraction error when there is one, or the stock sentence |
| GeminiApi.PromptParts | src/utils/geminiApi.ts:25-59 | the prompt for a paper holds its metadata, its middle part and the closing |
| GeminiApi.MiddleContents | src/utils/geminiApi.ts:34-55 | the middle part is the full-text section, or the metadata-only passage followed by the extraction note |
| GeminiApi.PromptNonEmpty | src/utils/geminiApi.ts:21-62 | the prompt is never empty when the fixed passages are not |
| GeminiApi.SystemPromptNonEmpty | src/utils/geminiApi.ts:21-68 | the system prompt is never empty, so with a paper the preamble is always sent |
| GeminiApi.WithoutWelcome | src/utils/geminiApi.ts:80 | the history keeps exactly the messages whose id is not '1' |
| GeminiApi.WithoutWelcomeAppend | src/utils/geminiApi.ts:80 | the filter keeps order: it distributes over concatenation |
| GeminiApi.BuildContents | src/utils/geminiApi.ts:65-92 | pushes the preamble, one entry per kept history message, then the current message |
| GeminiApi.ContentsShape | src/utils/geminiApi.ts:65-92 | with a paper the prompt and the acknowledgement come first; the kept history follows in order; the current message is last |
| GeminiApi.HistoryRoles | src/utils/geminiApi.ts:83 | a history entry has the user role iff it comes from a user message |
| GeminiApi.Reply | src/utils/geminiApi.ts:111-119 | the trimmed answer text when it is a non-empty string; a missing text or any error gives the apology |
| GeminiApi.GetChatResponse | src/utils/geminiApi.ts:6-120 | without a key, the key prompt and no request; with one, the contents sent and the reply to them |
| ChatSidebar.WelcomeMentions | src/components/ChatSidebar.tsx:18-20 | with a paper the welcome names its title, category and date, and claims the complete content exactly when `fullText` is truthy |
| ChatSidebar.AskAsWritten | src/components/ChatSidebar.tsx:43 | the call as written always yields the key prompt and sends nothing |
| ChatSidebar.Ask | src/components/ChatSidebar.tsx:43 | the intended call: with a truthy key the history, paper and message are sent and the reply is the model's; without one nothing is sent |
| ChatSidebar.AskDiffers | src/components/ChatSidebar.tsx:43 | with a key and a non-empty answer the intended call returns the trimmed answer while the call as written returns the key prompt |
| ChatSidebar.ChatPanel.constructor | src/components/ChatSidebar.tsx:13-25 | the panel opens with the welcome message, id '1', an empty input and no loading |
| ChatSidebar.ChatPanel.SetInputValue | src/components/ChatSidebar.tsx:102 | the input takes the typed value; messages and loading are unchanged |
| ChatSidebar.ChatPanel.BeginSend | src/components/ChatSidebar.tsx:28-40 | a blank input changes nothing; otherwise the untrimmed input is appended as a user message, the input cleared and loading set |
| ChatSidebar.ChatPanel.FinishSend | src/components/ChatSidebar.tsx:45-64 | the reply is appended as an assistant message and loading is cleared |
| ChatSidebar.ChatPanel.HandleSendMessage | src/components/ChatSidebar.tsx:27-65 | with the call of line 43 corrected to `Ask`: a blank input changes nothing; otherwise exactly the user message and the reply to it are appended, and the input and loading end cleared |
| ChatSidebar.ChatPanel.HandleSendMessageAsWritten | src/components/ChatSidebar.tsx:27-65 | with the call of line 43 as written: a blank input changes nothing; otherwise the user message is appended and the reply after it is always the key prompt |
| ChatSidebar.ChatPanel.HandleKeyPress | src/components/ChatSidebar.tsx:67-72 | Enter without Shift prevents the default and sends, with the outcome `HandleSendMessage` states (a blank input changes nothing, else the two messages are appended); any other key changes nothing |
| GeminiResponses.RunLength | src/utils/geminiArxivUrl.tsx:75 | the run after a scheme is the longest stretch of characters outside whitespace, `)`, quotes and backticks |
| GeminiResponses.SchemeAt | src/utils/geminiArxivUrl.tsx:75 | a match can start at a position exactly when "https://" or "http://" stands there followed by a link character |
| GeminiResponses.FindUrlFrom | src/utils/geminiArxivUrl.tsx:75 | the first position at or after the start where a match begins, none before it |
| GeminiResponses.FindUrl | src/utils/geminiArxivUrl.tsx:75-76 | no link iff no position starts a match; otherwise the leftmost match, scheme and the longest run after it |
| GeminiResponses.UrlShape | src/utils/geminiArxivUrl.tsx:75-76 | the link found occurs in the text, starts with a scheme and holds only link characters |
| GeminiResponses.MatchShape | src/utils/geminiArxivUrl.tsx:75 | the match at a position is the piece of the text there, made of link characters |
| GeminiResponses.UrlRefinds | src/utils/geminiArxivUrl.tsx:75-76 | searching the link found for a link gives the same link back |
| GeminiResponses.RunToEnd | src/utils/geminiArxivUrl.tsx:75 | in a string of link characters the run reaches the end |
| GeminiResponses.TextOf | src/utils/geminiArxivUrl.tsx:67-70 | the trimmed first candidate text when there is one, else the empty text |
| GeminiArxivUrlTsx.GetArxivUrlFromQuery | src/utils/geminiArxivUrl.tsx:6-81 | an empty key gives null and no request; otherwise the one request with the key and the prompt, and the link its outcome yields |
| GeminiArxivUrlTsx.FailuresGiveNull | src/utils/geminiArxivUrl.tsx:59-80 | a rejected fetch, a non-ok status and an unreadable body all give null |
| GeminiArxivUrlTsx.UrlIffLinkInText | src/utils/geminiArxivUrl.tsx:64-76 | for an ok answer a link comes back iff the answer is well shaped and its trimmed first text holds one, and the link is part of that text |
| GeminiArxivUrlTs.GetArxivUrlFromQuery | src/utils/geminiArxivUrl.ts:6-48 | the request is made whatever the key; the call settles to the link, or rejects with the fetch, body or shape failure |
| GeminiArxivUrlTs.CopiesAgree | src/utils/geminiArxivUrl.ts:31-47 | for an ok, readable, well-shaped answer both copies give the same link |
| GeminiArxivUrlTs.StatusIgnored | src/utils/geminiArxivUrl.ts:31-39 | this copy reads the body whatever the status, where the guarded copy gives null for a non-ok status |
| IndexPage.Filter | src/pages/Index.tsx:68-72 | keeps exactly the papers whose lower-cased title, abstract or some author contains the lower-cased query, never more papers than given |
| IndexPage.FilterIsSubsequence | src/pages/Index.tsx:68-72 | the papers kept stay in their original order |
| IndexPage.SearchResults | src/pages/Index.tsx:67-76 | a blank query gives every mock paper; any other query the matching ones, in order |
| IndexPage.FilterAppend | src/pages/Index.tsx:68-72 | filtering distributes over concatenation |
| IndexPage.FilterIdempotent | src/pages/Index.tsx:68-72 | filtering twice with one query is filtering once |
| IndexPage.PaddedNeedle | src/pages/Index.tsx:69-71 | a query with a leading space matches no paper that the query without it does not |
| IndexPage.UntrimmedNeedle | src/pages/Index.tsx:67-71 | the query is trimmed only for the blank test: " ab" is not blank and misses a paper titled "ab" that "ab" finds |
| IndexPage.SearchPage.constructor | src/pages/Index.tsx:56-59 | the page starts with an empty query, the mock papers, nothing selected and not loading |
| IndexPage.SearchPage.SetSearchQuery | src/pages/Index.tsx:105-109 | only the query changes |
| IndexPage.SearchPage.HandleSearch | src/pages/Index.tsx:61-66 | loading is set at once and the search waits for its timer |
| IndexPage.SearchPage.TimerFires | src/pages/Index.tsx:66-78 | the oldest pending search sets the papers to its results and clears loading; with none pending nothing changes |
| IndexPage.SearchPage.HandleViewPaper | src/pages/Index.tsx:86-88 | the paper becomes the selected one and nothing else changes |
| IndexPage.SearchPage.HandleClosePaper | src/pages/Index.tsx:90-92 | the selection is cleared and nothing else changes |
| IndexPage.SearchThenFire | src/pages/Index.tsx:61-78 | a search followed by its timer shows that search's results, no longer loading |
| IndexPage.NewSearchPage | src/pages/Index.tsx:22-59 | the page starts out showing the three demonstration papers |
| SearchFilters.Override | src/components/SearchFilters.tsx:17-23 | each key given in the initial filters replaces the current value; every other key is kept |
| SearchFilters.With | src/components/SearchFilters.tsx:221 | the named key takes the new value and the other three keys are kept |
| SearchFilters.ActiveIffNotDefault | src/components/SearchFilters.tsx:232-236 | the Active marker and the reset control show exactly when the filters differ from the defaults |
| SearchFilters.WithLaws | src/components/SearchFilters.tsx:221 | a second change of a key overrides the first, and setting a key to its own value changes nothing |
| SearchFilters.WithChangesOneKey | src/components/SearchFilters.tsx:221 | the changed key reads back the new value and every other key its old value |
| SearchFilters.SingleChangeActive | src/components/SearchFilters.tsx:221-232 | from the defaults one change makes the filters active exactly when the value is not that key's default |
| SearchFilters.FilterPanel.constructor | src/components/SearchFilters.tsx:15-23 | the panel starts closed with the defaults overridden by the initial filters, and nothing reported |
| SearchFilters.FilterPanel.InitialFiltersChanged | src/components/SearchFilters.tsx:214-218 | new initial filters are laid over the current ones and nothing is reported |
| SearchFilters.FilterPanel.HandleFilterChange | src/components/SearchFilters.tsx:220-224 | one key changes and the new record is reported to the parent |
| SearchFilters.FilterPanel.Reset | src/components/SearchFilters.tsx:300-309 | the defaults are restored and reported, after which the control is no longer offered |
| SearchFilters.FilterPanel.SetIsOpen | src/components/SearchFilters.tsx:227 | only the open flag changes |
| PaperCard.ColorPrefix | src/components/EnhancedPaperCard.tsx:35 | a prefix of the category ended by '.', '-' or the end; without '.' unless the category starts with '.', in which case without '-' |
| PaperCard.GetCategoryColor | src/components/EnhancedPaperCard.tsx:23-37 | a listed prefix gets its own colour, and the default colour is given exactly when the prefix is not listed |
| PaperCard.ArchivePrefix | src/components/EnhancedPaperCard.tsx:35 | the colour prefix of "archive.subject" is the archive, when the archive is non-empty and has no '.' |
| PaperCard.KnownArchiveColor | src/components/EnhancedPaperCard.tsx:23-37 | a category of a listed archive gets that archive's colour whatever its subject |
| PaperCard.HyphenatedArchiveDefault | src/components/EnhancedPaperCard.tsx:35-36 | "astro-ph.*" is looked up as "astro-ph", which is not listed, and gets the default colour |
| PaperCard.ColorOfPrefix | src/components/EnhancedPaperCard.tsx:35-36 | the prefix is its own prefix, so a category is coloured as its prefix is |
| PaperCard.FirstPieceFixed | src/components/EnhancedPaperCard.tsx:35 | a text without the separator is its own first piece |
| PaperCard.AuthorLine | src/components/EnhancedPaperCard.tsx:73-74 | the line starts with the first min(3, n) authors joined by ", ", and is exactly that iff there are at most three |
| PaperCard.AuthorLineShape | src/components/EnhancedPaperCard.tsx:73-74 | up to three authors are listed in full; beyond that three are named and the count of the rest reads back as that number |
| PaperCard.ZeroCitationsAsWritten | src/components/EnhancedPaperCard.tsx:51-86 | as written, a paper with 0 citations shows a bare "0" in both slots |
| PaperCard.BadgeSlotAsWritten | src/components/EnhancedPaperCard.tsx:51-55 | as written, a bare number appears iff the count is 0, and the badge with the count iff it is over ten |
| PaperCard.CountSlotAsWritten | src/components/EnhancedPaperCard.tsx:86-90 | as written, a bare number appears iff the count is 0, and the count iff it is non-zero |
| PaperCard.BadgeSlot | src/components/EnhancedPaperCard.tsx:51-55 | the badge is shown, with the count, exactly for more than ten citations, and never a bare number |
| PaperCard.CountSlot | src/components/EnhancedPaperCard.tsx:86-90 | the count is shown exactly for a non-zero count, and never a bare number |
| PaperCard.SlotsAgreeExceptZero | src/components/EnhancedPaperCard.tsx:51-86 | the intended slots agree with the written ones on every count but 0, where they show nothing |
| PaperCard.Card | src/components/EnhancedPaperCard.tsx:39-91 | the card's class and author line, no bare number in either slot, a badge only with the same count shown and over ten, and a count iff it is non-zero |
| PaperCard.BadgeImpliesCount | src/components/EnhancedPaperCard.tsx:51-86 | a count that earns the badge is also shown as a count |
| PaperViewer.SanitizeTitle | src/components/PaperViewer.tsx:16 | the title keeps its length; every ASCII letter or digit is lowered in place and every other character becomes '_' |
| PaperViewer.DownloadNameShape | src/components/PaperViewer.tsx:16 | the file name is the sanitised title, only lower-case letters, digits and '_', followed by ".pdf" |
| PaperViewer.SanitizeIdempotent | src/components/PaperViewer.tsx:16 | sanitising a sanitised title changes nothing |
| PaperViewer.ContentOf | src/components/PaperViewer.tsx:78-104 | the full text shows exactly when it is truthy, and it is the paper's own; otherwise the "Extracting" placeholder |
| PaperView.MergeExtraction | src/pages/PaperView.tsx:35-41 | with a paper, its text becomes the extracted text when non-empty (else undefined) and its error the extraction error; no paper stays no paper |
| PaperView.MergedDisplay | src/pages/PaperView.tsx:35-41 | after a merge the text shows exactly when there is no error, the banner exactly for a non-empty error, and the paper's metadata is kept |
| PaperView.PaperPage.constructor | src/pages/PaperView.tsx:17-20 | no paper, an empty key, the abstract closed and loading |
| PaperView.PaperPage.Mount | src/pages/PaperView.tsx:22-47 | a stored paper is shown with the stored key or "", and extraction starts exactly for a truthy PDF link; without one the page goes to '/' and stays loading |
| PaperView.PaperPage.ExtractionSettled | src/pages/PaperView.tsx:35-41 | the paper becomes the merge of the result; nothing else changes |
| PaperView.PaperPage.MountAndExtract | src/pages/PaperView.tsx:22-47 | with a PDF link the paper holds the direct-first extractor's result and its text shows exactly when extraction succeeded; without a link the paper is left as stored |
| PaperView.PaperPage.HandleDownload | src/pages/PaperView.tsx:49-58 | nothing without a paper; otherwise its PDF link under its download name |
| PaperView.PaperPage.HandleBack | src/pages/PaperView.tsx:65-67 | the page navigates to '/' and the paper is kept |

## Left out

- pdf.js is not modelled. Decoding is a `decode` parameter that yields a document or a thrown value, and each page of the document holds the outcome of its `getTextContent`. Worker configuration, viewports, scales and canvas sizes are not modelled either.
- The network, the CORS proxies and `encodeURIComponent` are parameters: a `Network` of outcomes, and an opaque `encode`.
- The 30-second `Promise.race` timeout of the four-proxy extractor is a boolean `timedOut`.
- The 500 ms `setTimeout` of the search page is a queue of pending searches.
- `Date.now()`, `new Date()` and `getFullYear()` are parameters (`now`, `later`, `currentYear`).
- React effects and their concurrency: the `cancelled` flag of the viewer is a field that a `Cancel` call sets between steps.
- The Gemini SDK call is the `generate` parameter. The HTTP call of `getArxivUrlFromQuery` is its one `FetchOutcome`.
- GeminiApi.Reply: a `response.text` that is a non-empty non-string value is not modelled (the text is an optional string).
- DOMParser XML parsing in `parseArxivAtomFeed` is not modelled. Feed entries are records already extracted from the XML.
- `toLocaleDateString` for the published date is not modelled (the entry carries the formatted date). Neither are `toLocaleString` for counts and `toFixed` for the character count of the full text, which are display formatting only.
- JsStrings.Lower: lower-casing covers ASCII letters only. `toLowerCase` maps every Unicode letter.
- PaperViewer.DownloadNameShape: lengths are counted in Unicode scalar values. JavaScript counts UTF-16 code units, so a character outside the Basic Multilingual Plane becomes two '_' there and one here.
- PaperCard.GetCategoryColor: a prefix that names an inherited object property, such as "constructor", gets the default colour here. The source returns that property's value.
- PaginationHook.Pagination.GoToPage, NextPage and PrevPage require a positive `resultsPerPage`, as do the hook's `TotalPages` and its constructor. With 0 or a negative value, `Math.ceil` of the division gives `Infinity` or `NaN`, and the model covers neither.
- The styling of page links while results load (`PaginationControls.tsx`, line 66) is not modelled. It only adds a class name.
- The error branch of `handleSendMessage` (`ChatSidebar.tsx`, lines 53-61) is not modelled. `getChatResponse` never rejects: its key guard returns before any await, and it catches every error of the request itself.
- The search page renders `ChatSidebar` with a `paperTitle` prop that the panel does not read. The panel model takes its paper and key as given.
- ChatSidebar.ChatPanel.HandleSendMessage and HandleKeyPress use the corrected call `Ask`, not the call of line 43. The panel as written is `HandleSendMessageAsWritten`, whose reply is always the key prompt.
- ArxivApi.FetchArxivPapers: the feed's total is an integer. `parseInt` of a total that is not a number gives `NaN` (`arxivApi.ts`, line 134), `NaN === 0` is false, and no fallback request is made. The model does not cover that case.
- The page's `handleFiltersChange` only logs. `SearchFilters`' list of categories is display data for the select box.
- The paper page's `JSON.parse` of the stored paper is not modelled. The stored entry is given as a paper or nothing. Invalid JSON would throw inside the effect.
- The abstract toggle, "open in new tab", the anchor click of a download, and all console logging are DOM side effects. The download is returned as its link and file name.
- The presentation-only components are not part of this model, because they hold no logic: the search bars, the header, the skeletons, the chat message and indicators, the floating chat bubble, the plain paper card, the paper list and the API key input.

## Findings

| source | as written | input that shows it | evidently intended | confidence | as-written member | corrected member |
|---|---|---|---|---|---|---|
| src/utils/queryParser.ts:66-68 | `synonymMap[word]` also finds properties the object literal inherits. For "constructor" that is a function, truthy and without `forEach`, so the call throws a TypeError | the query "constructor" (or "__proto__") | a word that is not a key of the map has no synonyms and is searched for itself | not executed | QueryParser.ConstructorQueryThrows | QueryParser.ConstructorQueryCorrected |
| src/components/ChatSidebar.tsx:43 | `getChatResponse(currentInput, paper, geminiApiKey)` passes the paper as the history and the key as the paper, and leaves the key `undefined`. The reply is always the "add your Gemini API key" text | any non-blank message, with a paper and a key | `getChatResponse(currentInput, messages, paper, geminiApiKey)` | not executed | ChatSidebar.AskDiffers | ChatSidebar.Ask |
| src/components/EnhancedPaperCard.tsx:51 | `{paper.citations && paper.citations > 10 && …}` renders the number 0 when there are no citations | a paper with `citations: 0` | no badge for 0 citations | not executed | PaperCard.ZeroCitationsAsWritten | PaperCard.BadgeSlot |
| src/components/EnhancedPaperCard.tsx:86 | `{paper.citations && …}` renders the number 0 when there are no citations | a paper with `citations: 0` | no count for 0 citations | not executed | PaperCard.ZeroCitationsAsWritten | PaperCard.CountSlot |
