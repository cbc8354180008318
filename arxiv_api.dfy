/**
 * The arXiv search client (`src/utils/arxivApi.ts`): the query URL built
 * from the search parameters, the zero-results fallback, and the paper
 * records made from feed entries, with their PDF links.
 *
 * The Atom feed is not parsed here: a response body is the feed as
 * already read out of the XML, or a parse failure. `encode` stands for
 * `encodeURIComponent`; request k (counting from 0) has outcome `net(k)`.
 */
module ArxivApi {
  import opened JsRuntime
  import opened JsStrings
  import opened Types
  import opened ArxivIds
  import SimplePdfExtractor

  const BaseUrl := "https://export.arxiv.org/api/query"
  const FallbackQuery := "all:\"artificial+intelligence\"+OR+all:\"machine+learning\"+OR+all:\"AI\""
  const DefaultMaxResults := 50
  const DefaultStart := 0

  /** The parameters of `buildArxivQuery`; an absent field is `None`. */
  datatype QueryParams = QueryParams(
    searchTerms: Option<seq<string>>,
    category: Option<string>,
    year: Option<string>,
    author: Option<string>,
    sortBy: Option<string>,
    maxResults: Option<int>,
    startIndex: Option<int>)

  /** One clause of the search query. */
  datatype Clause =
    | TermsClause(terms: seq<string>)
    | CategoryClause(category: string)
    | AuthorClause(author: string)
    | YearClause(year: string)
  {
    /** Clauses appear in this order: terms, category, author, year. */
    function Rank(): nat {
      match this
      case TermsClause(_) => 0
      case CategoryClause(_) => 1
      case AuthorClause(_) => 2
      case YearClause(_) => 3
    }
  }

  /** `all:"<term>"`, whitespace runs in the term replaced by '+'. */
  function TermQuery(t: string): string {
    "all:\"" + ReplaceWhitespaceRuns(t, "+") + "\""
  }

  function TermQueries(ts: seq<string>): (r: seq<string>)
    ensures |r| == |ts| && forall i :: 0 <= i < |ts| ==> r[i] == TermQuery(ts[i])
  {
    seq(|ts|, i requires 0 <= i < |ts| => TermQuery(ts[i]))
  }

  /** The text of a clause. */
  function Render(c: Clause): string {
    match c
    case TermsClause(ts) => "(" + Join(TermQueries(ts), "+OR+") + ")"
    case CategoryClause(cat) => "cat:" + cat
    case AuthorClause(a) => "au:\"" + a + "\""
    case YearClause(y) => "submittedDate:[" + y + "01010000+TO+" + y + "12312359]"
  }

  function Renders(cs: seq<Clause>): (r: seq<string>)
    ensures |r| == |cs| && forall i :: 0 <= i < |cs| ==> r[i] == Render(cs[i])
  {
    seq(|cs|, i requires 0 <= i < |cs| => Render(cs[i]))
  }

  /** `params.searchTerms && params.searchTerms.length > 0` */
  predicate HasTerms(p: QueryParams) {
    p.searchTerms.Some? && |p.searchTerms.value| > 0
  }

  /** The category filter is used only when it is set, is not "all" and names a subcategory (holds a '.'). */
  predicate UsesCategory(p: QueryParams) {
    Truthy(p.category) && p.category.value != "all" && Contains(p.category.value, ".")
  }

  /** `params.x ?? d` */
  function OrDefault(x: Option<int>, d: int): int {
    if x.Some? then x.value else d
  }

  /** The `sortBy` value of the URL. */
  function SortByValue(p: QueryParams): string {
    if p.sortBy == Some("date") then "submittedDate" else "relevance"
  }

  /** The five `&`-joined query-string parameters after the base URL and '?'. */
  function QueryUrl(searchQuery: string, sortBy: string, sortOrder: string, maxResults: int, start: int): string {
    BaseUrl + "?" + Join(["search_query=" + searchQuery, "sortBy=" + sortBy, "sortOrder=" + sortOrder,
                          "max_results=" + IntToString(maxResults), "start=" + IntToString(start)], "&")
  }

  /** The clauses of the query, in the order terms, category, author, year; each only when its parameter asks for it. */
  function ClausesOf(p: QueryParams): seq<Clause> {
    (if HasTerms(p) then [TermsClause(p.searchTerms.value)] else [])
    + (if UsesCategory(p) then [CategoryClause(p.category.value)] else [])
    + (if Truthy(p.author) then [AuthorClause(p.author.value)] else [])
    + (if Truthy(p.year) then [YearClause(p.year.value)] else [])
  }

  /** The `search_query` before encoding: the clauses joined with `+AND+`, or the first fallback query when there are none. */
  function FinalQuery(clauses: seq<Clause>): string {
    if |clauses| > 0 then Join(Renders(clauses), "+AND+") else FallbackQuery
  }

  /** The URL `buildArxivQuery` returns for the parameters. */
  function ArxivQueryUrl(p: QueryParams, encode: string -> string): string {
    QueryUrl(encode(FinalQuery(ClausesOf(p))), SortByValue(p), "descending",
             OrDefault(p.maxResults, DefaultMaxResults), OrDefault(p.startIndex, DefaultStart))
  }

  /** The clauses come in a fixed order, each kind at most once. */
  lemma ClausesInOrder(p: QueryParams)
    ensures var q := ClausesOf(p);
      forall a, b :: 0 <= a < b < |q| ==> q[a].Rank() < q[b].Rank()
  {
  }

  /** The first fallback query is searched exactly when no parameter yields a clause. */
  lemma FallbackIffNoClause(p: QueryParams)
    ensures ClausesOf(p) == [] <==> !HasTerms(p) && !UsesCategory(p) && !Truthy(p.author) && !Truthy(p.year)
    ensures ClausesOf(p) == [] ==> FinalQuery(ClausesOf(p)) == FallbackQuery
  {
  }

  /** The terms clause is present exactly when there are search terms, and it carries them. */
  lemma TermsClausePresence(p: QueryParams)
    ensures HasTerms(p) <==> exists x :: TermsClause(x) in ClausesOf(p)
    ensures forall x :: TermsClause(x) in ClausesOf(p) ==> p.searchTerms == Some(x)
  {
    if HasTerms(p) {
      assert TermsClause(p.searchTerms.value) in ClausesOf(p);
    }
  }

  /** The category clause is present exactly when the category is set, is not "all" and holds a '.'. */
  lemma CategoryClausePresence(p: QueryParams)
    ensures UsesCategory(p) <==> exists x :: CategoryClause(x) in ClausesOf(p)
    ensures forall x :: CategoryClause(x) in ClausesOf(p) ==> p.category == Some(x)
  {
    if UsesCategory(p) {
      assert CategoryClause(p.category.value) in ClausesOf(p);
    }
  }

  /** The author clause is present exactly when the author is a non-empty string. */
  lemma AuthorClausePresence(p: QueryParams)
    ensures Truthy(p.author) <==> exists x :: AuthorClause(x) in ClausesOf(p)
    ensures forall x :: AuthorClause(x) in ClausesOf(p) ==> p.author == Some(x)
  {
    if Truthy(p.author) {
      assert AuthorClause(p.author.value) in ClausesOf(p);
    }
  }

  /** The year clause is present exactly when the year is a non-empty string. */
  lemma YearClausePresence(p: QueryParams)
    ensures Truthy(p.year) <==> exists x :: YearClause(x) in ClausesOf(p)
    ensures forall x :: YearClause(x) in ClausesOf(p) ==> p.year == Some(x)
  {
    if Truthy(p.year) {
      assert YearClause(p.year.value) in ClausesOf(p);
    }
  }

  /**
   * `buildArxivQuery(params)`: the clauses pushed one by one, then the
   * sort, page size and offset, with `sortOrder` always descending.
   */
  method BuildArxivQuery(p: QueryParams, encode: string -> string) returns (url: string)
    ensures url == ArxivQueryUrl(p, encode)
  {
    var q: seq<Clause> := [];
    if HasTerms(p) {
      q := q + [TermsClause(p.searchTerms.value)];
    }
    if UsesCategory(p) {
      q := q + [CategoryClause(p.category.value)];
    }
    if Truthy(p.author) {
      q := q + [AuthorClause(p.author.value)];
    }
    if Truthy(p.year) {
      q := q + [YearClause(p.year.value)];
    }
    assert q == ClausesOf(p);
    var finalQuery := if |q| > 0 then Join(Renders(q), "+AND+") else FallbackQuery;
    var sortBy := "relevance";
    var sortOrder := "descending";
    if p.sortBy == Some("date") {
      sortBy := "submittedDate";
      sortOrder := "descending";
    }
    var maxResults := if p.maxResults.Some? then p.maxResults.value else DefaultMaxResults;
    var start := if p.startIndex.Some? then p.startIndex.value else DefaultStart;
    url := QueryUrl(encode(finalQuery), sortBy, sortOrder, maxResults, start);
  }

  /** A feed entry, its fields as read out of the XML (title and summary still raw). */
  datatype FeedEntry = FeedEntry(
    id: string,
    rawTitle: string,
    authorNames: seq<string>,
    rawSummary: string,
    category: string,
    publishedDate: string)

  /** A response body: the feed, or XML that failed to parse. */
  datatype AtomFeed = Malformed | AtomFeed(totalResults: int, entries: seq<FeedEntry>)

  /** `{ papers, totalResults }` */
  datatype ArxivResponse = ArxivResponse(papers: seq<Paper>, totalResults: int)

  /**
   * The PDF link of a feed entry: the first new-style identifier in the id,
   * or else the id after its last '/', with a first "abs/" removed.
   */
  function EntryPdfUrl(id: string): (r: string)
    ensures FindArxivId(id).Some? ==> r == PdfUrlFor(FindArxivId(id).value)
    ensures FindArxivId(id).None? ==> r == PdfUrlFor(ReplaceFirst(StripThroughLastSlash(id), "abs/", ""))
  {
    var idMatch := FindArxivId(id);
    if idMatch.Some? then PdfUrlFor(idMatch.value)
    else PdfUrlFor(ReplaceFirst(StripThroughLastSlash(id), "abs/", ""))
  }

  /**
   * On a single-line id the feed's link and `getArxivPdfUrl` agree: after
   * the last '/' is stripped no "abs/" can remain.
   */
  lemma EntryPdfUrlAgreesWithGetArxivPdfUrl(id: string)
    requires forall i :: 0 <= i < |id| ==> !IsLineTerminator(id[i])
    ensures EntryPdfUrl(id) == SimplePdfExtractor.GetArxivPdfUrl(id)
  {
    var s := StripThroughLastSlash(id);
    StripSingleLineHasNoSlash(id);
    forall i | 0 <= i && i + 4 <= |s| ensures !OccursAt(s, "abs/", i) {
      assert s[i + 3] != '/';
    }
    assert !Contains(s, "abs/");
  }

  function TrimAll(names: seq<string>): (r: seq<string>)
    ensures |r| == |names| && forall i :: 0 <= i < |names| ==> r[i] == Trim(names[i])
  {
    seq(|names|, i requires 0 <= i < |names| => Trim(names[i]))
  }

  /** A feed entry as a paper record: whitespace runs in title and summary collapsed, names trimmed. */
  function PaperFromEntry(e: FeedEntry): (r: Paper)
    ensures r.id == e.id && r.pdfUrl == EntryPdfUrl(e.id)
    ensures |r.authors| == |e.authorNames| && forall i :: 0 <= i < |e.authorNames| ==> r.authors[i] == Trim(e.authorNames[i])
    ensures r.citations.None? && r.fullText.None? && r.textExtractionError.None?
  {
    Paper(e.id, Trim(ReplaceWhitespaceRuns(e.rawTitle, " ")), TrimAll(e.authorNames),
          Trim(ReplaceWhitespaceRuns(e.rawSummary, " ")), e.category, e.publishedDate,
          EntryPdfUrl(e.id), None, None, None)
  }

  /** `parseArxivAtomFeed(xml)`: one paper per entry, in order; malformed XML gives no papers and no results. */
  function ParseFeed(f: AtomFeed): (r: ArxivResponse)
    ensures f.Malformed? ==> r == ArxivResponse([], 0)
    ensures f.AtomFeed? ==> r.totalResults == f.totalResults && |r.papers| == |f.entries|
                            && forall i :: 0 <= i < |f.entries| ==> r.papers[i] == PaperFromEntry(f.entries[i])
  {
    match f
    case Malformed => ArxivResponse([], 0)
    case AtomFeed(total, entries) =>
      ArxivResponse(seq(|entries|, i requires 0 <= i < |entries| => PaperFromEntry(entries[i])), total)
  }

  /** The fixed fallback URL: relevance order, 50 results from 0, and no `sortOrder`. */
  function FallbackUrl(encode: string -> string): string {
    BaseUrl + "?search_query=" + encode(FallbackQuery) + "&sortBy=relevance&max_results=50&start=0"
  }

  /**
   * `fetchArxivPapers(params)`: a bad status on the first request throws; a
   * first answer with zero results for a search with terms is replaced by
   * the fallback query's answer, when that one is ok. Everything thrown
   * propagates to the caller.
   */
  method FetchArxivPapers(p: QueryParams, encode: string -> string, net: Network<AtomFeed>)
    returns (response: Result<ArxivResponse, Fault>, requested: seq<string>)
    ensures |requested| == 1 || |requested| == 2
    ensures requested[0] == ArxivQueryUrl(p, encode)
    ensures !Succeeded(net(0)) ==> |requested| == 1 && response.Err?
    ensures net(0).Rejected? ==> response == Err(net(0).fault)
    ensures Succeeded(net(0)) && net(0).response.body.Err? ==>
              |requested| == 1 && response == Err(net(0).response.body.error)
    ensures |requested| == 2 && net(1).Rejected? ==> response == Err(net(1).fault)
    ensures |requested| == 2 && Succeeded(net(1)) && net(1).response.body.Err? ==>
              response == Err(net(1).response.body.error)
    ensures net(0).Responded? && !net(0).response.Ok() ==>
              response == Err(ErrorObject("arXiv API returned " + IntToString(net(0).response.status)))
    ensures |requested| == 2 <==>
              Succeeded(net(0)) && net(0).response.body.Ok? && HasTerms(p)
              && ParseFeed(net(0).response.body.value).totalResults == 0
    ensures |requested| == 2 ==> requested[1] == FallbackUrl(encode)
    ensures |requested| == 2 && net(1).Responded? && !net(1).response.Ok() ==>
              response == Ok(ParseFeed(net(0).response.body.value))
    ensures |requested| == 2 && Succeeded(net(1)) && net(1).response.body.Ok? ==>
              response == Ok(ParseFeed(net(1).response.body.value))
    ensures |requested| == 1 && Succeeded(net(0)) && net(0).response.body.Ok? ==>
              response == Ok(ParseFeed(net(0).response.body.value))
  {
    var url := BuildArxivQuery(p, encode);
    requested := [url];
    var outcome := net(0);
    if outcome.Rejected? {
      return Err(outcome.fault), requested;
    }
    if !outcome.response.Ok() {
      return Err(ErrorObject("arXiv API returned " + IntToString(outcome.response.status))), requested;
    }
    if outcome.response.body.Err? {
      return Err(outcome.response.body.error), requested;
    }
    var result := ParseFeed(outcome.response.body.value);
    if result.totalResults == 0 && HasTerms(p) {
      var fallbackUrl := FallbackUrl(encode);
      requested := requested + [fallbackUrl];
      var fallback := net(1);
      if fallback.Rejected? {
        return Err(fallback.fault), requested;
      }
      if fallback.response.Ok() {
        if fallback.response.body.Err? {
          return Err(fallback.response.body.error), requested;
        }
        return Ok(ParseFeed(fallback.response.body.value)), requested;
      }
    }
    response := Ok(result);
  }
}
