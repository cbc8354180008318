/**
 * Asking the model for an arXiv search URL (`src/utils/geminiArxivUrl.tsx`
 * and its older, unguarded copy `src/utils/geminiArxivUrl.ts`): the request,
 * the text taken from the first candidate of the answer, and the first
 * http(s) link in that text.
 *
 * The answer is the JSON value `response.json()` yields, as far as the code
 * reads it.
 */
module GeminiResponses {
  import opened JsRuntime
  import opened JsStrings

  const ModelUrl := "https://generativelanguage.googleapis.com/v1beta/models/gemini-1.5-flash-latest:generateContent"

  /** `result.candidates[0].content.parts[0].text`, each level possibly missing. */
  datatype Part = Part(text: Option<string>)
  datatype CandidateContent = CandidateContent(parts: Option<seq<Part>>)
  datatype Candidate = Candidate(content: Option<CandidateContent>)
  datatype GeminiResult = GeminiResult(candidates: Option<seq<Candidate>>)

  /** The request: the URL with the key, and the single user prompt. */
  datatype Request = Request(url: string, prompt: string)

  /** Lines 37 and 51 (`.tsx`), 18 and 31 (`.ts`). */
  function RequestFor(instructions: string, userQuery: string, apiKey: string): Request {
    Request(ModelUrl + "?key=" + apiKey, instructions + "\nUser Query: \"" + userQuery + "\"")
  }

  /**
   * The condition of line 68 (`.tsx`) / 42 (`.ts`). `content?.parts[0]`
   * indexes `parts` without a `?.`, so a content without parts throws a
   * TypeError (`Err`); any other missing level, or an empty text, gives
   * `None`.
   */
  function FirstText(result: GeminiResult): Result<Option<string>, ()> {
    if result.candidates.None? || |result.candidates.value| == 0 then Ok(None)
    else
      var candidate := result.candidates.value[0];
      if candidate.content.None? then Ok(None)
      else if candidate.content.value.parts.None? then Err(())
      else
        var parts := candidate.content.value.parts.value;
        if |parts| == 0 || !Truthy(parts[0].text) then Ok(None)
        else Ok(Some(parts[0].text.value))
  }

  /** Lines 67-70 (`.tsx`) / 41-44 (`.ts`): the trimmed first text, or "". */
  function TextOf(first: Option<string>): (r: string)
    ensures first.Some? ==> r == Trim(first.value)
    ensures first.None? ==> r == ""
  {
    if first.Some? then Trim(first.value) else ""
  }

  /** `[^\s)'"`]`: a character a link may continue with. */
  predicate UrlChar(c: char) {
    !IsWhitespace(c) && c != ')' && c != '\'' && c != '"' && c != '`'
  }

  /** The longest run of link characters starting at `j`. */
  function RunLength(s: string, j: nat): (n: nat)
    requires j <= |s|
    ensures j + n <= |s|
    ensures forall k :: j <= k < j + n ==> UrlChar(s[k])
    ensures j + n == |s| || !UrlChar(s[j + n])
    decreases |s| - j
  {
    if j == |s| || !UrlChar(s[j]) then 0 else 1 + RunLength(s, j + 1)
  }

  /** "http://" occurs at `i`. */
  predicate HttpAt(s: string, i: nat) {
    i + 7 <= |s| && s[i] == 'h' && s[i + 1] == 't' && s[i + 2] == 't' && s[i + 3] == 'p'
    && s[i + 4] == ':' && s[i + 5] == '/' && s[i + 6] == '/'
  }

  /** "https://" occurs at `i`. */
  predicate HttpsAt(s: string, i: nat) {
    i + 8 <= |s| && s[i] == 'h' && s[i + 1] == 't' && s[i + 2] == 't' && s[i + 3] == 'p'
    && s[i + 4] == 's' && s[i + 5] == ':' && s[i + 6] == '/' && s[i + 7] == '/'
  }

  /**
   * The length of the `https?://` that starts a match at `i`, or 0. The
   * pattern needs at least one link character after the `//`; "https://"
   * not followed by one cannot match as "http" either, since an 's' is not
   * a ':'.
   */
  function SchemeAt(s: string, i: nat): (n: nat)
    ensures n == 0 || n == 7 || n == 8
    ensures n > 0 ==> i + n < |s| && UrlChar(s[i + n])
    ensures n == 8 <==> HttpsAt(s, i) && i + 8 < |s| && UrlChar(s[i + 8])
    ensures n == 7 <==> HttpAt(s, i) && i + 7 < |s| && UrlChar(s[i + 7])
  {
    if HttpsAt(s, i) && i + 8 < |s| && UrlChar(s[i + 8]) then 8
    else if HttpAt(s, i) && i + 7 < |s| && UrlChar(s[i + 7]) then 7
    else 0
  }

  /** The match that starts at `i`, when one does. */
  function MatchAt(s: string, i: nat): string
    requires SchemeAt(s, i) > 0
  {
    var n := SchemeAt(s, i);
    s[i..i + n + RunLength(s, i + n)]
  }

  /** The leftmost match at or after `from`. */
  function FindUrlFrom(s: string, from: nat): (r: Option<nat>)
    ensures r.Some? ==> from <= r.value < |s| && SchemeAt(s, r.value) > 0
    ensures forall j :: from <= j && (r.None? || j < r.value) ==> SchemeAt(s, j) == 0
    decreases |s| - from
  {
    if from >= |s| then None
    else if SchemeAt(s, from) > 0 then Some(from)
    else FindUrlFrom(s, from + 1)
  }

  /** `text.match(/https?:\/\/[^\s)'"`]+/)?.[0]`. */
  function FindUrl(text: string): (r: Option<string>)
    ensures r.None? <==> forall i: nat :: SchemeAt(text, i) == 0
    ensures r.Some? ==> exists i: nat :: i < |text| && SchemeAt(text, i) > 0 && r.value == MatchAt(text, i)
                                         && forall j: nat :: j < i ==> SchemeAt(text, j) == 0
  {
    var at := FindUrlFrom(text, 0);
    if at.Some? then Some(MatchAt(text, at.value)) else None
  }

  /**
   * A link found is a piece of the text that starts a match of its own
   * ("http://" or "https://" and a link character) and is made of link
   * characters only.
   */
  lemma UrlShape(text: string)
    requires FindUrl(text).Some?
    ensures var url := FindUrl(text).value;
      && Contains(text, url)
      && SchemeAt(url, 0) > 0
      && forall k :: 0 <= k < |url| ==> UrlChar(url[k])
  {
    var url := FindUrl(text).value;
    var i: nat :| i < |text| && SchemeAt(text, i) > 0 && url == MatchAt(text, i);
    MatchShape(text, i);
  }

  /** The match at `i` is a piece of the text made of link characters, and it starts a match itself. */
  lemma MatchShape(text: string, i: nat)
    requires SchemeAt(text, i) > 0
    ensures var url := MatchAt(text, i);
      && OccursAt(text, url, i)
      && SchemeAt(url, 0) == SchemeAt(text, i)
      && forall k :: 0 <= k < |url| ==> UrlChar(url[k])
  {
    var url := MatchAt(text, i);
    var n := SchemeAt(text, i);
    var run := RunLength(text, i + n);
    assert url == text[i..i + n + run];
    assert forall k :: 0 <= k < |url| ==> url[k] == text[i + k];
    assert UrlChar(url[n]);
  }

  /** A link found is found again, whole, when searched for in itself. */
  lemma UrlRefinds(text: string)
    requires FindUrl(text).Some?
    ensures FindUrl(FindUrl(text).value) == FindUrl(text)
  {
    var url := FindUrl(text).value;
    UrlShape(text);
    RunToEnd(url, SchemeAt(url, 0));
    assert MatchAt(url, 0) == url;
  }

  /** In a string of link characters the run from `j` reaches the end. */
  lemma {:induction false} RunToEnd(s: string, j: nat)
    requires j <= |s|
    requires forall k :: 0 <= k < |s| ==> UrlChar(s[k])
    ensures RunLength(s, j) == |s| - j
    decreases |s| - j
  {
    if j < |s| {
      RunToEnd(s, j + 1);
    }
  }
}

/** `src/utils/geminiArxivUrl.tsx`: every failure comes back as `null`. */
module GeminiArxivUrlTsx {
  import opened JsRuntime
  import opened JsStrings
  import opened GeminiResponses

  /** Lines 17-35. */
  const Instructions :=
    "\nYou are an expert at constructing arXiv API search URLs.\n"
    + "When given ANY user search query for academic papers, convert it into an optimal arXiv search API URL "
    + "(https://export.arxiv.org/api/query?...) to retrieve as many relevant results as possible.\n\n"
    + "Guidelines:\n"
    + "- Use search_query parameter with appropriate terms\n"
    + "- For topics like \"machine learning\", use: search_query=all:machine+learning\n"
    + "- For specific fields, use category filters like: cat:cs.LG for machine learning\n"
    + "- For recent papers, use submittedDate ranges\n"
    + "- Always include max_results (suggest 16-32)\n"
    + "- Use sortBy=submittedDate for recent papers, sortBy=relevance for general searches\n\n"
    + "Examples:\n"
    + "- \"machine learning papers\" \U{2192} "
    + "https://export.arxiv.org/api/query?search_query=all:machine+learning&sortBy=relevance&max_results=16\n"
    + "- \"recent AI papers\" \U{2192} "
    + "https://export.arxiv.org/api/query?search_query=cat:cs.AI&sortBy=submittedDate&max_results=16\n"
    + "- \"quantum computing 2024\" \U{2192} "
    + "https://export.arxiv.org/api/query?search_query=all:quantum+computing+AND+submittedDate:"
    + "[202401010000+TO+202412312359]&sortBy=submittedDate&max_results=16\n\n"
    + "ONLY RETURN the resulting URL as plain text (no commentary, no code blocks, no quotes).\n"

  /** What the call resolves to for the outcome of its one request: a link or `null`. */
  function UrlFromOutcome(outcome: FetchOutcome<GeminiResult>): Option<string> {
    if !Succeeded(outcome) || outcome.response.body.Err? then None
    else
      var first := FirstText(outcome.response.body.value);
      if first.Err? then None else FindUrl(TextOf(first.value))
  }

  /**
   * `getArxivUrlFromQuery(userQuery, apiKey)`: the link, and the request
   * made, if any. An empty key makes no request; a rejected fetch, a non-ok
   * status, an unreadable body or a TypeError on the answer's shape give
   * `null`.
   */
  method GetArxivUrlFromQuery(userQuery: string, apiKey: string, outcome: FetchOutcome<GeminiResult>)
    returns (url: Option<string>, request: Option<Request>)
    ensures apiKey == "" ==> url == None && request == None
    ensures apiKey != "" ==> request == Some(RequestFor(Instructions, userQuery, apiKey))
    ensures apiKey != "" ==> url == UrlFromOutcome(outcome)
  {
    if apiKey == "" {
      return None, None;
    }
    request := Some(RequestFor(Instructions, userQuery, apiKey));
    if outcome.Rejected? {
      return None, request;
    }
    var response := outcome.response;
    if !response.Ok() {
      return None, request;
    }
    if response.body.Err? {
      return None, request;
    }
    var result := response.body.value;
    var text := "";
    var first := FirstText(result);
    if first.Err? {
      return None, request;
    }
    if first.value.Some? {
      text := Trim(first.value.value);
    }
    url := FindUrl(text);
  }

  /** Every failure of the request, of its status or of its body gives `null`. */
  lemma FailuresGiveNull(outcome: FetchOutcome<GeminiResult>)
    ensures !Succeeded(outcome) ==> UrlFromOutcome(outcome) == None
    ensures Succeeded(outcome) && outcome.response.body.Err? ==> UrlFromOutcome(outcome) == None
  {
  }

  /** A link comes back exactly when the trimmed first text holds one. */
  lemma UrlIffLinkInText(result: GeminiResult, status: int, statusText: string)
    requires 200 <= status <= 299
    ensures var url := UrlFromOutcome(Responded(HttpResponse(status, statusText, Ok(result))));
      && (url.Some? <==> FirstText(result).Ok? && FindUrl(TextOf(FirstText(result).value)).Some?)
      && (url.Some? ==> Contains(TextOf(FirstText(result).value), url.value))
  {
    var url := UrlFromOutcome(Responded(HttpResponse(status, statusText, Ok(result))));
    if url.Some? {
      UrlShape(TextOf(FirstText(result).value));
    }
  }
}

/** `src/utils/geminiArxivUrl.ts`: no key check and no status check; failures propagate. */
module GeminiArxivUrlTs {
  import opened JsRuntime
  import opened JsStrings
  import opened GeminiResponses
  import GeminiArxivUrlTsx

  /** Lines 12-16. */
  const Instructions :=
    "\nYou are an expert at reconstructing arXiv API search URLs.\n"
    + "When given ANY user search query for academic papers, convert it into an optimal arXiv search API URL "
    + "(https://export.arxiv.org/api/query?...) to retrieve as many relevant results as possible.\n"
    + "ONLY RETURN the resulting URL as plain text (no commentary, no code blocks).\n"

  /** Why the call rejects: the fetch, reading the body, or the TypeError on the answer's shape. */
  datatype Failure = FetchFailed(fault: Fault) | BodyFailed(fault: Fault) | ShapeTypeError

  /** What the call settles to for the outcome of its one request. */
  function Settled(outcome: FetchOutcome<GeminiResult>): Result<Option<string>, Failure> {
    match outcome
    case Rejected(f) => Err(FetchFailed(f))
    case Responded(response) =>
      match response.body
      case Err(f) => Err(BodyFailed(f))
      case Ok(result) =>
        var first := FirstText(result);
        if first.Err? then Err(ShapeTypeError) else Ok(FindUrl(TextOf(first.value)))
  }

  /**
   * `getArxivUrlFromQuery(userQuery, apiKey)`: the request is always made,
   * an empty key included; the status is never looked at.
   */
  method GetArxivUrlFromQuery(userQuery: string, apiKey: string, outcome: FetchOutcome<GeminiResult>)
    returns (result: Result<Option<string>, Failure>, request: Request)
    ensures request == RequestFor(Instructions, userQuery, apiKey)
    ensures result == Settled(outcome)
  {
    request := RequestFor(Instructions, userQuery, apiKey);
    if outcome.Rejected? {
      return Err(FetchFailed(outcome.fault)), request;
    }
    var body := outcome.response.body;
    if body.Err? {
      return Err(BodyFailed(body.error)), request;
    }
    var text := "";
    var first := FirstText(body.value);
    if first.Err? {
      return Err(ShapeTypeError), request;
    }
    if first.value.Some? {
      text := Trim(first.value.value);
    }
    result := Ok(FindUrl(text));
  }

  /**
   * The two copies agree whenever the guarded one does not turn a failure
   * into `null`: with a key and an ok, readable, well-shaped answer they give
   * the same link.
   */
  lemma CopiesAgree(outcome: FetchOutcome<GeminiResult>)
    requires Succeeded(outcome) && outcome.response.body.Ok?
    requires FirstText(outcome.response.body.value).Ok?
    ensures Settled(outcome) == Ok(GeminiArxivUrlTsx.UrlFromOutcome(outcome))
  {
  }

  /** A non-ok status is not a failure here: the body is read all the same. */
  lemma StatusIgnored(status: int, statusText: string, result: GeminiResult)
    requires FirstText(result).Ok?
    ensures Settled(Responded(HttpResponse(status, statusText, Ok(result)))) == Ok(FindUrl(TextOf(FirstText(result).value)))
    ensures !(200 <= status <= 299) ==>
              GeminiArxivUrlTsx.UrlFromOutcome(Responded(HttpResponse(status, statusText, Ok(result)))) == None
  {
  }
}
