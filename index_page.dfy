/**
 * The demonstration search page (`src/pages/Index.tsx`): a fixed list of
 * mock papers filtered by a case-insensitive substring match, a loading
 * flag around a delayed update, and the paper selected for viewing.
 *
 * The 500 ms timer is modelled as a queue of pending searches: a search
 * schedules one, and `TimerFires` runs the oldest.
 */
module IndexPage {
  import opened JsRuntime
  import opened JsStrings
  import opened Types

  /** Lines 22-53: the three demonstration papers. */
  const MockPapers: seq<Paper> := [
    Paper("1", "Attention Is All You Need",
          ["Ashish Vaswani", "Noam Shazeer", "Niki Parmar", "Jakob Uszkoreit"],
          "The dominant sequence transduction models are based on complex recurrent or convolutional neural networks "
          + "that include an encoder and a decoder. The best performing models also connect the encoder and decoder "
          + "through an attention mechanism. We propose a new simple network architecture, the Transformer, based "
          + "solely on attention mechanisms, dispensing with recurrence and convolutions entirely.",
          "Computer Science", "Dec 6, 2017", "/papers/attention.pdf", Some(50000), None, None),
    Paper("2", "BERT: Pre-training of Deep Bidirectional Transformers for Language Understanding",
          ["Jacob Devlin", "Ming-Wei Chang", "Kenton Lee", "Kristina Toutanova"],
          "We introduce a new language representation model called BERT, which stands for Bidirectional Encoder "
          + "Representations from Transformers. Unlike recent language representation models, BERT is designed to "
          + "pre-train deep bidirectional representations from unlabeled text by jointly conditioning on both left "
          + "and right context in all layers.",
          "Computer Science", "Oct 11, 2018", "/papers/bert.pdf", Some(45000), None, None),
    Paper("3", "Generative Pre-trained Transformers",
          ["Alec Radford", "Karthik Narasimhan", "Tim Salimans", "Ilya Sutskever"],
          "Natural language understanding comprises a wide range of diverse tasks such as textual entailment, "
          + "question answering, and semantic similarity assessment. Although large unlabeled text corpora are "
          + "abundant, labeled data for learning these specific tasks is scarce, making it challenging for "
          + "discriminatively trained models to perform adequately.",
          "Computer Science", "Jun 11, 2018", "/papers/gpt.pdf", Some(35000), None, None)
  ]

  /** Some author's lower-cased name contains the needle. */
  predicate SomeAuthorContains(authors: seq<string>, needle: string) {
    exists i :: 0 <= i < |authors| && Contains(Lower(authors[i]), needle)
  }

  /** Lines 69-71: the lower-cased query, untrimmed, occurs in the lower-cased title, abstract or an author. */
  predicate Matches(p: Paper, query: string) {
    var needle := Lower(query);
    Contains(Lower(p.title), needle) || Contains(Lower(p.summary), needle) || SomeAuthorContains(p.authors, needle)
  }

  /** Line 68: `papers.filter(...)`. */
  function Filter(papers: seq<Paper>, query: string): (r: seq<Paper>)
    ensures |r| <= |papers|
    ensures forall p :: p in r <==> p in papers && Matches(p, query)
  {
    if papers == [] then []
    else (if Matches(papers[0], query) then [papers[0]] else []) + Filter(papers[1..], query)
  }

  /** `a` is `b` with some elements left out, the rest in their order. */
  predicate SubsequenceOf(a: seq<Paper>, b: seq<Paper>)
    decreases |b|
  {
    if b == [] then a == []
    else SubsequenceOf(a, b[1..]) || (a != [] && a[0] == b[0] && SubsequenceOf(a[1..], b[1..]))
  }

  /** The filter keeps the order of the papers it keeps. */
  lemma {:induction false} FilterIsSubsequence(papers: seq<Paper>, query: string)
    ensures SubsequenceOf(Filter(papers, query), papers)
  {
    if papers != [] {
      FilterIsSubsequence(papers[1..], query);
      var rest := Filter(papers[1..], query);
      if Matches(papers[0], query) {
        var r := Filter(papers, query);
        assert r == [papers[0]] + rest;
        assert r[0] == papers[0] && r[1..] == rest;
        assert SubsequenceOf(r[1..], papers[1..]);
      } else {
        assert Filter(papers, query) == rest;
      }
    }
  }

  /** Lines 67-76: a blank query gives back every mock paper; any other query the matching ones. */
  function SearchResults(mockPapers: seq<Paper>, query: string): (r: seq<Paper>)
    ensures Trim(query) == "" ==> r == mockPapers
    ensures Trim(query) != "" ==> SubsequenceOf(r, mockPapers)
    ensures Trim(query) != "" ==> forall p :: p in r <==> p in mockPapers && Matches(p, query)
  {
    if Trim(query) != "" then
      FilterIsSubsequence(mockPapers, query);
      Filter(mockPapers, query)
    else mockPapers
  }

  /** Filtering distributes over concatenation. */
  lemma {:induction false} FilterAppend(a: seq<Paper>, b: seq<Paper>, query: string)
    ensures Filter(a + b, query) == Filter(a, query) + Filter(b, query)
  {
    if a != [] {
      assert (a + b)[1..] == a[1..] + b;
      FilterAppend(a[1..], b, query);
    } else {
      assert a + b == b;
    }
  }

  /** Filtering twice with the same query is filtering once. */
  lemma {:induction false} FilterIdempotent(papers: seq<Paper>, query: string)
    ensures Filter(Filter(papers, query), query) == Filter(papers, query)
  {
    if papers != [] {
      FilterIdempotent(papers[1..], query);
      var rest := Filter(papers[1..], query);
      var r := Filter(papers, query);
      if Matches(papers[0], query) {
        assert r == [papers[0]] + rest;
        assert r[0] == papers[0] && r[1..] == rest;
        assert Filter(r, query) == [r[0]] + Filter(r[1..], query);
      } else {
        assert r == rest;
      }
    }
  }

  /** A needle with a space in front matches no more than the needle alone. */
  lemma PaddedNeedle(p: Paper, w: string)
    ensures Matches(p, " " + w) ==> Matches(p, w)
  {
    var padded := Lower(" " + w);
    assert padded == " " + Lower(w);
    forall s: string | Contains(s, padded) ensures Contains(s, Lower(w)) {
      var i :| 0 <= i <= |s| && OccursAt(s, padded, i);
      assert s[i + 1..i + 1 + |Lower(w)|] == s[i..i + |padded|][1..];
      assert OccursAt(s, Lower(w), i + 1);
    }
    if Matches(p, " " + w) && SomeAuthorContains(p.authors, padded) {
      var k :| 0 <= k < |p.authors| && Contains(Lower(p.authors[k]), padded);
      assert Contains(Lower(p.authors[k]), Lower(w));
    }
  }

  /**
   * The needle is the query as typed: the space in front of " ab" is part of
   * the needle, so a paper titled "ab" is kept for "ab" and dropped for
   * " ab", a query that is not blank.
   */
  lemma UntrimmedNeedle()
    ensures var p := Paper("1", "ab", [], "", "", "", "", None, None, None);
      Matches(p, "ab") && !Matches(p, " ab") && Trim(" ab") != ""
  {
    var p := Paper("1", "ab", [], "", "", "", "", None, None, None);
    LowerAb();
    assert OccursAt(p.title, "ab", 0);
    assert Matches(p, "ab");
    assert !Contains(p.title, " ab");
    assert !Contains(p.summary, " ab");
    assert !SomeAuthorContains(p.authors, " ab");
    NotBlank();
  }

  lemma LowerAb()
    ensures Lower("ab") == "ab" && Lower(" ab") == " ab"
  {
  }

  lemma NotBlank()
    ensures Trim(" ab") != ""
  {
    TrimEmptyIff(" ab");
    assert !IsWhitespace(" ab"[1]);
  }

  /** The page's state. */
  class SearchPage {
    const mockPapers: seq<Paper>
    var searchQuery: string
    var papers: seq<Paper>
    var selectedPaper: Option<Paper>
    var loading: bool
    /** The searches whose timer has not fired yet, oldest first. */
    var pending: seq<string>

    /** Lines 56-59. */
    constructor (mockPapers: seq<Paper>)
      ensures this.mockPapers == mockPapers
      ensures searchQuery == "" && papers == mockPapers && selectedPaper == None && !loading && pending == []
    {
      this.mockPapers := mockPapers;
      searchQuery := "";
      papers := mockPapers;
      selectedPaper := None;
      loading := false;
      pending := [];
    }

    /** `setSearchQuery`, the search box's `onChange`. */
    method SetSearchQuery(query: string)
      modifies this
      ensures searchQuery == query
      ensures papers == old(papers) && selectedPaper == old(selectedPaper) && loading == old(loading) && pending == old(pending)
    {
      searchQuery := query;
    }

    /** Lines 61-66: loading is set at once, and the search waits for its timer. */
    method HandleSearch(query: string)
      modifies this
      ensures loading && pending == old(pending) + [query]
      ensures searchQuery == old(searchQuery) && papers == old(papers) && selectedPaper == old(selectedPaper)
    {
      loading := true;
      pending := pending + [query];
    }

    /** Lines 66-78: the oldest timer fires, the papers become its results and loading is cleared. */
    method TimerFires()
      modifies this
      ensures old(pending) == [] ==>
                pending == [] && papers == old(papers) && loading == old(loading)
      ensures old(pending) != [] ==>
                && pending == old(pending)[1..]
                && papers == SearchResults(mockPapers, old(pending)[0])
                && !loading
      ensures searchQuery == old(searchQuery) && selectedPaper == old(selectedPaper)
    {
      if pending == [] {
        return;
      }
      var query := pending[0];
      pending := pending[1..];
      if Trim(query) != "" {
        var filteredPapers := Filter(mockPapers, query);
        papers := filteredPapers;
      } else {
        papers := mockPapers;
      }
      loading := false;
    }

    /** Lines 86-88. */
    method HandleViewPaper(paper: Paper)
      modifies this
      ensures selectedPaper == Some(paper)
      ensures searchQuery == old(searchQuery) && papers == old(papers) && loading == old(loading) && pending == old(pending)
    {
      selectedPaper := Some(paper);
    }

    /** Lines 90-92. */
    method HandleClosePaper()
      modifies this
      ensures selectedPaper == None
      ensures searchQuery == old(searchQuery) && papers == old(papers) && loading == old(loading) && pending == old(pending)
    {
      selectedPaper := None;
    }
  }

  /** A search followed by its timer leaves the page showing that search's results, no longer loading. */
  method SearchThenFire(page: SearchPage, query: string)
    requires page.pending == []
    modifies page
    ensures page.papers == SearchResults(page.mockPapers, query)
    ensures !page.loading && page.pending == []
  {
    page.HandleSearch(query);
    page.TimerFires();
  }

  /** The page as the source starts it, with the demonstration papers. */
  method NewSearchPage() returns (page: SearchPage)
    ensures fresh(page) && page.mockPapers == MockPapers && page.papers == MockPapers
  {
    page := new SearchPage(MockPapers);
  }
}
