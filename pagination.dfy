/**
 * The pagination bar (`src/components/PaginationControls.tsx`): a window
 * of at most five page links around the current page, the first and last
 * page with ellipses when the window does not reach them, and the result
 * range shown above the bar.
 */
module PaginationControls {
  import opened JsRuntime

  const MaxVisiblePages := 5

  /** An element of the bar: a page link, active when it is the current page, or one of the two ellipses. */
  datatype Item = PageLink(page: int, active: bool) | StartEllipsis | EndEllipsis

  function Max(a: int, b: int): int {
    if a >= b then a else b
  }

  function Min(a: int, b: int): int {
    if a <= b then a else b
  }

  /**
   * Lines 40-45: the first and last page of the window. It always holds
   * min(5, totalPages) pages within 1..totalPages, holds the current page
   * when that is in range, and is centred on it when there is room.
   */
  function Window(currentPage: int, totalPages: int): (w: (int, int))
    ensures totalPages >= 1 ==> 1 <= w.0 && w.1 <= totalPages && w.1 - w.0 + 1 == Min(MaxVisiblePages, totalPages)
    ensures totalPages >= 1 && 1 <= currentPage <= totalPages ==> w.0 <= currentPage <= w.1
    ensures 3 <= currentPage <= totalPages - 2 ==> w == (currentPage - 2, currentPage + 2)
  {
    var startPage := Max(1, currentPage - MaxVisiblePages / 2);
    var endPage := Min(totalPages, startPage + MaxVisiblePages - 1);
    var startPage' := if endPage - startPage < MaxVisiblePages - 1 then Max(1, endPage - MaxVisiblePages + 1) else startPage;
    (startPage', endPage)
  }

  /** Page 1 and the leading ellipsis, before a window starting at `startPage`. */
  function Leading(startPage: int, currentPage: int): seq<Item> {
    if startPage > 1 then [PageLink(1, currentPage == 1)] + (if startPage > 2 then [StartEllipsis] else [])
    else []
  }

  /** The links of pages lo..hi, in order. */
  function Links(lo: int, hi: int, currentPage: int): seq<Item> {
    seq(Max(0, hi - lo + 1), k => PageLink(lo + k, currentPage == lo + k))
  }

  lemma LinksSnoc(lo: int, hi: int, currentPage: int)
    requires lo <= hi + 1
    ensures Links(lo, hi + 1, currentPage) == Links(lo, hi, currentPage) + [PageLink(hi + 1, currentPage == hi + 1)]
  {
  }

  /** The trailing ellipsis and the last page, after a window ending at `endPage`. */
  function Trailing(endPage: int, totalPages: int, currentPage: int): seq<Item> {
    if endPage < totalPages then
      (if endPage < totalPages - 1 then [EndEllipsis] else []) + [PageLink(totalPages, currentPage == totalPages)]
    else []
  }

  /** The items for the window startPage..endPage. */
  function ItemsIn(startPage: int, endPage: int, currentPage: int, totalPages: int): seq<Item> {
    Leading(startPage, currentPage) + Links(startPage, endPage, currentPage) + Trailing(endPage, totalPages, currentPage)
  }

  /** The bar's items. */
  function Items(currentPage: int, totalPages: int): seq<Item> {
    ItemsIn(Window(currentPage, totalPages).0, Window(currentPage, totalPages).1, currentPage, totalPages)
  }

  /** `renderPaginationItems()`: pushes the leading items, the window's links one by one, then the trailing items. */
  method RenderPaginationItems(currentPage: int, totalPages: int) returns (items: seq<Item>)
    ensures items == Items(currentPage, totalPages)
  {
    items := [];
    var startPage := Max(1, currentPage - MaxVisiblePages / 2);
    var endPage := Min(totalPages, startPage + MaxVisiblePages - 1);
    if endPage - startPage < MaxVisiblePages - 1 {
      startPage := Max(1, endPage - MaxVisiblePages + 1);
    }
    assert (startPage, endPage) == Window(currentPage, totalPages);
    items := PushLeading(items, startPage, currentPage);
    items := PushLinks(items, startPage, endPage, currentPage);
    items := PushTrailing(items, endPage, totalPages, currentPage);
    assert items == ItemsIn(startPage, endPage, currentPage, totalPages);
  }

  /** Lines 47-58: page 1 and the leading ellipsis, pushed before the window. */
  method PushLeading(items: seq<Item>, startPage: int, currentPage: int) returns (items': seq<Item>)
    ensures items' == items + Leading(startPage, currentPage)
  {
    items' := items;
    if startPage > 1 {
      items' := items' + [PageLink(1, currentPage == 1)];
      if startPage > 2 {
        items' := items' + [StartEllipsis];
      }
    }
  }

  /** Lines 60-72: one link per page of the window, in ascending order. */
  method PushLinks(items: seq<Item>, startPage: int, endPage: int, currentPage: int) returns (items': seq<Item>)
    ensures items' == items + Links(startPage, endPage, currentPage)
  {
    items' := items;
    var page := startPage;
    while page <= endPage
      invariant startPage <= page <= Max(startPage, endPage + 1)
      invariant items' == items + Links(startPage, page - 1, currentPage)
    {
      LinksSnoc(startPage, page - 1, currentPage);
      items' := items' + [PageLink(page, currentPage == page)];
      page := page + 1;
    }
    assert Links(startPage, page - 1, currentPage) == Links(startPage, endPage, currentPage);
  }

  /** Lines 74-85: the trailing ellipsis and the last page, pushed after the window. */
  method PushTrailing(items: seq<Item>, endPage: int, totalPages: int, currentPage: int) returns (items': seq<Item>)
    ensures items' == items + Trailing(endPage, totalPages, currentPage)
  {
    items' := items;
    if endPage < totalPages {
      if endPage < totalPages - 1 {
        items' := items' + [EndEllipsis];
      }
      items' := items' + [PageLink(totalPages, currentPage == totalPages)];
    }
  }

  predicate PagesIncreasing(items: seq<Item>) {
    forall i, j :: 0 <= i < j < |items| && items[i].PageLink? && items[j].PageLink? ==> items[i].page < items[j].page
  }

  predicate PagesWithin(items: seq<Item>, lo: int, hi: int) {
    forall i :: 0 <= i < |items| && items[i].PageLink? ==> lo <= items[i].page <= hi
  }

  lemma IncreasingConcat(a: seq<Item>, b: seq<Item>, aHi: int)
    requires PagesIncreasing(a) && PagesIncreasing(b)
    requires forall i :: 0 <= i < |a| && a[i].PageLink? ==> a[i].page <= aHi
    requires forall j :: 0 <= j < |b| && b[j].PageLink? ==> aHi < b[j].page
    ensures PagesIncreasing(a + b)
  {
    var ab := a + b;
    forall i, j | 0 <= i < j < |ab| && ab[i].PageLink? && ab[j].PageLink? ensures ab[i].page < ab[j].page {
      if j < |a| {
        assert ab[i] == a[i] && ab[j] == a[j];
      } else if i >= |a| {
        assert ab[i] == b[i - |a|] && ab[j] == b[j - |a|];
      } else {
        assert ab[i] == a[i] && ab[j] == b[j - |a|];
      }
    }
  }

  lemma LinksOrdered(lo: int, hi: int, currentPage: int)
    ensures PagesIncreasing(Links(lo, hi, currentPage)) && PagesWithin(Links(lo, hi, currentPage), lo, hi)
  {
  }

  /** The items for a window within 1..totalPages: pages increasing and in range, page 1 first and totalPages last. */
  lemma ItemsInOrdered(s: int, e: int, currentPage: int, totalPages: int)
    requires 1 <= s <= e <= totalPages
    ensures var items := ItemsIn(s, e, currentPage, totalPages);
      && PagesIncreasing(items) && PagesWithin(items, 1, totalPages)
      && |items| >= 1
      && items[0] == PageLink(1, currentPage == 1)
      && items[|items| - 1] == PageLink(totalPages, currentPage == totalPages)
  {
    var lead := Leading(s, currentPage);
    var links := Links(s, e, currentPage);
    var trail := Trailing(e, totalPages, currentPage);
    LinksOrdered(s, e, currentPage);
    IncreasingConcat(lead, links, s - 1);
    IncreasingConcat(lead + links, trail, e);
    WithinConcat(lead, links, trail, 1, totalPages);
    ItemsEnds(s, e, currentPage, totalPages);
  }

  lemma WithinConcat(a: seq<Item>, b: seq<Item>, c: seq<Item>, lo: int, hi: int)
    requires PagesWithin(a, lo, hi) && PagesWithin(b, lo, hi) && PagesWithin(c, lo, hi)
    ensures PagesWithin(a + b + c, lo, hi)
  {
    var abc := a + b + c;
    forall i | 0 <= i < |abc| && abc[i].PageLink? ensures lo <= abc[i].page <= hi {
      if i < |a| {
        assert abc[i] == a[i];
      } else if i < |a| + |b| {
        assert abc[i] == b[i - |a|];
      } else {
        assert abc[i] == c[i - |a| - |b|];
      }
    }
  }

  /** The items for a window within 1..totalPages start with page 1 and end with totalPages. */
  lemma ItemsEnds(s: int, e: int, currentPage: int, totalPages: int)
    requires 1 <= s <= e <= totalPages
    ensures var items := ItemsIn(s, e, currentPage, totalPages);
      && |items| >= 1
      && items[0] == PageLink(1, currentPage == 1)
      && items[|items| - 1] == PageLink(totalPages, currentPage == totalPages)
  {
    var lead := Leading(s, currentPage);
    var links := Links(s, e, currentPage);
    var trail := Trailing(e, totalPages, currentPage);
    var items := lead + links + trail;
    assert items == ItemsIn(s, e, currentPage, totalPages);
    assert |links| == e - s + 1;
    if s == 1 {
      assert items[0] == links[0];
    } else {
      assert items[0] == lead[0];
    }
    if e == totalPages {
      assert items[|items| - 1] == links[|links| - 1];
    } else {
      assert items[|items| - 1] == trail[|trail| - 1];
    }
  }

  /**
   * The page numbers on the bar are strictly increasing and within
   * 1..totalPages; page 1 comes first and page totalPages last.
   */
  lemma PageNumbersOrdered(currentPage: int, totalPages: int)
    requires totalPages > 1
    ensures var items := Items(currentPage, totalPages);
      && PagesIncreasing(items) && PagesWithin(items, 1, totalPages)
      && |items| >= 2
      && items[0] == PageLink(1, currentPage == 1)
      && items[|items| - 1] == PageLink(totalPages, currentPage == totalPages)
  {
    var (s, e) := Window(currentPage, totalPages);
    ItemsInOrdered(s, e, currentPage, totalPages);
  }

  /** Page 1 is added before the window iff it starts after page 1, with the ellipsis iff it starts after page 2. */
  lemma LeadingRule(currentPage: int, totalPages: int)
    ensures var (s, _) := Window(currentPage, totalPages);
      && (PageLink(1, currentPage == 1) in Leading(s, currentPage) <==> s > 1)
      && (StartEllipsis in Items(currentPage, totalPages) <==> s > 2)
  {
    var (s, e) := Window(currentPage, totalPages);
    var items := Items(currentPage, totalPages);
    var lead := Leading(s, currentPage);
    var links := Links(s, e, currentPage);
    var trail := Trailing(e, totalPages, currentPage);
    assert items == lead + links + trail;
    assert StartEllipsis !in links;
    assert StartEllipsis !in trail;
  }

  /** The last page is added after the window iff it ends before it, with the ellipsis iff it ends two or more pages before. */
  lemma TrailingRule(currentPage: int, totalPages: int)
    ensures var (_, e) := Window(currentPage, totalPages);
      && (PageLink(totalPages, currentPage == totalPages) in Trailing(e, totalPages, currentPage) <==> e < totalPages)
      && (EndEllipsis in Items(currentPage, totalPages) <==> e < totalPages - 1)
  {
    var (s, e) := Window(currentPage, totalPages);
    var items := Items(currentPage, totalPages);
    var lead := Leading(s, currentPage);
    var links := Links(s, e, currentPage);
    var trail := Trailing(e, totalPages, currentPage);
    assert items == lead + links + trail;
    assert EndEllipsis !in links;
    assert EndEllipsis !in lead;
  }

  /** Exactly one link is active when the current page is in range, and it is the current page's. */
  lemma ActiveLink(currentPage: int, totalPages: int)
    requires 1 <= currentPage <= totalPages
    ensures var items := Items(currentPage, totalPages);
      forall i :: 0 <= i < |items| && items[i].PageLink? ==> (items[i].active <==> items[i].page == currentPage)
    ensures PageLink(currentPage, true) in Items(currentPage, totalPages)
  {
    var (s, e) := Window(currentPage, totalPages);
    var links := Links(s, e, currentPage);
    assert links[currentPage - s] == PageLink(currentPage, true);
    assert Items(currentPage, totalPages) == Leading(s, currentPage) + links + Trailing(e, totalPages, currentPage);
  }

  /** Line 90: the number, counting from 1, of the first result on the page. */
  function StartResult(currentPage: int, resultsPerPage: int): (r: int)
    ensures currentPage >= 1 && resultsPerPage >= 0 ==> r >= 1
    ensures r + resultsPerPage - 1 == currentPage * resultsPerPage
  {
    (currentPage - 1) * resultsPerPage + 1
  }

  /** Line 91: the number of the last result on the page. */
  function EndResult(currentPage: int, resultsPerPage: int, totalResults: int): (r: int)
    ensures r <= totalResults && r <= currentPage * resultsPerPage
    ensures r == totalResults || r == currentPage * resultsPerPage
  {
    Min(currentPage * resultsPerPage, totalResults)
  }

  /**
   * On a page that holds results, the range shown covers exactly that
   * page's results: a full page, or what is left on the last one.
   */
  lemma ResultRange(currentPage: int, resultsPerPage: int, totalResults: int)
    requires resultsPerPage > 0 && currentPage >= 1
    requires (currentPage - 1) * resultsPerPage < totalResults
    ensures 1 <= StartResult(currentPage, resultsPerPage) <= EndResult(currentPage, resultsPerPage, totalResults) <= totalResults
    ensures EndResult(currentPage, resultsPerPage, totalResults) - StartResult(currentPage, resultsPerPage) + 1
            == Min(resultsPerPage, totalResults - (currentPage - 1) * resultsPerPage)
  {
  }

  /** What the component draws when there is more than one page. */
  datatype Controls = Controls(
    items: seq<Item>,
    startResult: int,
    endResult: int,
    totalResults: int,
    prevEnabled: bool,
    nextEnabled: bool)

  /**
   * `PaginationControls(props)`: nothing when there is at most one page;
   * otherwise the items, the result range, and the previous and next
   * buttons, each enabled when its move is possible and nothing is loading.
   */
  method Render(currentPage: int, totalPages: int, totalResults: int, resultsPerPage: int,
                hasNextPage: bool, hasPrevPage: bool, isLoading: bool) returns (c: Option<Controls>)
    ensures c.None? <==> totalPages <= 1
    ensures c.Some? ==> c.value.items == Items(currentPage, totalPages)
    ensures c.Some? ==> c.value.startResult == StartResult(currentPage, resultsPerPage)
                        && c.value.endResult == EndResult(currentPage, resultsPerPage, totalResults)
                        && c.value.totalResults == totalResults
    ensures c.Some? ==> (c.value.prevEnabled <==> hasPrevPage && !isLoading)
                        && (c.value.nextEnabled <==> hasNextPage && !isLoading)
  {
    if totalPages <= 1 {
      return None;
    }
    var items := RenderPaginationItems(currentPage, totalPages);
    var startResult := (currentPage - 1) * resultsPerPage + 1;
    var endResult := Min(currentPage * resultsPerPage, totalResults);
    c := Some(Controls(items, startResult, endResult, totalResults,
                       !(!hasPrevPage || isLoading), !(!hasNextPage || isLoading)));
  }
}

/**
 * The pagination hook (`src/hooks/usePagination.ts`): the current page and
 * the result count, with the page count and the first index derived from
 * them.
 */
module PaginationHook {
  import PaginationControls

  const DefaultInitialPage := 1
  const DefaultResultsPerPage := 50

  /** `Math.ceil(a / b)` for b > 0. */
  function CeilDiv(a: int, b: int): (q: int)
    requires b > 0
    ensures (q - 1) * b < a <= q * b
  {
    -((-a) / b)
  }

  class Pagination {
    var currentPage: int
    var totalResults: int
    var isLoadingMore: bool
    const resultsPerPage: int

    /** `usePagination({ initialPage, resultsPerPage })`, with the defaults 1 and 50. */
    constructor (initialPage: int := DefaultInitialPage, resultsPerPage: int := DefaultResultsPerPage)
      requires resultsPerPage > 0
      ensures currentPage == initialPage && totalResults == 0 && !isLoadingMore
      ensures this.resultsPerPage == resultsPerPage
    {
      currentPage := initialPage;
      totalResults := 0;
      isLoadingMore := false;
      this.resultsPerPage := resultsPerPage;
    }

    /** `Math.ceil(totalResults / resultsPerPage)` */
    function TotalPages(): (r: int)
      reads this
      requires resultsPerPage > 0
      ensures (r - 1) * resultsPerPage < totalResults <= r * resultsPerPage
      ensures totalResults >= 0 ==> r >= 0
    {
      CeilDiv(totalResults, resultsPerPage)
    }

    /** The index of the first result on the current page. */
    function StartIndex(): (r: int)
      reads this
      ensures r + 1 == PaginationControls.StartResult(currentPage, resultsPerPage)
      ensures currentPage >= 1 && resultsPerPage >= 0 ==> r >= 0
    {
      (currentPage - 1) * resultsPerPage
    }

    /** There is a next page exactly when results remain after the current page's last slot. */
    predicate HasNextPage(): (b: bool)
      reads this
      requires resultsPerPage > 0
      ensures b <==> currentPage * resultsPerPage < totalResults
    {
      currentPage < TotalPages()
    }

    /** There is a previous page exactly when at least a page of results comes before this one. */
    predicate HasPrevPage(): (b: bool)
      reads this
      ensures resultsPerPage > 0 ==> (b <==> StartIndex() >= resultsPerPage)
    {
      currentPage > 1
    }

    /** Moves to `page` iff it lies in 1..totalPages; otherwise changes nothing. */
    method GoToPage(page: int)
      requires resultsPerPage > 0
      modifies this`currentPage
      ensures currentPage == if 1 <= page <= old(TotalPages()) then page else old(currentPage)
    {
      if page >= 1 && page <= TotalPages() {
        currentPage := page;
      }
    }

    /** From a page >= 1, moves forward by one exactly when there is a next page. */
    method NextPage()
      requires resultsPerPage > 0
      modifies this`currentPage
      ensures currentPage == if 1 <= old(currentPage) + 1 <= old(TotalPages()) then old(currentPage) + 1 else old(currentPage)
      ensures old(currentPage) >= 1 ==> (currentPage != old(currentPage) <==> old(HasNextPage()))
    {
      GoToPage(currentPage + 1);
    }

    /** Moves back by one exactly when there is a previous page that is within the page count. */
    method PrevPage()
      requires resultsPerPage > 0
      modifies this`currentPage
      ensures currentPage == if 1 <= old(currentPage) - 1 <= old(TotalPages()) then old(currentPage) - 1 else old(currentPage)
      ensures old(currentPage) <= old(TotalPages()) ==> (currentPage != old(currentPage) <==> old(HasPrevPage()))
    {
      GoToPage(currentPage - 1);
    }

    /** `resetPagination()` */
    method ResetPagination()
      modifies this`currentPage, this`totalResults
      ensures currentPage == 1 && totalResults == 0
    {
      currentPage := 1;
      totalResults := 0;
    }

    /** `setTotalResults(n)` */
    method SetTotalResults(n: int)
      modifies this`totalResults
      ensures totalResults == n
    {
      totalResults := n;
    }

    /** `setIsLoadingMore(b)` */
    method SetIsLoadingMore(b: bool)
      modifies this`isLoadingMore
      ensures isLoadingMore == b
    {
      isLoadingMore := b;
    }
  }

  /** The page count is the least number of pages of `resultsPerPage` that hold all results. */
  lemma TotalPagesIsLeast(totalResults: int, resultsPerPage: int)
    requires resultsPerPage > 0 && totalResults >= 0
    ensures var n := CeilDiv(totalResults, resultsPerPage);
      n >= 0 && totalResults <= n * resultsPerPage
      && forall m :: 0 <= m < n ==> m * resultsPerPage < totalResults
  {
    var n := CeilDiv(totalResults, resultsPerPage);
    forall m | 0 <= m < n ensures m * resultsPerPage < totalResults {
      assert m * resultsPerPage <= (n - 1) * resultsPerPage by {
        assert m <= n - 1;
      }
    }
  }

  /**
   * The hook and the bar agree: the bar's first result is the hook's start
   * index plus one, and on every page the hook can move to, the start index
   * is the index of a result.
   */
  lemma StartIndexMatchesStartResult(p: Pagination)
    requires p.resultsPerPage > 0 && 1 <= p.currentPage <= p.TotalPages()
    ensures PaginationControls.StartResult(p.currentPage, p.resultsPerPage) == p.StartIndex() + 1
    ensures 0 <= p.StartIndex() < p.totalResults
  {
    var n := p.TotalPages();
    assert (p.currentPage - 1) * p.resultsPerPage <= (n - 1) * p.resultsPerPage by {
      assert p.currentPage - 1 <= n - 1;
    }
  }
}
