/**
 * The search state kept across navigation (`src/utils/searchStateManager.ts`):
 * one session-storage entry holding the query, the results and the
 * filters, merged shallowly on save, timestamped, and dropped after 24
 * hours.
 *
 * Session storage is a map from keys to entries. An entry is a state that
 * was saved, or a value that does not parse. The clock is a parameter.
 */
module SearchStateManager {
  import opened JsRuntime
  import opened Types

  const StorageKey := "arxiv_search_state"
  /** 24 hours, in milliseconds. */
  const StorageExpiry := 24 * 60 * 60 * 1000

  datatype Filters = Filters(category: string, year: string, author: string, sortBy: string)

  datatype SearchState = SearchState(
    query: string,
    papers: seq<Paper>,
    currentPage: int,
    totalResults: int,
    totalPages: int,
    resultsPerPage: int,
    filters: Filters,
    hasSearched: bool,
    timestamp: int)

  /** `Partial<SearchState>`: every field may be absent. */
  datatype PartialState = PartialState(
    query: Option<string>,
    papers: Option<seq<Paper>>,
    currentPage: Option<int>,
    totalResults: Option<int>,
    totalPages: Option<int>,
    resultsPerPage: Option<int>,
    filters: Option<Filters>,
    hasSearched: Option<bool>,
    timestamp: Option<int>)

  /** A session-storage entry: what `saveSearchState` wrote, or text that `JSON.parse` rejects. */
  datatype Stored = Saved(state: SearchState) | Unparsable

  const DefaultState := SearchState("", [], 1, 0, 1, 50, Filters("all", "", "", "date"), false, 0)

  function Pick<T>(o: Option<T>, fallback: T): (r: T)
    ensures o.Some? ==> r == o.value
    ensures o.None? ==> r == fallback
  {
    if o.Some? then o.value else fallback
  }

  /** `{ ...current, ...partial, timestamp: now }` */
  function Merge(current: SearchState, partial: PartialState, now: int): (r: SearchState)
    ensures r.query == if partial.query.Some? then partial.query.value else current.query
    ensures r.papers == if partial.papers.Some? then partial.papers.value else current.papers
    ensures r.currentPage == if partial.currentPage.Some? then partial.currentPage.value else current.currentPage
    ensures r.totalResults == if partial.totalResults.Some? then partial.totalResults.value else current.totalResults
    ensures r.totalPages == if partial.totalPages.Some? then partial.totalPages.value else current.totalPages
    ensures r.resultsPerPage == if partial.resultsPerPage.Some? then partial.resultsPerPage.value else current.resultsPerPage
    ensures r.filters == if partial.filters.Some? then partial.filters.value else current.filters
    ensures r.hasSearched == if partial.hasSearched.Some? then partial.hasSearched.value else current.hasSearched
    ensures r.timestamp == now
  {
    SearchState(
      Pick(partial.query, current.query),
      Pick(partial.papers, current.papers),
      Pick(partial.currentPage, current.currentPage),
      Pick(partial.totalResults, current.totalResults),
      Pick(partial.totalPages, current.totalPages),
      Pick(partial.resultsPerPage, current.resultsPerPage),
      Pick(partial.filters, current.filters),
      Pick(partial.hasSearched, current.hasSearched),
      now)
  }

  /** A state is expired when more than 24 hours have passed since it was saved. */
  predicate Expired(state: SearchState, now: int) {
    now - state.timestamp > StorageExpiry
  }

  /** What `getSearchState` returns for an entry: the stored state when there is one that has not expired, else the default. */
  function Read(entry: Option<Stored>, now: int): (r: SearchState)
    ensures entry.Some? && entry.value.Saved? && !Expired(entry.value.state, now) ==> r == entry.value.state
    ensures !(entry.Some? && entry.value.Saved? && !Expired(entry.value.state, now)) ==> r == DefaultState
  {
    match entry
    case None => DefaultState
    case Some(Unparsable) => DefaultState
    case Some(Saved(state)) => if Expired(state, now) then DefaultState else state
  }

  /** `partial2` laid over `partial1`. */
  function Overlay(partial1: PartialState, partial2: PartialState): PartialState {
    PartialState(
      if partial2.query.Some? then partial2.query else partial1.query,
      if partial2.papers.Some? then partial2.papers else partial1.papers,
      if partial2.currentPage.Some? then partial2.currentPage else partial1.currentPage,
      if partial2.totalResults.Some? then partial2.totalResults else partial1.totalResults,
      if partial2.totalPages.Some? then partial2.totalPages else partial1.totalPages,
      if partial2.resultsPerPage.Some? then partial2.resultsPerPage else partial1.resultsPerPage,
      if partial2.filters.Some? then partial2.filters else partial1.filters,
      if partial2.hasSearched.Some? then partial2.hasSearched else partial1.hasSearched,
      if partial2.timestamp.Some? then partial2.timestamp else partial1.timestamp)
  }

  /**
   * The merge is shallow: a supplied field replaces the current one whole
   * (`filters` included: a new filter record is not merged key by key), an
   * absent field keeps its value, and a supplied timestamp is ignored.
   */
  lemma MergeIsShallow(current: SearchState, partial: PartialState, now: int)
    ensures var r := Merge(current, partial, now);
      && (partial.query.Some? ==> r.query == partial.query.value) && (partial.query.None? ==> r.query == current.query)
      && (partial.papers.Some? ==> r.papers == partial.papers.value) && (partial.papers.None? ==> r.papers == current.papers)
      && (partial.currentPage.Some? ==> r.currentPage == partial.currentPage.value) && (partial.currentPage.None? ==> r.currentPage == current.currentPage)
      && (partial.totalResults.Some? ==> r.totalResults == partial.totalResults.value) && (partial.totalResults.None? ==> r.totalResults == current.totalResults)
      && (partial.totalPages.Some? ==> r.totalPages == partial.totalPages.value) && (partial.totalPages.None? ==> r.totalPages == current.totalPages)
      && (partial.resultsPerPage.Some? ==> r.resultsPerPage == partial.resultsPerPage.value) && (partial.resultsPerPage.None? ==> r.resultsPerPage == current.resultsPerPage)
      && (partial.filters.Some? ==> r.filters == partial.filters.value) && (partial.filters.None? ==> r.filters == current.filters)
      && (partial.hasSearched.Some? ==> r.hasSearched == partial.hasSearched.value) && (partial.hasSearched.None? ==> r.hasSearched == current.hasSearched)
      && r.timestamp == now
    ensures Merge(current, partial, now) == Merge(current, partial.(timestamp := None), now)
  {
  }

  /** Two saves in a row come to one save of the second partial laid over the first. */
  lemma MergeTwice(current: SearchState, partial1: PartialState, partial2: PartialState, t1: int, t2: int)
    ensures Merge(Merge(current, partial1, t1), partial2, t2) == Merge(current, Overlay(partial1, partial2), t2)
  {
  }

  /** Saving everything that is absent only refreshes the timestamp. */
  lemma EmptySaveRefreshes(current: SearchState, now: int)
    ensures Merge(current, PartialState(None, None, None, None, None, None, None, None, None), now)
            == current.(timestamp := now)
  {
  }

  /** A saved state is read back while at most 24 hours old, and the default is read after that. */
  lemma ExpiryBoundary(state: SearchState, now: int)
    ensures now <= state.timestamp + StorageExpiry ==> Read(Some(Saved(state)), now) == state
    ensures now > state.timestamp + StorageExpiry ==> Read(Some(Saved(state)), now) == DefaultState
  {
  }

  /** The default state is not one a user returns to. */
  lemma DefaultIsNotReturning()
    ensures !(DefaultState.hasSearched && |DefaultState.papers| > 0)
  {
  }

  /** Session storage. */
  class SessionStore {
    var items: map<string, Stored>

    constructor ()
      ensures items == map[]
    {
      items := map[];
    }

    /** The entry under the state's key. */
    function Entry(): Option<Stored>
      reads this
    {
      if StorageKey in items then Some(items[StorageKey]) else None
    }

    /**
     * `getSearchState()`: the stored state, or the default; an expired
     * entry is removed before the default is returned.
     */
    method GetSearchState(now: int) returns (state: SearchState)
      modifies this
      ensures state == Read(old(Entry()), now)
      ensures items == if old(Entry()).Some? && old(Entry()).value.Saved? && Expired(old(Entry()).value.state, now)
                       then old(items) - {StorageKey} else old(items)
    {
      if StorageKey !in items {
        return DefaultState;
      }
      var stored := items[StorageKey];
      if stored.Unparsable? {
        return DefaultState;
      }
      if now - stored.state.timestamp > StorageExpiry {
        ClearSearchState();
        return DefaultState;
      }
      state := stored.state;
    }

    /**
     * `saveSearchState(partial)`: the state read now, with the partial laid
     * over it and stamped with the time, replaces the entry. When the write
     * is refused (`writeFails`, a full storage quota) the error is swallowed,
     * but an expired entry has already been removed by the read.
     */
    method SaveSearchState(partial: PartialState, now: int, writeFails: bool)
      modifies this
      ensures !writeFails ==> items == old(items)[StorageKey := Saved(Merge(Read(old(Entry()), now), partial, now))]
      ensures writeFails ==> items == if old(Entry()).Some? && old(Entry()).value.Saved? && Expired(old(Entry()).value.state, now)
                                       then old(items) - {StorageKey} else old(items)
    {
      var currentState := GetSearchState(now);
      var newState := Merge(currentState, partial, now);
      if !writeFails {
        items := items[StorageKey := Saved(newState)];
      }
    }

    /** `clearSearchState()` */
    method ClearSearchState()
      modifies this
      ensures items == old(items) - {StorageKey}
      ensures Entry() == None
    {
      items := items - {StorageKey};
    }

    /** `isReturningFromPaperView()`: a search was made and it found papers. */
    method IsReturningFromPaperView(now: int) returns (b: bool)
      modifies this
      ensures b <==> Read(old(Entry()), now).hasSearched && |Read(old(Entry()), now).papers| > 0
      ensures b ==> old(Entry()).Some? && old(Entry()).value.Saved?
      ensures items == if old(Entry()).Some? && old(Entry()).value.Saved? && Expired(old(Entry()).value.state, now)
                       then old(items) - {StorageKey} else old(items)
    {
      var state := GetSearchState(now);
      b := state.hasSearched && |state.papers| > 0;
    }
  }

  /** A save followed by a read at most 24 hours later gives back the merged state. */
  method SaveThenGet(store: SessionStore, partial: PartialState, t1: int, t2: int) returns (state: SearchState)
    requires t1 <= t2 <= t1 + StorageExpiry
    modifies store
    ensures state == Merge(Read(old(store.Entry()), t1), partial, t1)
    ensures store.Entry() == Some(Saved(state))
  {
    store.SaveSearchState(partial, t1, false);
    state := store.GetSearchState(t2);
  }

  /** After a clear, a read gives the default state. */
  method ClearThenGet(store: SessionStore, now: int) returns (state: SearchState)
    modifies store
    ensures state == DefaultState
  {
    store.ClearSearchState();
    state := store.GetSearchState(now);
  }
}
