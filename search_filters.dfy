/**
 * The filter panel (`src/components/SearchFilters.tsx`): a four-field filter
 * record that starts from fixed defaults overridden by the initial filters,
 * changes one field at a time, reports every new record to its parent, and
 * can be reset to the defaults while it differs from them.
 *
 * The parent's callback is modelled by `notified`, the records passed to it
 * so far.
 */
module SearchFilters {
  import opened JsRuntime
  import opened SearchStateManager

  /** Lines 18-21. */
  const DefaultFilters := Filters("all", "", "", "date")

  /** The `initialFilters` prop: each key may be present or not. */
  datatype FilterOverrides = FilterOverrides(
    category: Option<string>, year: Option<string>, author: Option<string>, sortBy: Option<string>)

  /** The four keys `handleFilterChange` is called with. */
  datatype FilterKey = Category | Year | Author | SortBy

  /** `{ ...current, ...overrides }` */
  function Override(current: Filters, overrides: FilterOverrides): (r: Filters)
    ensures r.category == (if overrides.category.Some? then overrides.category.value else current.category)
    ensures r.year == (if overrides.year.Some? then overrides.year.value else current.year)
    ensures r.author == (if overrides.author.Some? then overrides.author.value else current.author)
    ensures r.sortBy == (if overrides.sortBy.Some? then overrides.sortBy.value else current.sortBy)
  {
    Filters(
      Pick(overrides.category, current.category),
      Pick(overrides.year, current.year),
      Pick(overrides.author, current.author),
      Pick(overrides.sortBy, current.sortBy))
  }

  /** `{ ...filters, [key]: value }` */
  function With(filters: Filters, key: FilterKey, value: string): (r: Filters)
    ensures r.category == (if key == Category then value else filters.category)
    ensures r.year == (if key == Year then value else filters.year)
    ensures r.author == (if key == Author then value else filters.author)
    ensures r.sortBy == (if key == SortBy then value else filters.sortBy)
  {
    match key
    case Category => filters.(category := value)
    case Year => filters.(year := value)
    case Author => filters.(author := value)
    case SortBy => filters.(sortBy := value)
  }

  /** Lines 232 and 295: some filter differs from its default. */
  predicate Active(f: Filters) {
    f.category != "all" || f.year != "" || f.author != "" || f.sortBy != "date"
  }

  /** The filters are active exactly when they are not the defaults. */
  lemma ActiveIffNotDefault(f: Filters)
    ensures Active(f) <==> f != DefaultFilters
  {
  }

  /** Changing a key twice keeps only the second value; changing a key to its own value changes nothing. */
  lemma WithLaws(f: Filters, key: FilterKey, v1: string, v2: string)
    ensures With(With(f, key, v1), key, v2) == With(f, key, v2)
    ensures With(f, key, Value(f, key)) == f
  {
  }

  /** The value under a key. */
  function Value(f: Filters, key: FilterKey): string {
    match key
    case Category => f.category
    case Year => f.year
    case Author => f.author
    case SortBy => f.sortBy
  }

  /** Changing one key sets it and leaves every other key as it was. */
  lemma WithChangesOneKey(f: Filters, key: FilterKey, value: string)
    ensures Value(With(f, key, value), key) == value
    ensures forall other: FilterKey :: other != key ==> Value(With(f, key, value), other) == Value(f, other)
  {
  }

  /** From the defaults, one change makes the filters active exactly when the new value is not that key's default. */
  lemma SingleChangeActive(key: FilterKey, value: string)
    ensures Active(With(DefaultFilters, key, value)) <==> value != Value(DefaultFilters, key)
  {
  }

  /** The panel's state. */
  class FilterPanel {
    var filters: Filters
    var isOpen: bool
    var notified: seq<Filters>

    /** Lines 16-23: the defaults overridden by the initial filters; closed; nothing reported yet. */
    constructor (initialFilters: Option<FilterOverrides>)
      ensures filters == if initialFilters.Some? then Override(DefaultFilters, initialFilters.value) else DefaultFilters
      ensures !isOpen && notified == []
    {
      filters := if initialFilters.Some? then Override(DefaultFilters, initialFilters.value) else DefaultFilters;
      isOpen := false;
      notified := [];
    }

    /** Lines 214-218: new initial filters are laid over the current ones; nothing is reported. */
    method InitialFiltersChanged(initialFilters: Option<FilterOverrides>)
      modifies this
      ensures filters == if initialFilters.Some? then Override(old(filters), initialFilters.value) else old(filters)
      ensures isOpen == old(isOpen) && notified == old(notified)
    {
      if initialFilters.Some? {
        filters := Override(filters, initialFilters.value);
      }
    }

    /** Lines 220-224: one key changes and the new record is reported. */
    method HandleFilterChange(key: FilterKey, value: string)
      modifies this
      ensures filters == With(old(filters), key, value)
      ensures notified == old(notified) + [filters]
      ensures isOpen == old(isOpen)
    {
      var newFilters := With(filters, key, value);
      filters := newFilters;
      notified := notified + [newFilters];
    }

    /** Line 295: the reset control is offered while the filters are active. */
    function ResetOffered(): bool
      reads this
    {
      Active(filters)
    }

    /**
     * Lines 300-309: pressing Reset puts back the defaults and reports them,
     * after which the control is no longer offered.
     */
    method Reset()
      modifies this
      ensures filters == DefaultFilters && !Active(filters)
      ensures notified == old(notified) + [DefaultFilters]
      ensures isOpen == old(isOpen)
    {
      var resetFilters := Filters("all", "", "", "date");
      filters := resetFilters;
      notified := notified + [resetFilters];
    }

    /** `onOpenChange` of the collapsible panel. */
    method SetIsOpen(open: bool)
      modifies this
      ensures isOpen == open
      ensures filters == old(filters) && notified == old(notified)
    {
      isOpen := open;
    }
  }
}
