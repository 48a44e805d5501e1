/** The filter bar's view model (src/components/TodoFilters/useTodoFiltersViewModel.ts): each
    handler hands `onFilterChange` (once per event, modelled as the result) a copy of the
    filters with one key replaced. The status handler writes a `status` key that the
    `TodoFilters` of src/types/todo.types.ts:69-74 does not have; the app builds its
    filters with that key (src/components/TodoApp/useTodoAppViewModel.ts:22-26), the type
    the components import from '../../types' is not part of this model, and `BarFilters`
    carries the extra key. */
module FilterBar {
  import opened Types
  import opened Text
  import opened Filtering
  import ListView

  /** The filters object as the bar passes it on: the declared criteria, plus the stray
      `status` key once the status handler has run. */
  datatype BarFilters = BarFilters(criteria: TodoFilters, status: Option<string>)

  /** `handleSearchChange`. */
  function SearchChange(f: BarFilters, value: string): (r: BarFilters)
    ensures r.criteria.searchText == value && r.status == f.status
    ensures r.criteria.(searchText := f.criteria.searchText) == f.criteria
  {
    f.(criteria := f.criteria.(searchText := value))
  }

  /** `handleStatusChange`. */
  function StatusChange(f: BarFilters, value: string): (r: BarFilters)
    ensures r.criteria == f.criteria && r.status == Some(value)
  {
    f.(status := Some(value))
  }

  /** `handleSortChange`. */
  function SortChange(f: BarFilters, value: string): (r: BarFilters)
    ensures r.criteria.sortBy == value && r.status == f.status
    ensures r.criteria.(sortBy := f.criteria.sortBy) == f.criteria
  {
    f.(criteria := f.criteria.(sortBy := value))
  }

  /** The status handler's key is one no view reads: the list shows the same todos. */
  lemma StatusChangeIgnored(todos: seq<Todo>, f: BarFilters, value: string, time: string -> int)
    ensures ListView.View(todos, StatusChange(f, value).criteria, time) == ListView.View(todos, f.criteria, time)
  {
  }

  /** Typing only white space into the search box shows the same list as clearing it. */
  lemma {:induction false} BlankSearchSameView(todos: seq<Todo>, f: BarFilters, value: string, time: string -> int)
    requires AllSpace(value)
    ensures ListView.View(todos, SearchChange(f, value).criteria, time)
         == ListView.View(todos, SearchChange(f, "").criteria, time)
  {
    TrimEmptyIffAllSpace(value);
    TrimEmptyIffAllSpace("");
    assert SearchTerm(SearchChange(f, value).criteria) == SearchTerm(SearchChange(f, "").criteria);
  }

  /** Two edits of different keys give the same filters in either order, and a second edit
      of the same key overrides the first. */
  lemma HandlersCommute(f: BarFilters, search: string, status: string, sort: string, search2: string)
    ensures SearchChange(SortChange(f, sort), search) == SortChange(SearchChange(f, search), sort)
    ensures StatusChange(SearchChange(f, search), status) == SearchChange(StatusChange(f, status), search)
    ensures StatusChange(SortChange(f, sort), status) == SortChange(StatusChange(f, status), sort)
    ensures SearchChange(SearchChange(f, search), search2) == SearchChange(f, search2)
  {
  }
}
