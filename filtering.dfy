/** The filter passes shared by the list view and the Kanban board
    (src/components/TodoList/useTodoListViewModel.ts and
    src/components/KanbanBoard/useKanbanBoardViewModel.ts): a status pass and a category
    pass that apply only when something is selected, then a case-insensitive search of
    the text and the category. */
module Filtering {
  import opened Types
  import opened Text
  import opened Seqs

  /** `filters.searchText.trim().toLowerCase()`. */
  function SearchTerm(filters: TodoFilters): (r: string)
    ensures r == "" <==> AllSpace(filters.searchText)
  {
    TrimEmptyIffAllSpace(filters.searchText);
    ToLower(Trim(filters.searchText))
  }

  /** The search keeps a todo whose lower-cased text or category contains the term. */
  predicate MatchesSearch(term: string, t: Todo)
    ensures term == "" ==> MatchesSearch(term, t)
  {
    Contains(ToLower(t.text), term) || Contains(ToLower(t.category), term)
  }

  function StatusIn(statuses: seq<string>): Todo -> bool
  {
    (t: Todo) => t.status in statuses
  }

  function CategoryIn(categories: seq<string>): Todo -> bool
  {
    (t: Todo) => t.category in categories
  }

  function Searching(term: string): Todo -> bool
  {
    (t: Todo) => MatchesSearch(term, t)
  }

  /** The criteria one todo must meet, each vacuous when its filter is unset. */
  predicate Matches(filters: TodoFilters, t: Todo)
  {
    && (|filters.statuses| == 0 || t.status in filters.statuses)
    && (|filters.categories| == 0 || t.category in filters.categories)
    && (SearchTerm(filters) == "" || MatchesSearch(SearchTerm(filters), t))
  }

  function Matching(filters: TodoFilters): Todo -> bool
  {
    (t: Todo) => Matches(filters, t)
  }

  /** A pass that is off keeps every todo. */
  function Gate(on: bool, p: Todo -> bool): Todo -> bool
  {
    (t: Todo) => on ==> p(t)
  }

  /** A pass is a filter by its gated predicate. */
  lemma PassIsFilter(s: seq<Todo>, on: bool, p: Todo -> bool)
    ensures PassIf(s, on, p) == Filter(s, Gate(on, p))
  {
    if on {
      FilterAgree(s, p, Gate(on, p));
    } else {
      FilterKeepsAll(s, Gate(on, p));
    }
  }

  /** `if (on) result = result.filter(p)`. */
  function PassIf(s: seq<Todo>, on: bool, p: Todo -> bool): (r: seq<Todo>)
    ensures multiset(r) <= multiset(s)
    ensures forall t :: t in r <==> t in s && (on ==> p(t))
  {
    FilterSubMultiset(s, p);
    forall t ensures t in Filter(s, p) <==> t in s && p(t) {
      FilterMember(s, p, t);
    }
    if on then Filter(s, p) else s
  }

  /** The three passes in the order the views apply them. */
  function ApplyFilters(todos: seq<Todo>, filters: TodoFilters): (r: seq<Todo>)
    ensures multiset(r) <= multiset(todos)
  {
    var byStatus := PassIf(todos, |filters.statuses| > 0, StatusIn(filters.statuses));
    var byCategory := PassIf(byStatus, |filters.categories| > 0, CategoryIn(filters.categories));
    PassIf(byCategory, SearchTerm(filters) != "", Searching(SearchTerm(filters)))
  }

  /** The three gates together are the criteria. */
  lemma GatesMatch(filters: TodoFilters, t: Todo)
    ensures Both(Both(Gate(|filters.statuses| > 0, StatusIn(filters.statuses)),
                      Gate(|filters.categories| > 0, CategoryIn(filters.categories))),
                 Gate(SearchTerm(filters) != "", Searching(SearchTerm(filters))))(t)
            == Matching(filters)(t)
  {
  }

  /** The three passes in turn are one filter by all three criteria: the todos that meet
      them, in input order, every passing copy kept. */
  lemma ApplyFiltersKeepsOrder(todos: seq<Todo>, filters: TodoFilters)
    ensures ApplyFilters(todos, filters) == Filter(todos, Matching(filters))
    ensures Selection(ApplyFilters(todos, filters), todos, Matching(filters))
  {
    var g1 := Gate(|filters.statuses| > 0, StatusIn(filters.statuses));
    var g2 := Gate(|filters.categories| > 0, CategoryIn(filters.categories));
    var g3 := Gate(SearchTerm(filters) != "", Searching(SearchTerm(filters)));
    var byStatus := PassIf(todos, |filters.statuses| > 0, StatusIn(filters.statuses));
    var byCategory := PassIf(byStatus, |filters.categories| > 0, CategoryIn(filters.categories));
    PassIsFilter(todos, |filters.statuses| > 0, StatusIn(filters.statuses));
    PassIsFilter(byStatus, |filters.categories| > 0, CategoryIn(filters.categories));
    PassIsFilter(byCategory, SearchTerm(filters) != "", Searching(SearchTerm(filters)));
    FilterCompose(todos, g1, g2);
    assert byCategory == Filter(todos, Both(g1, g2));
    FilterCompose(todos, Both(g1, g2), g3);
    assert ApplyFilters(todos, filters) == Filter(todos, Both(Both(g1, g2), g3));
    forall i | 0 <= i < |todos|
      ensures Both(Both(g1, g2), g3)(todos[i]) == Matching(filters)(todos[i])
    {
      GatesMatch(filters, todos[i]);
    }
    FilterAgree(todos, Both(Both(g1, g2), g3), Matching(filters));
    FilterSelection(todos, Matching(filters));
  }

  /** The passes keep exactly the todos that meet every criterion, and never duplicate one. */
  lemma ApplyFiltersMember(todos: seq<Todo>, filters: TodoFilters, t: Todo)
    ensures t in ApplyFilters(todos, filters) <==> t in todos && Matches(filters, t)
    ensures multiset(ApplyFilters(todos, filters)) <= multiset(todos)
  {
  }

  /** A search box holding only white space filters nothing. */
  lemma BlankSearchKeepsAll(filters: TodoFilters, t: Todo)
    requires AllSpace(filters.searchText)
    ensures Matches(filters, t) <==>
      (|filters.statuses| == 0 || t.status in filters.statuses) &&
      (|filters.categories| == 0 || t.category in filters.categories)
  {
    TrimEmptyIffAllSpace(filters.searchText);
  }

  /** With no filter set, every todo passes, in the original order. */
  lemma NoFiltersKeepsAll(todos: seq<Todo>, filters: TodoFilters)
    requires filters.statuses == [] && filters.categories == [] && AllSpace(filters.searchText)
    ensures ApplyFilters(todos, filters) == todos
  {
    TrimEmptyIffAllSpace(filters.searchText);
  }
}
