/** The list view (src/components/TodoList/useTodoListViewModel.ts): the filter passes,
    then a stable sort by the comparator the `sortBy` option selects, or no sort for an
    unknown option. Dates are compared through `time`, which stands for
    `new Date(s).getTime()`. */
module ListView {
  import opened Types
  import opened Seqs
  import opened Text
  import opened StableSort
  import opened Filtering

  /** `PRIORITY_ORDER`. */
  function Rank(p: Priority): (r: int)
    ensures 1 <= r <= 3
    ensures r == 3 <==> p == High
    ensures r == 1 <==> p == Low
  {
    match p
    case High => 3
    case Medium => 2
    case Low => 1
  }

  /** `!todo.dueDate` is false: the due date is neither null nor empty. */
  predicate HasDue(t: Todo)
  {
    t.dueDate.Some? && t.dueDate.value != ""
  }

  /** The comparator passed to `result.sort` for each option; a negative answer puts `a`
      before `b`. */
  function Compare(opt: SortOption, time: string -> int, a: Todo, b: Todo): (r: int)
    ensures opt == DateAdded ==> (r < 0 <==> time(a.createdAt) < time(b.createdAt))
    ensures opt == DateAddedDesc ==> (r < 0 <==> time(a.createdAt) > time(b.createdAt))
    ensures opt == DueDate && HasDue(a) && !HasDue(b) ==> r < 0
    ensures opt == DueDate && !HasDue(a) && HasDue(b) ==> r > 0
    ensures opt == DueDate && HasDue(a) && HasDue(b) ==>
      (r < 0 <==> time(a.dueDate.value) < time(b.dueDate.value))
    ensures opt == DueDateDesc && !HasDue(a) && HasDue(b) ==> r < 0
    ensures opt == DueDateDesc && HasDue(a) && !HasDue(b) ==> r > 0
    ensures opt == DueDateDesc && HasDue(a) && HasDue(b) ==>
      (r < 0 <==> time(a.dueDate.value) > time(b.dueDate.value))
    ensures (opt == DueDate || opt == DueDateDesc) && !HasDue(a) && !HasDue(b) ==> r == 0
    ensures opt == ByPriority ==> (r < 0 <==> Rank(a.priority) > Rank(b.priority))
    ensures opt == Alphabetical ==> -1 <= r <= 1
  {
    match opt
    case DateAdded => time(a.createdAt) - time(b.createdAt)
    case DateAddedDesc => time(b.createdAt) - time(a.createdAt)
    case DueDate =>
      if !HasDue(a) && !HasDue(b) then 0
      else if !HasDue(a) then 1
      else if !HasDue(b) then -1
      else time(a.dueDate.value) - time(b.dueDate.value)
    case DueDateDesc =>
      if !HasDue(a) && !HasDue(b) then 0
      else if !HasDue(a) then -1
      else if !HasDue(b) then 1
      else time(b.dueDate.value) - time(a.dueDate.value)
    case ByPriority => Rank(b.priority) - Rank(a.priority)
    case Alphabetical => LexCompare(a.text, b.text)
  }

  function Comparator(opt: SortOption, time: string -> int): (Todo, Todo) -> int
  {
    (a: Todo, b: Todo) => Compare(opt, time, a, b)
  }

  /** Every comparator the view uses is a total preorder, so the stable sort is well defined. */
  lemma ComparatorTotalPreorder(opt: SortOption, time: string -> int)
    ensures TotalPreorder(Comparator(opt, time))
  {
    var cmp := Comparator(opt, time);
    if opt == Alphabetical {
      forall a: Todo, b: Todo ensures cmp(a, b) < 0 <==> cmp(b, a) > 0 {
        LexCompareAntisymmetric(a.text, b.text);
      }
      forall a: Todo, b: Todo, c: Todo | cmp(a, b) <= 0 && cmp(b, c) <= 0 ensures cmp(a, c) <= 0 {
        LexCompareTransitive(a.text, b.text, c.text);
      }
    }
  }

  /** Each option's string value selects that option. */
  lemma ParseValue(o: SortOption)
    ensures ParseSortOption(o.Value()) == Some(o)
  {
  }

  /** The list the view shows: the filtered todos, each as often as in the input. */
  function View(todos: seq<Todo>, filters: TodoFilters, time: string -> int): (r: seq<Todo>)
    ensures multiset(r) == multiset(ApplyFilters(todos, filters))
  {
    SortBy(ApplyFilters(todos, filters), ParseSortOption(filters.sortBy), time)
  }

  /** The `switch (filters.sortBy)`: sort by the selected option, or leave the order alone. */
  function SortBy(s: seq<Todo>, opt: Option<SortOption>, time: string -> int): (r: seq<Todo>)
    ensures multiset(r) == multiset(s)
    ensures opt.None? ==> r == s
  {
    match opt
    case None => s
    case Some(o) =>
      SortPermutes(s, Comparator(o, time));
      Sort(s, Comparator(o, time))
  }

  /** `filteredAndSortedTodos`: the passes on a copy of the list, then the in-place sort. */
  method FilteredAndSortedTodos(todos: seq<Todo>, filters: TodoFilters, time: string -> int)
    returns (result: seq<Todo>)
    ensures result == View(todos, filters, time)
  {
    result := todos;
    if |filters.statuses| > 0 {
      result := Filter(result, StatusIn(filters.statuses));
    }
    assert result == PassIf(todos, |filters.statuses| > 0, StatusIn(filters.statuses));
    ghost var byStatus := result;
    if |filters.categories| > 0 {
      result := Filter(result, CategoryIn(filters.categories));
    }
    assert result == PassIf(byStatus, |filters.categories| > 0, CategoryIn(filters.categories));
    ghost var byCategory := result;
    var term := ToLower(Trim(filters.searchText));
    if term != "" {
      result := Filter(result, Searching(term));
    }
    assert result == PassIf(byCategory, SearchTerm(filters) != "", Searching(SearchTerm(filters)));
    ghost var filtered := result;
    var opt := ParseSortOption(filters.sortBy);
    if opt.Some? {
      result := SortedCopy(result, Comparator(opt.value, time));
    }
    assert result == SortBy(filtered, opt, time);
  }

  /** `result.sort(compareFn)` on the view's own copy of the list. */
  method SortedCopy(s: seq<Todo>, cmp: (Todo, Todo) -> int) returns (r: seq<Todo>)
    ensures r == Sort(s, cmp)
  {
    var a := new Todo[|s|](i requires 0 <= i < |s| => s[i]);
    assert a[..] == s;
    SortInPlace(a, cmp);
    r := a[..];
  }

  /** The view shows exactly the todos that meet the filters, each as often as in the input. */
  lemma ViewPermutesFiltered(todos: seq<Todo>, filters: TodoFilters, time: string -> int)
    ensures multiset(View(todos, filters, time)) == multiset(ApplyFilters(todos, filters))
    ensures forall t :: t in View(todos, filters, time) <==> t in todos && Matches(filters, t)
  {
    var filtered := ApplyFilters(todos, filters);
    var opt := ParseSortOption(filters.sortBy);
    if opt.Some? {
      SortPermutes(filtered, Comparator(opt.value, time));
    }
    forall t ensures t in View(todos, filters, time) <==> t in todos && Matches(filters, t) {
      ApplyFiltersMember(todos, filters, t);
      assert t in View(todos, filters, time) <==> t in multiset(View(todos, filters, time));
    }
  }

  /** Under a known option the view is in comparator order. */
  lemma ViewSorted(todos: seq<Todo>, filters: TodoFilters, time: string -> int, opt: SortOption)
    requires ParseSortOption(filters.sortBy) == Some(opt)
    ensures Sorted(View(todos, filters, time), Comparator(opt, time))
  {
    ComparatorTotalPreorder(opt, time);
    SortSorted(ApplyFilters(todos, filters), Comparator(opt, time));
  }

  /** The sort is stable: todos the comparator ties keep their order among the filtered ones. */
  lemma ViewStable(todos: seq<Todo>, filters: TodoFilters, time: string -> int, opt: SortOption, y: Todo)
    requires ParseSortOption(filters.sortBy) == Some(opt)
    ensures Filter(View(todos, filters, time), TiedWith(Comparator(opt, time), y))
         == Filter(ApplyFilters(todos, filters), TiedWith(Comparator(opt, time), y))
  {
    ComparatorTotalPreorder(opt, time);
    SortStable(ApplyFilters(todos, filters), Comparator(opt, time), y);
  }

  /** An option that is none of the six leaves the filtered list in its original order. */
  lemma UnknownOptionKeepsOrder(todos: seq<Todo>, filters: TodoFilters, time: string -> int)
    requires forall o: SortOption :: o.Value() != filters.sortBy
    ensures View(todos, filters, time) == ApplyFilters(todos, filters)
  {
  }

  /** Sorting by due date puts every dated todo before every undated one. */
  lemma DueDateUndatedLast(todos: seq<Todo>, filters: TodoFilters, time: string -> int)
    requires filters.sortBy == DueDate.Value()
    ensures var v := View(todos, filters, time);
      forall i, j :: 0 <= i < j < |v| && HasDue(v[j]) ==> HasDue(v[i])
  {
    ParseValue(DueDate);
    ViewSorted(todos, filters, time, DueDate);
    var v := View(todos, filters, time);
    forall i, j | 0 <= i < j < |v| && HasDue(v[j]) ensures HasDue(v[i]) {
      assert Comparator(DueDate, time)(v[i], v[j]) <= 0;
    }
  }

  /** Sorting by due date, descending, puts every undated todo first. */
  lemma DueDateDescUndatedFirst(todos: seq<Todo>, filters: TodoFilters, time: string -> int)
    requires filters.sortBy == DueDateDesc.Value()
    ensures var v := View(todos, filters, time);
      forall i, j :: 0 <= i < j < |v| && HasDue(v[i]) ==> HasDue(v[j])
  {
    ParseValue(DueDateDesc);
    ViewSorted(todos, filters, time, DueDateDesc);
    var v := View(todos, filters, time);
    forall i, j | 0 <= i < j < |v| && HasDue(v[i]) ensures HasDue(v[j]) {
      assert Comparator(DueDateDesc, time)(v[i], v[j]) <= 0;
    }
  }

  /** Sorting by priority lists high before medium before low. */
  lemma PriorityDescending(todos: seq<Todo>, filters: TodoFilters, time: string -> int)
    requires filters.sortBy == ByPriority.Value()
    ensures var v := View(todos, filters, time);
      forall i, j :: 0 <= i < j < |v| ==> Rank(v[i].priority) >= Rank(v[j].priority)
  {
    ParseValue(ByPriority);
    ViewSorted(todos, filters, time, ByPriority);
    var v := View(todos, filters, time);
    forall i, j | 0 <= i < j < |v| ensures Rank(v[i].priority) >= Rank(v[j].priority) {
      assert Comparator(ByPriority, time)(v[i], v[j]) <= 0;
    }
  }

  /** Sorting by date added lists older todos first. */
  lemma DateAddedAscending(todos: seq<Todo>, filters: TodoFilters, time: string -> int)
    requires filters.sortBy == DateAdded.Value()
    ensures var v := View(todos, filters, time);
      forall i, j :: 0 <= i < j < |v| ==> time(v[i].createdAt) <= time(v[j].createdAt)
  {
    ParseValue(DateAdded);
    ViewSorted(todos, filters, time, DateAdded);
    var v := View(todos, filters, time);
    forall i, j | 0 <= i < j < |v| ensures time(v[i].createdAt) <= time(v[j].createdAt) {
      assert Comparator(DateAdded, time)(v[i], v[j]) <= 0;
    }
  }

  /** Sorting by date added, descending, lists newer todos first. */
  lemma DateAddedDescending(todos: seq<Todo>, filters: TodoFilters, time: string -> int)
    requires filters.sortBy == DateAddedDesc.Value()
    ensures var v := View(todos, filters, time);
      forall i, j :: 0 <= i < j < |v| ==> time(v[i].createdAt) >= time(v[j].createdAt)
  {
    ParseValue(DateAddedDesc);
    ViewSorted(todos, filters, time, DateAddedDesc);
    var v := View(todos, filters, time);
    forall i, j | 0 <= i < j < |v| ensures time(v[i].createdAt) >= time(v[j].createdAt) {
      assert Comparator(DateAddedDesc, time)(v[i], v[j]) <= 0;
    }
  }

  /** Sorting alphabetically lists the texts in lexicographic order. */
  lemma AlphabeticalOrder(todos: seq<Todo>, filters: TodoFilters, time: string -> int)
    requires filters.sortBy == Alphabetical.Value()
    ensures var v := View(todos, filters, time);
      forall i, j :: 0 <= i < j < |v| ==> LexCompare(v[i].text, v[j].text) <= 0
  {
    ParseValue(Alphabetical);
    ViewSorted(todos, filters, time, Alphabetical);
    var v := View(todos, filters, time);
    forall i, j | 0 <= i < j < |v| ensures LexCompare(v[i].text, v[j].text) <= 0 {
      assert Comparator(Alphabetical, time)(v[i], v[j]) <= 0;
    }
  }
}
