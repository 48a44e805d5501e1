/** The Kanban board (src/components/KanbanBoard/useKanbanBoardViewModel.ts): the filter
    passes shared with the list view, grouping into three columns, the dragged todo, and
    the drag handlers, which emit a status-only update when a card is dropped on a column.
    The three column keys are the values of the KanbanStatus enumeration, passed in as
    Columns; their literal values are not part of this model. */
module KanbanBoard {
  import opened Types
  import opened Seqs
  import opened Filtering

  /** The keys `KanbanStatus.TODO`, `KanbanStatus.IN_PROGRESS` and `KanbanStatus.DONE`. */
  datatype Columns = Columns(todo: string, inProgress: string, done: string)
  {
    /** Enumeration members have distinct values. */
    predicate Distinct()
    {
      todo != inProgress && todo != done && inProgress != done
    }

    predicate IsColumn(key: string)
    {
      key == todo || key == inProgress || key == done
    }
  }

  /** `todosByStatus`: one list per column. */
  datatype Grouped = Grouped(todo: seq<Todo>, inProgress: seq<Todo>, done: seq<Todo>)

  function StatusIs(key: string): Todo -> bool
  {
    (t: Todo) => t.status == key
  }

  /** The grouping the forEach builds: each column's todos in filtered order. */
  function GroupBy(filtered: seq<Todo>, cols: Columns): Grouped
  {
    Grouped(Filter(filtered, StatusIs(cols.todo)), Filter(filtered, StatusIs(cols.inProgress)),
            Filter(filtered, StatusIs(cols.done)))
  }

  /** The forEach body: `if (grouped[todo.status]) grouped[todo.status].push(todo)`. */
  function Push(g: Grouped, t: Todo, cols: Columns): Grouped
  {
    if t.status == cols.todo then g.(todo := g.todo + [t])
    else if t.status == cols.inProgress then g.(inProgress := g.inProgress + [t])
    else if t.status == cols.done then g.(done := g.done + [t])
    else g
  }

  /** Pushing one more todo extends the grouping of the longer prefix. */
  lemma GroupBySnoc(s: seq<Todo>, t: Todo, cols: Columns)
    requires cols.Distinct()
    ensures GroupBy(s + [t], cols) == Push(GroupBy(s, cols), t, cols)
  {
    FilterAppend(s, [t], StatusIs(cols.todo));
    FilterAppend(s, [t], StatusIs(cols.inProgress));
    FilterAppend(s, [t], StatusIs(cols.done));
  }

  /** One turn of the forEach: pushing the i-th todo groups the prefix one longer. */
  lemma PushStep(filtered: seq<Todo>, i: int, cols: Columns)
    requires cols.Distinct() && 0 <= i < |filtered|
    ensures GroupBy(filtered[..i + 1], cols) == Push(GroupBy(filtered[..i], cols), filtered[i], cols)
  {
    assert filtered[..i + 1] == filtered[..i] + [filtered[i]];
    GroupBySnoc(filtered[..i], filtered[i], cols);
  }

  /** `todosByStatus`: the filter passes, then each todo pushed onto the list of its status
      when that status is a column; todos in any other status are on no column. */
  method TodosByStatus(todos: seq<Todo>, filters: TodoFilters, cols: Columns) returns (g: Grouped)
    requires cols.Distinct()
    ensures g == GroupBy(ApplyFilters(todos, filters), cols)
  {
    var filtered := ApplyFilters(todos, filters);
    g := Grouped([], [], []);
    for i := 0 to |filtered|
      invariant g == GroupBy(filtered[..i], cols)
    {
      var t := filtered[i];
      ghost var before := g;
      if t.status == cols.todo {
        g := g.(todo := g.todo + [t]);
      } else if t.status == cols.inProgress {
        g := g.(inProgress := g.inProgress + [t]);
      } else if t.status == cols.done {
        g := g.(done := g.done + [t]);
      }
      assert g == Push(before, t, cols);
      PushStep(filtered, i, cols);
    }
    assert filtered[..|filtered|] == filtered;
  }

  /** A filtered todo is on a column exactly when its status is that column's key. */
  lemma GroupByMember(filtered: seq<Todo>, cols: Columns, t: Todo)
    ensures t in GroupBy(filtered, cols).todo <==> t in filtered && t.status == cols.todo
    ensures t in GroupBy(filtered, cols).inProgress <==> t in filtered && t.status == cols.inProgress
    ensures t in GroupBy(filtered, cols).done <==> t in filtered && t.status == cols.done
  {
    FilterMember(filtered, StatusIs(cols.todo), t);
    FilterMember(filtered, StatusIs(cols.inProgress), t);
    FilterMember(filtered, StatusIs(cols.done), t);
  }

  /** Each column lists, in filtered order, every filtered todo with its key and nothing
      else. */
  lemma GroupByKeepsOrder(filtered: seq<Todo>, cols: Columns)
    ensures Selection(GroupBy(filtered, cols).todo, filtered, StatusIs(cols.todo))
    ensures Selection(GroupBy(filtered, cols).inProgress, filtered, StatusIs(cols.inProgress))
    ensures Selection(GroupBy(filtered, cols).done, filtered, StatusIs(cols.done))
  {
    FilterSelection(filtered, StatusIs(cols.todo));
    FilterSelection(filtered, StatusIs(cols.inProgress));
    FilterSelection(filtered, StatusIs(cols.done));
  }

  /** With distinct keys no todo is on two columns, so the columns together hold at most the
      filtered todos, and exactly all of them when every status is a column. */
  lemma {:induction false} GroupBySizes(filtered: seq<Todo>, cols: Columns)
    requires cols.Distinct()
    ensures var g := GroupBy(filtered, cols);
      |g.todo| + |g.inProgress| + |g.done| <= |filtered|
    ensures (forall i :: 0 <= i < |filtered| ==> cols.IsColumn(filtered[i].status)) ==>
      var g := GroupBy(filtered, cols);
      |g.todo| + |g.inProgress| + |g.done| == |filtered|
  {
    if filtered != [] {
      GroupBySizes(filtered[1..], cols);
    }
  }

  /** `activeTodo`: no todo while nothing is dragged, else the first todo with the dragged id. */
  function ActiveTodo(activeId: Option<string>, todos: seq<Todo>): (r: Option<Todo>)
    ensures !TruthyOpt(activeId) ==> r.None?
    ensures r.Some? ==> r.value in todos && r.value.id == activeId.value
    ensures TruthyOpt(activeId) && (exists i :: 0 <= i < |todos| && todos[i].id == activeId.value) ==> r.Some?
    ensures r.Some? ==> exists i :: (0 <= i < |todos| && todos[i] == r.value &&
                                     forall j :: 0 <= j < i ==> todos[j].id != activeId.value)
  {
    if !TruthyOpt(activeId) then None
    else Find(todos, (t: Todo) => t.id == activeId.value)
  }

  /** A call of the board's `onUpdate` callback. */
  datatype Emitted = Emitted(id: string, updates: UpdateTodoInput)

  /** The drag state of the board. */
  class DragController {
    var activeId: Option<string>
    const cols: Columns

    constructor (cols: Columns)
      ensures activeId.None? && this.cols == cols
    {
      activeId := None;
      this.cols := cols;
    }

    /** `handleDragStart`. */
    method DragStart(active: string)
      modifies this
      ensures activeId == Some(active)
    {
      activeId := Some(active);
    }

    /** `handleDragEnd`: a drop on one of the three columns asks for the card's status to
        become that column; any other drop, or none, asks for nothing. The drag ends either way. */
    method DragEnd(active: string, over: Option<string>) returns (emitted: Option<Emitted>)
      modifies this
      ensures activeId.None?
      ensures emitted.Some? <==> over.Some? && cols.IsColumn(over.value)
      ensures emitted.Some? ==> emitted.value == Emitted(active, StatusOnlyUpdate(over.value))
    {
      if over.None? {
        activeId := None;
        return None;
      }
      var overId := over.value;
      emitted := None;
      if overId == cols.todo || overId == cols.inProgress || overId == cols.done {
        emitted := Some(Emitted(active, StatusOnlyUpdate(overId)));
      }
      activeId := None;
    }

    /** `handleDragCancel`. */
    method DragCancel()
      modifies this
      ensures activeId.None?
    {
      activeId := None;
    }
  }
}
