/** A Kanban column's header data (src/components/KanbanColumn/useKanbanColumnViewModel.ts):
    title and CSS classes chosen by the column's status key, and the card count. */
module KanbanColumn {
  import opened KanbanBoard

  /** `title`. */
  function Title(cols: Columns, status: string): (r: string)
    ensures r != "Unknown" <==> cols.IsColumn(status)
  {
    if status == cols.todo then "To Do"
    else if status == cols.inProgress then "In Progress"
    else if status == cols.done then "Done"
    else "Unknown"
  }

  /** `indicatorClass`. */
  function IndicatorClass(cols: Columns, status: string): (r: string)
    ensures r != "" <==> cols.IsColumn(status)
  {
    if status == cols.todo then "todo"
    else if status == cols.inProgress then "inProgress"
    else if status == cols.done then "done"
    else ""
  }

  /** `statusClass`. */
  function StatusClass(cols: Columns, status: string): (r: string)
    ensures r == if cols.IsColumn(status) then "status__" + IndicatorClass(cols, status) else ""
  {
    if status == cols.todo then "status__todo"
    else if status == cols.inProgress then "status__inProgress"
    else if status == cols.done then "status__done"
    else ""
  }

  /** The three switches agree: a column key gets a real title and the status class is the
      indicator class under the `status__` prefix; any other key gets "Unknown" and no classes. */
  lemma ClassesAgree(cols: Columns, status: string)
    ensures cols.IsColumn(status) <==> Title(cols, status) != "Unknown"
    ensures cols.IsColumn(status) <==> IndicatorClass(cols, status) != ""
    ensures StatusClass(cols, status) ==
      if cols.IsColumn(status) then "status__" + IndicatorClass(cols, status) else ""
  {
  }

  /** With distinct keys, the three columns get three different titles and indicator classes. */
  lemma ColumnTitles(cols: Columns)
    requires cols.Distinct()
    ensures Title(cols, cols.todo) == "To Do" && IndicatorClass(cols, cols.todo) == "todo"
    ensures Title(cols, cols.inProgress) == "In Progress" && IndicatorClass(cols, cols.inProgress) == "inProgress"
    ensures Title(cols, cols.done) == "Done" && IndicatorClass(cols, cols.done) == "done"
  {
  }

  /** The header's numbers: `count` and `isEmpty`. */
  datatype Counts = Counts(count: int, isEmpty: bool)

  function ColumnCounts(todoCount: int): (r: Counts)
    ensures r.count == todoCount
    ensures r.isEmpty <==> todoCount == 0
  {
    Counts(todoCount, todoCount == 0)
  }
}
