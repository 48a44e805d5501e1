/** The statistics panel (src/components/TodoStats/useTodoStatsViewModel.ts). */
module TodoStatistics {
  import opened Types
  import opened Seqs

  function IsCompleted(): Todo -> bool
  {
    (t: Todo) => t.completed
  }

  function IsActive(): Todo -> bool
  {
    (t: Todo) => !t.completed
  }

  /** `stats`: the total, the completed count, and their difference as the active count. */
  function Stats(todos: seq<Todo>): (r: TodoStats)
    ensures r.total == |todos|
    ensures r.completed == |Filter(todos, IsCompleted())|
    ensures 0 <= r.completed <= r.total && r.active == r.total - r.completed
  {
    var total := |todos|;
    var completed := |Filter(todos, IsCompleted())|;
    TodoStats(total, total - completed, completed)
  }

  /** Every todo is either completed or not, so the active count is the number of todos
      not completed. */
  lemma {:induction false} ActiveCountsOpen(todos: seq<Todo>)
    ensures Stats(todos).active == |Filter(todos, IsActive())|
  {
    if todos != [] {
      ActiveCountsOpen(todos[1..]);
    }
  }
}
