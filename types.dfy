/** Shared record shapes, enumerations and constants of the to-do application
    (src/types/todo.types.ts). Timestamps and due dates stay the ISO-8601 strings the
    application stores; their meaning as instants is supplied where it is needed
    (the list view's sort takes the date parser as a parameter). */
module Types {

  datatype Option<+T> = None | Some(value: T)

  datatype Result<+T, +E> = Ok(value: T) | Err(error: E)

  /** JavaScript truthiness of a string: only the empty string is falsy. */
  predicate Truthy(s: string) { s != "" }

  /** JavaScript truthiness of an optional string (`undefined`, `null` and `''` are falsy). */
  predicate TruthyOpt(o: Option<string>) { o.Some? && o.value != "" }

  /** `a || b` on optional strings: the first truthy operand, else the last one. */
  function OrElse(a: Option<string>, b: Option<string>): (r: Option<string>)
    ensures TruthyOpt(r) <==> TruthyOpt(a) || TruthyOpt(b)
    ensures TruthyOpt(a) ==> r == a
    ensures !TruthyOpt(a) ==> r == b
  {
    if TruthyOpt(a) then a else b
  }

  /** `o || ''`: the string value of an optional string, '' when absent. */
  function OrEmpty(o: Option<string>): (r: string)
    ensures Truthy(r) <==> TruthyOpt(o)
    ensures TruthyOpt(o) ==> r == o.value
  {
    if o.Some? then o.value else ""
  }

  /** `s || null`: an empty form field becomes null. */
  function EmptyToNull(s: string): (r: Option<string>)
    ensures r.None? <==> s == ""
    ensures r.Some? ==> r.value == s
  {
    if s == "" then None else Some(s)
  }

  datatype Priority = Low | Medium | High
  {
    /** The enum's string value. */
    function Value(): string
    {
      match this
      case Low => "low"
      case Medium => "medium"
      case High => "high"
    }
  }

  datatype SortOption = DateAdded | DateAddedDesc | DueDate | DueDateDesc | ByPriority | Alphabetical
  {
    /** The enum's string value. */
    function Value(): string
    {
      match this
      case DateAdded => "dateAdded"
      case DateAddedDesc => "dateAddedDesc"
      case DueDate => "dueDate"
      case DueDateDesc => "dueDateDesc"
      case ByPriority => "priority"
      case Alphabetical => "alphabetical"
    }
  }

  /** The sort option a `sortBy` string selects; None for a string that is none of the six. */
  function ParseSortOption(s: string): (r: Option<SortOption>)
    ensures r.Some? ==> r.value.Value() == s
    ensures r.None? ==> forall o: SortOption :: o.Value() != s
  {
    if s == "dateAdded" then Some(DateAdded)
    else if s == "dateAddedDesc" then Some(DateAddedDesc)
    else if s == "dueDate" then Some(DueDate)
    else if s == "dueDateDesc" then Some(DueDateDesc)
    else if s == "priority" then Some(ByPriority)
    else if s == "alphabetical" then Some(Alphabetical)
    else None
  }

  /** A workflow status. The source's `label` field is `displayLabel` here, because `label`
      is a reserved word in Dafny. */
  datatype Status = Status(
    id: string,
    displayLabel: string,
    value: string,
    color: string,
    colorName: string,
    description: string,
    position: int,
    createdAt: string,
    updatedAt: string)

  /** `Omit<Status, 'id' | 'createdAt' | 'updatedAt'>`. */
  datatype CreateStatusInput = CreateStatusInput(
    displayLabel: string,
    value: string,
    color: string,
    colorName: string,
    description: string,
    position: int)

  /** `Partial<Omit<Status, 'id' | 'createdAt'>>`: no way to name id or createdAt. */
  datatype UpdateStatusInput = UpdateStatusInput(
    displayLabel: Option<string>,
    value: Option<string>,
    color: Option<string>,
    colorName: Option<string>,
    description: Option<string>,
    position: Option<int>,
    updatedAt: Option<string>)

  /** A task. `status` holds a Status id; `dueDate` may be null. */
  datatype Todo = Todo(
    id: string,
    text: string,
    completed: bool,
    status: string,
    priority: Priority,
    category: string,
    dueDate: Option<string>,
    createdAt: string,
    updatedAt: string)

  /** `Omit<Todo, 'id' | 'completed' | 'createdAt' | 'updatedAt' | 'status'> & { status?: string }`. */
  datatype CreateTodoInput = CreateTodoInput(
    text: string,
    priority: Priority,
    category: string,
    dueDate: Option<string>,
    status: Option<string>)

  /** `Partial<Omit<Todo, 'id' | 'createdAt'>>`: no way to name id or createdAt. */
  datatype UpdateTodoInput = UpdateTodoInput(
    text: Option<string>,
    completed: Option<bool>,
    status: Option<string>,
    priority: Option<Priority>,
    category: Option<string>,
    dueDate: Option<Option<string>>,
    updatedAt: Option<string>)

  /** The update record that sets `status` and nothing else. */
  function StatusOnlyUpdate(status: string): (u: UpdateTodoInput)
    ensures u.status == Some(status)
    ensures u.text.None? && u.completed.None? && u.priority.None?
    ensures u.category.None? && u.dueDate.None? && u.updatedAt.None?
  {
    UpdateTodoInput(None, None, Some(status), None, None, None, None)
  }

  /** The list and board filter criteria: no priorities field. */
  datatype TodoFilters = TodoFilters(
    statuses: seq<string>,
    categories: seq<string>,
    searchText: string,
    sortBy: string)

  datatype TodoStats = TodoStats(total: int, active: int, completed: int)

  /** What a storage read produced: nothing under the key, text that does not parse, or parsed data. */
  datatype Stored<T> = NothingStored | Malformed | Parsed(data: T)

  const MAX_STATUSES: nat := 7
  const MIN_STATUS_LABEL_LENGTH: nat := 3
  const MAX_STATUS_LABEL_LENGTH: nat := 30
}
