/** The todo store (src/hooks/useTodoStorage.ts): the list of todos with add, update,
    delete, toggle and reassign. The store is configured with an optional default status
    id and an optional status validator. Each operation is a function on the list; the
    TodoStore class holds the list and replaces it with the function's result. The clock
    and the id generator are parameters. */
module TodoStorage {
  import opened Types
  import opened Seqs

  datatype TodoError =
    | NoValidStatus
    | InvalidTargetStatus(target: string)

  /** The list the hook holds after its mount effect: the stored list if one parses, else empty. */
  function LoadTodos(stored: Stored<seq<Todo>>): (r: seq<Todo>)
    ensures stored.Parsed? ==> r == stored.data
    ensures !stored.Parsed? ==> r == []
  {
    match stored
    case Parsed(data) => data
    case _ => []
  }

  /** `validateStatus && !validateStatus(status)`: a validator is configured and rejects status. */
  predicate Rejects(validate: Option<string -> bool>, status: string)
  {
    validate.Some? && !validate.value(status)
  }

  /** The status addTodo gives a new todo: the input's status, else the default, and the
      default again when the validator rejects the first choice; '' means none is available. */
  function EffectiveStatus(input: Option<string>, defaultStatusId: Option<string>,
                           validate: Option<string -> bool>): (r: string)
    ensures r != "" ==> (TruthyOpt(input) && r == input.value) || (TruthyOpt(defaultStatusId) && r == defaultStatusId.value)
    ensures r != "" && Rejects(validate, r) ==> TruthyOpt(defaultStatusId) && r == defaultStatusId.value
    ensures TruthyOpt(input) && !Rejects(validate, input.value) ==> r == input.value
    ensures r == "" <==>
      !TruthyOpt(defaultStatusId) && (!TruthyOpt(input) || Rejects(validate, input.value))
  {
    var status := OrEmpty(OrElse(input, defaultStatusId));
    if status != "" && Rejects(validate, status) then OrEmpty(defaultStatusId) else status
  }

  /** `addTodo`: appends a fresh, not-completed todo under the effective status, or fails
      when there is none. */
  function AddTodo(prev: seq<Todo>, input: CreateTodoInput, newId: string, now: string,
                   defaultStatusId: Option<string>, validate: Option<string -> bool>)
    : (r: Result<seq<Todo>, TodoError>)
    ensures r.Err? <==> EffectiveStatus(input.status, defaultStatusId, validate) == ""
    ensures r.Err? ==> r.error == NoValidStatus
    ensures r.Ok? ==> |r.value| == |prev| + 1 && r.value[..|prev|] == prev
    ensures r.Ok? ==> var t := r.value[|prev|];
      && t.id == newId && !t.completed && t.createdAt == now && t.updatedAt == now
      && t.status == EffectiveStatus(input.status, defaultStatusId, validate) && t.status != ""
      && t.text == input.text && t.priority == input.priority
      && t.category == input.category && t.dueDate == input.dueDate
  {
    var status := EffectiveStatus(input.status, defaultStatusId, validate);
    if status == "" then Err(NoValidStatus)
    else Ok(prev + [Todo(newId, input.text, false, status, input.priority, input.category,
                         input.dueDate, now, now)])
  }

  /** `{ ...todo, ...updates, updatedAt }`, with the old status restored when a truthy new
      status is rejected. */
  function UpdateOne(todo: Todo, updates: UpdateTodoInput, now: string, validate: Option<string -> bool>)
    : (r: Todo)
    ensures r.id == todo.id && r.createdAt == todo.createdAt && r.updatedAt == now
    ensures TruthyOpt(updates.status) && Rejects(validate, updates.status.value) ==> r.status == todo.status
    ensures updates.status.Some? && !(TruthyOpt(updates.status) && Rejects(validate, updates.status.value)) ==>
      r.status == updates.status.value
    ensures updates.status.None? ==> r.status == todo.status
    ensures updates.text.Some? ==> r.text == updates.text.value
    ensures updates.text.None? ==> r.text == todo.text
    ensures updates.completed.Some? ==> r.completed == updates.completed.value
    ensures updates.completed.None? ==> r.completed == todo.completed
    ensures updates.priority.Some? ==> r.priority == updates.priority.value
    ensures updates.priority.None? ==> r.priority == todo.priority
    ensures updates.category.Some? ==> r.category == updates.category.value
    ensures updates.category.None? ==> r.category == todo.category
    ensures updates.dueDate.Some? ==> r.dueDate == updates.dueDate.value
    ensures updates.dueDate.None? ==> r.dueDate == todo.dueDate
  {
    var status :=
      if updates.status.Some? && !(updates.status.value != "" && Rejects(validate, updates.status.value))
      then updates.status.value else todo.status;
    Todo(
      todo.id,
      if updates.text.Some? then updates.text.value else todo.text,
      if updates.completed.Some? then updates.completed.value else todo.completed,
      status,
      if updates.priority.Some? then updates.priority.value else todo.priority,
      if updates.category.Some? then updates.category.value else todo.category,
      if updates.dueDate.Some? then updates.dueDate.value else todo.dueDate,
      todo.createdAt,
      now)
  }

  /** `updateTodo`: every todo with the id is updated, the others are kept as they are. */
  function UpdateTodos(prev: seq<Todo>, id: string, updates: UpdateTodoInput, now: string,
                       validate: Option<string -> bool>): (r: seq<Todo>)
    ensures |r| == |prev|
    ensures forall i :: 0 <= i < |prev| && prev[i].id != id ==> r[i] == prev[i]
    ensures forall i :: 0 <= i < |prev| && prev[i].id == id ==> r[i] == UpdateOne(prev[i], updates, now, validate)
  {
    seq(|prev|, i requires 0 <= i < |prev| =>
      if prev[i].id == id then UpdateOne(prev[i], updates, now, validate) else prev[i])
  }

  function IdIsNot(id: string): Todo -> bool
  {
    (t: Todo) => t.id != id
  }

  /** `deleteTodo`: every todo with the id is removed, the rest keep their order. */
  function DeleteTodo(prev: seq<Todo>, id: string): (r: seq<Todo>)
    ensures forall t :: t in r <==> t in prev && t.id != id
    ensures Selection(r, prev, IdIsNot(id))
    ensures (forall i :: 0 <= i < |prev| ==> prev[i].id != id) ==> r == prev
  {
    forall t ensures t in Filter(prev, IdIsNot(id)) <==> t in prev && t.id != id {
      FilterMember(prev, IdIsNot(id), t);
    }
    FilterSelection(prev, IdIsNot(id));
    FilterNoneDropped(prev, IdIsNot(id));
    Filter(prev, IdIsNot(id))
  }

  /** `toggleTodo`: every todo with the id has its completion flipped and is restamped. */
  function ToggleTodo(prev: seq<Todo>, id: string, now: string): (r: seq<Todo>)
    ensures |r| == |prev|
    ensures forall i :: 0 <= i < |prev| && prev[i].id != id ==> r[i] == prev[i]
    ensures forall i :: 0 <= i < |prev| && prev[i].id == id ==>
      r[i] == prev[i].(completed := !prev[i].completed, updatedAt := now)
  {
    seq(|prev|, i requires 0 <= i < |prev| =>
      if prev[i].id == id then prev[i].(completed := !prev[i].completed, updatedAt := now) else prev[i])
  }

  /** `reassignTodos`: fails when the validator rejects the target; otherwise every todo in
      status `from` moves to status `to` and is restamped. */
  function ReassignTodos(prev: seq<Todo>, from: string, to: string, now: string,
                         validate: Option<string -> bool>): (r: Result<seq<Todo>, TodoError>)
    ensures r.Err? <==> Rejects(validate, to)
    ensures r.Err? ==> r.error == InvalidTargetStatus(to)
    ensures r.Ok? ==> |r.value| == |prev|
    ensures r.Ok? ==> forall i :: 0 <= i < |prev| && prev[i].status != from ==> r.value[i] == prev[i]
    ensures r.Ok? ==> forall i :: 0 <= i < |prev| && prev[i].status == from ==>
      r.value[i] == prev[i].(status := to, updatedAt := now)
  {
    if Rejects(validate, to) then Err(InvalidTargetStatus(to))
    else Ok(seq(|prev|, i requires 0 <= i < |prev| =>
      if prev[i].status == from then prev[i].(status := to, updatedAt := now) else prev[i]))
  }

  /** Every todo has a status: what addTodo insists on. */
  ghost predicate AllHaveStatus(todos: seq<Todo>)
  {
    forall i :: 0 <= i < |todos| ==> todos[i].status != ""
  }

  /** No two todos share an id. */
  ghost predicate IdsUnique(todos: seq<Todo>)
  {
    forall i, j :: 0 <= i < j < |todos| ==> todos[i].id != todos[j].id
  }

  /** Toggling the same todo twice restores its completion flag; only the stamp changes. */
  lemma ToggleTwice(prev: seq<Todo>, id: string, now1: string, now2: string)
    ensures var r := ToggleTodo(ToggleTodo(prev, id, now1), id, now2);
      |r| == |prev| &&
      forall i :: 0 <= i < |prev| ==>
        r[i] == if prev[i].id == id then prev[i].(updatedAt := now2) else prev[i]
  {
    var mid := ToggleTodo(prev, id, now1);
    var r := ToggleTodo(mid, id, now2);
    forall i | 0 <= i < |prev| ensures r[i] == if prev[i].id == id then prev[i].(updatedAt := now2) else prev[i] {
      assert mid[i].id == prev[i].id;
    }
  }

  /** Update and toggle keep every todo's id, creation stamp and place in the list. */
  lemma UpdateToggleKeepIds(prev: seq<Todo>, id: string, updates: UpdateTodoInput, now: string,
                            validate: Option<string -> bool>)
    ensures var u := UpdateTodos(prev, id, updates, now, validate);
      forall i :: 0 <= i < |prev| ==> u[i].id == prev[i].id && u[i].createdAt == prev[i].createdAt
    ensures var t := ToggleTodo(prev, id, now);
      forall i :: 0 <= i < |prev| ==> t[i].id == prev[i].id && t[i].createdAt == prev[i].createdAt
  {
  }

  /** A rejected status in an update leaves every todo's status as it was. */
  lemma RejectedStatusKept(prev: seq<Todo>, id: string, updates: UpdateTodoInput, now: string,
                           validate: Option<string -> bool>)
    requires TruthyOpt(updates.status) && Rejects(validate, updates.status.value)
    ensures var u := UpdateTodos(prev, id, updates, now, validate);
      forall i :: 0 <= i < |prev| ==> u[i].status == prev[i].status
  {
  }

  /** An empty status in an update is not validated: the matching todos lose their status,
      whatever the validator says. */
  lemma EmptyStatusUpdateClears(prev: seq<Todo>, id: string, updates: UpdateTodoInput, now: string,
                                validate: Option<string -> bool>)
    requires updates.status == Some("")
    ensures var u := UpdateTodos(prev, id, updates, now, validate);
      forall i :: 0 <= i < |prev| && prev[i].id == id ==> u[i].status == ""
  {
  }

  /** After a reassignment to a different status no todo is left in the old one, and every
      todo that was in it is now in the target. */
  lemma ReassignEmptiesSource(prev: seq<Todo>, from: string, to: string, now: string,
                              validate: Option<string -> bool>)
    requires from != to
    ensures var r := ReassignTodos(prev, from, to, now, validate);
      r.Ok? ==> (forall i :: 0 <= i < |prev| ==> r.value[i].status != from) &&
                (forall i :: 0 <= i < |prev| && prev[i].status == from ==> r.value[i].status == to)
  {
  }

  /** The store's invariant: unique ids and a status on every todo. */
  ghost predicate Valid(todos: seq<Todo>)
  {
    IdsUnique(todos) && AllHaveStatus(todos)
  }

  /** Adding under a fresh id keeps the invariant: add refuses an empty status. */
  lemma AddPreservesValid(prev: seq<Todo>, input: CreateTodoInput, newId: string, now: string,
                          defaultStatusId: Option<string>, validate: Option<string -> bool>)
    requires Valid(prev)
    requires forall i :: 0 <= i < |prev| ==> prev[i].id != newId
    ensures var a := AddTodo(prev, input, newId, now, defaultStatusId, validate);
      a.Ok? ==> Valid(a.value)
  {
  }

  /** Deleting keeps the invariant. */
  lemma DeletePreservesValid(prev: seq<Todo>, id: string)
    requires Valid(prev)
    ensures Valid(DeleteTodo(prev, id))
  {
    var d := DeleteTodo(prev, id);
    FilterPairwise(prev, IdIsNot(id), (a: Todo, b: Todo) => a.id != b.id);
    assert Pairwise(d, (a: Todo, b: Todo) => a.id != b.id);
    forall i | 0 <= i < |d| ensures d[i].status != "" {
      assert d[i] in prev;
    }
  }

  /** Toggling keeps the invariant. */
  lemma TogglePreservesValid(prev: seq<Todo>, id: string, now: string)
    requires Valid(prev)
    ensures Valid(ToggleTodo(prev, id, now))
  {
  }

  /** An update keeps the invariant unless it sets an empty status. */
  lemma UpdatePreservesValid(prev: seq<Todo>, id: string, updates: UpdateTodoInput, now: string,
                             validate: Option<string -> bool>)
    requires Valid(prev) && updates.status != Some("")
    ensures Valid(UpdateTodos(prev, id, updates, now, validate))
  {
  }

  /** Reassigning to a non-empty status keeps the invariant. */
  lemma ReassignPreservesValid(prev: seq<Todo>, from: string, to: string, now: string,
                               validate: Option<string -> bool>)
    requires Valid(prev) && to != ""
    ensures var r := ReassignTodos(prev, from, to, now, validate);
      r.Ok? ==> Valid(r.value)
  {
  }

  /** The hook's state and configuration. */
  class TodoStore {
    var todos: seq<Todo>
    const defaultStatusId: Option<string>
    const validateStatus: Option<string -> bool>

    /** `useTodoStorage(options)` followed by its mount effect. */
    constructor (defaultStatusId: Option<string>, validateStatus: Option<string -> bool>,
                 stored: Stored<seq<Todo>>)
      ensures this.defaultStatusId == defaultStatusId && this.validateStatus == validateStatus
      ensures todos == LoadTodos(stored)
    {
      this.defaultStatusId := defaultStatusId;
      this.validateStatus := validateStatus;
      todos := LoadTodos(stored);
    }

    method Add(input: CreateTodoInput, newId: string, now: string) returns (err: Option<TodoError>)
      modifies this
      ensures var r := AddTodo(old(todos), input, newId, now, defaultStatusId, validateStatus);
        if r.Ok? then todos == r.value && err.None? else todos == old(todos) && err == Some(r.error)
    {
      var r := AddTodo(todos, input, newId, now, defaultStatusId, validateStatus);
      if r.Ok? {
        todos := r.value;
        err := None;
      } else {
        err := Some(r.error);
      }
    }

    method Update(id: string, updates: UpdateTodoInput, now: string)
      modifies this
      ensures todos == UpdateTodos(old(todos), id, updates, now, validateStatus)
    {
      todos := UpdateTodos(todos, id, updates, now, validateStatus);
    }

    method Delete(id: string)
      modifies this
      ensures todos == DeleteTodo(old(todos), id)
    {
      todos := DeleteTodo(todos, id);
    }

    method Toggle(id: string, now: string)
      modifies this
      ensures todos == ToggleTodo(old(todos), id, now)
    {
      todos := ToggleTodo(todos, id, now);
    }

    method Reassign(from: string, to: string, now: string) returns (err: Option<TodoError>)
      modifies this
      ensures var r := ReassignTodos(old(todos), from, to, now, validateStatus);
        if r.Ok? then todos == r.value && err.None? else todos == old(todos) && err == Some(r.error)
    {
      var r := ReassignTodos(todos, from, to, now, validateStatus);
      if r.Ok? {
        todos := r.value;
        err := None;
      } else {
        err := Some(r.error);
      }
    }
  }
}
