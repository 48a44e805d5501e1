/** One todo row's view model (src/components/TodoItem/useTodoItemViewModel.ts): the inline
    edit mode, its four edit fields, and the calls it makes to the toggle, delete and update
    callbacks, which the model returns as events. */
module TodoItem {
  import opened Types
  import opened Text
  import TodoStorage

  /** A call to one of the row's callbacks. */
  datatype ItemEvent =
    | Toggled(id: string)
    | Deleted(id: string)
    | Updated(id: string, updates: UpdateTodoInput)

  /** The update a save sends: trimmed text and category, the priority, and the due date
      with '' sent as null; nothing else. */
  function EditUpdates(text: string, priority: Priority, category: string, dueDate: string)
    : (u: UpdateTodoInput)
    ensures u.text == Some(Trim(text)) && u.priority == Some(priority)
    ensures u.category == Some(Trim(category))
    ensures u.dueDate == Some(if dueDate == "" then None else Some(dueDate))
    ensures u.completed.None? && u.status.None? && u.updatedAt.None?
  {
    UpdateTodoInput(Some(Trim(text)), None, None, Some(priority), Some(Trim(category)),
                    Some(EmptyToNull(dueDate)), None)
  }

  /** Saving the fields an edit loads, unchanged, gives back the todo with only its update
      time refreshed, provided its text and category are already trimmed and its due date
      is not the empty string. */
  lemma UnchangedSaveRestamps(todo: Todo, now: string, validate: Option<string -> bool>)
    requires Trim(todo.text) == todo.text && Trim(todo.category) == todo.category
    requires todo.dueDate != Some("")
    ensures TodoStorage.UpdateOne(todo, EditUpdates(todo.text, todo.priority, todo.category,
                                                    OrEmpty(todo.dueDate)), now, validate)
         == todo.(updatedAt := now)
  {
    assert EmptyToNull(OrEmpty(todo.dueDate)) == todo.dueDate;
  }

  /** A saved edit never changes the todo's status or completion, whatever the validator. */
  lemma SaveKeepsStatus(todo: Todo, text: string, priority: Priority, category: string, dueDate: string,
                        now: string, validate: Option<string -> bool>)
    ensures var t := TodoStorage.UpdateOne(todo, EditUpdates(text, priority, category, dueDate), now, validate);
      t.status == todo.status && t.completed == todo.completed && t.id == todo.id
  {
  }

  class TodoItemEditor {
    const todo: Todo
    var isEditing: bool
    var editText: string
    var editPriority: Priority
    var editCategory: string
    var editDueDate: string

    /** The fields mirror the todo; a null due date shows as ''. */
    predicate Mirrors()
      reads this
    {
      && editText == todo.text && editPriority == todo.priority
      && editCategory == todo.category && editDueDate == OrEmpty(todo.dueDate)
    }

    /** Not editing, fields loaded from the todo. */
    constructor (todo: Todo)
      ensures this.todo == todo && !isEditing && Mirrors()
    {
      this.todo := todo;
      isEditing := false;
      editText := todo.text;
      editPriority := todo.priority;
      editCategory := todo.category;
      editDueDate := OrEmpty(todo.dueDate);
    }

    /** `handleToggle`. */
    method Toggle() returns (e: ItemEvent)
      ensures e == Toggled(todo.id)
    {
      e := Toggled(todo.id);
    }

    /** `handleDelete`. */
    method Delete() returns (e: ItemEvent)
      ensures e == Deleted(todo.id)
    {
      e := Deleted(todo.id);
    }

    /** `handleEdit`: enter edit mode with the fields reloaded from the todo. */
    method Edit()
      modifies this
      ensures isEditing && Mirrors()
    {
      isEditing := true;
      editText := todo.text;
      editPriority := todo.priority;
      editCategory := todo.category;
      editDueDate := OrEmpty(todo.dueDate);
    }

    /** `handleCancelEdit`: leave edit mode with the fields restored; no callback runs. */
    method CancelEdit()
      modifies this
      ensures !isEditing && Mirrors()
    {
      isEditing := false;
      editText := todo.text;
      editPriority := todo.priority;
      editCategory := todo.category;
      editDueDate := OrEmpty(todo.dueDate);
    }

    /** `handleSaveEdit`: nothing when the trimmed text is empty; otherwise one update with
        the edited fields, and edit mode ends. The fields themselves are left as typed. */
    method SaveEdit() returns (e: Option<ItemEvent>)
      modifies this
      ensures editText == old(editText) && editPriority == old(editPriority)
      ensures editCategory == old(editCategory) && editDueDate == old(editDueDate)
      ensures e.None? <==> Trim(editText) == ""
      ensures e.None? ==> isEditing == old(isEditing)
      ensures e.Some? ==> !isEditing && e.value == Updated(todo.id, EditUpdates(editText, editPriority, editCategory, editDueDate))
      ensures e.Some? ==> e.value.updates.text.value != ""
    {
      var trimmedText := Trim(editText);
      if trimmedText == "" {
        return None;
      }
      e := Some(Updated(todo.id, EditUpdates(editText, editPriority, editCategory, editDueDate)));
      isEditing := false;
    }

    /** `handleTextChange`. */
    method TextChange(value: string)
      modifies this
      ensures editText == value
      ensures isEditing == old(isEditing) && editPriority == old(editPriority)
      ensures editCategory == old(editCategory) && editDueDate == old(editDueDate)
    {
      editText := value;
    }

    /** `handlePriorityChange`. */
    method PriorityChange(value: Priority)
      modifies this
      ensures editPriority == value
      ensures isEditing == old(isEditing) && editText == old(editText)
      ensures editCategory == old(editCategory) && editDueDate == old(editDueDate)
    {
      editPriority := value;
    }

    /** `handleCategoryChange`. */
    method CategoryChange(value: string)
      modifies this
      ensures editCategory == value
      ensures isEditing == old(isEditing) && editText == old(editText)
      ensures editPriority == old(editPriority) && editDueDate == old(editDueDate)
    {
      editCategory := value;
    }

    /** `handleDueDateChange`. */
    method DueDateChange(value: string)
      modifies this
      ensures editDueDate == value
      ensures isEditing == old(isEditing) && editText == old(editText)
      ensures editPriority == old(editPriority) && editCategory == old(editCategory)
    {
      editDueDate := value;
    }

    /** `handleKeyDown`: Enter saves, Escape cancels, any other key does nothing. */
    method KeyDown(key: string) returns (e: Option<ItemEvent>)
      modifies this
      ensures key == "Enter" ==>
        && editText == old(editText) && editPriority == old(editPriority)
        && editCategory == old(editCategory) && editDueDate == old(editDueDate)
        && (e.None? <==> Trim(editText) == "")
        && (e.None? ==> isEditing == old(isEditing))
        && (e.Some? ==> !isEditing && e.value == Updated(todo.id, EditUpdates(editText, editPriority, editCategory, editDueDate)))
      ensures key == "Escape" ==> e.None? && !isEditing && Mirrors()
      ensures key != "Enter" && key != "Escape" ==>
        && e.None? && isEditing == old(isEditing) && editText == old(editText)
        && editPriority == old(editPriority) && editCategory == old(editCategory)
        && editDueDate == old(editDueDate)
    {
      if key == "Enter" {
        e := SaveEdit();
      } else if key == "Escape" {
        CancelEdit();
        e := None;
      } else {
        e := None;
      }
    }

    /** `handleStatusChange`: one update that sets the status and nothing else. */
    method StatusChange(newStatus: string) returns (e: ItemEvent)
      ensures e == Updated(todo.id, StatusOnlyUpdate(newStatus))
      ensures e.updates.text.None? && e.updates.dueDate.None? && e.updates.completed.None?
    {
      e := Updated(todo.id, StatusOnlyUpdate(newStatus));
    }
  }
}
