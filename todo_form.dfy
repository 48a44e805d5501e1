/** The add-todo form's view model (src/components/TodoForm/useTodoFormViewModel.ts): four
    fields, and a submit that hands a create input to the add callback and resets the form. */
module TodoForm {
  import opened Types
  import opened Text
  import TodoStorage

  /** The input a submit hands to the add callback: trimmed text and category, '' due date
      sent as null, and no status, so the store picks its default. */
  function SubmitInput(text: string, priority: Priority, category: string, dueDate: string)
    : (c: CreateTodoInput)
    ensures c.text == Trim(text) && c.priority == priority && c.category == Trim(category)
    ensures c.dueDate == (if dueDate == "" then None else Some(dueDate))
    ensures c.status.None?
  {
    CreateTodoInput(Trim(text), priority, Trim(category), EmptyToNull(dueDate), None)
  }

  /** Submitting what a submit produced produces it again: the input is already trimmed. */
  lemma SubmitInputStable(text: string, priority: Priority, category: string, dueDate: string)
    ensures var c := SubmitInput(text, priority, category, dueDate);
      SubmitInput(c.text, c.priority, c.category, OrEmpty(c.dueDate)) == c
  {
    TrimIdempotent(text);
    TrimIdempotent(category);
  }

  /** A submitted todo, once added by the store, carries the trimmed text and the store's
      default status; a validator that rejects the default does not stop it. */
  lemma AddedFromForm(prev: seq<Todo>, text: string, priority: Priority, category: string, dueDate: string,
                      newId: string, now: string, defaultStatusId: Option<string>,
                      validate: Option<string -> bool>)
    requires Trim(text) != ""
    ensures var r := TodoStorage.AddTodo(prev, SubmitInput(text, priority, category, dueDate), newId, now,
                                         defaultStatusId, validate);
      && (r.Ok? <==> TruthyOpt(defaultStatusId))
      && (r.Ok? ==> r.value[|prev|].text == Trim(text) && r.value[|prev|].status == defaultStatusId.value)
  {
  }

  class TodoFormModel {
    var text: string
    var priority: Priority
    var category: string
    var dueDate: string

    /** The empty form: '' text, medium priority, '' category, '' due date. */
    predicate IsInitial()
      reads this
    {
      text == "" && priority == Medium && category == "" && dueDate == ""
    }

    constructor ()
      ensures IsInitial()
    {
      text := "";
      priority := Medium;
      category := "";
      dueDate := "";
    }

    /** `handleTextChange`. */
    method TextChange(value: string)
      modifies this
      ensures text == value
      ensures priority == old(priority) && category == old(category) && dueDate == old(dueDate)
    {
      text := value;
    }

    /** `handlePriorityChange`. */
    method PriorityChange(value: Priority)
      modifies this
      ensures priority == value
      ensures text == old(text) && category == old(category) && dueDate == old(dueDate)
    {
      priority := value;
    }

    /** `handleCategoryChange`. */
    method CategoryChange(value: string)
      modifies this
      ensures category == value
      ensures text == old(text) && priority == old(priority) && dueDate == old(dueDate)
    {
      category := value;
    }

    /** `handleDueDateChange`. */
    method DueDateChange(value: string)
      modifies this
      ensures dueDate == value
      ensures text == old(text) && priority == old(priority) && category == old(category)
    {
      dueDate := value;
    }

    /** `resetForm`. */
    method Reset()
      modifies this
      ensures IsInitial()
    {
      text := "";
      priority := Medium;
      category := "";
      dueDate := "";
    }

    /** `handleSubmit`: white-space-only text adds nothing and keeps the fields; otherwise
        one add with the submitted input, and the form returns to its initial state. */
    method Submit() returns (added: Option<CreateTodoInput>)
      modifies this
      ensures added.None? <==> Trim(old(text)) == ""
      ensures added.None? ==>
        text == old(text) && priority == old(priority) && category == old(category) && dueDate == old(dueDate)
      ensures added.Some? ==>
        added.value == SubmitInput(old(text), old(priority), old(category), old(dueDate)) && IsInitial()
    {
      var trimmedText := Trim(text);
      if trimmedText == "" {
        return None;
      }
      added := Some(SubmitInput(text, priority, category, dueDate));
      Reset();
    }
  }
}
