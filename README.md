# To-do app core, modelled in Dafny

This project models the logic of a React to-do application. The modelled parts are:

- the status registry: workflow statuses with a cap of seven, case-insensitive label uniqueness, update, delete and reorder;
- the todo store: add, update, delete, toggle and reassign, with an injected status validator;
- the list view's filter passes and its six stable sorts;
- the Kanban board's grouping into three columns and its drag handlers;
- the column header mapping;
- the statistics;
- the colour palette;
- the status editor form and its validation;
- the admin panel's selection state;
- the inline todo editor;
- the add-todo form;
- the checkbox selection list;
- the filter bar handlers;
- the active-filter summary.

Each source file is one Dafny module. The modules are:
`Types`, `StatusStorage`, `TodoStorage`, `Filtering`, `ListView`, `KanbanBoard`, `KanbanColumn`, `TodoStatistics`, `ColorPalette`, `StatusForm`, `AdminPanel`, `TodoItem`, `TodoForm`, `CheckboxList`, `FilterBar` and `ActiveFilterSummary`.

Three support modules model the JavaScript built-ins the code relies on:

- `Text` models `trim`, `toLowerCase`, `includes` and `localeCompare`, restricted to ASCII.
- `Seqs` models `filter`, `find`, `findIndex` and `some`.
- `StableSort` models the stable `Array.prototype.sort`. It is an insertion sort, with an in-place array version proved equal to it.

Operations that compute a value are functions. Each store operation returns either the new list or the error the hook throws.

State the source keeps in hooks is a class whose methods reassign its fields:

- the registry's and the store's lists;
- the drag `activeId`;
- the admin selection;
- the form and editor fields.

The clock, id generation, `new Date(s).getTime()`, `window.confirm` and the validator are parameters. An `alert` is an error a method returns. Callback calls (`onSave`, `onUpdate`, `onAdd`, `onChange`, `onFilterChange`, removal callbacks) are results.

JavaScript truthiness is explicit. An optional string is truthy when present and non-empty (`TruthyOpt`, `OrElse`, `OrEmpty`, `EmptyToNull`).

A status's `label` field is named `displayLabel` in the model, because `label` is a reserved word in Dafny.

The model follows the code, including these behaviours:

- `deleteStatus` has no last-status guard.
- `reorderStatuses` has no completeness or duplicate check.
- `addStatus` has no label length or character checks.
- Sorting by due date, descending, puts undated todos first.
- Neither view filters by priority.
- Deleting a status does not reassign its todos.

## Model

| member | source | states |
|---|---|---|
| Types.OrElse | src/hooks/useTodoStorage.ts:46 | `a \|\| b` is the first operand when truthy, else the second; it is truthy iff either operand is |
| Types.OrEmpty | src/components/TodoItem/useTodoItemViewModel.ts:44 | `o \|\| ''` is truthy exactly when `o` is, and is `o` itself then |
| Types.EmptyToNull | src/components/TodoForm/useTodoFormViewModel.ts:67 | `s \|\| null` is null exactly for the empty string, else `s` |
| Types.ParseSortOption | src/types/todo.types.ts:11-18 | a `sortBy` string selects the option whose value it is, and no option when it is none of the six values |
| Types.StatusOnlyUpdate | src/components/KanbanBoard/useKanbanBoardViewModel.ts:138 | the update `{status}` sets the status and no other field |
| Text.TrimEmptyIffAllSpace | src/components/TodoList/useTodoListViewModel.ts:41-42 | a string trims to '' exactly when it is all white space, so such a search applies no filter |
| Text.TrimIdempotent | src/components/TodoForm/useTodoFormViewModel.ts:57-66 | trimming a trimmed string changes nothing |
| Text.ToLower | src/components/TodoList/useTodoListViewModel.ts:41-45 | lower-casing keeps the length and maps each character through ASCII case folding |
| Text.Utf16Length | src/components/AdminPanel/StatusForm/StatusForm.tsx:56-58 | `.length` counts UTF-16 code units: at least the number of characters and at most twice it |
| Text.ContainsIffOccurs | src/components/TodoList/useTodoListViewModel.ts:44-45 | `includes` holds exactly when the needle occurs at some index |
| Text.LexCompareAntisymmetric | src/components/TodoList/useTodoListViewModel.ts:83 | the text comparison is negative one way iff positive the other way |
| Text.LexCompareTransitive | src/components/TodoList/useTodoListViewModel.ts:83 | the text comparison's "not after" relation is transitive |
| StableSort.SortPermutes | src/components/TodoList/useTodoListViewModel.ts:50-88 | sorting returns a permutation of its input |
| StableSort.SortSorted | src/components/TodoList/useTodoListViewModel.ts:50-88 | under a total-preorder comparator the result is in comparator order |
| StableSort.SortStable | src/components/TodoList/useTodoListViewModel.ts:50-88 | elements the comparator ties keep their input order (the sort is stable) |
| StableSort.SortInPlace | src/components/TodoList/useTodoListViewModel.ts:53 | the in-place insertion sort leaves the array equal to the stable sort of its old contents |
| StatusStorage.LoadStatuses | src/hooks/useStatusStorage.ts:62-76 | parsed stored data is used as is; nothing stored, or unparseable data, gives the three defaults |
| StatusStorage.DefaultStatuses | src/hooks/useStatusStorage.ts:19-57 | three statuses at positions 1, 2 and 3, each created and last updated at the load time |
| StatusStorage.DefaultsValid | src/hooks/useStatusStorage.ts:19-57 | the three default statuses have distinct ids, distinct labels up to case, and positions 1, 2, 3 |
| StatusStorage.AddStatus | src/hooks/useStatusStorage.ts:110-135 | fails with no change at 7 statuses, then on a label equal up to case to an existing one; otherwise appends one status with the input's fields, the new id and createdAt = updatedAt = now, earlier entries untouched |
| StatusStorage.AddPreservesValid | src/hooks/useStatusStorage.ts:110-135 | adding under a fresh id keeps the count at most 7, ids unique and labels unique up to case |
| StatusStorage.Merge | src/hooks/useStatusStorage.ts:157-161 | for each of label, value, colour, colour name, description and position: the update's value when present, the old one when absent; id and createdAt kept; stamped now |
| StatusStorage.UpdateStatus | src/hooks/useStatusStorage.ts:140-167 | succeeds iff some status has the id and the update's label is not a truthy label equal up to case to another status's; unknown id fails; on success only the first match's index changes, to the merge, and the length is kept |
| StatusStorage.UpdatePreservesValid | src/hooks/useStatusStorage.ts:140-167 | an update that does not set the label to '' keeps ids and labels unique |
| StatusStorage.EmptyLabelUpdateCanDuplicate | src/hooks/useStatusStorage.ts:148-155 | an update to the label '' skips the duplicate check, so two statuses can end up with the same label |
| StatusStorage.DeleteStatus | src/hooks/useStatusStorage.ts:172-181 | fails iff no status has the id; otherwise the result is shorter, holds no status with the id, and holds every other status, in their original order and multiplicity |
| StatusStorage.DeletePreservesValid | src/hooks/useStatusStorage.ts:172-181 | deleting keeps uniqueness and keeps every status with another id; the list may become empty |
| StatusStorage.LastWithId | src/hooks/useStatusStorage.ts:189 | the Map built from the list maps an id to the last status with that id, or to nothing iff no status has it |
| StatusStorage.ReorderStatuses | src/hooks/useStatusStorage.ts:186-204 | fails iff some requested id is unknown; otherwise entry i is the status with the i-th id, with position i+1, stamped now; omitted ids are dropped |
| StatusStorage.ReorderFrom | src/hooks/useStatusStorage.ts:191-202 | the map over the requested ids from index `from` on: it succeeds iff every remaining id is found; an error names a requested id that is missing; entry i − from is the last status with the i-th id, at position i + 1, stamped now |
| StatusStorage.ReorderPermutation | src/hooks/useStatusStorage.ts:186-204 | when the requested ids are the current ids without repeats, the reorder succeeds, lists exactly those ids in that order, with positions 1..n, and keeps the registry valid |
| StatusStorage.GetStatusById | src/hooks/useStatusStorage.ts:209-214 | the result is the FIRST status with the id: every earlier one has another id; absent iff no status has the id |
| StatusStorage.ExistsIffFound | src/hooks/useStatusStorage.ts:209-224 | `statusExists(id)` holds exactly when `getStatusById(id)` finds a status |
| StatusStorage.GetFirstStatus | src/hooks/useStatusStorage.ts:229-231 | the first array element, absent only for an empty list |
| StatusStorage.StatusStore.constructor | src/hooks/useStatusStorage.ts:100 | the registry starts from the loaded list |
| StatusStorage.StatusStore.Add | src/hooks/useStatusStorage.ts:110-135 | on success the list becomes the add's result; on error it is unchanged and the error is returned |
| StatusStorage.StatusStore.Update | src/hooks/useStatusStorage.ts:140-167 | on success the list becomes the update's result; on error it is unchanged and the error is returned |
| StatusStorage.StatusStore.Delete | src/hooks/useStatusStorage.ts:172-181 | on success the list becomes the delete's result; on error it is unchanged and the error is returned |
| StatusStorage.StatusStore.Reorder | src/hooks/useStatusStorage.ts:186-204 | on success the list becomes the reorder's result; on error it is unchanged and the error is returned |
| TodoStorage.LoadTodos | src/hooks/useTodoStorage.ts:20-31 | parsed stored data is used; nothing stored or unparseable data gives the empty list |
| TodoStorage.EffectiveStatus | src/hooks/useTodoStorage.ts:46-52 | the input's status if truthy, else the default; the default again when the validator rejects the choice; '' exactly when no default is truthy and the input's status is missing or rejected |
| TodoStorage.AddTodo | src/hooks/useTodoStorage.ts:42-68 | fails iff the effective status is ''; otherwise appends one not-completed todo with the new id, the input's fields, the effective status and createdAt = updatedAt = now |
| TodoStorage.UpdateOne | src/hooks/useTodoStorage.ts:73-83 | each of text, completed, priority, category and due date takes the update's value when present and keeps the old one when absent; a present status is applied unless it is truthy and rejected, when the old status is kept; id and createdAt kept; stamped now |
| TodoStorage.UpdateTodos | src/hooks/useTodoStorage.ts:70-87 | same length; todos with the id are updated, all others are unchanged (an unknown id changes nothing) |
| TodoStorage.DeleteTodo | src/hooks/useTodoStorage.ts:89-91 | exactly the todos without the id remain, in their original order and multiplicity; an absent id changes nothing |
| TodoStorage.ToggleTodo | src/hooks/useTodoStorage.ts:93-108 | todos with the id have `completed` flipped and are stamped now; nothing else changes, status included |
| TodoStorage.ToggleTwice | src/hooks/useTodoStorage.ts:93-108 | toggling twice restores every completion flag; only the stamp differs |
| TodoStorage.UpdateToggleKeepIds | src/hooks/useTodoStorage.ts:70-108 | update and toggle keep each todo's id, creation stamp and place |
| TodoStorage.RejectedStatusKept | src/hooks/useTodoStorage.ts:77-80 | when the validator rejects a truthy new status, every todo's status is unchanged |
| TodoStorage.EmptyStatusUpdateClears | src/hooks/useTodoStorage.ts:77 | an update with status '' is not validated and empties the matching todos' status |
| TodoStorage.ReassignTodos | src/hooks/useTodoStorage.ts:114-126 | fails iff the validator rejects the target; otherwise todos in `from` move to `to` and are stamped, all others are unchanged |
| TodoStorage.ReassignEmptiesSource | src/hooks/useTodoStorage.ts:114-126 | after a successful reassignment to a different status no todo is left in the old one |
| TodoStorage.AddPreservesValid | src/hooks/useTodoStorage.ts:42-68 | adding under a fresh id keeps ids unique and every todo's status non-empty |
| TodoStorage.DeletePreservesValid | src/hooks/useTodoStorage.ts:89-91 | deleting keeps the invariant |
| TodoStorage.TogglePreservesValid | src/hooks/useTodoStorage.ts:93-108 | toggling keeps the invariant |
| TodoStorage.UpdatePreservesValid | src/hooks/useTodoStorage.ts:70-87 | an update that does not set the status to '' keeps the invariant |
| TodoStorage.ReassignPreservesValid | src/hooks/useTodoStorage.ts:114-126 | reassigning to a non-empty status keeps the invariant |
| TodoStorage.TodoStore.constructor | src/hooks/useTodoStorage.ts:15-31 | the store holds the loaded list and its configuration |
| TodoStorage.TodoStore.Add | src/hooks/useTodoStorage.ts:42-68 | on success the list becomes the add's result; on error it is unchanged and the error is returned |
| TodoStorage.TodoStore.Update | src/hooks/useTodoStorage.ts:70-87 | the list becomes the update's result |
| TodoStorage.TodoStore.Delete | src/hooks/useTodoStorage.ts:89-91 | the list becomes the delete's result |
| TodoStorage.TodoStore.Toggle | src/hooks/useTodoStorage.ts:93-108 | the list becomes the toggle's result |
| TodoStorage.TodoStore.Reassign | src/hooks/useTodoStorage.ts:114-126 | on success the list becomes the reassignment's result; on error it is unchanged |
| Filtering.SearchTerm | src/components/TodoList/useTodoListViewModel.ts:41-42 | the search term is empty exactly when the search text is all white space |
| Filtering.MatchesSearch | src/components/TodoList/useTodoListViewModel.ts:43-46 | a todo matches when its lower-cased text or category contains the term; the empty term matches every todo |
| Filtering.PassIf | src/components/TodoList/useTodoListViewModel.ts:31-48 | one filter pass keeps a sub-multiset of its input, holding exactly the todos that pass when the pass is on |
| Filtering.ApplyFilters | src/components/TodoList/useTodoListViewModel.ts:28-48 | the three passes, status, category, search, keep a sub-multiset of the input |
| Filtering.ApplyFiltersKeepsOrder | src/components/TodoList/useTodoListViewModel.ts:28-48 | the three passes equal one filter by all the criteria: the survivors are, in input order, every input todo that meets the criteria, each copy kept |
| Filtering.ApplyFiltersMember | src/components/TodoList/useTodoListViewModel.ts:28-48 | a todo survives the three passes iff it is in the input and meets every non-empty criterion; the survivors are a sub-multiset |
| Filtering.BlankSearchKeepsAll | src/components/TodoList/useTodoListViewModel.ts:41-42 | white-space-only search text imposes no condition |
| Filtering.NoFiltersKeepsAll | src/components/TodoList/useTodoListViewModel.ts:28-48 | with no statuses, no categories and blank search the passes return the input unchanged |
| ListView.Rank | src/components/TodoList/useTodoListViewModel.ts:13-17 | high ranks 3, low ranks 1, medium in between |
| ListView.Compare | src/components/TodoList/useTodoListViewModel.ts:52-84 | what each comparator puts first: the earlier creation time, or the later one when descending; by due date, dated before undated and the earlier date first, reversed when descending, two undated todos tied; the higher priority rank; alphabetically a comparison result of -1, 0 or 1 |
| ListView.ComparatorTotalPreorder | src/components/TodoList/useTodoListViewModel.ts:52-84 | each of the six comparators is a total preorder, so the stable sort is well defined |
| ListView.ParseValue | src/types/todo.types.ts:11-18 | each option's string value selects that option |
| ListView.SortBy | src/components/TodoList/useTodoListViewModel.ts:50-88 | the `switch` returns a permutation of the filtered list, and the list itself for an unknown option |
| ListView.View | src/components/TodoList/useTodoListViewModel.ts:27-91 | the view holds exactly the filtered todos, each as often as after the filter passes |
| ListView.FilteredAndSortedTodos | src/components/TodoList/useTodoListViewModel.ts:27-91 | the pipeline on a copy of the list equals the filter passes followed by the selected stable sort |
| ListView.SortedCopy | src/components/TodoList/useTodoListViewModel.ts:28-84 | sorting a fresh array copy gives the stable sort of the list |
| ListView.ViewPermutesFiltered | src/components/TodoList/useTodoListViewModel.ts:28-90 | the view is a permutation of the filtered todos: exactly the inputs that meet the criteria |
| ListView.ViewSorted | src/components/TodoList/useTodoListViewModel.ts:50-88 | under a known option the view is in that comparator's order |
| ListView.ViewStable | src/components/TodoList/useTodoListViewModel.ts:50-88 | todos with equal keys keep their filtered order |
| ListView.UnknownOptionKeepsOrder | src/components/TodoList/useTodoListViewModel.ts:86-87 | an unknown `sortBy` leaves the filtered order |
| ListView.DateAddedAscending | src/components/TodoList/useTodoListViewModel.ts:52-54 | by date added, creation times never decrease |
| ListView.DateAddedDescending | src/components/TodoList/useTodoListViewModel.ts:56-58 | by date added, descending, creation times never increase |
| ListView.DueDateUndatedLast | src/components/TodoList/useTodoListViewModel.ts:60-67 | by due date, every dated todo precedes every undated one |
| ListView.DueDateDescUndatedFirst | src/components/TodoList/useTodoListViewModel.ts:69-76 | by due date, descending, every undated todo precedes every dated one |
| ListView.PriorityDescending | src/components/TodoList/useTodoListViewModel.ts:78-80 | by priority, ranks never increase |
| ListView.AlphabeticalOrder | src/components/TodoList/useTodoListViewModel.ts:82-84 | alphabetically, texts are in lexicographic order |
| KanbanBoard.GroupBy | src/components/KanbanBoard/useKanbanBoardViewModel.ts:89-100 | defines each column as the filtered todos with its key, in filtered order |
| KanbanBoard.GroupByKeepsOrder | src/components/KanbanBoard/useKanbanBoardViewModel.ts:96-100 | each column lists, in filtered order, every filtered todo with its key and nothing else |
| KanbanBoard.TodosByStatus | src/components/KanbanBoard/useKanbanBoardViewModel.ts:66-103 | the forEach loop builds exactly the grouping of the filtered todos into the three columns |
| KanbanBoard.GroupBySnoc | src/components/KanbanBoard/useKanbanBoardViewModel.ts:96-100 | one more push extends the grouping of the longer prefix |
| KanbanBoard.GroupByMember | src/components/KanbanBoard/useKanbanBoardViewModel.ts:96-100 | a todo is in a column iff it was filtered in and its status is that column's key |
| KanbanBoard.GroupBySizes | src/components/KanbanBoard/useKanbanBoardViewModel.ts:89-100 | the column sizes sum to at most the filtered count, and to exactly it when every status is a column key |
| KanbanBoard.ActiveTodo | src/components/KanbanBoard/useKanbanBoardViewModel.ts:106-109 | nothing for a falsy id; otherwise the FIRST todo of the unfiltered list with that id (every earlier todo has another id), found whenever one exists |
| KanbanBoard.DragController.constructor | src/components/KanbanBoard/useKanbanBoardViewModel.ts:111-148 | no card is being dragged initially |
| KanbanBoard.DragController.DragStart | src/components/KanbanBoard/useKanbanBoardViewModel.ts:111-113 | the dragged id becomes active |
| KanbanBoard.DragController.DragEnd | src/components/KanbanBoard/useKanbanBoardViewModel.ts:119-144 | one status-only update `(active, {status: over})` iff dropped over a column key, none otherwise; the active id is cleared either way |
| KanbanBoard.DragController.DragCancel | src/components/KanbanBoard/useKanbanBoardViewModel.ts:146-148 | the active id is cleared and nothing is emitted |
| KanbanColumn.Title | src/components/KanbanColumn/useKanbanColumnViewModel.ts:25-36 | the title is "Unknown" exactly for a key that is not a column |
| KanbanColumn.StatusClass | src/components/KanbanColumn/useKanbanColumnViewModel.ts:38-49 | the status class is the indicator class under the `status__` prefix for a column key, else empty |
| KanbanColumn.IndicatorClass | src/components/KanbanColumn/useKanbanColumnViewModel.ts:51-62 | the indicator class is empty exactly for a key that is not a column |
| KanbanColumn.ClassesAgree | src/components/KanbanColumn/useKanbanColumnViewModel.ts:25-62 | a key is a column iff its title is not 'Unknown' iff its indicator class is non-empty; the status class is the indicator class with the `status__` prefix, or '' |
| KanbanColumn.ColumnTitles | src/components/KanbanColumn/useKanbanColumnViewModel.ts:25-62 | the three columns are titled 'To Do', 'In Progress', 'Done', with indicator classes todo, inProgress, done |
| KanbanColumn.ColumnCounts | src/components/KanbanColumn/useKanbanColumnViewModel.ts:64-65 | count is the todo count, and the column is empty iff the count is 0 |
| TodoStatistics.Stats | src/components/TodoStats/useTodoStatsViewModel.ts:19-28 | total is the length, completed counts the completed todos, active = total − completed, 0 ≤ completed ≤ total |
| TodoStatistics.ActiveCountsOpen | src/components/TodoStats/useTodoStatsViewModel.ts:22 | the active count is the number of todos not completed |
| ColorPalette.PaletteIdsDistinct | src/utils/colorPalette.ts:18-103 | the palette has 12 entries with pairwise distinct ids |
| ColorPalette.GetColorById | src/utils/colorPalette.ts:110-112 | the result is a palette entry with the id, or absent iff no entry has it |
| ColorPalette.FoundAt | src/utils/colorPalette.ts:110-112 | looking up any entry's id returns that entry |
| ColorPalette.GetDefaultColor | src/utils/colorPalette.ts:118-120 | the first palette entry |
| ColorPalette.DefaultColorFound | src/utils/colorPalette.ts:110-120 | the default is Terracotta and looking up its id returns it |
| StatusForm.DuplicateOf | src/components/AdminPanel/StatusForm/StatusForm.tsx:63-66 | defines the duplicate check: some status, other than the edited one, has the trimmed label up to case |
| StatusForm.DescriptionTooLong | src/components/AdminPanel/StatusForm/StatusForm.tsx:73 | defines the description check: a non-empty description longer than 100 UTF-16 code units |
| StatusForm.ValidateLabelAsWritten | src/components/AdminPanel/StatusForm/StatusForm.tsx:53-70 | the label checks as written: accepted iff non-blank, untrimmed length 3..30 in UTF-16 code units, printable ASCII and no duplicate; each message iff its check is the first to fail, in the order required, too short, too long, not printable, duplicate |
| StatusForm.ShortTrimmedLabelAccepted | src/components/AdminPanel/StatusForm/StatusForm.tsx:54-94 | "ab " passes the as-written checks though its trimmed form, the label saved, is shorter than 3, in characters and in UTF-16 code units |
| StatusForm.ValidateLabel | src/components/AdminPanel/StatusForm/StatusForm.tsx:53-70 | a label is accepted iff its trimmed length in UTF-16 code units is 3..30, it is printable ASCII and no other status has it up to case; Required iff it is blank |
| StatusForm.ExistingStatus | src/components/AdminPanel/StatusForm/StatusForm.tsx:20 | the edited status is looked up only for a truthy id: it is the first status with that id, found whenever one exists, as the storage lookup returns it |
| StatusForm.DefaultColorsInPalette | src/hooks/useStatusStorage.ts:19-57 | each seeded status's colour is in the palette under the colour name the status carries |
| StatusForm.AgreeOnTrimmedLabel | src/components/AdminPanel/StatusForm/StatusForm.tsx:53-70 | on a label without surrounding white space the as-written checks and the trimmed-length checks give the same answer |
| StatusForm.AcceptedLabelSaved | src/components/AdminPanel/StatusForm/StatusForm.tsx:53-93 | a label the as-written checks accept is saved trimmed, non-empty and at most 30 long, in characters and in UTF-16 code units |
| StatusForm.AcceptedLabelNotTaken | src/components/AdminPanel/StatusForm/StatusForm.tsx:63-66 | a label the as-written checks accept for a new status passes the registry's duplicate check once trimmed, and is non-empty |
| StatusForm.AcceptedLabelNotTakenByOther | src/components/AdminPanel/StatusForm/StatusForm.tsx:63-66 | a label the as-written checks accept for an edit collides, once trimmed, with no other status, so the registry's update does not refuse it |
| StatusForm.StatusEditor.constructor | src/components/AdminPanel/StatusForm/StatusForm.tsx:24-32 | empty label and description, the first palette colour, no errors |
| StatusForm.StatusEditor.Initialize | src/components/AdminPanel/StatusForm/StatusForm.tsx:35-47 | loads the edited status's label, description and colour, or resets to empty and the first colour; clears the errors |
| StatusForm.StatusEditor.Validate | src/components/AdminPanel/StatusForm/StatusForm.tsx:50-79 | records the as-written label error (lengths in UTF-16 code units) and the description-length error, independently, and returns true iff there are none |
| StatusForm.StatusEditor.HandleSubmit | src/components/AdminPanel/StatusForm/StatusForm.tsx:82-101 | saves iff validation passes and the colour is in the palette; the saved input has the trimmed label (non-empty, at most 30 UTF-16 code units, possibly under 3) and description, the colour and its palette name, and the edited status's position or count + 1 |
| AdminPanel.CanAddMore | src/components/AdminPanel/useAdminPanelViewModel.ts:43 | defines `canAddMore`: fewer than seven statuses |
| AdminPanel.IsEditing | src/components/AdminPanel/useAdminPanelViewModel.ts:44 | defines `isEditing`: a selection is present |
| AdminPanel.CanDelete | src/components/AdminPanel/useAdminPanelViewModel.ts:122-126 | defines `canDelete(id)`: more than one status, whatever the id |
| AdminPanel.CanAddMoreIffRoom | src/components/AdminPanel/useAdminPanelViewModel.ts:43 | `canAddMore` is false exactly when the registry's add would fail for lack of room |
| AdminPanel.CanDeleteLeavesOne | src/components/AdminPanel/useAdminPanelViewModel.ts:122-126 | when `canDelete` holds and ids are unique, a successful delete leaves at least one status |
| AdminPanel.AcceptedCreateSaves | src/components/AdminPanel/useAdminPanelViewModel.ts:72-84 | when there is room, the registry adds the form's input for any label the form accepts |
| AdminPanel.AcceptedEditSaves | src/components/AdminPanel/useAdminPanelViewModel.ts:72-80 | with unique ids, the registry's update of an existing status with the form's input succeeds for any label the form accepts |
| AdminPanel.SavedEditApplies | src/components/AdminPanel/useAdminPanelViewModel.ts:72-80 | a saved edit replaces the label, colour, colour name, description and position, and keeps value, id and creation time |
| AdminPanel.AdminPanelModel.constructor | src/components/AdminPanel/useAdminPanelViewModel.ts:39-40 | no selection, no unsaved changes |
| AdminPanel.AdminPanelModel.SelectStatus | src/components/AdminPanel/useAdminPanelViewModel.ts:47-55 | unless the user declines to discard, selects the id and clears the flag |
| AdminPanel.AdminPanelModel.CreateNew | src/components/AdminPanel/useAdminPanelViewModel.ts:58-69 | unless the user declines, alerts when no more can be added and keeps the selection, else clears it |
| AdminPanel.AdminPanelModel.SaveStatus | src/components/AdminPanel/useAdminPanelViewModel.ts:72-88 | updates the selected status when the selection is truthy, else adds; success clears selection and flag, an error is alerted and changes nothing |
| AdminPanel.AdminPanelModel.DeleteStatus | src/components/AdminPanel/useAdminPanelViewModel.ts:91-104 | deletes without reassigning todos; on success drops the selection if it was the deleted status and clears the flag |
| AdminPanel.AdminPanelModel.ReorderStatuses | src/components/AdminPanel/useAdminPanelViewModel.ts:107-109 | forwards to the registry's reorder and passes its error on |
| AdminPanel.AdminPanelModel.CancelEdit | src/components/AdminPanel/useAdminPanelViewModel.ts:112-119 | unless the user declines, drops the selection and clears the flag |
| AdminPanel.AdminPanelModel.ResetIfMissing | src/components/AdminPanel/useAdminPanelViewModel.ts:129-134 | afterwards every truthy selection names an existing status; a missing one is dropped with the flag |
| TodoItem.EditUpdates | src/components/TodoItem/useTodoItemViewModel.ts:77-82 | the saved update has trimmed text and category, the priority, the due date with '' as null, and no other field |
| TodoItem.UnchangedSaveRestamps | src/components/TodoItem/useTodoItemViewModel.ts:54-86 | editing and saving without changes only restamps a todo whose text and category are trimmed |
| TodoItem.SaveKeepsStatus | src/components/TodoItem/useTodoItemViewModel.ts:77-84 | a saved edit never changes the todo's id, status or completion |
| TodoItem.TodoItemEditor.constructor | src/components/TodoItem/useTodoItemViewModel.ts:40-44 | not editing; the fields mirror the todo, a null due date shown as '' |
| TodoItem.TodoItemEditor.Toggle | src/components/TodoItem/useTodoItemViewModel.ts:46-48 | forwards the todo's id to the toggle callback |
| TodoItem.TodoItemEditor.Delete | src/components/TodoItem/useTodoItemViewModel.ts:50-52 | forwards the todo's id to the delete callback |
| TodoItem.TodoItemEditor.Edit | src/components/TodoItem/useTodoItemViewModel.ts:54-60 | enters edit mode with every field reloaded from the todo |
| TodoItem.TodoItemEditor.CancelEdit | src/components/TodoItem/useTodoItemViewModel.ts:62-68 | leaves edit mode with the fields restored and calls nothing |
| TodoItem.TodoItemEditor.SaveEdit | src/components/TodoItem/useTodoItemViewModel.ts:70-86 | blank text calls nothing and stays in the current mode; otherwise one update with non-empty text, then edit mode ends |
| TodoItem.TodoItemEditor.TextChange | src/components/TodoItem/useTodoItemViewModel.ts:88-90 | sets the text field only |
| TodoItem.TodoItemEditor.PriorityChange | src/components/TodoItem/useTodoItemViewModel.ts:92-94 | sets the priority field only |
| TodoItem.TodoItemEditor.CategoryChange | src/components/TodoItem/useTodoItemViewModel.ts:96-98 | sets the category field only |
| TodoItem.TodoItemEditor.DueDateChange | src/components/TodoItem/useTodoItemViewModel.ts:100-102 | sets the due-date field only |
| TodoItem.TodoItemEditor.KeyDown | src/components/TodoItem/useTodoItemViewModel.ts:104-115 | Enter behaves as save, Escape as cancel, any other key does nothing |
| TodoItem.TodoItemEditor.StatusChange | src/components/TodoItem/useTodoItemViewModel.ts:117-120 | one update that carries only the status |
| TodoForm.SubmitInput | src/components/TodoForm/useTodoFormViewModel.ts:63-68 | the create input has trimmed text and category, the priority, '' due date as null, and no status |
| TodoForm.SubmitInputStable | src/components/TodoForm/useTodoFormViewModel.ts:57-68 | submitting the fields of a submitted input reproduces it |
| TodoForm.AddedFromForm | src/components/TodoForm/useTodoFormViewModel.ts:63-70 | the store adds a submitted todo iff it has a truthy default status, and the todo has the trimmed text and that status |
| TodoForm.TodoFormModel.constructor | src/components/TodoForm/useTodoFormViewModel.ts:25-28 | '' text, medium priority, '' category, '' due date |
| TodoForm.TodoFormModel.TextChange | src/components/TodoForm/useTodoFormViewModel.ts:30-32 | sets the text field only |
| TodoForm.TodoFormModel.PriorityChange | src/components/TodoForm/useTodoFormViewModel.ts:34-36 | sets the priority field only |
| TodoForm.TodoFormModel.CategoryChange | src/components/TodoForm/useTodoFormViewModel.ts:38-40 | sets the category field only |
| TodoForm.TodoFormModel.DueDateChange | src/components/TodoForm/useTodoFormViewModel.ts:42-44 | sets the due-date field only |
| TodoForm.TodoFormModel.Reset | src/components/TodoForm/useTodoFormViewModel.ts:46-51 | returns to the initial state |
| TodoForm.TodoFormModel.Submit | src/components/TodoForm/useTodoFormViewModel.ts:53-74 | blank text adds nothing and keeps the fields; otherwise exactly one add with the submit input, then the initial state |
| CheckboxList.Toggle | src/components/CheckboxList/CheckboxList.tsx:25-30 | the clicked id is checked afterwards iff it was not before; every other id keeps its membership |
| CheckboxList.ToggleKeepsOthersInOrder | src/components/CheckboxList/CheckboxList.tsx:25-30 | with the clicked id taken out, the selection before and after is the same sequence |
| CheckboxList.ToggleTwiceRestores | src/components/CheckboxList/CheckboxList.tsx:25-30 | clicking an unchecked id twice restores the selection |
| CheckboxList.ToggleTwiceMovesLast | src/components/CheckboxList/CheckboxList.tsx:25-30 | clicking a checked id twice moves it, once, to the end |
| CheckboxList.ToggleEachDeselects | src/components/CheckboxList/CheckboxList.tsx:25-30 | clicking distinct checked ids in turn unchecks exactly those ids |
| CheckboxList.ToggleAllEmpties | src/components/CheckboxList/CheckboxList.tsx:25-30 | clicking every id of a repeat-free selection empties it |
| FilterBar.SearchChange | src/components/TodoFilters/useTodoFiltersViewModel.ts:23-31 | the filters with only the search text replaced |
| FilterBar.StatusChange | src/components/TodoFilters/useTodoFiltersViewModel.ts:33-41 | the filters with only the extra `status` key replaced |
| FilterBar.SortChange | src/components/TodoFilters/useTodoFiltersViewModel.ts:43-51 | the filters with only `sortBy` replaced |
| FilterBar.StatusChangeIgnored | src/components/TodoFilters/useTodoFiltersViewModel.ts:33-41 | the status handler's key changes nothing in the list view |
| FilterBar.BlankSearchSameView | src/components/TodoFilters/useTodoFiltersViewModel.ts:23-31 | typing only white space shows the same list as an empty search |
| FilterBar.HandlersCommute | src/components/TodoFilters/useTodoFiltersViewModel.ts:23-51 | edits of different keys commute, and a later search replaces an earlier one |
| ActiveFilterSummary.HasActiveFilters | src/components/ActiveFilterSummary/ActiveFilterSummary.tsx:25-29 | defines `hasActiveFilters`: some status, category or priority is selected, or the search text is non-empty |
| ActiveFilterSummary.PriorityLabel | src/components/ActiveFilterSummary/ActiveFilterSummary.tsx:35-46 | a string is shown as itself unless it is one of the three priority values |
| ActiveFilterSummary.PriorityLabelsDistinct | src/components/ActiveFilterSummary/ActiveFilterSummary.tsx:35-46 | the three priorities get three different labels, none equal to its raw value |
| ActiveFilterSummary.StatusLabel | src/components/ActiveFilterSummary/ActiveFilterSummary.tsx:56 | the mapped label when it is non-empty, else the id; empty only for the empty id |
| ActiveFilterSummary.Chips | src/components/ActiveFilterSummary/ActiveFilterSummary.tsx:25-114 | no chip iff no filter is active; at most four chips; a status chip lists the selected ids' labels and a priority chip the priorities' labels, one per item in order |
| ActiveFilterSummary.ChipsByGroup | src/components/ActiveFilterSummary/ActiveFilterSummary.tsx:55-114 | the status chip, with each selected id's label, iff a status is selected; the category chip, with the categories, iff one is; the priority chip, with the labels, iff one is; the search chip, with the raw text, iff the text is truthy; no other chip |
| ActiveFilterSummary.ChipsInMarkupOrder | src/components/ActiveFilterSummary/ActiveFilterSummary.tsx:55-114 | the chips come in the markup's order: status, category, priority, search |
| ActiveFilterSummary.ClearingStatusesDropsItsChip | src/components/ActiveFilterSummary/ActiveFilterSummary.tsx:55-114 | emptying the statuses drops the first chip iff there was a status chip, the rest unchanged |
| ActiveFilterSummary.ClearingSearchDropsItsChip | src/components/ActiveFilterSummary/ActiveFilterSummary.tsx:55-114 | emptying the search text drops the last chip iff there was a search chip, the rest unchanged |
| ActiveFilterSummary.ClearingInnerGroupDropsItsChip | src/components/ActiveFilterSummary/ActiveFilterSummary.tsx:55-114 | emptying the categories or the priorities removes exactly that group's chip and keeps the others in order |
| ActiveFilterSummary.RemoveStatuses | src/components/ActiveFilterSummary/ActiveFilterSummary.tsx:60 | one status removal per selected id, in order |
| ActiveFilterSummary.RemoveCategories | src/components/ActiveFilterSummary/ActiveFilterSummary.tsx:76 | one category removal per selected category, in order |
| ActiveFilterSummary.RemovePriorities | src/components/ActiveFilterSummary/ActiveFilterSummary.tsx:92 | one priority removal per selected priority, in order |
| ActiveFilterSummary.StatusRemovalClearsSelection | src/components/ActiveFilterSummary/ActiveFilterSummary.tsx:60 | if each removal is a checkbox click on that id, the status chip's button empties a repeat-free selection |

## Left out

- Persistence is not modelled: the localStorage reads and writes and JSON parsing and printing. A load is modelled by its outcome (`Stored`: nothing, unparseable, parsed data). The save effects have no visible outcome in the model.
- React scheduling is not modelled: `useState`, `useEffect`, `useMemo`, `useCallback` and the timing of updater functions. Each store operation is atomic: it returns a new list, or an error with no change. An error thrown inside a `setStatuses` updater is modelled as reaching the caller's `try`/`catch`.
- The clock and id generation are parameters: `new Date().toISOString()`, `Date.now`, `Math.random` and `crypto.randomUUID`. Where `map` reads the clock once per element, the model uses a single `now`.
- `new Date(s).getTime()` is the parameter `time`. Invalid dates (NaN) are not modelled.
- Locale-aware date formatting is not modelled.
- `localeCompare` is modelled as code-point lexicographic order.
- `trim` and `toLowerCase` are modelled on ASCII only: six white-space characters and A–Z folding. No Unicode.
- Lengths the form checks are counted as JavaScript's `.length` counts them, in UTF-16 code units (`Text.Utf16Length`): a character outside the Basic Multilingual Plane counts two.
- Lexicographic order: the `ALPHABETICAL` sort is proved ordered under this model of `localeCompare`, not under ICU collation.
- The literal values of the `KanbanStatus` enumeration are not part of this model; its declaring file is not included. The board and column modules take the three keys as the parameter `Columns`, with the keys assumed distinct.
- The JavaScript prototype-key quirk in `grouped[todo.status]` is not modelled. In the source, a status such as "constructor" finds an inherited member. In the model, only the three column keys match.
- The dnd-kit sensors, collision detection and `arrayMove` are not modelled; they are library behaviour.
- The drag-over handler does nothing and is not modelled.
- `window.confirm` is modelled as a boolean parameter and `alert` as a returned error.
- The `hasUnsavedChanges` flag is never set to true by the admin panel's own code. Every handler leaves it false, or unchanged when the user declines, so the confirm branches never block from a reachable state. The model keeps those branches.
- The status form sends no `value` key. The registry then stores a status without one. The model stores "" on create and leaves `value` unchanged on update.
- `StatusForm.AcceptedLabelNotTakenByOther` assumes that ids are unique in the registry. Nothing in `addStatus` checks that a generated id is fresh.
- `TodoStorage.UpdatePreservesValid`, `TodoStorage.ReassignPreservesValid` and `StatusStorage.UpdatePreservesValid` exclude the empty status or label. `TodoStorage.EmptyStatusUpdateClears` and `StatusStorage.EmptyLabelUpdateCanDuplicate` show what happens instead.
- The summary component reads `filters.priorities`, a key the `TodoFilters` of src/types/todo.types.ts:69-74 does not have. The type the components import from '../../types' is not part of this model, so `ActiveFilterSummary.SummaryFilters` carries that key, as the raw strings the component receives.
- The search chip's button passes `onClearSearch` straight to `onClick`. It is the `ClearSearch` removal, one call per click, and needs no function of its own.
- The filter bar's status handler writes a `status` key that the `TodoFilters` of src/types/todo.types.ts:69-74 does not have. The app builds its filters with that key (src/components/TodoApp/useTodoAppViewModel.ts:22-26), and so does src/components/TodoFilters/TodoFilters.test.tsx. The type the components import from '../../types' is not part of this model. `FilterBar.BarFilters` carries the key, and no view reads it.
- Rendering is not modelled: JSX markup, CSS classes other than the column classes, ARIA attributes and event objects. An event is modelled by the value it carries, and `preventDefault` is dropped.
- ActiveFilterSummary.StatusRemovalClearsSelection: assumes that the status removal callback is a checkbox click on the id. It also threads each call's result into the next, which holds only for a functional state updater. A click handler that computes from the render's `selectedIds` would start every call of one `forEach` from the same selection. The component is not imported anywhere else in the source, so no caller fixes the callback.

## Findings

| source | as written | input that shows it | evidently intended | confidence | as-written member | corrected member |
|---|---|---|---|---|---|---|
| src/components/AdminPanel/StatusForm/StatusForm.tsx:56-59 | the minimum and maximum length checks use the untrimmed label, but the label saved at line 93 is trimmed | label "ab " passes validation and is saved as "ab", two characters, under the three-character minimum | check the lengths of the trimmed label, so every saved label is 3 to 30 characters long | not executed | StatusForm.ValidateLabelAsWritten | StatusForm.ValidateLabel |
