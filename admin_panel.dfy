/** The admin panel's view model (src/components/AdminPanel/useAdminPanelViewModel.ts): which
    status is selected for editing, the unsaved-changes flag, and the handlers that forward
    the form's input to the status registry. `window.confirm` answers are parameters and an
    `alert` is the error a handler returns. */
module AdminPanel {
  import opened Types
  import opened StatusStorage
  import opened StatusForm
  import opened Text
  import Seqs

  /** `canAddMore`. */
  predicate CanAddMore(statuses: seq<Status>)
  {
    |statuses| < MAX_STATUSES
  }

  /** `canDelete(id)`: the id is not consulted. */
  predicate CanDelete(statuses: seq<Status>, id: string)
  {
    |statuses| > 1
  }

  /** `isEditing`: a selection is present, even the empty string. */
  predicate IsEditing(selectedStatusId: Option<string>)
  {
    selectedStatusId.Some?
  }

  /** The form's input used as a create input; the form sends no `value`, which the
      model stores as the empty string. */
  function AsCreateInput(input: FormInput): CreateStatusInput
  {
    CreateStatusInput(input.displayLabel, "", input.color, input.colorName, input.description,
                      input.position)
  }

  /** The form's input used as an update input: the keys it carries are present. */
  function AsUpdateInput(input: FormInput): UpdateStatusInput
  {
    UpdateStatusInput(Some(input.displayLabel), None, Some(input.color), Some(input.colorName),
                      Some(input.description), Some(input.position), None)
  }

  /** `canAddMore` is exactly the registry's capacity check: the add fails for lack of room
      if and only if the panel says no more can be added. */
  lemma CanAddMoreIffRoom(statuses: seq<Status>, input: CreateStatusInput, newId: string, now: string)
    ensures !CanAddMore(statuses) <==> AddStatus(statuses, input, newId, now) == Err(TooManyStatuses)
  {
  }

  /** When the panel allows a delete and ids are unique, the delete of an existing status
      leaves at least one status behind. */
  lemma CanDeleteLeavesOne(statuses: seq<Status>, id: string)
    requires IdsUnique(statuses)
    requires CanDelete(statuses, id)
    ensures var r := DeleteStatus(statuses, id);
      r.Ok? ==> |r.value| >= 1
  {
    assert DistinctIds()(statuses[0], statuses[1]);
    var k := if statuses[0].id != id then 0 else 1;
    Seqs.FilterKeeps(statuses, NotId(id), k);
  }

  /** A saved edit replaces the edited status's label, colour, colour name, description and
      position with the form's, keeps its value, id and creation time, and stamps `now`. */
  lemma SavedEditApplies(prev: seq<Status>, id: string, input: FormInput, now: string)
    ensures var r := UpdateStatus(prev, id, AsUpdateInput(input), now);
      r.Ok? ==> var k := Seqs.FindIndex(prev, HasId(id));
        && 0 <= k < |prev|
        && r.value[k].id == prev[k].id == id
        && r.value[k].displayLabel == input.displayLabel
        && r.value[k].value == prev[k].value
        && r.value[k].color == input.color
        && r.value[k].colorName == input.colorName
        && r.value[k].description == input.description
        && r.value[k].position == input.position
        && r.value[k].createdAt == prev[k].createdAt
        && r.value[k].updatedAt == now
  {
  }

  /** A label the form accepts on create is saved: when there is room, the registry adds
      the form's input carrying the trimmed label. */
  lemma AcceptedCreateSaves(statuses: seq<Status>, text: string, description: string,
                            color: string, colorName: string, position: int,
                            newId: string, now: string)
    requires ValidateLabelAsWritten(text, statuses, None).None?
    requires CanAddMore(statuses)
    ensures AddStatus(statuses, AsCreateInput(FormInput(Trim(text), description, color, colorName,
                                                        position)), newId, now).Ok?
  {
    AcceptedLabelNotTaken(text, statuses);
  }

  /** A label the form accepts when editing an existing status is saved: with unique ids the
      registry's update of that status with the form's input succeeds. */
  lemma AcceptedEditSaves(statuses: seq<Status>, k: int, text: string, description: string,
                          color: string, colorName: string, position: int, now: string)
    requires IdsUnique(statuses)
    requires 0 <= k < |statuses|
    requires ValidateLabelAsWritten(text, statuses, Some(statuses[k].id)).None?
    ensures UpdateStatus(statuses, statuses[k].id,
                         AsUpdateInput(FormInput(Trim(text), description, color, colorName,
                                                 position)), now).Ok?
  {
    var id := statuses[k].id;
    AcceptedLabelNotTakenByOther(text, statuses, id, k);
    forall i | 0 <= i < |statuses| && i != k
      ensures statuses[i].id != id
    {
      if i < k {
        assert DistinctIds()(statuses[i], statuses[k]);
      } else {
        assert DistinctIds()(statuses[k], statuses[i]);
      }
    }
    var j := Seqs.FindIndex(statuses, HasId(id));
    assert HasId(id)(statuses[k]);
    assert j == k;
  }

  class AdminPanelModel {
    const store: StatusStore
    var selectedStatusId: Option<string>
    var hasUnsavedChanges: bool

    /** Nothing selected, no unsaved changes. */
    constructor (store: StatusStore)
      ensures this.store == store
      ensures selectedStatusId.None? && !hasUnsavedChanges
    {
      this.store := store;
      selectedStatusId := None;
      hasUnsavedChanges := false;
    }

    /** `handleSelectStatus`: unless the user declines to discard unsaved changes, select
        the id and clear the flag. */
    method SelectStatus(id: string, confirmed: bool)
      modifies this
      ensures old(hasUnsavedChanges) && !confirmed ==>
        selectedStatusId == old(selectedStatusId) && hasUnsavedChanges
      ensures !(old(hasUnsavedChanges) && !confirmed) ==>
        selectedStatusId == Some(id) && !hasUnsavedChanges
    {
      if hasUnsavedChanges && !confirmed {
        return;
      }
      selectedStatusId := Some(id);
      hasUnsavedChanges := false;
    }

    /** `handleCreateNew`: unless the user declines, alert when the registry is full, and
        otherwise switch to creating (no selection). */
    method CreateNew(confirmed: bool) returns (alerted: bool)
      modifies this
      ensures alerted <==> !(old(hasUnsavedChanges) && !confirmed) && !CanAddMore(store.statuses)
      ensures !(old(hasUnsavedChanges) && !confirmed) && CanAddMore(store.statuses) ==>
        selectedStatusId.None? && !hasUnsavedChanges
      ensures (old(hasUnsavedChanges) && !confirmed) || !CanAddMore(store.statuses) ==>
        selectedStatusId == old(selectedStatusId) && hasUnsavedChanges == old(hasUnsavedChanges)
    {
      alerted := false;
      if hasUnsavedChanges && !confirmed {
        return;
      }
      if !CanAddMore(store.statuses) {
        alerted := true;
        return;
      }
      selectedStatusId := None;
      hasUnsavedChanges := false;
    }

    /** `handleSaveStatus`: update the selected status when the selection is truthy, add a
        new one otherwise. Success clears the selection and the flag; an error is alerted
        and changes nothing. */
    method SaveStatus(input: FormInput, newId: string, now: string) returns (alert: Option<StatusError>)
      modifies this, store
      ensures var r := if TruthyOpt(old(selectedStatusId))
                       then UpdateStatus(old(store.statuses), old(selectedStatusId).value, AsUpdateInput(input), now)
                       else AddStatus(old(store.statuses), AsCreateInput(input), newId, now);
        if r.Ok? then
          store.statuses == r.value && alert.None? && selectedStatusId.None? && !hasUnsavedChanges
        else
          && store.statuses == old(store.statuses) && alert == Some(r.error)
          && selectedStatusId == old(selectedStatusId) && hasUnsavedChanges == old(hasUnsavedChanges)
    {
      if TruthyOpt(selectedStatusId) {
        alert := store.Update(selectedStatusId.value, AsUpdateInput(input), now);
      } else {
        alert := store.Add(AsCreateInput(input), newId, now);
      }
      if alert.None? {
        hasUnsavedChanges := false;
        selectedStatusId := None;
      }
    }

    /** `handleDeleteStatus`: delete the status (the reassignment target is not used); on
        success drop the selection if it was the deleted status and clear the flag. */
    method DeleteStatus(id: string, reassignToId: string) returns (alert: Option<StatusError>)
      modifies this, store
      ensures var r := StatusStorage.DeleteStatus(old(store.statuses), id);
        if r.Ok? then
          && store.statuses == r.value && alert.None? && !hasUnsavedChanges
          && selectedStatusId == (if old(selectedStatusId) == Some(id) then None else old(selectedStatusId))
        else
          && store.statuses == old(store.statuses) && alert == Some(r.error)
          && selectedStatusId == old(selectedStatusId) && hasUnsavedChanges == old(hasUnsavedChanges)
    {
      alert := store.Delete(id);
      if alert.None? {
        if selectedStatusId == Some(id) {
          selectedStatusId := None;
        }
        hasUnsavedChanges := false;
      }
    }

    /** `handleReorderStatuses`: forwarded as is; the registry's error is not caught. */
    method ReorderStatuses(orderedIds: seq<string>, now: string) returns (err: Option<StatusError>)
      modifies store
      ensures var r := StatusStorage.ReorderStatuses(old(store.statuses), orderedIds, now);
        if r.Ok? then store.statuses == r.value && err.None?
        else store.statuses == old(store.statuses) && err == Some(r.error)
    {
      err := store.Reorder(orderedIds, now);
    }

    /** `handleCancelEdit`: unless the user declines, drop the selection and the flag. */
    method CancelEdit(confirmed: bool)
      modifies this
      ensures old(hasUnsavedChanges) && !confirmed ==>
        selectedStatusId == old(selectedStatusId) && hasUnsavedChanges
      ensures !(old(hasUnsavedChanges) && !confirmed) ==>
        selectedStatusId.None? && !hasUnsavedChanges
    {
      if hasUnsavedChanges && !confirmed {
        return;
      }
      selectedStatusId := None;
      hasUnsavedChanges := false;
    }

    /** The reset effect: a truthy selection that names no status is dropped, so afterwards
        every truthy selection names an existing status. */
    method ResetIfMissing()
      modifies this
      ensures TruthyOpt(selectedStatusId) ==> StatusExists(store.statuses, selectedStatusId.value)
      ensures TruthyOpt(old(selectedStatusId)) && !StatusExists(store.statuses, old(selectedStatusId).value) ==>
        selectedStatusId.None? && !hasUnsavedChanges
      ensures !(TruthyOpt(old(selectedStatusId)) && !StatusExists(store.statuses, old(selectedStatusId).value)) ==>
        selectedStatusId == old(selectedStatusId) && hasUnsavedChanges == old(hasUnsavedChanges)
    {
      if TruthyOpt(selectedStatusId) && !StatusExists(store.statuses, selectedStatusId.value) {
        selectedStatusId := None;
        hasUnsavedChanges := false;
      }
    }
  }
}
