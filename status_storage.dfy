/** The status registry (src/hooks/useStatusStorage.ts): a list of workflow statuses with
    guarded add, update, delete and reorder operations and three lookups. Each operation
    is a function from the old list to a Result (the new list, or the error the hook
    throws); StatusStore holds the list and replaces it only when the operation succeeds.
    The clock and the status-id generator are parameters. */
module StatusStorage {
  import opened Types
  import opened Text
  import Seqs

  datatype StatusError =
    | TooManyStatuses
    | DuplicateLabel(taken: string)
    | StatusNotFound(id: string)

  /** The three statuses seeded on first run, all stamped with the same instant. */
  function DefaultStatuses(now: string): (r: seq<Status>)
    ensures |r| == 3
    ensures forall i :: 0 <= i < |r| ==>
      r[i].position == i + 1 && r[i].createdAt == now && r[i].updatedAt == now
  {
    [ Status("status-todo", "To Do", "todo", "color-7", "Warm Amber",
             "Tasks that need to be started", 1, now, now),
      Status("status-inprogress", "In Progress", "inProgress", "color-1", "Terracotta",
             "Tasks currently being worked on", 2, now, now),
      Status("status-done", "Done", "done", "color-2", "Sage",
             "Completed tasks", 3, now, now) ]
  }

  /** The list the hook starts from: the stored list if one parses, the defaults otherwise. */
  function LoadStatuses(stored: Stored<seq<Status>>, now: string): (r: seq<Status>)
    ensures stored.Parsed? ==> r == stored.data
    ensures !stored.Parsed? ==> r == DefaultStatuses(now)
  {
    match stored
    case Parsed(data) => data
    case _ => DefaultStatuses(now)
  }

  function Ids(statuses: seq<Status>): (r: seq<string>)
    ensures |r| == |statuses|
    ensures forall i :: 0 <= i < |r| ==> r[i] == statuses[i].id
  {
    if statuses == [] then [] else [statuses[0].id] + Ids(statuses[1..])
  }

  /** Two labels collide when they are equal after lower-casing. */
  predicate SameLabel(a: string, b: string)
  {
    ToLower(a) == ToLower(b)
  }

  /** `prev.some(s => s.label.toLowerCase() === label.toLowerCase())`. */
  predicate LabelTaken(statuses: seq<Status>, name: string)
  {
    exists i :: 0 <= i < |statuses| && SameLabel(statuses[i].displayLabel, name)
  }

  function DistinctLabels(): (Status, Status) -> bool
  {
    (a: Status, b: Status) => !SameLabel(a.displayLabel, b.displayLabel)
  }

  function DistinctIds(): (Status, Status) -> bool
  {
    (a: Status, b: Status) => a.id != b.id
  }

  /** No two statuses carry colliding labels. */
  ghost predicate LabelsUnique(statuses: seq<Status>)
  {
    Seqs.Pairwise(statuses, DistinctLabels())
  }

  /** No two statuses carry the same id. */
  ghost predicate IdsUnique(statuses: seq<Status>)
  {
    Seqs.Pairwise(statuses, DistinctIds())
  }

  /** What the registry promises of its list: at most seven statuses, unique ids and
      labels unique up to case. */
  ghost predicate Valid(statuses: seq<Status>)
  {
    |statuses| <= MAX_STATUSES && IdsUnique(statuses) && LabelsUnique(statuses)
  }

  /** Every status sits at the position that matches its place in the list. */
  ghost predicate PositionsDense(statuses: seq<Status>)
  {
    forall i :: 0 <= i < |statuses| ==> statuses[i].position == i + 1
  }

  function HasId(id: string): Status -> bool
  {
    (s: Status) => s.id == id
  }

  function NotId(id: string): Status -> bool
  {
    (s: Status) => s.id != id
  }

  /** `addStatus`: refuses an eighth status and a colliding label, otherwise appends the
      input as given (its position included) under the new id, stamped created = updated = now. */
  function AddStatus(prev: seq<Status>, input: CreateStatusInput, newId: string, now: string)
    : (r: Result<seq<Status>, StatusError>)
    ensures |prev| >= MAX_STATUSES ==> r == Err(TooManyStatuses)
    ensures |prev| < MAX_STATUSES && LabelTaken(prev, input.displayLabel) ==>
      r == Err(DuplicateLabel(input.displayLabel))
    ensures r.Ok? <==> |prev| < MAX_STATUSES && !LabelTaken(prev, input.displayLabel)
    ensures r.Ok? ==> |r.value| == |prev| + 1 && r.value[..|prev|] == prev
    ensures r.Ok? ==> var s := r.value[|prev|];
      && s.id == newId && s.createdAt == now && s.updatedAt == now
      && s.displayLabel == input.displayLabel && s.value == input.value
      && s.color == input.color && s.colorName == input.colorName
      && s.description == input.description && s.position == input.position
  {
    if |prev| >= MAX_STATUSES then Err(TooManyStatuses)
    else if LabelTaken(prev, input.displayLabel) then Err(DuplicateLabel(input.displayLabel))
    else
      var created := Status(newId, input.displayLabel, input.value, input.color, input.colorName,
                            input.description, input.position, now, now);
      Ok(prev + [created])
  }

  /** `{ ...status, ...updates, updatedAt: now }`. */
  function Merge(s: Status, u: UpdateStatusInput, now: string): (r: Status)
    ensures r.id == s.id && r.createdAt == s.createdAt && r.updatedAt == now
    ensures u.displayLabel.Some? ==> r.displayLabel == u.displayLabel.value
    ensures u.displayLabel.None? ==> r.displayLabel == s.displayLabel
    ensures u.value.Some? ==> r.value == u.value.value
    ensures u.value.None? ==> r.value == s.value
    ensures u.color.Some? ==> r.color == u.color.value
    ensures u.color.None? ==> r.color == s.color
    ensures u.colorName.Some? ==> r.colorName == u.colorName.value
    ensures u.colorName.None? ==> r.colorName == s.colorName
    ensures u.description.Some? ==> r.description == u.description.value
    ensures u.description.None? ==> r.description == s.description
    ensures u.position.Some? ==> r.position == u.position.value
    ensures u.position.None? ==> r.position == s.position
  {
    Status(
      s.id,
      if u.displayLabel.Some? then u.displayLabel.value else s.displayLabel,
      if u.value.Some? then u.value.value else s.value,
      if u.color.Some? then u.color.value else s.color,
      if u.colorName.Some? then u.colorName.value else s.colorName,
      if u.description.Some? then u.description.value else s.description,
      if u.position.Some? then u.position.value else s.position,
      s.createdAt,
      now)
  }

  /** Some status other than the one at index skip has a label colliding with name. */
  predicate LabelTakenByOther(statuses: seq<Status>, skip: int, name: string)
  {
    exists i :: 0 <= i < |statuses| && i != skip && SameLabel(statuses[i].displayLabel, name)
  }

  /** `updateStatus`: the first status with the id is merged with the updates. A truthy new
      label must not collide with any other status's label; an empty one is not checked. */
  function UpdateStatus(prev: seq<Status>, id: string, updates: UpdateStatusInput, now: string)
    : (r: Result<seq<Status>, StatusError>)
    ensures (forall i :: 0 <= i < |prev| ==> prev[i].id != id) ==> r == Err(StatusNotFound(id))
    ensures var k := Seqs.FindIndex(prev, HasId(id));
      r.Ok? <==> k >= 0 && !(TruthyOpt(updates.displayLabel) && LabelTakenByOther(prev, k, updates.displayLabel.value))
    ensures r.Ok? ==> var k := Seqs.FindIndex(prev, HasId(id));
      && 0 <= k && prev[k].id == id
      && (TruthyOpt(updates.displayLabel) ==> !LabelTakenByOther(prev, k, updates.displayLabel.value))
      && |r.value| == |prev|
      && r.value[k] == Merge(prev[k], updates, now)
      && forall i :: 0 <= i < |prev| && i != k ==> r.value[i] == prev[i]
    ensures r.Err? && r.error.DuplicateLabel? ==>
      TruthyOpt(updates.displayLabel) &&
      LabelTakenByOther(prev, Seqs.FindIndex(prev, HasId(id)), updates.displayLabel.value)
  {
    var k := Seqs.FindIndex(prev, HasId(id));
    if k == -1 then Err(StatusNotFound(id))
    else if TruthyOpt(updates.displayLabel) && LabelTakenByOther(prev, k, updates.displayLabel.value) then
      Err(DuplicateLabel(updates.displayLabel.value))
    else Ok(prev[k := Merge(prev[k], updates, now)])
  }

  /** `deleteStatus`: fails on an unknown id, otherwise keeps every other status in order.
      There is no guard for the last status. */
  function DeleteStatus(prev: seq<Status>, id: string): (r: Result<seq<Status>, StatusError>)
    ensures r.Ok? <==> Seqs.Any(prev, HasId(id))
    ensures r.Err? ==> r.error == StatusNotFound(id)
    ensures r.Ok? ==> |r.value| < |prev| && forall i :: 0 <= i < |r.value| ==> r.value[i].id != id
    ensures r.Ok? ==> forall i :: 0 <= i < |prev| && prev[i].id != id ==> prev[i] in r.value
    ensures r.Ok? ==> Seqs.Selection(r.value, prev, NotId(id))
  {
    if !Seqs.Any(prev, HasId(id)) then Err(StatusNotFound(id))
    else
      RemovesId(prev, id);
      Ok(Seqs.Filter(prev, NotId(id)))
  }

  /** Filtering out an id that occurs shortens the list, keeps every status with another id,
      and keeps them in order. */
  lemma RemovesId(prev: seq<Status>, id: string)
    requires Seqs.Any(prev, HasId(id))
    ensures var r := Seqs.Filter(prev, NotId(id));
      && |r| < |prev|
      && (forall i :: 0 <= i < |r| ==> r[i].id != id)
      && (forall i :: 0 <= i < |prev| && prev[i].id != id ==> prev[i] in r)
      && Seqs.Selection(r, prev, NotId(id))
  {
    var k :| 0 <= k < |prev| && prev[k].id == id;
    Seqs.FilterDrops(prev, NotId(id), k);
    Seqs.FilterSelection(prev, NotId(id));
    forall i | 0 <= i < |prev| && prev[i].id != id ensures prev[i] in Seqs.Filter(prev, NotId(id)) {
      Seqs.FilterKeeps(prev, NotId(id), i);
    }
  }

  /** The index of the last status with the id, or -1. */
  function LastIndex(statuses: seq<Status>, id: string): (r: int)
    ensures -1 <= r < |statuses|
    ensures r == -1 <==> forall i :: 0 <= i < |statuses| ==> statuses[i].id != id
    ensures r >= 0 ==> statuses[r].id == id && forall j :: r < j < |statuses| ==> statuses[j].id != id
  {
    if statuses == [] then -1
    else if statuses[|statuses| - 1].id == id then |statuses| - 1
    else LastIndex(statuses[..|statuses| - 1], id)
  }

  /** `new Map(prev.map(s => [s.id, s])).get(id)`: a later entry with the same id
      overwrites an earlier one, so the lookup yields the last status with the id. */
  function LastWithId(statuses: seq<Status>, id: string): (r: Option<Status>)
    ensures r.None? <==> forall i :: 0 <= i < |statuses| ==> statuses[i].id != id
    ensures r.Some? ==> r.value.id == id && r.value in statuses
    ensures r.Some? ==> r.value == statuses[LastIndex(statuses, id)]
  {
    if statuses == [] then None
    else if statuses[|statuses| - 1].id == id then Some(statuses[|statuses| - 1])
    else LastWithId(statuses[..|statuses| - 1], id)
  }

  /** `orderedIds.map((id, index) => ({ ...status, position: index + 1, updatedAt: now }))`
      for the ids from index `from` on; fails at the first id with no status. */
  function ReorderFrom(prev: seq<Status>, orderedIds: seq<string>, from: nat, now: string)
    : (r: Result<seq<Status>, StatusError>)
    requires from <= |orderedIds|
    ensures r.Ok? <==> forall i :: from <= i < |orderedIds| ==> LastWithId(prev, orderedIds[i]).Some?
    ensures r.Err? ==> r.error.StatusNotFound?
    ensures r.Err? ==> exists i :: (from <= i < |orderedIds| && orderedIds[i] == r.error.id &&
                                    LastWithId(prev, orderedIds[i]).None?)
    ensures r.Ok? ==> |r.value| == |orderedIds| - from
    ensures r.Ok? ==> forall i :: from <= i < |orderedIds| ==>
      r.value[i - from] == LastWithId(prev, orderedIds[i]).value.(position := i + 1, updatedAt := now)
    decreases |orderedIds| - from
  {
    if from == |orderedIds| then Ok([])
    else
      var found := LastWithId(prev, orderedIds[from]);
      if found.None? then Err(StatusNotFound(orderedIds[from]))
      else
        var rest := ReorderFrom(prev, orderedIds, from + 1, now);
        if rest.Err? then rest
        else
          var head := found.value.(position := from + 1, updatedAt := now);
          PrependMapped(prev, orderedIds, from, now, head, rest.value);
          Ok([head] + rest.value)
  }

  /** The status for index `from`, placed before the ones for the later ids. */
  lemma PrependMapped(prev: seq<Status>, orderedIds: seq<string>, from: nat, now: string,
                      head: Status, tail: seq<Status>)
    requires from < |orderedIds|
    requires forall i :: from <= i < |orderedIds| ==> LastWithId(prev, orderedIds[i]).Some?
    requires head == LastWithId(prev, orderedIds[from]).value.(position := from + 1, updatedAt := now)
    requires |tail| == |orderedIds| - from - 1
    requires forall i :: from + 1 <= i < |orderedIds| ==>
      tail[i - (from + 1)] == LastWithId(prev, orderedIds[i]).value.(position := i + 1, updatedAt := now)
    ensures forall i :: from <= i < |orderedIds| ==>
      ([head] + tail)[i - from] == LastWithId(prev, orderedIds[i]).value.(position := i + 1, updatedAt := now)
  {
    forall i | from <= i < |orderedIds|
      ensures ([head] + tail)[i - from] == LastWithId(prev, orderedIds[i]).value.(position := i + 1, updatedAt := now)
    {
      if i > from {
        assert ([head] + tail)[i - from] == tail[i - (from + 1)];
      }
    }
  }

  /** `reorderStatuses`: the statuses named by orderedIds, in that order, at positions 1..n.
      Ids left out are dropped and repeated ids are copied. */
  function ReorderStatuses(prev: seq<Status>, orderedIds: seq<string>, now: string)
    : (r: Result<seq<Status>, StatusError>)
    ensures r.Ok? <==> forall i :: 0 <= i < |orderedIds| ==> LastWithId(prev, orderedIds[i]).Some?
    ensures r.Ok? ==> |r.value| == |orderedIds|
    ensures r.Ok? ==> forall i :: 0 <= i < |orderedIds| ==>
      r.value[i] == LastWithId(prev, orderedIds[i]).value.(position := i + 1, updatedAt := now)
  {
    ReorderFrom(prev, orderedIds, 0, now)
  }

  /** `getStatusById`: the first status with the id. */
  function GetStatusById(statuses: seq<Status>, id: string): (r: Option<Status>)
    ensures r.Some? ==> r.value.id == id && r.value in statuses
    ensures r.None? <==> forall i :: 0 <= i < |statuses| ==> statuses[i].id != id
    ensures r.Some? ==> exists i :: (0 <= i < |statuses| && statuses[i] == r.value &&
                                     forall j :: 0 <= j < i ==> statuses[j].id != id)
  {
    Seqs.Find(statuses, HasId(id))
  }

  /** `statusExists`. */
  predicate StatusExists(statuses: seq<Status>, id: string)
  {
    Seqs.Any(statuses, HasId(id))
  }

  /** `getFirstStatus`: the first array element, whatever its position. */
  function GetFirstStatus(statuses: seq<Status>): (r: Option<Status>)
    ensures r.None? <==> statuses == []
    ensures r.Some? ==> r.value == statuses[0]
  {
    if |statuses| > 0 then Some(statuses[0]) else None
  }

  /** The seeded list is valid and numbered 1, 2, 3. */
  lemma DefaultsValid(now: string)
    ensures Valid(DefaultStatuses(now)) && PositionsDense(DefaultStatuses(now))
  {
    var d := DefaultStatuses(now);
    DefaultIdsDistinct();
    DefaultLabelsDistinct();
    TripleValid(d[0], d[1], d[2]);
    assert d == [d[0], d[1], d[2]];
  }

  lemma DefaultIdsDistinct()
    ensures "status-todo" != "status-inprogress" && "status-todo" != "status-done"
    ensures "status-inprogress" != "status-done"
  {
    assert "status-todo"[7] == 't' && "status-done"[7] == 'd';
  }

  lemma DefaultLabelsDistinct()
    ensures !SameLabel("To Do", "In Progress") && !SameLabel("To Do", "Done")
    ensures !SameLabel("In Progress", "Done")
  {
    LabelsDiffer("To Do", "In Progress");
    LabelsDiffer("To Do", "Done");
    LabelsDiffer("In Progress", "Done");
  }

  /** Three statuses with distinct ids and non-colliding labels form a valid list. */
  lemma TripleValid(a: Status, b: Status, c: Status)
    requires a.id != b.id && a.id != c.id && b.id != c.id
    requires !SameLabel(a.displayLabel, b.displayLabel) && !SameLabel(a.displayLabel, c.displayLabel)
    requires !SameLabel(b.displayLabel, c.displayLabel)
    ensures Valid([a, b, c])
  {
  }

  /** Labels whose first letters differ after lower-casing do not collide. */
  lemma LabelsDiffer(a: string, b: string)
    requires a != [] && b != [] && LowerChar(a[0]) != LowerChar(b[0])
    ensures !SameLabel(a, b)
  {
    assert ToLower(a)[0] != ToLower(b)[0];
  }

  /** A successful add under a fresh id keeps the list valid: the cap is what refuses an
      eighth status, the label check what refuses a collision. */
  lemma AddPreservesValid(prev: seq<Status>, input: CreateStatusInput, newId: string, now: string)
    requires Valid(prev)
    requires forall i :: 0 <= i < |prev| ==> prev[i].id != newId
    ensures var r := AddStatus(prev, input, newId, now);
      r.Ok? ==> Valid(r.value)
  {
    var r := AddStatus(prev, input, newId, now);
    if r.Ok? {
      var s := r.value;
      forall i, j | 0 <= i < j < |s| ensures DistinctLabels()(s[i], s[j]) && DistinctIds()(s[i], s[j]) {
        if j == |prev| {
          assert !SameLabel(prev[i].displayLabel, input.displayLabel);
        } else {
          assert s[i] == prev[i] && s[j] == prev[j];
        }
      }
    }
  }

  /** An update that leaves the label alone or sets a non-empty one keeps the list valid. */
  lemma UpdatePreservesValid(prev: seq<Status>, id: string, updates: UpdateStatusInput, now: string)
    requires Valid(prev)
    requires updates.displayLabel != Some("")
    ensures var r := UpdateStatus(prev, id, updates, now);
      r.Ok? ==> Valid(r.value)
  {
    var r := UpdateStatus(prev, id, updates, now);
    if r.Ok? {
      var s, k := r.value, Seqs.FindIndex(prev, HasId(id));
      forall i, j | 0 <= i < j < |s| ensures DistinctLabels()(s[i], s[j]) && DistinctIds()(s[i], s[j]) {
        if i == k && updates.displayLabel.Some? {
          assert !SameLabel(prev[j].displayLabel, updates.displayLabel.value);
        } else if j == k && updates.displayLabel.Some? {
          assert !SameLabel(prev[i].displayLabel, updates.displayLabel.value);
        } else {
          assert DistinctLabels()(prev[i], prev[j]) && DistinctIds()(prev[i], prev[j]);
        }
      }
    }
  }

  /** An update to the empty label skips the duplicate check, so a second status can end up
      with the label another status already has. */
  lemma EmptyLabelUpdateCanDuplicate()
    ensures exists prev: seq<Status>, id: string, updates: UpdateStatusInput, now: string ::
      Valid(prev) && UpdateStatus(prev, id, updates, now).Ok? &&
      !Valid(UpdateStatus(prev, id, updates, now).value)
  {
    var a := Status("a", "", "", "", "", "", 1, "", "");
    var b := Status("b", "Done", "", "", "", "", 2, "", "");
    var u := UpdateStatusInput(Some(""), None, None, None, None, None, None);
    assert ToLower(b.displayLabel)[0] == 'd';
    assert Valid([a, b]);
    var r := UpdateStatus([a, b], "b", u, "");
    assert Seqs.FindIndex([a, b], HasId("b")) == 1;
    assert r.Ok? && r.value[0].displayLabel == r.value[1].displayLabel;
    assert !DistinctLabels()(r.value[0], r.value[1]);
  }

  /** Deleting keeps the list valid and keeps every status with another id. */
  lemma DeletePreservesValid(prev: seq<Status>, id: string)
    requires Valid(prev)
    ensures var r := DeleteStatus(prev, id);
      r.Ok? ==> Valid(r.value) && forall i :: 0 <= i < |prev| && prev[i].id != id ==> prev[i] in r.value
  {
    if Seqs.Any(prev, HasId(id)) {
      Seqs.FilterPairwise(prev, NotId(id), DistinctLabels());
      Seqs.FilterPairwise(prev, NotId(id), DistinctIds());
      forall i | 0 <= i < |prev| && prev[i].id != id ensures prev[i] in Seqs.Filter(prev, NotId(id)) {
        Seqs.FilterKeeps(prev, NotId(id), i);
      }
    }
  }

  /** orderedIds holds no id twice. */
  ghost predicate Distinct(ids: seq<string>)
  {
    forall i, j :: 0 <= i < j < |ids| ==> ids[i] != ids[j]
  }

  /** Reordering by a permutation of the ids succeeds, lists the statuses in the new order
      at positions 1..n, and keeps the list valid. */
  lemma ReorderPermutation(prev: seq<Status>, orderedIds: seq<string>, now: string)
    requires Valid(prev)
    requires Distinct(orderedIds) && |orderedIds| == |prev|
    requires forall i :: 0 <= i < |orderedIds| ==> StatusExists(prev, orderedIds[i])
    ensures var r := ReorderStatuses(prev, orderedIds, now);
      && r.Ok? && Ids(r.value) == orderedIds && PositionsDense(r.value) && Valid(r.value)
  {
    var r := ReorderStatuses(prev, orderedIds, now);
    forall i | 0 <= i < |orderedIds| ensures LastWithId(prev, orderedIds[i]).Some? {
      var k :| 0 <= k < |prev| && prev[k].id == orderedIds[i];
    }
    var s := r.value;
    forall i, j | 0 <= i < j < |s| ensures DistinctLabels()(s[i], s[j]) && DistinctIds()(s[i], s[j]) {
      var a := LastWithId(prev, orderedIds[i]).value;
      var b := LastWithId(prev, orderedIds[j]).value;
      var x :| 0 <= x < |prev| && prev[x] == a;
      var y :| 0 <= y < |prev| && prev[y] == b;
      assert x != y;
      if x < y {
        assert DistinctLabels()(prev[x], prev[y]);
      } else {
        assert DistinctLabels()(prev[y], prev[x]);
      }
    }
  }

  /** `statusExists(id)` holds exactly when `getStatusById(id)` finds a status. */
  lemma ExistsIffFound(statuses: seq<Status>, id: string)
    ensures StatusExists(statuses, id) <==> GetStatusById(statuses, id).Some?
  {
  }

  /** The hook's state: the status list, replaced by each successful operation. */
  class StatusStore {
    var statuses: seq<Status>

    /** `useState(loadStatuses)`. */
    constructor (stored: Stored<seq<Status>>, now: string)
      ensures statuses == LoadStatuses(stored, now)
    {
      statuses := LoadStatuses(stored, now);
    }

    method Add(input: CreateStatusInput, newId: string, now: string) returns (err: Option<StatusError>)
      modifies this
      ensures var r := AddStatus(old(statuses), input, newId, now);
        if r.Ok? then statuses == r.value && err.None? else statuses == old(statuses) && err == Some(r.error)
    {
      var r := AddStatus(statuses, input, newId, now);
      if r.Ok? {
        statuses := r.value;
        err := None;
      } else {
        err := Some(r.error);
      }
    }

    method Update(id: string, updates: UpdateStatusInput, now: string) returns (err: Option<StatusError>)
      modifies this
      ensures var r := UpdateStatus(old(statuses), id, updates, now);
        if r.Ok? then statuses == r.value && err.None? else statuses == old(statuses) && err == Some(r.error)
    {
      var r := UpdateStatus(statuses, id, updates, now);
      if r.Ok? {
        statuses := r.value;
        err := None;
      } else {
        err := Some(r.error);
      }
    }

    method Delete(id: string) returns (err: Option<StatusError>)
      modifies this
      ensures var r := DeleteStatus(old(statuses), id);
        if r.Ok? then statuses == r.value && err.None? else statuses == old(statuses) && err == Some(r.error)
    {
      var r := DeleteStatus(statuses, id);
      if r.Ok? {
        statuses := r.value;
        err := None;
      } else {
        err := Some(r.error);
      }
    }

    method Reorder(orderedIds: seq<string>, now: string) returns (err: Option<StatusError>)
      modifies this
      ensures var r := ReorderStatuses(old(statuses), orderedIds, now);
        if r.Ok? then statuses == r.value && err.None? else statuses == old(statuses) && err == Some(r.error)
    {
      var r := ReorderStatuses(statuses, orderedIds, now);
      if r.Ok? {
        statuses := r.value;
        err := None;
      } else {
        err := Some(r.error);
      }
    }
  }
}
