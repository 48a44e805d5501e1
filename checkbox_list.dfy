/** The multi-select checkbox list (src/components/CheckboxList/CheckboxList.tsx): whether an
    option is checked, and the new selection a click hands to `onChange` (exactly one call
    per click, modelled as the function's result). */
module CheckboxList {
  import opened Seqs

  /** `isChecked`: `selectedIds.includes(id)`. */
  predicate IsChecked(selected: seq<string>, id: string)
  {
    id in selected
  }

  function Other(id: string): string -> bool
  {
    (x: string) => x != id
  }

  /** `handleToggle`: a selected id is removed wherever it occurs; an unselected one is
      appended at the end. */
  function Toggle(selected: seq<string>, id: string): (r: seq<string>)
    ensures IsChecked(r, id) <==> !IsChecked(selected, id)
    ensures forall x :: x != id ==> (x in r <==> x in selected)
  {
    forall x ensures x in Filter(selected, Other(id)) <==> x in selected && x != id {
      FilterMember(selected, Other(id), x);
    }
    if IsChecked(selected, id) then Filter(selected, Other(id)) else selected + [id]
  }

  /** Filtering twice by the same test is filtering once. */
  lemma {:induction false} FilterTwice(s: seq<string>, p: string -> bool)
    ensures Filter(Filter(s, p), p) == Filter(s, p)
  {
    FilterKeepsAll(Filter(s, p), p);
  }

  /** The other ids keep their relative order: with the toggled id taken out, the
      selection before and after a click is the same sequence. */
  lemma {:induction false} ToggleKeepsOthersInOrder(selected: seq<string>, id: string)
    ensures Filter(Toggle(selected, id), Other(id)) == Filter(selected, Other(id))
  {
    if IsChecked(selected, id) {
      FilterTwice(selected, Other(id));
    } else {
      FilterAppend(selected, [id], Other(id));
      assert Filter([id], Other(id)) == [] by {
        assert Filter([id], Other(id)) == (if Other(id)(id) then [id] else []) + Filter([id][1..], Other(id));
      }
    }
  }

  /** Clicking an unselected option twice restores the selection. */
  lemma {:induction false} ToggleTwiceRestores(selected: seq<string>, id: string)
    requires !IsChecked(selected, id)
    ensures Toggle(Toggle(selected, id), id) == selected
  {
    var once := selected + [id];
    assert IsChecked(once, id);
    FilterAppend(selected, [id], Other(id));
    assert Filter([id], Other(id)) == [] by {
      assert Filter([id], Other(id)) == (if Other(id)(id) then [id] else []) + Filter([id][1..], Other(id));
    }
    forall i | 0 <= i < |selected| ensures Other(id)(selected[i]) {
      assert selected[i] in selected;
    }
    FilterKeepsAll(selected, Other(id));
  }

  /** Clicking a selected option twice moves it to the end, once, after the others. */
  lemma {:induction false} ToggleTwiceMovesLast(selected: seq<string>, id: string)
    requires IsChecked(selected, id)
    ensures Toggle(Toggle(selected, id), id) == Filter(selected, Other(id)) + [id]
  {
  }

  /** Clicking each of the ids in turn, starting from a selection. */
  function ToggleEach(selected: seq<string>, ids: seq<string>): seq<string>
    decreases |ids|
  {
    if ids == [] then selected else ToggleEach(Toggle(selected, ids[0]), ids[1..])
  }

  /** No id occurs twice. */
  predicate NoRepeats(ids: seq<string>)
  {
    forall i, j :: 0 <= i < j < |ids| ==> ids[i] != ids[j]
  }

  /** After the first click, the remaining ids are still distinct and still selected. */
  lemma {:induction false} RestStillSelected(selected: seq<string>, ids: seq<string>)
    requires ids != [] && NoRepeats(ids)
    requires forall i :: 0 <= i < |ids| ==> ids[i] in selected
    ensures NoRepeats(ids[1..])
    ensures forall i :: 0 <= i < |ids[1..]| ==> ids[1..][i] in Toggle(selected, ids[0])
  {
    forall i | 0 <= i < |ids[1..]| ensures ids[1..][i] in Toggle(selected, ids[0]) {
      assert ids[1..][i] == ids[i + 1] != ids[0];
    }
    forall i, j | 0 <= i < j < |ids[1..]| ensures ids[1..][i] != ids[1..][j] {
      assert ids[1..][i] == ids[i + 1] && ids[1..][j] == ids[j + 1];
    }
  }

  /** Clicking distinct ids that are all selected deselects exactly those ids. */
  lemma {:induction false} ToggleEachDeselects(selected: seq<string>, ids: seq<string>, x: string)
    requires NoRepeats(ids)
    requires forall i :: 0 <= i < |ids| ==> ids[i] in selected
    ensures x in ToggleEach(selected, ids) <==> x in selected && x !in ids
    decreases |ids|
  {
    if ids != [] {
      RestStillSelected(selected, ids);
      ToggleEachDeselects(Toggle(selected, ids[0]), ids[1..], x);
      assert x in ids <==> x == ids[0] || x in ids[1..] by {
        assert ids == [ids[0]] + ids[1..];
      }
    }
  }

  /** Clicking every id of a selection without repeats, in order, empties it. */
  lemma ToggleAllEmpties(selected: seq<string>)
    requires NoRepeats(selected)
    ensures ToggleEach(selected, selected) == []
  {
    var r := ToggleEach(selected, selected);
    if r != [] {
      ToggleEachDeselects(selected, selected, r[0]);
    }
  }
}
