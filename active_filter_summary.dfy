/** The active-filter summary (src/components/ActiveFilterSummary/ActiveFilterSummary.tsx):
    whether anything is shown, the chips it shows, and the removal callbacks each chip's
    button makes, returned as the sequence of calls. The component reads
    `filters.priorities`, a key the `TodoFilters` of src/types/todo.types.ts:69-74 does not
    have; the type it imports from '../../types' is not part of this model, so
    `SummaryFilters` carries the key, as the raw strings the component receives. */
module ActiveFilterSummary {
  import opened Types
  import CheckboxList
  import Seqs

  datatype SummaryFilters = SummaryFilters(
    statuses: seq<string>,
    categories: seq<string>,
    priorities: seq<string>,
    searchText: string)

  /** `hasActiveFilters`: white-space-only search text counts as active. */
  predicate HasActiveFilters(f: SummaryFilters)
  {
    |f.statuses| > 0 || |f.categories| > 0 || |f.priorities| > 0 || f.searchText != ""
  }

  /** `getPriorityLabel`: the three enum values get capitalised names, any other string is
      shown as it is. */
  function PriorityLabel(p: string): (r: string)
    ensures r == p || p in {High.Value(), Medium.Value(), Low.Value()}
  {
    if p == High.Value() then "High"
    else if p == Medium.Value() then "Medium"
    else if p == Low.Value() then "Low"
    else p
  }

  /** The three priorities get three different labels, none equal to the raw value. */
  lemma PriorityLabelsDistinct(a: Priority, b: Priority)
    ensures PriorityLabel(a.Value()) != a.Value()
    ensures a != b ==> PriorityLabel(a.Value()) != PriorityLabel(b.Value())
  {
  }

  /** `statusLabels.get(id) || id`: the mapped label when there is a non-empty one, else the id. */
  function StatusLabel(statusLabels: map<string, string>, id: string): (r: string)
    ensures id in statusLabels && statusLabels[id] != "" ==> r == statusLabels[id]
    ensures !(id in statusLabels && statusLabels[id] != "") ==> r == id
    ensures r == "" ==> id == ""
  {
    if id in statusLabels && statusLabels[id] != "" then statusLabels[id] else id
  }

  datatype Chip =
    | StatusChip(names: seq<string>)
    | CategoryChip(categories: seq<string>)
    | PriorityChip(names: seq<string>)
    | SearchChip(text: string)

  /** The status chip's names: each selected id's label, in order. */
  function StatusNames(f: SummaryFilters, statusLabels: map<string, string>): (r: seq<string>)
    ensures |r| == |f.statuses|
    ensures forall i :: 0 <= i < |r| ==> r[i] == StatusLabel(statusLabels, f.statuses[i])
  {
    seq(|f.statuses|, i requires 0 <= i < |f.statuses| => StatusLabel(statusLabels, f.statuses[i]))
  }

  /** The priority chip's names: each selected priority's label, in order. */
  function PriorityNames(f: SummaryFilters): (r: seq<string>)
    ensures |r| == |f.priorities|
    ensures forall i :: 0 <= i < |r| ==> r[i] == PriorityLabel(f.priorities[i])
  {
    seq(|f.priorities|, i requires 0 <= i < |f.priorities| => PriorityLabel(f.priorities[i]))
  }

  /** The place of a chip's group in the markup. */
  function ChipRank(c: Chip): int
  {
    match c
    case StatusChip(_) => 0
    case CategoryChip(_) => 1
    case PriorityChip(_) => 2
    case SearchChip(_) => 3
  }

  /** The chip one group contributes: none, or the single chip when the group is on. */
  function Piece(on: bool, c: Chip): seq<Chip>
  {
    if on then [c] else []
  }

  /** The chips shown, in order: one per non-empty group, and one for truthy search text. */
  function Chips(f: SummaryFilters, statusLabels: map<string, string>): (r: seq<Chip>)
    ensures r == [] <==> !HasActiveFilters(f)
    ensures |r| <= 4
    ensures forall i :: 0 <= i < |r| && r[i].StatusChip? ==> r[i].names == StatusNames(f, statusLabels)
    ensures forall i :: 0 <= i < |r| && r[i].PriorityChip? ==> r[i].names == PriorityNames(f)
  {
    Piece(|f.statuses| > 0, StatusChip(StatusNames(f, statusLabels)))
    + (Piece(|f.categories| > 0, CategoryChip(f.categories))
       + (Piece(|f.priorities| > 0, PriorityChip(PriorityNames(f)))
          + Piece(f.searchText != "", SearchChip(f.searchText))))
  }

  /** A chip is in four pieces iff one of them is on and holds it. */
  lemma InFourPieces(p: bool, w: Chip, q: bool, x: Chip, s: bool, y: Chip, t: bool, z: Chip, c: Chip)
    ensures c in Piece(p, w) + (Piece(q, x) + (Piece(s, y) + Piece(t, z)))
        <==> (p && c == w) || (q && c == x) || (s && c == y) || (t && c == z)
  {
    InPiece(p, w, Piece(q, x) + (Piece(s, y) + Piece(t, z)), c);
    InPiece(q, x, Piece(s, y) + Piece(t, z), c);
    InPiece(s, y, Piece(t, z), c);
  }

  lemma InPiece(p: bool, w: Chip, rest: seq<Chip>, c: Chip)
    ensures c in Piece(p, w) + rest <==> (p && c == w) || c in rest
    ensures c in Piece(p, w) <==> p && c == w
  {
  }

  /**
   * Which chip each group contributes: the status chip with the selected ids' labels iff some
   * status is selected, the category chip with the selected categories iff some category is,
   * the priority chip with the priorities' labels iff some priority is, and the search chip
   * with the raw text iff the text is truthy; no other chip appears.
   */
  lemma ChipsByGroup(f: SummaryFilters, statusLabels: map<string, string>)
    ensures StatusChip(StatusNames(f, statusLabels)) in Chips(f, statusLabels) <==> |f.statuses| > 0
    ensures CategoryChip(f.categories) in Chips(f, statusLabels) <==> |f.categories| > 0
    ensures PriorityChip(PriorityNames(f)) in Chips(f, statusLabels) <==> |f.priorities| > 0
    ensures SearchChip(f.searchText) in Chips(f, statusLabels) <==> f.searchText != ""
    ensures forall c :: c in Chips(f, statusLabels) ==>
      c == StatusChip(StatusNames(f, statusLabels)) || c == CategoryChip(f.categories) ||
      c == PriorityChip(PriorityNames(f)) || c == SearchChip(f.searchText)
  {
    forall c
      ensures c in Chips(f, statusLabels)
          <==> ((|f.statuses| > 0 && c == StatusChip(StatusNames(f, statusLabels)))
                || (|f.categories| > 0 && c == CategoryChip(f.categories))
                || (|f.priorities| > 0 && c == PriorityChip(PriorityNames(f)))
                || (f.searchText != "" && c == SearchChip(f.searchText)))
    {
      InFourPieces(|f.statuses| > 0, StatusChip(StatusNames(f, statusLabels)),
                   |f.categories| > 0, CategoryChip(f.categories),
                   |f.priorities| > 0, PriorityChip(PriorityNames(f)),
                   f.searchText != "", SearchChip(f.searchText), c);
    }
  }


  /** Chips whose groups come in the markup's order. */
  predicate Ascending(r: seq<Chip>)
  {
    forall i, j :: 0 <= i < j < |r| ==> ChipRank(r[i]) < ChipRank(r[j])
  }

  /** A piece in front of chips that all rank above it keeps the order, and nothing in the
      result ranks below the piece's chip. */
  lemma PrependPiece(p: bool, w: Chip, rest: seq<Chip>)
    requires Ascending(rest)
    requires forall i :: 0 <= i < |rest| ==> ChipRank(w) < ChipRank(rest[i])
    ensures Ascending(Piece(p, w) + rest)
    ensures forall i :: 0 <= i < |Piece(p, w) + rest| ==> ChipRank(w) <= ChipRank((Piece(p, w) + rest)[i])
  {
    if p {
      assert Piece(p, w) + rest == [w] + rest;
      assert forall i :: 1 <= i < |[w] + rest| ==> ([w] + rest)[i] == rest[i - 1];
    } else {
      assert Piece(p, w) + rest == rest;
    }
  }

  /** Four pieces whose chips rank 0, 1, 2 and 3 come out in rank order. */
  lemma FourPiecesAscending(p: bool, w: Chip, q: bool, x: Chip, s: bool, y: Chip, t: bool, z: Chip)
    requires ChipRank(w) == 0 && ChipRank(x) == 1 && ChipRank(y) == 2 && ChipRank(z) == 3
    ensures Ascending(Piece(p, w) + (Piece(q, x) + (Piece(s, y) + Piece(t, z))))
  {
    var d := Piece(t, z);
    var cd := Piece(s, y) + d;
    var bcd := Piece(q, x) + cd;
    assert Ascending(d) && forall i :: 0 <= i < |d| ==> 3 <= ChipRank(d[i]) by {
      PrependPiece(t, z, []);
      assert d + [] == d;
    }
    assert Ascending(cd) && forall i :: 0 <= i < |cd| ==> 2 <= ChipRank(cd[i]) by {
      PrependPiece(s, y, d);
    }
    assert Ascending(bcd) && forall i :: 0 <= i < |bcd| ==> 1 <= ChipRank(bcd[i]) by {
      PrependPiece(q, x, cd);
    }
    PrependPiece(p, w, bcd);
  }

  /** The groups' chips appear in the markup's order: status, category, priority, search. */
  lemma ChipsInMarkupOrder(f: SummaryFilters, statusLabels: map<string, string>)
    ensures forall i, j :: 0 <= i < j < |Chips(f, statusLabels)| ==>
      ChipRank(Chips(f, statusLabels)[i]) < ChipRank(Chips(f, statusLabels)[j])
  {
    FourPiecesAscending(|f.statuses| > 0, StatusChip(StatusNames(f, statusLabels)),
                        |f.categories| > 0, CategoryChip(f.categories),
                        |f.priorities| > 0, PriorityChip(PriorityNames(f)),
                        f.searchText != "", SearchChip(f.searchText));
  }


  lemma FilterPiece(on: bool, c: Chip, p: Chip -> bool)
    ensures Seqs.Filter(Piece(on, c), p) == Piece(on && p(c), c)
  {
    if on {
      assert Piece(on, c)[1..] == [];
    }
  }

  /** Filtering the chips filters each group's piece. */
  lemma FilterChips(f: SummaryFilters, statusLabels: map<string, string>, p: Chip -> bool)
    ensures Seqs.Filter(Chips(f, statusLabels), p)
         == Piece(|f.statuses| > 0 && p(StatusChip(StatusNames(f, statusLabels))), StatusChip(StatusNames(f, statusLabels)))
          + (Piece(|f.categories| > 0 && p(CategoryChip(f.categories)), CategoryChip(f.categories))
             + (Piece(|f.priorities| > 0 && p(PriorityChip(PriorityNames(f))), PriorityChip(PriorityNames(f)))
                + Piece(f.searchText != "" && p(SearchChip(f.searchText)), SearchChip(f.searchText))))
  {
    var a := Piece(|f.statuses| > 0, StatusChip(StatusNames(f, statusLabels)));
    var b := Piece(|f.categories| > 0, CategoryChip(f.categories));
    var c := Piece(|f.priorities| > 0, PriorityChip(PriorityNames(f)));
    var d := Piece(f.searchText != "", SearchChip(f.searchText));
    Seqs.FilterAppend(a, b + (c + d), p);
    Seqs.FilterAppend(b, c + d, p);
    Seqs.FilterAppend(c, d, p);
    FilterPiece(|f.statuses| > 0, StatusChip(StatusNames(f, statusLabels)), p);
    FilterPiece(|f.categories| > 0, CategoryChip(f.categories), p);
    FilterPiece(|f.priorities| > 0, PriorityChip(PriorityNames(f)), p);
    FilterPiece(f.searchText != "", SearchChip(f.searchText), p);
  }

  /** Dropping the first piece is dropping the first element when the piece is on. */
  lemma FirstPiece(p: bool, w: Chip, rest: seq<Chip>)
    ensures rest == if p then (Piece(p, w) + rest)[1..] else Piece(p, w) + rest
  {
  }

  /** Emptying the last of four pieces is dropping the last element when the piece is on. */
  lemma LastPiece(a: seq<Chip>, b: seq<Chip>, c: seq<Chip>, p: bool, w: Chip)
    ensures var s := a + (b + (c + Piece(p, w)));
      a + (b + (c + [])) == if p then s[..|s| - 1] else s
  {
    var s := a + (b + (c + Piece(p, w)));
    assert a + (b + (c + [])) == a + b + c;
    if p {
      assert s == (a + b + c) + [w];
    }
  }

  /** Emptying the statuses drops the first chip, which is the status chip, when there is
      one, and leaves the others as they were. */
  lemma ClearingStatusesDropsItsChip(f: SummaryFilters, statusLabels: map<string, string>)
    ensures Chips(f.(statuses := []), statusLabels)
         == if |f.statuses| > 0 then Chips(f, statusLabels)[1..] else Chips(f, statusLabels)
  {
    var b := Piece(|f.categories| > 0, CategoryChip(f.categories));
    var c := Piece(|f.priorities| > 0, PriorityChip(PriorityNames(f)));
    var d := Piece(f.searchText != "", SearchChip(f.searchText));
    FirstPiece(|f.statuses| > 0, StatusChip(StatusNames(f, statusLabels)), b + (c + d));
  }

  /** Emptying the search text drops the last chip, which is the search chip, when there is
      one, and leaves the others as they were. */
  lemma ClearingSearchDropsItsChip(f: SummaryFilters, statusLabels: map<string, string>)
    ensures Chips(f.(searchText := ""), statusLabels)
         == if f.searchText != "" then Chips(f, statusLabels)[..|Chips(f, statusLabels)| - 1]
            else Chips(f, statusLabels)
  {
    var a := Piece(|f.statuses| > 0, StatusChip(StatusNames(f, statusLabels)));
    var b := Piece(|f.categories| > 0, CategoryChip(f.categories));
    var c := Piece(|f.priorities| > 0, PriorityChip(PriorityNames(f)));
    LastPiece(a, b, c, f.searchText != "", SearchChip(f.searchText));
  }

  /** Emptying the categories or the priorities drops that group's chip and keeps the others,
      in order. */
  lemma ClearingInnerGroupDropsItsChip(f: SummaryFilters, statusLabels: map<string, string>)
    ensures Chips(f.(categories := []), statusLabels)
         == Seqs.Filter(Chips(f, statusLabels), (c: Chip) => !c.CategoryChip?)
    ensures Chips(f.(priorities := []), statusLabels)
         == Seqs.Filter(Chips(f, statusLabels), (c: Chip) => !c.PriorityChip?)
  {
    FilterChips(f, statusLabels, (c: Chip) => !c.CategoryChip?);
    FilterChips(f, statusLabels, (c: Chip) => !c.PriorityChip?);
  }

  /** A callback one of the remove buttons makes. */
  datatype Removal =
    | RemoveStatus(statusId: string)
    | RemoveCategory(category: string)
    | RemovePriority(priority: string)
    | ClearSearch

  /** The status chip's button: one `onRemoveStatus` per selected id, in order. */
  function RemoveStatuses(f: SummaryFilters): (r: seq<Removal>)
    ensures |r| == |f.statuses|
    ensures forall i :: 0 <= i < |r| ==> r[i] == RemoveStatus(f.statuses[i])
  {
    seq(|f.statuses|, i requires 0 <= i < |f.statuses| => RemoveStatus(f.statuses[i]))
  }

  /** The category chip's button: one `onRemoveCategory` per selected category, in order. */
  function RemoveCategories(f: SummaryFilters): (r: seq<Removal>)
    ensures |r| == |f.categories|
    ensures forall i :: 0 <= i < |r| ==> r[i] == RemoveCategory(f.categories[i])
  {
    seq(|f.categories|, i requires 0 <= i < |f.categories| => RemoveCategory(f.categories[i]))
  }

  /** The priority chip's button: one `onRemovePriority` per selected priority, in order. */
  function RemovePriorities(f: SummaryFilters): (r: seq<Removal>)
    ensures |r| == |f.priorities|
    ensures forall i :: 0 <= i < |r| ==> r[i] == RemovePriority(f.priorities[i])
  {
    seq(|f.priorities|, i requires 0 <= i < |f.priorities| => RemovePriority(f.priorities[i]))
  }

  function RemovedIds(calls: seq<Removal>): seq<string>
  {
    seq(|calls|, i requires 0 <= i < |calls| => if calls[i].RemoveStatus? then calls[i].statusId else "")
  }

  /** When each status removal is a click on that id in the status checkbox list, and
      each click starts from the selection the previous one left (a functional state
      update), the status chip's button deselects every status (the selection holding no
      id twice). */
  lemma StatusRemovalClearsSelection(f: SummaryFilters)
    requires CheckboxList.NoRepeats(f.statuses)
    ensures CheckboxList.ToggleEach(f.statuses, RemovedIds(RemoveStatuses(f))) == []
  {
    assert RemovedIds(RemoveStatuses(f)) == f.statuses;
    CheckboxList.ToggleAllEmpties(f.statuses);
  }
}
