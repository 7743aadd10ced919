/** The decisions the user table makes from its props
    (src/widgets/user-table/UserTable.tsx): the next sort on a header click,
    the header checkbox, which view is rendered, and which rows are marked. */
module UserTable {
  import opened Types
  import opened Selection

  /** `handleSort`: the clicked field becomes the sort field; the order is
      descending only when that field was already active in ascending order. */
  function NextSort(current: Sort, clicked: SortField): (r: Sort)
    ensures r.field == clicked
    ensures r.order == Desc <==> current.field == clicked && current.order == Asc
  {
    Sort(clicked, if current.field == clicked && current.order == Asc then Desc else Asc)
  }

  /** Two clicks on the active field give back the sort it started from. */
  lemma SortTwiceOnActiveField(current: Sort)
    ensures NextSort(NextSort(current, current.field), current.field) == current
  {
  }

  /** Clicking an inactive field sorts by it in ascending order; a second
      click flips it to descending. */
  lemma SortOtherField(current: Sort, clicked: SortField)
    requires current.field != clicked
    ensures NextSort(current, clicked) == Sort(clicked, Asc)
    ensures NextSort(NextSort(current, clicked), clicked) == Sort(clicked, Desc)
  {
  }

  datatype Checkbox = Checkbox(checked: bool, indeterminate: bool)

  /** The header checkbox as rendered: derived from the two counts alone. */
  function HeaderCheckbox(numSelected: nat, rowCount: nat): (c: Checkbox)
    ensures !(c.checked && c.indeterminate)
    ensures c.checked || c.indeterminate ==> rowCount > 0 && numSelected > 0
  {
    Checkbox(rowCount > 0 && numSelected == rowCount, numSelected > 0 && numSelected < rowCount)
  }

  /** `isSelected` of one row. */
  predicate RowSelected(selected: seq<int>, id: int)
  {
    id in selected
  }

  /** Clicking a row's checkbox flips that row's mark and no other row's. */
  lemma RowToggleFlipsOnlyThatRow(selected: seq<int>, id: int, other: int)
    requires other != id
    ensures RowSelected(Toggled(selected, id), id) == !RowSelected(selected, id)
    ensures RowSelected(Toggled(selected, other), id) == RowSelected(selected, id)
  {
  }

  /** The header checkbox derived from which displayed rows are marked:
      checked when there are rows and all are marked, indeterminate when
      some but not all are. */
  function HeaderCheckboxByRows(selected: seq<int>, rowIds: seq<int>): (c: Checkbox)
    ensures !(c.checked && c.indeterminate)
  {
    var all := rowIds != [] && forall id :: id in rowIds ==> RowSelected(selected, id);
    var some := exists id :: id in rowIds && RowSelected(selected, id);
    Checkbox(all, some && !all)
  }

  /** The set of ids of a sequence. */
  function Elements(s: seq<int>): set<int>
  {
    set x | x in s
  }

  lemma {:induction false} ElementsOfNoDup(s: seq<int>)
    requires NoDup(s)
    ensures |Elements(s)| == |s|
  {
    if s != [] {
      var front := s[..|s| - 1];
      var last := s[|s| - 1];
      assert NoDup(front);
      ElementsOfNoDup(front);
      assert last !in front;
      assert Elements(s) == Elements(front) + {last};
    }
  }

  lemma {:induction false} SubsetCard(a: set<int>, b: set<int>)
    requires a <= b
    ensures |a| <= |b|
  {
    assert b == a + (b - a);
  }

  /** When the selection holds only displayed ids, each once, the counts
      give the same header checkbox as the row marks. */
  lemma HeaderCheckboxAgreesOnDisplayedSelection(selected: seq<int>, rowIds: seq<int>)
    requires NoDup(selected) && NoDup(rowIds)
    requires forall id :: id in selected ==> id in rowIds
    ensures HeaderCheckbox(|selected|, |rowIds|) == HeaderCheckboxByRows(selected, rowIds)
  {
    ElementsOfNoDup(selected);
    ElementsOfNoDup(rowIds);
    var s, r := Elements(selected), Elements(rowIds);
    assert s <= r;
    var all := forall id :: id in rowIds ==> RowSelected(selected, id);
    if all {
      assert s == r;
    } else {
      var missing :| missing in rowIds && !RowSelected(selected, missing);
      assert missing in r && missing !in s;
      assert |s| < |r| by {
        assert s <= r - {missing};
        assert |r - {missing}| == |r| - 1;
        SubsetCard(s, r - {missing});
      }
    }
    if selected != [] {
      assert selected[0] in rowIds && RowSelected(selected, selected[0]);
    }
  }

  /** A refetch keeps the selection, so it can hold ids that are no longer
      displayed: two selected ids, two other rows shown. The counts then
      draw the header as checked although no displayed row is marked. */
  lemma HeaderCheckedWithNoRowMarked()
    ensures HeaderCheckbox(|[3, 4]|, |[1, 2]|).checked
    ensures forall id :: id in [1, 2] ==> !RowSelected([3, 4], id)
    ensures !HeaderCheckboxByRows([3, 4], [1, 2]).checked
    ensures !HeaderCheckboxByRows([3, 4], [1, 2]).indeterminate
  {
    assert 1 in [1, 2] && !RowSelected([3, 4], 1);
  }

  /** What the table renders. */
  datatype View = Spinner | ErrorText(text: string) | NotFound | Rows(users: seq<User>)

  /** A JavaScript truthiness test of the error: set and non-empty. */
  predicate HasError(error: Option<string>)
  {
    error.Some? && error.value != ""
  }

  /** Loading wins over an error, an error over an empty list, and only a
      non-empty list is drawn as a table. */
  function ViewFor(loading: bool, error: Option<string>, users: seq<User>): (v: View)
    ensures v == Spinner <==> loading
    ensures v.ErrorText? <==> !loading && HasError(error)
    ensures v.ErrorText? ==> v.text == "Ошибка: " + error.value
    ensures v == NotFound <==> !loading && !HasError(error) && users == []
    ensures v.Rows? <==> !loading && !HasError(error) && users != []
    ensures v.Rows? ==> v.users == users
  {
    if loading then Spinner
    else if HasError(error) then ErrorText("Ошибка: " + error.value)
    else if |users| == 0 then NotFound
    else Rows(users)
  }
}
