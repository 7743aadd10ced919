/** The user list page (src/pages/user-list/UserListPage.tsx): the
    select-all handler, which drives the coordinator's single-id toggle one
    id at a time, the delete flow behind the confirmation dialog, and the
    toolbar choice. */
module UserListPage {
  import opened Types
  import opened Selection
  import opened Query
  import opened UserContext
  import opened UserTable

  /** The loaded ids that are not in the snapshot of the selection, in list
      order: the ids select-all passes to `toggleSelect`. */
  function ToggledIds(snapshot: seq<int>, ids: seq<int>): (r: seq<int>)
    ensures forall x :: x in r <==> x in ids && x !in snapshot
  {
    if ids == [] then []
    else
      var last := ids[|ids| - 1];
      ToggledIds(snapshot, ids[..|ids| - 1]) + (if last in snapshot then [] else [last])
  }

  /** Looking at one more loaded id. */
  lemma ToggledIdsStep(snapshot: seq<int>, ids: seq<int>, i: int)
    requires 0 <= i < |ids|
    ensures ToggledIds(snapshot, ids[..i + 1]) ==
      ToggledIds(snapshot, ids[..i]) + (if ids[i] in snapshot then [] else [ids[i]])
  {
    assert ids[..i + 1][..i] == ids[..i];
  }

  /** The selection after select-all. With `checked`, each loaded id that was
      not selected when the click happened is toggled; without it, each id
      selected at that moment is toggled. */
  function SelectAll(snapshot: seq<int>, ids: seq<int>, checked: bool): seq<int>
  {
    if checked then ToggleAll(snapshot, ToggledIds(snapshot, ids)) else ToggleAll(snapshot, snapshot)
  }

  lemma {:induction false} ToggledIdsNoDup(snapshot: seq<int>, ids: seq<int>)
    requires NoDup(ids)
    ensures NoDup(ToggledIds(snapshot, ids))
  {
    if ids != [] {
      var front := ids[..|ids| - 1];
      var last := ids[|ids| - 1];
      assert NoDup(front);
      ToggledIdsNoDup(snapshot, front);
      if last !in snapshot {
        assert last !in front;
        NoDupAppend(ToggledIds(snapshot, front), last);
      }
    }
  }

  /** When every loaded id is already selected, select-all toggles nothing. */
  lemma {:induction false} ToggledIdsAllSelected(snapshot: seq<int>, ids: seq<int>)
    requires forall id :: id in ids ==> id in snapshot
    ensures ToggledIds(snapshot, ids) == []
  {
    if ids != [] {
      assert forall id :: id in ids[..|ids| - 1] ==> id in ids;
      ToggledIdsAllSelected(snapshot, ids[..|ids| - 1]);
    }
  }

  /** Select-all with distinct loaded ids keeps the selected ids, in their
      order, appends the unselected loaded ids in list order, and so leaves
      every loaded id selected. */
  lemma SelectAllChecked(snapshot: seq<int>, ids: seq<int>)
    requires NoDup(ids)
    ensures SelectAll(snapshot, ids, true) == snapshot + ToggledIds(snapshot, ids)
    ensures forall id :: id in ids ==> id in SelectAll(snapshot, ids, true)
  {
    ToggledIdsNoDup(snapshot, ids);
    ToggleAllAppendsFresh(snapshot, ToggledIds(snapshot, ids));
  }

  /** A second select-all right after the first toggles nothing and changes nothing. */
  lemma SelectAllTwice(snapshot: seq<int>, ids: seq<int>)
    requires NoDup(ids)
    ensures var once := SelectAll(snapshot, ids, true);
      ToggledIds(once, ids) == [] && SelectAll(once, ids, true) == once
  {
    SelectAllChecked(snapshot, ids);
    ToggledIdsAllSelected(SelectAll(snapshot, ids, true), ids);
  }

  /** Unchecking select-all on a duplicate-free selection empties it. */
  lemma SelectAllUnchecked(snapshot: seq<int>, ids: seq<int>)
    requires NoDup(snapshot)
    ensures SelectAll(snapshot, ids, false) == []
  {
    ToggleAllOwnPrefix(snapshot, |snapshot|);
    assert snapshot[..|snapshot|] == snapshot;
  }

  lemma NoDupConcat(a: seq<int>, b: seq<int>)
    requires NoDup(a) && NoDup(b)
    requires forall x :: x in b ==> x !in a
    ensures NoDup(a + b)
  {
    var c := a + b;
    forall i, j | 0 <= i < j < |c| ensures c[i] != c[j] {
      if i >= |a| {
        assert c[i] == b[i - |a|] && c[j] == b[j - |a|];
      } else if j >= |a| {
        assert c[j] == b[j - |a|] && c[j] in b;
      }
    }
  }

  /** After select-all on a selection of displayed ids, the header checkbox
      is checked and not indeterminate. */
  lemma SelectAllChecksHeader(snapshot: seq<int>, ids: seq<int>)
    requires NoDup(snapshot) && NoDup(ids) && ids != []
    requires forall x :: x in snapshot ==> x in ids
    ensures HeaderCheckbox(|SelectAll(snapshot, ids, true)|, |ids|) == Checkbox(true, false)
  {
    SelectAllChecked(snapshot, ids);
    var t := ToggledIds(snapshot, ids);
    ToggledIdsNoDup(snapshot, ids);
    NoDupConcat(snapshot, t);
    var r := snapshot + t;
    assert SelectAll(snapshot, ids, true) == r;
    ElementsOfNoDup(r);
    ElementsOfNoDup(ids);
    forall x ensures x in Elements(r) <==> x in Elements(ids) {
      assert x in r <==> x in snapshot || x in t;
    }
    assert Elements(r) == Elements(ids);
  }

  /** Whatever the selection held before, select-all marks every displayed
      row, so the header drawn from the row marks is checked. */
  lemma SelectAllMarksEveryRow(snapshot: seq<int>, ids: seq<int>)
    requires NoDup(ids) && ids != []
    ensures HeaderCheckboxByRows(SelectAll(snapshot, ids, true), ids) == Checkbox(true, false)
  {
    SelectAllChecked(snapshot, ids);
  }

  /** The toolbar: with a selection, its size and the delete button;
      otherwise the title, the welcome-screen button and the add button. */
  datatype Toolbar = SelectionBar(count: nat) | TitleBar

  function ToolbarFor(numSelected: nat): (t: Toolbar)
    ensures t.SelectionBar? <==> numSelected > 0
    ensures t.SelectionBar? ==> t.count == numSelected
  {
    if numSelected > 0 then SelectionBar(numSelected) else TitleBar
  }

  class ListPage {
    const store: UserStore
    var openDialog: bool

    ghost predicate Valid()
      reads this, store
    {
      store.Valid()
    }

    constructor (store: UserStore)
      requires store.Valid()
      ensures Valid() && this.store == store && !openDialog
    {
      this.store := store;
      openDialog := false;
    }

    /** `handleSelectAllClick`: reads the selection once, then toggles one id
        at a time; `toggled` lists the ids it passed to `toggleSelect`. */
    method HandleSelectAllClick(checked: bool) returns (toggled: seq<int>)
      requires Valid()
      modifies store`selectedUsers
      ensures Valid()
      ensures toggled == if checked then ToggledIds(old(store.selectedUsers), UserIds(store.users))
                         else old(store.selectedUsers)
      ensures store.selectedUsers == SelectAll(old(store.selectedUsers), UserIds(store.users), checked)
    {
      if checked {
        toggled := ToggleUnselected();
      } else {
        toggled := ToggleSelected();
      }
    }

    /** The checked branch: each loaded id missing from the snapshot is toggled. */
    method ToggleUnselected() returns (toggled: seq<int>)
      requires Valid()
      modifies store`selectedUsers
      ensures Valid()
      ensures toggled == ToggledIds(old(store.selectedUsers), UserIds(store.users))
      ensures store.selectedUsers == ToggleAll(old(store.selectedUsers), toggled)
    {
      var snapshot := store.selectedUsers;
      var ids := UserIds(store.users);
      toggled := [];
      var i := 0;
      while i < |ids|
        invariant 0 <= i <= |ids|
        invariant store.Valid()
        invariant toggled == ToggledIds(snapshot, ids[..i])
        invariant store.selectedUsers == ToggleAll(snapshot, toggled)
      {
        ToggledIdsStep(snapshot, ids, i);
        if ids[i] !in snapshot {
          store.ToggleSelect(ids[i]);
          ToggleAllStep(snapshot, toggled, ids[i]);
          toggled := toggled + [ids[i]];
        }
        i := i + 1;
      }
      assert ids[..i] == ids;
    }

    /** The unchecked branch: each id of the snapshot is toggled. */
    method ToggleSelected() returns (toggled: seq<int>)
      requires Valid()
      modifies store`selectedUsers
      ensures Valid()
      ensures toggled == old(store.selectedUsers)
      ensures store.selectedUsers == ToggleAll(old(store.selectedUsers), toggled)
    {
      var snapshot := store.selectedUsers;
      toggled := [];
      var i := 0;
      while i < |snapshot|
        invariant 0 <= i <= |snapshot|
        invariant store.Valid()
        invariant toggled == snapshot[..i]
        invariant store.selectedUsers == ToggleAll(snapshot, toggled)
      {
        store.ToggleSelect(snapshot[i]);
        ToggleAllStep(snapshot, toggled, snapshot[i]);
        assert snapshot[..i + 1] == toggled + [snapshot[i]];
        toggled := toggled + [snapshot[i]];
        i := i + 1;
      }
      assert snapshot[..i] == snapshot;
    }

    /** The delete button, shown only while something is selected, opens
        the confirmation dialog. */
    method OpenDeleteDialog()
      requires Valid() && ToolbarFor(|store.selectedUsers|).SelectionBar?
      modifies this`openDialog
      ensures Valid() && openDialog
    {
      openDialog := true;
    }

    /** The dialog's cancel action. */
    method CloseDeleteDialog()
      requires Valid()
      modifies this`openDialog
      ensures Valid() && !openDialog
    {
      openDialog := false;
    }

    /** `handleDelete`: deletes the current selection and closes the dialog
        whatever the outcome; `deleted` picks the success or error notice. */
    method HandleDelete(outcome: Outcome, refetch: Response<seq<User>>) returns (deleted: bool)
      requires Valid()
      modifies this`openDialog, store`users, store`loading, store`error, store`sent, store`selectedUsers
      ensures Valid() && !openDialog
      ensures deleted <==> outcome == Success
      ensures deleted ==> store.selectedUsers == []
      ensures deleted ==> store.sent == old(store.sent) + DeleteRequests(old(store.selectedUsers))
                                        + [Get(QueryParams(store.debouncedFilter, store.sort))]
      ensures !deleted ==> store.selectedUsers == old(store.selectedUsers)
      ensures !deleted ==> store.sent == old(store.sent) + DeleteRequests(old(store.selectedUsers))
      ensures deleted ==> store.users == (if refetch.Ok? then refetch.data else old(store.users))
      ensures deleted ==> store.error == (if refetch.Ok? then None else Some(LoadError)) && !store.loading
      ensures !deleted ==> store.users == old(store.users) && store.loading == old(store.loading)
      ensures !deleted ==> store.error == Some(DeleteError)
    {
      deleted := store.DeleteUsers(store.selectedUsers, outcome, refetch);
      openDialog := false;
    }
  }
}
