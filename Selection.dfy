/** The selection primitive of the user state coordinator: `toggleSelect`
    (src/entities/user/model/UserContext.tsx), the only way the selection
    list changes apart from being emptied after a delete. */
module Selection {

  /** No id occurs twice. */
  predicate NoDup(s: seq<int>)
  {
    forall i, j :: 0 <= i < j < |s| ==> s[i] != s[j]
  }

  /** `prev.filter((y) => y !== x)`: every occurrence of `x` is dropped and
      the other ids keep their order. */
  function Remove(s: seq<int>, x: int): (r: seq<int>)
    ensures |r| <= |s|
    ensures x !in r
    ensures forall y :: y != x ==> (y in r <==> y in s)
    ensures x !in s ==> r == s
  {
    if s == [] then []
    else (if s[0] == x then [] else [s[0]]) + Remove(s[1..], x)
  }

  /** `toggleSelect(id)`: drop `id` if it is selected, otherwise append it. */
  function Toggled(s: seq<int>, id: int): (r: seq<int>)
    ensures id in r <==> id !in s
    ensures forall y :: y != id ==> (y in r <==> y in s)
  {
    if id in s then Remove(s, id) else s + [id]
  }

  /** Toggling each id of `ids` in turn, first to last. */
  function ToggleAll(s: seq<int>, ids: seq<int>): seq<int>
  {
    if ids == [] then s
    else Toggled(ToggleAll(s, ids[..|ids| - 1]), ids[|ids| - 1])
  }

  /** Toggling one more id at the end of the batch. */
  lemma ToggleAllStep(s: seq<int>, ids: seq<int>, x: int)
    ensures ToggleAll(s, ids + [x]) == Toggled(ToggleAll(s, ids), x)
  {
    assert (ids + [x])[..|ids|] == ids;
  }

  /** An id outside the batch keeps its membership. */
  lemma {:induction false} ToggleAllKeepsOthers(s: seq<int>, ids: seq<int>, y: int)
    requires y !in ids
    ensures y in ToggleAll(s, ids) <==> y in s
  {
    if ids != [] {
      var front := ids[..|ids| - 1];
      assert y !in front by {
        assert forall k :: 0 <= k < |front| ==> front[k] == ids[k];
      }
      ToggleAllKeepsOthers(s, front, y);
    }
  }

  lemma {:induction false} RemoveAppend(a: seq<int>, b: seq<int>, x: int)
    ensures Remove(a + b, x) == Remove(a, x) + Remove(b, x)
  {
    if a == [] {
      assert a + b == b;
    } else {
      assert (a + b)[1..] == a[1..] + b;
      RemoveAppend(a[1..], b, x);
    }
  }

  lemma {:induction false} NoDupCons(a: int, t: seq<int>)
    ensures NoDup([a] + t) <==> a !in t && NoDup(t)
  {
    var s := [a] + t;
    if a !in t && NoDup(t) {
      forall i, j | 0 <= i < j < |s| ensures s[i] != s[j] {
        if i > 0 {
          assert s[i] == t[i - 1] && s[j] == t[j - 1];
        } else {
          assert s[j] == t[j - 1];
        }
      }
    }
    if NoDup(s) {
      forall i, j | 0 <= i < j < |t| ensures t[i] != t[j] {
        assert t[i] == s[i + 1] && t[j] == s[j + 1];
      }
      forall k | 0 <= k < |t| ensures t[k] != a {
        assert s[0] == a && s[k + 1] == t[k];
      }
    }
  }

  lemma {:induction false} NoDupRemove(s: seq<int>, x: int)
    requires NoDup(s)
    ensures NoDup(Remove(s, x))
  {
    if s != [] {
      assert s == [s[0]] + s[1..];
      NoDupCons(s[0], s[1..]);
      NoDupRemove(s[1..], x);
      if s[0] != x {
        NoDupCons(s[0], Remove(s[1..], x));
      } else {
        assert Remove(s, x) == Remove(s[1..], x);
      }
    }
  }

  lemma NoDupAppend(s: seq<int>, x: int)
    requires NoDup(s) && x !in s
    ensures NoDup(s + [x])
  {
    var r := s + [x];
    forall i, j | 0 <= i < j < |r| ensures r[i] != r[j] {
      if j == |s| {
        assert r[i] == s[i];
      }
    }
  }

  /** Toggling keeps a duplicate-free selection duplicate-free. */
  lemma ToggledNoDup(s: seq<int>, id: int)
    requires NoDup(s)
    ensures NoDup(Toggled(s, id))
  {
    if id in s {
      NoDupRemove(s, id);
    } else {
      NoDupAppend(s, id);
    }
  }

  /** Toggling `id` leaves every other id where it was: with `id` taken out
      of both, the selections before and after are the same sequence. */
  lemma ToggledKeepsOthers(s: seq<int>, id: int)
    ensures Remove(Toggled(s, id), id) == Remove(s, id)
  {
    if id !in s {
      RemoveAppend(s, [id], id);
      assert Remove([id], id) == [] by {
        assert [id][1..] == [];
      }
    }
  }

  /** Toggling an unselected id twice restores the selection exactly. */
  lemma ToggleTwiceAbsent(s: seq<int>, id: int)
    requires id !in s
    ensures Toggled(Toggled(s, id), id) == s
  {
    RemoveAppend(s, [id], id);
    assert Remove([id], id) == [] by {
      assert [id][1..] == [];
    }
  }

  /** Toggling a selected id twice moves it to the end. */
  lemma ToggleTwicePresent(s: seq<int>, id: int)
    requires id in s
    ensures Toggled(Toggled(s, id), id) == Remove(s, id) + [id]
  {
  }

  /** Toggling ids that are all new, each once, appends them in order. */
  lemma {:induction false} ToggleAllAppendsFresh(s: seq<int>, ids: seq<int>)
    requires NoDup(ids)
    requires forall x :: x in ids ==> x !in s
    ensures ToggleAll(s, ids) == s + ids
  {
    if ids != [] {
      var n := |ids| - 1;
      var front := ids[..n];
      assert NoDup(front);
      assert forall x :: x in front ==> x in ids;
      ToggleAllAppendsFresh(s, front);
      assert ids[n] !in front;
      assert ids[n] !in s + front;
      assert s + front + [ids[n]] == s + ids;
    }
  }

  /** Toggling the first `k` ids of a duplicate-free selection, in order,
      leaves exactly the rest of it. */
  lemma {:induction false} ToggleAllOwnPrefix(s: seq<int>, k: nat)
    requires NoDup(s) && k <= |s|
    ensures ToggleAll(s, s[..k]) == s[k..]
  {
    if k > 0 {
      assert s[..k][..k - 1] == s[..k - 1];
      ToggleAllOwnPrefix(s, k - 1);
      var t := s[k - 1..];
      assert t[0] == s[k - 1] && t[1..] == s[k..];
      assert t[0] !in t[1..] by {
        forall j | k <= j < |s| ensures s[j] != s[k - 1] {
        }
      }
      assert t == [t[0]] + t[1..];
      RemoveAppend([t[0]], t[1..], t[0]);
      assert Remove([t[0]], t[0]) == [] by {
        assert [t[0]][1..] == [];
      }
    }
  }
}
