/** The completion toggles of the topic and project handlers: an index
    present in a stage's list is removed (`list.remove`, first occurrence)
    and reported unchecked; an absent one is appended and reported checked. */
module Toggle {
  import opened Util

  datatype Action = Checked | Unchecked

  /** Position of the first occurrence of `x` in `s`. */
  function FirstIndex(s: seq<int>, x: int): (i: nat)
    requires x in s
    ensures i < |s| && s[i] == x && x !in s[..i]
  {
    if s[0] == x then 0
    else
      var j := FirstIndex(s[1..], x);
      assert s[..j + 1] == [s[0]] + s[1..][..j];
      j + 1
  }

  /** `list.remove(x)`: drops the first occurrence of `x` and keeps the
      rest in order. */
  function RemoveFirst(s: seq<int>, x: int): (r: seq<int>)
    requires x in s
    ensures exists i :: 0 <= i < |s| && s[i] == x && x !in s[..i] && r == s[..i] + s[i + 1..]
    ensures multiset(r) == multiset(s) - multiset{x}
  {
    var i := FirstIndex(s, x);
    assert s == s[..i] + [x] + s[i + 1..];
    s[..i] + s[i + 1..]
  }

  /** The list and the action after toggling index `x`: checked, with `x`
      appended, exactly when it was absent; otherwise unchecked, with its
      first occurrence removed. */
  function Toggled(list: seq<int>, x: int): (r: (seq<int>, Action))
    ensures r.1 == Checked <==> x !in list
    ensures r.1 == Checked ==> r.0 == list + [x]
    ensures r.1 == Unchecked ==> |r.0| == |list| - 1 && x in list
  {
    if x in list then (RemoveFirst(list, x), Unchecked) else (list + [x], Checked)
  }

  /** Toggling changes the count of `x` by one, up when it was absent and
      down when present, and no other element's count. */
  lemma ToggleCounts(list: seq<int>, x: int)
    ensures var after := Toggled(list, x).0;
      && multiset(after)[x] == (if x in list then multiset(list)[x] - 1 else 1)
      && forall y :: y != x ==> multiset(after)[y] == multiset(list)[y]
  {
  }

  /** On a duplicate-free list a toggle flips the membership of `x`, keeps
      every other index's membership and keeps the list duplicate-free. */
  lemma ToggleFlips(list: seq<int>, x: int)
    requires NoDup(list)
    ensures var after := Toggled(list, x).0;
      && (x in after <==> x !in list)
      && (forall y :: y != x ==> (y in after <==> y in list))
      && NoDup(after)
  {
    var after := Toggled(list, x).0;
    ToggleCounts(list, x);
    if x in list {
      RemoveKeepsDistinct(list, x);
      DistinctCountsOne(list, x);
    }
    forall y ensures y in after <==> y in multiset(after) {
    }
    forall y ensures y in list <==> y in multiset(list) {
    }
  }

  /** Removing an element from a duplicate-free list leaves it
      duplicate-free. */
  lemma RemoveKeepsDistinct(list: seq<int>, x: int)
    requires NoDup(list) && x in list
    ensures NoDup(RemoveFirst(list, x))
  {
    var i := FirstIndex(list, x);
    var after := RemoveFirst(list, x);
    assert after == list[..i] + list[i + 1..];
    forall j | 0 <= j < |after| ensures after[j] == list[if j < i then j else j + 1] {
      if j < i {
        assert after[j] == list[..i][j];
      } else {
        assert after[j] == list[i + 1..][j - i];
      }
    }
  }

  /** In a duplicate-free list every element occurs once. */
  lemma {:induction false} DistinctCountsOne(list: seq<int>, x: int)
    requires NoDup(list) && x in list
    ensures multiset(list)[x] == 1
  {
    if list[0] == x {
      assert list == [x] + list[1..];
      assert x !in list[1..];
    } else {
      assert list == [list[0]] + list[1..];
      DistinctCountsOne(list[1..], x);
    }
  }

  /** Toggling the same index twice on a duplicate-free list restores the
      membership of every index, reports the opposite actions and stays
      duplicate-free; when the index was absent it restores the list
      exactly. */
  lemma {:induction false} ToggleTwice(list: seq<int>, x: int)
    requires NoDup(list)
    ensures var (once, a1) := Toggled(list, x);
      var (twice, a2) := Toggled(once, x);
      && a1 != a2
      && (forall y :: y in twice <==> y in list)
      && NoDup(twice)
      && (x !in list ==> twice == list)
  {
    var once := Toggled(list, x).0;
    ToggleFlips(list, x);
    ToggleFlips(once, x);
    if x !in list {
      assert x in once;
      RemoveLast(list, x);
    }
  }

  /** Removing the first occurrence of `x` from `list + [x]`, when `x` is not
      in `list`, gives back `list`. */
  lemma RemoveLast(list: seq<int>, x: int)
    requires x !in list
    ensures RemoveFirst(list + [x], x) == list
  {
    var s := list + [x];
    assert s[..|list|] == list;
    assert FirstIndex(s, x) == |list|;
  }

  /** `completed_topics` or `completed_projects` after toggling index `x` of
      stage `stage`: a stage without a list starts with an empty one. */
  function ToggleIn(lists: map<int, seq<int>>, stage: int, x: int): (r: (map<int, seq<int>>, Action))
    ensures stage in r.0 && r.0.Keys == lists.Keys + {stage}
    ensures (r.0[stage], r.1) == Toggled(if stage in lists then lists[stage] else [], x)
    ensures forall k :: k in lists && k != stage ==> r.0[k] == lists[k]
  {
    var list := if stage in lists then lists[stage] else [];
    var (after, action) := Toggled(list, x);
    (lists[stage := after], action)
  }
}
