// A stable sort by an integer key, as Python's list.sort and JavaScript's Array.sort do it.
module Sorting {

  // x goes after every element whose key is not greater.
  function Insert<T>(s: seq<T>, x: T, key: T -> int): seq<T>
  {
    if s == [] || key(s[|s| - 1]) <= key(x) then s + [x]
    else Insert(s[..|s| - 1], x, key) + [s[|s| - 1]]
  }

  function StableSort<T>(s: seq<T>, key: T -> int): seq<T>
  {
    if s == [] then [] else Insert(StableSort(s[..|s| - 1], key), s[|s| - 1], key)
  }

  predicate Sorted<T>(s: seq<T>, key: T -> int)
  {
    forall i, j :: 0 <= i < j < |s| ==> key(s[i]) <= key(s[j])
  }

  function Filter<T>(s: seq<T>, keep: T -> bool): seq<T>
  {
    if s == [] then []
    else if keep(s[|s| - 1]) then Filter(s[..|s| - 1], keep) + [s[|s| - 1]]
    else Filter(s[..|s| - 1], keep)
  }

  lemma {:induction false} FilterMember<T>(s: seq<T>, keep: T -> bool, x: T)
    requires x in Filter(s, keep)
    ensures x in s && keep(x)
  {
    var front, last := s[..|s| - 1], s[|s| - 1];
    assert s == front + [last];
    if x in Filter(front, keep) {
      FilterMember(front, keep, x);
    }
  }

  lemma FilterSnoc<T>(s: seq<T>, x: T, keep: T -> bool)
    ensures Filter(s + [x], keep) == if keep(x) then Filter(s, keep) + [x] else Filter(s, keep)
  {
  }

  lemma {:induction false} FilterConcat<T>(s: seq<T>, t: seq<T>, keep: T -> bool)
    ensures Filter(s + t, keep) == Filter(s, keep) + Filter(t, keep)
  {
    if t == [] {
      assert s + t == s;
    } else {
      var front, last := t[..|t| - 1], t[|t| - 1];
      assert s + t == (s + front) + [last];
      FilterSnoc(s + front, last, keep);
      FilterConcat(s, front, keep);
    }
  }

  lemma {:induction false} FilterAll<T>(s: seq<T>, keep: T -> bool)
    requires forall x :: x in s ==> keep(x)
    ensures Filter(s, keep) == s
  {
    if s == [] {
    } else {
      assert s == s[..|s| - 1] + [s[|s| - 1]];
      FilterAll(s[..|s| - 1], keep);
    }
  }

  lemma {:induction false} FilterNone<T>(s: seq<T>, keep: T -> bool)
    requires forall x :: x in s ==> !keep(x)
    ensures Filter(s, keep) == []
  {
    if s == [] {
    } else {
      assert s == s[..|s| - 1] + [s[|s| - 1]];
      FilterNone(s[..|s| - 1], keep);
    }
  }

  lemma SortedSnoc<T>(s: seq<T>, x: T, key: T -> int)
    requires Sorted(s, key) && forall y :: y in s ==> key(y) <= key(x)
    ensures Sorted(s + [x], key)
  {
  }

  lemma LastIsLargest<T>(s: seq<T>, y: T, key: T -> int)
    requires Sorted(s, key) && y in s
    ensures key(y) <= key(s[|s| - 1])
  {
  }

  lemma {:induction false} InsertMembers<T>(s: seq<T>, x: T, key: T -> int)
    ensures multiset(Insert(s, x, key)) == multiset(s) + multiset{x}
  {
    if s == [] || key(s[|s| - 1]) <= key(x) {
    } else {
      InsertMembers(s[..|s| - 1], x, key);
      assert s == s[..|s| - 1] + [s[|s| - 1]];
    }
  }

  lemma InsertedOrThere<T>(s: seq<T>, x: T, y: T, key: T -> int)
    requires y in Insert(s, x, key)
    ensures y in s || y == x
  {
  }

  lemma {:induction false} InsertSorted<T>(s: seq<T>, x: T, key: T -> int)
    requires Sorted(s, key)
    ensures Sorted(Insert(s, x, key), key)
  {
    if s == [] || key(s[|s| - 1]) <= key(x) {
      forall y | y in s ensures key(y) <= key(x) {
        LastIsLargest(s, y, key);
      }
      SortedSnoc(s, x, key);
    } else {
      var front, last := s[..|s| - 1], s[|s| - 1];
      InsertSorted(front, x, key);
      forall y | y in Insert(front, x, key) ensures key(y) <= key(last) {
        InsertedOrThere(front, x, y, key);
        if y in front {
          LastIsLargest(s, y, key);
        }
      }
      SortedSnoc(Insert(front, x, key), last, key);
    }
  }

  lemma {:induction false} SortSorts<T>(s: seq<T>, key: T -> int)
    ensures Sorted(StableSort(s, key), key)
    ensures multiset(StableSort(s, key)) == multiset(s)
  {
    if s == [] {
    } else {
      var front, last := s[..|s| - 1], s[|s| - 1];
      SortSorts(front, key);
      InsertSorted(StableSort(front, key), last, key);
      InsertMembers(StableSort(front, key), last, key);
      assert s == front + [last];
    }
  }

  lemma {:induction false} SortOfSorted<T>(s: seq<T>, key: T -> int)
    requires Sorted(s, key)
    ensures StableSort(s, key) == s
  {
    if s == [] {
    } else {
      SortOfSorted(s[..|s| - 1], key);
      assert s == s[..|s| - 1] + [s[|s| - 1]];
    }
  }

  // Inserting before a larger last element.
  lemma InsertBefore<T>(s: seq<T>, last: T, x: T, key: T -> int)
    requires key(last) > key(x)
    ensures Insert(s + [last], x, key) == Insert(s, x, key) + [last]
  {
  }

  // x belongs at the end of s, and so at the end of any selection from s.
  lemma InsertLastFilter<T>(s: seq<T>, x: T, key: T -> int, keep: T -> bool)
    requires Sorted(s, key) && (s == [] || key(s[|s| - 1]) <= key(x))
    ensures Insert(Filter(s, keep), x, key) == Filter(s, keep) + [x]
  {
  }

  lemma {:induction false} InsertFilter<T>(s: seq<T>, x: T, key: T -> int, keep: T -> bool)
    requires Sorted(s, key)
    ensures Filter(Insert(s, x, key), keep)
            == if keep(x) then Insert(Filter(s, keep), x, key) else Filter(s, keep)
  {
    if s == [] || key(s[|s| - 1]) <= key(x) {
      FilterSnoc(s, x, keep);
      InsertLastFilter(s, x, key, keep);
    } else {
      var front, last := s[..|s| - 1], s[|s| - 1];
      InsertFilter(front, x, key, keep);
      FilterSnoc(Insert(front, x, key), last, keep);
      InsertBefore(Filter(front, keep), last, x, key);
    }
  }

  // Stability: any selection of the sorted elements is the sorted selection.
  lemma {:induction false} SortFilter<T>(s: seq<T>, key: T -> int, keep: T -> bool)
    ensures Filter(StableSort(s, key), keep) == StableSort(Filter(s, keep), key)
  {
    if s == [] {
    } else {
      var front, last := s[..|s| - 1], s[|s| - 1];
      var sorted := StableSort(front, key);
      SortFilter(front, key, keep);
      SortedOfSort(front, key);
      InsertFilter(sorted, last, key, keep);
      SortSnoc(Filter(front, keep), last, key);
    }
  }

  lemma SortedOfSort<T>(s: seq<T>, key: T -> int)
    ensures Sorted(StableSort(s, key), key)
  {
    SortSorts(s, key);
  }

  lemma SortSnoc<T>(s: seq<T>, x: T, key: T -> int)
    ensures StableSort(s + [x], key) == Insert(StableSort(s, key), x, key)
  {
  }

  // Number of leading elements whose key is below the limit.
  function Below<T>(s: seq<T>, key: T -> int, limit: int): (k: nat)
    ensures k <= |s|
    ensures forall i :: 0 <= i < k ==> key(s[i]) < limit
    ensures k < |s| ==> key(s[k]) >= limit
    decreases |s|
  {
    if s == [] || key(s[0]) >= limit then 0
    else
      var k := Below(s[1..], key, limit);
      assert forall i :: 0 < i < k + 1 ==> s[i] == s[1..][i - 1];
      k + 1
  }

  // In a sorted list, selecting by a limit takes a prefix.
  lemma SelectionIsPrefix<T>(s: seq<T>, key: T -> int, limit: int, keep: T -> bool)
    requires Sorted(s, key) && forall x :: keep(x) <==> key(x) < limit
    ensures Filter(s, keep) == s[..Below(s, key, limit)]
  {
    var k := Below(s, key, limit);
    assert s == s[..k] + s[k..];
    FilterConcat(s[..k], s[k..], keep);
    FilterAll(s[..k], keep);
    RestIsAbove(s, key, k);
    FilterNone(s[k..], keep);
  }

  lemma RestIsAbove<T>(s: seq<T>, key: T -> int, k: nat)
    requires Sorted(s, key) && k <= |s|
    ensures forall x :: x in s[k..] ==> key(s[k]) <= key(x)
  {
  }
}
