/**
 * The list operations the dashboard queries rely on: a sort by a
 * descending real key (Python's `list.sort(key=...)`, SQL `ORDER BY ... DESC`),
 * an order-keeping filter, and the latest timestamp of a group of rows
 * (SQL `max(collected_at)`).
 */
module Ordering {
  import opened Wrappers

  /** `s` is in non-increasing order of `key`. */
  predicate SortedDesc<T>(s: seq<T>, key: T -> real) {
    forall i, j :: 0 <= i < j < |s| ==> key(s[i]) >= key(s[j])
  }

  /** Inserts `x` after every element whose key is at least its own. */
  function Insert<T>(s: seq<T>, x: T, key: T -> real): (r: seq<T>)
    ensures |r| == |s| + 1
    ensures r[0] == x || (s != [] && r[0] == s[0])
    decreases |s|
  {
    if s == [] then [x]
    else if key(x) > key(s[0]) then [x] + s
    else [s[0]] + Insert(s[1..], x, key)
  }

  /** Insertion sort, descending by `key`. */
  function SortDesc<T>(s: seq<T>, key: T -> real): seq<T>
    decreases |s|
  {
    if s == [] then [] else Insert(SortDesc(s[..|s| - 1], key), s[|s| - 1], key)
  }

  lemma {:induction false} InsertPermutation<T>(s: seq<T>, x: T, key: T -> real)
    ensures multiset(Insert(s, x, key)) == multiset(s) + multiset{x}
    decreases |s|
  {
    if s != [] && key(x) <= key(s[0]) {
      InsertPermutation(s[1..], x, key);
      assert s == [s[0]] + s[1..];
    }
  }

  /** A sorted list stays sorted behind a head whose key is at least that of the list's first element. */
  lemma SortedCons<T>(h: T, t: seq<T>, key: T -> real)
    requires SortedDesc(t, key)
    requires t != [] ==> key(h) >= key(t[0])
    ensures SortedDesc([h] + t, key)
  {
    var r := [h] + t;
    forall i, j | 0 <= i < j < |r|
      ensures key(r[i]) >= key(r[j])
    {
      if i == 0 {
        assert r[j] == t[j - 1];
        assert key(t[0]) >= key(t[j - 1]) || j - 1 == 0;
      } else {
        assert r[i] == t[i - 1] && r[j] == t[j - 1];
      }
    }
  }

  lemma {:induction false} InsertSorted<T>(s: seq<T>, x: T, key: T -> real)
    requires SortedDesc(s, key)
    ensures SortedDesc(Insert(s, x, key), key)
    decreases |s|
  {
    if s == [] {
    } else if key(x) > key(s[0]) {
      SortedCons(x, s, key);
    } else {
      var tail := s[1..];
      assert SortedDesc(tail, key) by {
        forall i, j | 0 <= i < j < |tail|
          ensures key(tail[i]) >= key(tail[j])
        {
          assert tail[i] == s[i + 1] && tail[j] == s[j + 1];
        }
      }
      InsertSorted(tail, x, key);
      var rest := Insert(tail, x, key);
      assert key(s[0]) >= key(rest[0]) by {
        if rest[0] != x {
          assert rest[0] == s[1];
        }
      }
      SortedCons(s[0], rest, key);
    }
  }

  /** The sort orders its input and is a permutation of it. */
  lemma {:induction false} SortDescSpec<T>(s: seq<T>, key: T -> real)
    ensures SortedDesc(SortDesc(s, key), key)
    ensures multiset(SortDesc(s, key)) == multiset(s)
    decreases |s|
  {
    if s != [] {
      var init := s[..|s| - 1];
      SortDescSpec(init, key);
      InsertSorted(SortDesc(init, key), s[|s| - 1], key);
      InsertPermutation(SortDesc(init, key), s[|s| - 1], key);
      assert s == init + [s[|s| - 1]];
    }
  }

  /** The elements of `s` satisfying `p`, in order. */
  function Filter<T>(s: seq<T>, p: T -> bool): (r: seq<T>)
    ensures |r| <= |s|
    decreases |s|
  {
    if s == [] then []
    else
      var n := |s| - 1;
      var init := Filter(s[..n], p);
      init + (if p(s[n]) then [s[n]] else [])
  }

  /** The filter keeps exactly the elements of `s` that satisfy `p`. */
  lemma {:induction false} FilterMembers<T>(s: seq<T>, p: T -> bool)
    ensures forall x :: x in Filter(s, p) <==> x in s && p(x)
    decreases |s|
  {
    if s != [] {
      var n := |s| - 1;
      var init := s[..n];
      FilterMembers(init, p);
      assert Filter(s, p) == Filter(init, p) + (if p(s[n]) then [s[n]] else []);
      assert s == init + [s[n]];
      forall x
        ensures x in Filter(s, p) <==> x in s && p(x)
      {
        assert x in s <==> x in init || x == s[n];
      }
    }
  }

  /** `p` holds of every element before one it holds of. */
  ghost predicate ClosedBefore<T>(s: seq<T>, p: T -> bool) {
    forall i, j :: 0 <= i < j < |s| && p(s[j]) ==> p(s[i])
  }

  lemma ClosedBeforeInit<T>(s: seq<T>, p: T -> bool)
    requires |s| > 0 && ClosedBefore(s, p)
    ensures ClosedBefore(s[..|s| - 1], p)
  {
    var init := s[..|s| - 1];
    forall i, j | 0 <= i < j < |init| && p(init[j])
      ensures p(init[i])
    {
      assert init[i] == s[i] && init[j] == s[j];
    }
  }

  /**
   * When every element before one satisfying `p` satisfies it too, the
   * filtered list is a prefix of `s`, and no element after that prefix satisfies `p`.
   */
  lemma {:induction false} FilterClosedPrefix<T>(s: seq<T>, p: T -> bool)
    requires ClosedBefore(s, p)
    ensures var r := Filter(s, p);
      r == s[..|r|] && forall i :: |r| <= i < |s| ==> !p(s[i])
    decreases |s|
  {
    if s != [] {
      var n := |s| - 1;
      if p(s[n]) {
        forall i | 0 <= i < |s|
          ensures p(s[i])
        {
          assert i < n ==> p(s[i]);
        }
        FilterAll(s, p);
      } else {
        ClosedBeforeInit(s, p);
        var init := s[..n];
        FilterClosedPrefix(init, p);
        var before := Filter(init, p);
        assert init[..|before|] == s[..|before|];
        forall i | |before| <= i < n
          ensures !p(s[i])
        {
          assert init[i] == s[i];
        }
        FilterSkipLast(s, p);
      }
    }
  }

  /** A last element that fails `p` adds nothing to the filter, so the prefix shape carries over. */
  lemma FilterSkipLast<T>(s: seq<T>, p: T -> bool)
    requires s != [] && !p(s[|s| - 1])
    requires var before := Filter(s[..|s| - 1], p);
      before == s[..|before|] && forall i :: |before| <= i < |s| - 1 ==> !p(s[i])
    ensures var r := Filter(s, p);
      r == s[..|r|] && forall i :: |r| <= i < |s| ==> !p(s[i])
  {
    assert Filter(s, p) == Filter(s[..|s| - 1], p);
  }

  /** Filtering by a predicate every element satisfies keeps the whole list. */
  lemma {:induction false} FilterAll<T>(s: seq<T>, p: T -> bool)
    requires forall i :: 0 <= i < |s| ==> p(s[i])
    ensures Filter(s, p) == s
    decreases |s|
  {
    if s != [] {
      var n := |s| - 1;
      assert forall i :: 0 <= i < n ==> s[..n][i] == s[i];
      FilterAll(s[..n], p);
      assert s == s[..n] + [s[n]];
    }
  }

  /** The largest `time` among the rows in the group, if the group is not empty. */
  function LatestAt<T>(rows: seq<T>, inGroup: T -> bool, time: T -> int): Option<int>
    decreases |rows|
  {
    if rows == [] then None
    else
      var n := |rows| - 1;
      var init := LatestAt(rows[..n], inGroup, time);
      if !inGroup(rows[n]) then init
      else if init.Some? && init.value >= time(rows[n]) then init
      else Some(time(rows[n]))
  }

  /** The latest time exists exactly when the group is not empty, and it is the largest time of some row in it. */
  lemma {:induction false} LatestAtSpec<T>(rows: seq<T>, inGroup: T -> bool, time: T -> int)
    ensures var latest := LatestAt(rows, inGroup, time);
      (latest.None? <==> forall i :: 0 <= i < |rows| ==> !inGroup(rows[i]))
      && (latest.Some? ==> exists i :: 0 <= i < |rows| && inGroup(rows[i]) && time(rows[i]) == latest.value)
      && (latest.Some? ==> forall i :: 0 <= i < |rows| && inGroup(rows[i]) ==> time(rows[i]) <= latest.value)
    decreases |rows|
  {
    if rows != [] {
      var n := |rows| - 1;
      LatestAtSpec(rows[..n], inGroup, time);
      assert forall i :: 0 <= i < n ==> rows[..n][i] == rows[i];
      var init := LatestAt(rows[..n], inGroup, time);
      if init.Some? {
        var i :| 0 <= i < n && inGroup(rows[..n][i]) && time(rows[..n][i]) == init.value;
        assert inGroup(rows[i]) && time(rows[i]) == init.value;
      }
    }
  }

  /** The first element of `s` satisfying `p`. */
  function First<T>(s: seq<T>, p: T -> bool): (found: Option<T>)
    ensures found.Some? ==> found.value in s && p(found.value)
    ensures found.None? ==> forall i :: 0 <= i < |s| ==> !p(s[i])
    decreases |s|
  {
    if s == [] then None
    else if p(s[0]) then Some(s[0])
    else First(s[1..], p)
  }
}
