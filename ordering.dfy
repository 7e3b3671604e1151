/** Ordering a sequence by an integer key, largest first. For the ORM's
    `orderBy: { key: 'desc' }` only "non-increasing and a permutation of the
    input" is relied on, since the database leaves the order among equal keys
    unspecified. For the frontend's stable sort the head is pinned as well:
    it is the earliest element with the largest key
    (`FirstIsEarliestLargest`). */
module Ordering {
  /** Non-increasing `key` from front to back. */
  ghost predicate SortedDesc<T>(s: seq<T>, key: T -> int) {
    forall i, j :: 0 <= i < j < |s| ==> key(s[i]) >= key(s[j])
  }

  /** Inserts `x` into a non-increasing sequence, before the first element
      whose key is not larger. */
  function InsertDesc<T>(x: T, s: seq<T>, key: T -> int): (r: seq<T>)
    requires SortedDesc(s, key)
    ensures SortedDesc(r, key)
    ensures multiset(r) == multiset(s) + multiset{x}
    decreases |s|
  {
    if s == [] || key(s[0]) <= key(x) then
      ConsSorted(x, s, key);
      [x] + s
    else
      var rest := InsertDesc(x, s[1..], key);
      assert s == [s[0]] + s[1..];
      var pool := s[1..] + [x];
      assert forall k :: 0 <= k < |pool| ==> key(pool[k]) <= key(s[0]);
      AtMostAfterPermutation(rest, pool, key, key(s[0]));
      ConsSorted(s[0], rest, key);
      [s[0]] + rest
  }

  /** A bound on every key survives a reordering. */
  lemma AtMostAfterPermutation<T>(s: seq<T>, t: seq<T>, key: T -> int, bound: int)
    requires multiset(s) == multiset(t)
    requires forall k :: 0 <= k < |t| ==> key(t[k]) <= bound
    ensures forall k :: 0 <= k < |s| ==> key(s[k]) <= bound
  {
    forall k | 0 <= k < |s|
      ensures key(s[k]) <= bound
    {
      var j := SamePosition(s, t, k);
    }
  }

  /** An element no smaller than anything in a sorted sequence can go first. */
  lemma ConsSorted<T>(y: T, s: seq<T>, key: T -> int)
    requires SortedDesc(s, key)
    requires forall k :: 0 <= k < |s| ==> key(s[k]) <= key(y)
    ensures SortedDesc([y] + s, key)
  {
    var r := [y] + s;
    forall i, j | 0 <= i < j < |r|
      ensures key(r[i]) >= key(r[j])
    {
      if i > 0 {
        assert r[i] == s[i - 1] && r[j] == s[j - 1];
      }
    }
  }

  /** `orderBy: { key: 'desc' }`: the same elements, largest key first. */
  function SortDesc<T>(s: seq<T>, key: T -> int): (r: seq<T>)
    ensures SortedDesc(r, key)
    ensures multiset(r) == multiset(s)
    ensures |r| == |s|
    decreases |s|
  {
    if s == [] then []
    else
      assert s == [s[0]] + s[1..];
      InsertDesc(s[0], SortDesc(s[1..], key), key)
  }

  /** The head after an insertion: `x` when nothing in front is larger. */
  lemma InsertDescHead<T>(x: T, s: seq<T>, key: T -> int)
    requires SortedDesc(s, key)
    ensures |InsertDesc(x, s, key)| == |s| + 1
    ensures InsertDesc(x, s, key)[0] == if s == [] || key(s[0]) <= key(x) then x else s[0]
  {
    assert |multiset(InsertDesc(x, s, key))| == |s| + 1;
  }

  /** The element that ends up first when sorting, computed from the back:
      the first element wins unless something after it is larger. */
  function HeadDesc<T>(s: seq<T>, key: T -> int): T
    requires s != []
    decreases |s|
  {
    if |s| == 1 then s[0]
    else
      var h := HeadDesc(s[1..], key);
      if key(h) <= key(s[0]) then s[0] else h
  }

  /** `HeadDesc` is the head of the sorted sequence. */
  lemma {:induction false} SortDescHead<T>(s: seq<T>, key: T -> int)
    requires s != []
    ensures SortDesc(s, key)[0] == HeadDesc(s, key)
    decreases |s|
  {
    if |s| > 1 {
      SortDescHead(s[1..], key);
      InsertDescHead(s[0], SortDesc(s[1..], key), key);
    }
  }

  /** The first element of the sorted sequence is the earliest element of
      the input with the largest key: ties keep their input order at the
      front. */
  lemma FirstIsEarliestLargest<T>(s: seq<T>, key: T -> int) returns (m: nat)
    requires s != []
    ensures m < |s| && SortDesc(s, key)[0] == s[m]
    ensures forall k :: 0 <= k < |s| ==> key(s[k]) <= key(s[m])
    ensures forall k :: 0 <= k < m ==> key(s[k]) < key(s[m])
  {
    SortDescHead(s, key);
    m := HeadIsEarliestLargest(s, key);
  }

  /** `HeadDesc` picks the earliest element with the largest key. */
  lemma {:induction false} HeadIsEarliestLargest<T>(s: seq<T>, key: T -> int) returns (m: nat)
    requires s != []
    ensures m < |s| && HeadDesc(s, key) == s[m]
    ensures forall k :: 0 <= k < |s| ==> key(s[k]) <= key(s[m])
    ensures forall k :: 0 <= k < m ==> key(s[k]) < key(s[m])
    decreases |s|
  {
    if |s| == 1 {
      m := 0;
      return;
    }
    var rest := s[1..];
    var m' := HeadIsEarliestLargest(rest, key);
    assert rest[m'] == s[1 + m'];
    if key(rest[m']) <= key(s[0]) {
      m := 0;
      ConsBound(s, key, key(s[0]));
    } else {
      m := 1 + m';
      ConsBound(s, key, key(s[m]));
      ConsBelow(s, key, m, key(s[m]));
    }
  }

  /** A bound on the head and on the tail is a bound on the whole. */
  lemma ConsBound<T>(s: seq<T>, key: T -> int, b: int)
    requires s != [] && key(s[0]) <= b
    requires forall k :: 0 <= k < |s[1..]| ==> key(s[1..][k]) <= b
    ensures forall k :: 0 <= k < |s| ==> key(s[k]) <= b
  {
    forall k | 0 < k < |s|
      ensures key(s[k]) <= b
    {
      assert s[k] == s[1..][k - 1];
    }
  }

  /** A strict bound on the head and on the tail's first `m - 1` elements is
      a strict bound on the first `m`. */
  lemma ConsBelow<T>(s: seq<T>, key: T -> int, m: nat, b: int)
    requires 0 < m <= |s| && key(s[0]) < b
    requires forall k :: 0 <= k < m - 1 ==> key(s[1..][k]) < b
    ensures forall k :: 0 <= k < m ==> key(s[k]) < b
  {
    forall k | 0 < k < m
      ensures key(s[k]) < b
    {
      assert s[k] == s[1..][k - 1];
    }
  }

  /** An element of one of two sequences with the same elements sits at some
      position of the other. */
  lemma SamePosition<T>(s: seq<T>, t: seq<T>, i: nat) returns (k: nat)
    requires multiset(s) == multiset(t) && i < |s|
    ensures k < |t| && t[k] == s[i]
  {
    assert s[i] in multiset(t);
    k :| 0 <= k < |t| && t[k] == s[i];
  }
}
