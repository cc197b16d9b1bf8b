/** Underscore's `sortedIndex`, and `indexOf` and `lastIndexOf` built on one search loop. */
module SortedIndex {
  predicate Sorted<T>(a: seq<T>, key: T -> int) {
    forall i, j :: 0 <= i < j < |a| ==> key(a[i]) <= key(a[j])
  }

  /** Everything in front of i is smaller than the value, and nothing from i on is. */
  predicate LeftmostAt<T>(a: seq<T>, key: T -> int, value: int, i: int) {
    0 <= i <= |a| && (forall k :: 0 <= k < i ==> key(a[k]) < value) && (forall k :: i <= k < |a| ==> value <= key(a[k]))
  }

  /** There is only one such place. */
  lemma LeftmostIsUnique<T>(a: seq<T>, key: T -> int, value: int, i: int, j: int)
    requires LeftmostAt(a, key, value, i) && LeftmostAt(a, key, value, j)
    ensures i == j
  {
    var low := if i < j then i else j;
    if low < |a| {
      var k := key(a[low]);
      assert (k < value && low < i && low < j) || (value <= k && i <= low && j <= low);
    }
  }

  /** Inserting there keeps the order, and no place further left does. */
  lemma InsertKeepsOrder<T>(a: seq<T>, key: T -> int, x: T, i: int, j: int)
    requires Sorted(a, key) && LeftmostAt(a, key, key(x), i) && 0 <= j <= |a|
    ensures Sorted(a[..i] + [x] + a[i..], key)
    ensures j < i ==> !Sorted(a[..j] + [x] + a[j..], key)
  {
    var s := a[..i] + [x] + a[i..];
    assert forall k :: 0 <= k < |s| ==> s[k] == if k < i then a[k] else if k == i then x else a[k - 1];
    if j < i {
      var t := a[..j] + [x] + a[j..];
      assert t[j] == x && t[j + 1] == a[j];
    }
  }

  method FindSortedIndex<T>(a: seq<T>, obj: T, iteratee: T -> int) returns (low: nat)
    requires Sorted(a, iteratee)
    ensures LeftmostAt(a, iteratee, iteratee(obj), low)
  {
    var value := iteratee(obj);
    var high := |a|;
    low := 0;
    while low < high
      invariant 0 <= low <= high <= |a|
      invariant forall k :: 0 <= k < low ==> iteratee(a[k]) < value
      invariant forall k :: high <= k < |a| ==> value <= iteratee(a[k])
    {
      var mid := (low + high) / 2;
      if iteratee(a[mid]) < value {
        low := mid + 1;
      } else {
        high := mid;
      }
    }
  }

  /** The first place of the item from index i on, or -1. */
  predicate FirstAt(a: seq<int>, item: int, i: int, r: int) {
    if r == -1 then forall k :: 0 <= k < |a| && i <= k ==> a[k] != item
    else 0 <= r < |a| && i <= r && a[r] == item && forall k :: 0 <= k < r && i <= k ==> a[k] != item
  }

  /** The last place of the item in front of index n, or -1. */
  predicate LastAt(a: seq<int>, item: int, n: int, r: int) {
    if r == -1 then forall k :: 0 <= k < |a| && k < n ==> a[k] != item
    else 0 <= r < |a| && r < n && a[r] == item && forall k :: r < k < |a| && k < n ==> a[k] != item
  }

  /** The third argument: nothing, a number to start from, or a claim that the array is sorted. */
  datatype From = Anywhere | Index(idx: int) | IsSorted

  /** Where a search forwards starts; a negative number counts from the end. */
  function Start(n: nat, from: From): int {
    if from.Index? then
      if from.idx >= 0 then from.idx else if from.idx + n > 0 then from.idx + n else 0
    else 0
  }

  /** In front of which index a search backwards starts. */
  function Bound(n: nat, from: From): int {
    if from.Index? then
      if from.idx >= 0 then if from.idx + 1 < n then from.idx + 1 else n else from.idx + n + 1
    else n
  }

  /** With the claim that the array is sorted, the answer of the binary search is that of the linear one. */
  method IndexOf(a: seq<int>, item: int, from: From) returns (r: int)
    requires from.IsSorted? ==> Sorted(a, x => x)
    ensures FirstAt(a, item, Start(|a|, from), r)
  {
    if from.IsSorted? && |a| > 0 {
      var idx := FindSortedIndex(a, item, x => x);
      return if idx < |a| && a[idx] == item then idx else -1;
    }
    var idx := Start(|a|, from);
    while 0 <= idx < |a|
      invariant Start(|a|, from) <= idx
      invariant forall k :: Start(|a|, from) <= k < idx && k < |a| ==> a[k] != item
      decreases |a| - idx
    {
      if a[idx] == item {
        return idx;
      }
      idx := idx + 1;
    }
    return -1;
  }

  method LastIndexOf(a: seq<int>, item: int, from: From) returns (r: int)
    ensures LastAt(a, item, Bound(|a|, from), r)
  {
    var length := Bound(|a|, from);
    var idx := length - 1;
    while idx >= 0 && idx < length
      invariant -1 <= idx < length || idx == length - 1
      invariant forall k :: idx < k < |a| && k < length ==> a[k] != item
    {
      if a[idx] == item {
        return idx;
      }
      idx := idx - 1;
    }
    return -1;
  }

  /** Either search has one answer only. */
  lemma AnswersAreUnique(a: seq<int>, item: int, i: int, r: int, s: int)
    ensures FirstAt(a, item, i, r) && FirstAt(a, item, i, s) ==> r == s
    ensures LastAt(a, item, i, r) && LastAt(a, item, i, s) ==> r == s
  {
    var x, y := if 0 <= r < |a| then a[r] else item, if 0 <= s < |a| then a[s] else item;
  }
}
