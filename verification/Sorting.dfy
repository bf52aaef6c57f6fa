/** The standard library's sort and its searches in sorted ranges. */
module Sorting {

  ghost predicate SortedBy<T>(s: seq<T>, key: T -> int) {
    forall i, j | 0 <= i < j < |s| :: key(s[i]) <= key(s[j])
  }

  function Insert<T>(s: seq<T>, x: T, key: T -> int): (r: seq<T>)
    ensures |r| == |s| + 1
  {
    if s == [] || key(x) <= key(s[0]) then [x] + s else [s[0]] + Insert(s[1..], x, key)
  }

  function Sort<T>(s: seq<T>, key: T -> int): (r: seq<T>)
    ensures |r| == |s|
  {
    if s == [] then [] else Insert(Sort(s[1..], key), s[0], key)
  }

  lemma {:induction false} InsertAdds<T>(s: seq<T>, x: T, key: T -> int)
    ensures multiset(Insert(s, x, key)) == multiset(s) + multiset{x}
  {
    if s != [] {
      assert s == [s[0]] + s[1..];
      if key(x) > key(s[0]) {
        InsertAdds(s[1..], x, key);
      }
    }
  }

  lemma {:induction false} InsertSorted<T>(s: seq<T>, x: T, key: T -> int)
    requires SortedBy(s, key)
    ensures SortedBy(Insert(s, x, key), key)
  {
    if s != [] && key(x) > key(s[0]) {
      var rest := Insert(s[1..], x, key);
      InsertSorted(s[1..], x, key);
      InsertAdds(s[1..], x, key);
      forall i | 0 <= i < |rest| ensures key(s[0]) <= key(rest[i]) {
        assert rest[i] in multiset(rest);
        assert rest[i] in s[1..] || rest[i] == x;
      }
    }
  }

  /** Sorting is a permutation into ascending order. */
  lemma {:induction false} SortSorts<T>(s: seq<T>, key: T -> int)
    ensures SortedBy(Sort(s, key), key)
    ensures multiset(Sort(s, key)) == multiset(s)
  {
    if s != [] {
      SortSorts(s[1..], key);
      InsertSorted(Sort(s[1..], key), s[0], key);
      InsertAdds(Sort(s[1..], key), s[0], key);
      assert s == [s[0]] + s[1..];
    }
  }

  /** The first position whose key is not below x. */
  method LowerBound<T>(a: array<T>, size: nat, key: T -> int, x: int) returns (low: nat)
    requires size <= a.Length && SortedBy(a[..size], key)
    ensures low <= size
    ensures forall k | 0 <= k < low :: key(a[k]) < x
    ensures forall k | low <= k < size :: x <= key(a[k])
  {
    var high := size;
    low := 0;
    while low < high
      invariant low <= high <= size
      invariant forall k | 0 <= k < low :: key(a[k]) < x
      invariant forall k | high <= k < size :: x <= key(a[k])
    {
      var mid := (low + high) / 2;
      assert forall k | 0 <= k < size :: a[k] == a[..size][k];
      if key(a[mid]) < x {
        low := mid + 1;
      } else {
        high := mid;
      }
    }
  }

  method BinarySearch(s: seq<nat>, x: nat) returns (found: bool)
    requires SortedBy(s, p => p)
    ensures found <==> x in s
  {
    var low, high := 0, |s|;
    while low < high
      invariant 0 <= low <= high <= |s|
      invariant forall k | 0 <= k < low :: s[k] < x
      invariant forall k | high <= k < |s| :: x <= s[k]
    {
      var mid := (low + high) / 2;
      assert forall i, j | 0 <= i < j < |s| :: s[i] <= s[j];
      if s[mid] < x {
        low := mid + 1;
      } else {
        high := mid;
      }
    }
    found := low < |s| && s[low] == x;
  }
}
