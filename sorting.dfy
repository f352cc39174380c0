/**
 * The two library routines the contributor lists rely on:
 * `Collections.sort` (modelled by the function `SortSeq`) and
 * `Collections.binarySearch` (modelled by the method `BinarySearch`, which
 * follows the library's algorithm).
 */
module Sorting {

  /** The entry at position `i` is at most the entry at position `j`. */
  predicate InOrder(s: seq<int>, i: int, j: int)
    requires 0 <= i < |s| && 0 <= j < |s|
  {
    s[i] <= s[j]
  }

  /** Ascending: every entry is at most every later entry. */
  predicate Sorted(s: seq<int>) {
    forall i, j :: 0 <= i < j < |s| ==> InOrder(s, i, j)
  }

  /** In a sorted sequence an entry is at most every later entry. */
  lemma SortedAt(s: seq<int>, i: int, j: int)
    requires Sorted(s) && 0 <= i <= j < |s|
    ensures s[i] <= s[j]
  {
    if i < j {
      assert InOrder(s, i, j);
    }
  }

  /** An element no larger than the head of a sorted sequence keeps it sorted in front. */
  lemma SortedCons(h: int, t: seq<int>)
    requires Sorted(t) && (t != [] ==> h <= t[0])
    ensures Sorted([h] + t)
  {
    forall i, j | 0 <= i < j < |t| + 1 ensures InOrder([h] + t, i, j) {
      if i == 0 {
        if j > 1 {
          assert InOrder(t, 0, j - 1);
        }
        assert ([h] + t)[j] == t[j - 1] && t[0] <= t[j - 1];
      } else {
        assert InOrder(t, i - 1, j - 1);
        assert ([h] + t)[i] == t[i - 1] && ([h] + t)[j] == t[j - 1];
      }
    }
  }

  /** Inserts `x` into the sorted sequence `s`, in front of the first larger-or-equal element. */
  function Insert(x: int, s: seq<int>): (r: seq<int>)
    requires Sorted(s)
    ensures Sorted(r) && |r| == |s| + 1
    ensures r[0] == x || (s != [] && r[0] == s[0])
  {
    if s == [] then [x]
    else if x <= s[0] then
      SortedCons(x, s);
      [x] + s
    else
      assert s == [s[0]] + s[1..];
      TailSorted(s);
      SortedAt(s, 0, if |s| > 1 then 1 else 0);
      var rest := Insert(x, s[1..]);
      SortedCons(s[0], rest);
      [s[0]] + rest
  }

  /** The ascending rearrangement of `s`: what `Collections.sort` leaves in a list. */
  function SortSeq(s: seq<int>): (r: seq<int>)
    ensures Sorted(r) && |r| == |s|
  {
    if s == [] then []
    else
      Insert(s[0], SortSeq(s[1..]))
  }

  /** Insertion adds exactly one occurrence of `x`. */
  lemma {:induction false} InsertPermutes(x: int, s: seq<int>)
    requires Sorted(s)
    ensures multiset(Insert(x, s)) == multiset(s) + multiset{x}
  {
    if s != [] && x > s[0] {
      assert s == [s[0]] + s[1..];
      TailSorted(s);
      InsertPermutes(x, s[1..]);
    }
  }

  /** Sorting rearranges: the result holds the same elements, as often as the input. */
  lemma {:induction false} SortSeqPermutes(s: seq<int>)
    ensures multiset(SortSeq(s)) == multiset(s)
  {
    if s != [] {
      assert s == [s[0]] + s[1..];
      SortSeqPermutes(s[1..]);
      InsertPermutes(s[0], SortSeq(s[1..]));
    }
  }

  /** The head of a sorted sequence is at most any of its elements. */
  lemma HeadIsLeast(s: seq<int>, x: int)
    requires Sorted(s) && x in multiset(s)
    ensures s[0] <= x
  {
    assert x in s;
    var k :| 0 <= k < |s| && s[k] == x;
    if k > 0 {
      assert InOrder(s, 0, k);
    }
  }
  /** Dropping the head keeps a sequence sorted. */
  lemma TailSorted(s: seq<int>)
    requires Sorted(s) && s != []
    ensures Sorted(s[1..])
  {
    forall i, j | 0 <= i < j < |s| - 1 ensures InOrder(s[1..], i, j) {
      assert InOrder(s, i + 1, j + 1);
      assert s[1..][i] == s[i + 1] && s[1..][j] == s[j + 1];
    }
  }
  /** Removing the head removes one occurrence of it. */
  lemma TailMultiset(s: seq<int>)
    requires s != []
    ensures multiset(s[1..]) == multiset(s) - multiset{s[0]}
  {
    assert s == [s[0]] + s[1..];
  }

  /** A sorted sequence is determined by its multiset of elements. */
  lemma {:induction false} SortedUnique(a: seq<int>, b: seq<int>)
    requires Sorted(a) && Sorted(b)
    requires multiset(a) == multiset(b)
    ensures a == b
  {
    if a != [] && b != [] {
      assert a[0] in multiset(a) && b[0] in multiset(b);
      HeadIsLeast(a, b[0]);
      HeadIsLeast(b, a[0]);
      assert a[0] == b[0];
      TailMultiset(a);
      TailMultiset(b);
      assert multiset(a[1..]) == multiset(b[1..]);
      TailSorted(a);
      TailSorted(b);
      SortedUnique(a[1..], b[1..]);
      assert a == [a[0]] + a[1..] && b == [b[0]] + b[1..];
    }
  }

  /** Sorting an already sorted list leaves it as it was. */
  lemma SortSeqOfSorted(s: seq<int>)
    requires Sorted(s)
    ensures SortSeq(s) == s
  {
    SortSeqPermutes(s);
    SortedUnique(SortSeq(s), s);
  }

  /** Sorting depends only on the elements and their multiplicities, not on their order. */
  lemma SortSeqCongruent(a: seq<int>, b: seq<int>)
    requires multiset(a) == multiset(b)
    ensures SortSeq(a) == SortSeq(b)
  {
    SortSeqPermutes(a);
    SortSeqPermutes(b);
    SortedUnique(SortSeq(a), SortSeq(b));
  }

  /** Sorting twice is sorting once. */
  lemma SortSeqIdempotent(s: seq<int>)
    ensures SortSeq(SortSeq(s)) == SortSeq(s)
  {
    SortSeqOfSorted(SortSeq(s));
  }

  /**
   * `Collections.binarySearch` on a sorted list: a non-negative result is an
   * index holding `key`; a negative result is `-(insertion point) - 1`, and
   * then `key` does not occur.
   */
  method BinarySearch(s: seq<int>, key: int) returns (index: int)
    requires Sorted(s)
    ensures 0 <= index ==> index < |s| && s[index] == key
    ensures index < 0 ==> key !in s
    ensures index < 0 ==> -index - 1 <= |s|
                          && (forall k :: 0 <= k < -index - 1 ==> s[k] < key)
                          && (forall k :: -index - 1 <= k < |s| ==> key < s[k])
  {
    var low, high := 0, |s| - 1;
    while low <= high
      invariant 0 <= low <= high + 1 <= |s|
      invariant forall k :: 0 <= k < low ==> s[k] < key
      invariant forall k :: high < k < |s| ==> key < s[k]
    {
      var mid := (low + high) / 2;
      forall k | 0 <= k < |s| ensures (k <= mid ==> s[k] <= s[mid]) && (mid <= k ==> s[mid] <= s[k]) {
        if k <= mid {
          SortedAt(s, k, mid);
        } else {
          SortedAt(s, mid, k);
        }
      }
      if s[mid] < key {
        low := mid + 1;
      } else if key < s[mid] {
        high := mid - 1;
      } else {
        return mid;
      }
    }
    index := -(low + 1);
  }
}
