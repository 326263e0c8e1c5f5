/**
 * `Array.prototype.sort` with a comparator of the form `key(a) - key(b)`,
 * modelled once for every call site: an in-place sort of an array by an
 * integer key (the `getTime()` of a date, or its negation for a descending
 * order).
 */
module Sorting {
  import opened Seqs

  predicate SortedBy<T>(s: seq<T>, key: T -> int)
  {
    forall i, j | 0 <= i < j < |s| :: key(s[i]) <= key(s[j])
  }

  /** Sorts `a` in place, non-decreasing by `key`; the contents stay the same multiset. */
  method SortInPlace<T>(a: array<T>, key: T -> int)
    modifies a
    ensures SortedBy(a[..], key)
    ensures multiset(a[..]) == multiset(old(a[..]))
  {
    if a.Length == 0 {
      return;
    }
    var i := 1;
    while i < a.Length
      invariant 1 <= i <= a.Length
      invariant forall p, q | 0 <= p < q < i :: key(a[p]) <= key(a[q])
      invariant multiset(a[..]) == multiset(old(a[..]))
    {
      var j := i;
      while j > 0 && key(a[j - 1]) > key(a[j])
        invariant 0 <= j <= i
        invariant SortedExcept(a[..], i, j, key)
        invariant multiset(a[..]) == multiset(old(a[..]))
      {
        ghost var before := a[..];
        a[j - 1], a[j] := a[j], a[j - 1];
        SwapStep(before, a[..], i, j, key);
        j := j - 1;
      }
      InsertionDone(a[..], i, j, key);
      i := i + 1;
    }
  }

  /** The first `i + 1` elements are in order, except possibly around position `j`. */
  ghost predicate SortedExcept<T>(s: seq<T>, i: int, j: int, key: T -> int)
    requires 0 <= j <= i < |s|
  {
    forall p, q | 0 <= p < q <= i && q != j :: key(s[p]) <= key(s[q])
  }

  /** Swapping the out-of-order pair at `j - 1`, `j` moves the gap one place down. */
  lemma SwapStep<T>(s: seq<T>, t: seq<T>, i: int, j: int, key: T -> int)
    requires 0 < j <= i < |s|
    requires t == s[j - 1 := s[j]][j := s[j - 1]]
    requires key(s[j - 1]) > key(s[j])
    requires SortedExcept(s, i, j, key)
    ensures SortedExcept(t, i, j - 1, key)
    ensures multiset(t) == multiset(s)
  {
    forall p, q | 0 <= p < q <= i && q != j - 1
      ensures key(t[p]) <= key(t[q])
    {
      if q == j {
        if p < j - 1 {
          assert key(s[p]) <= key(s[j - 1]);
        }
      } else if p == j - 1 {
        assert key(s[j]) < key(s[j - 1]) <= key(s[q]);
      } else if p == j {
        assert key(s[j - 1]) <= key(s[q]);
      }
    }
  }

  /** Once the new element has settled, the first `i + 1` elements are in order. */
  lemma InsertionDone<T>(s: seq<T>, i: int, j: int, key: T -> int)
    requires 0 <= j <= i < |s|
    requires SortedExcept(s, i, j, key)
    requires j == 0 || key(s[j - 1]) <= key(s[j])
    ensures forall p, q | 0 <= p < q < i + 1 :: key(s[p]) <= key(s[q])
  {
    forall p, q | 0 <= p < q < i + 1
      ensures key(s[p]) <= key(s[q])
    {
      if q == j && p < j - 1 {
        assert key(s[p]) <= key(s[j - 1]);
      }
    }
  }

  /** Sorts a new array holding `s` (the array a `filter` call returns) and gives back its contents. */
  method SortedCopy<T>(s: seq<T>, key: T -> int) returns (r: seq<T>)
    ensures SortedBy(r, key)
    ensures multiset(r) == multiset(s)
  {
    var a := new T[|s|](i requires 0 <= i < |s| => s[i]);
    assert a[..] == s;
    SortInPlace(a, key);
    r := a[..];
  }

  /** Removing elements from a sorted list leaves it sorted. */
  lemma {:induction false} FilterSorted<T>(s: seq<T>, key: T -> int, p: T -> bool)
    requires SortedBy(s, key)
    ensures SortedBy(Filter(s, p), key)
  {
    if |s| > 0 {
      FilterSorted(s[1..], key, p);
      var rest := Filter(s[1..], p);
      forall i | 0 <= i < |rest|
        ensures key(s[0]) <= key(rest[i])
      {
        FilterMembership(s[1..], p, rest[i]);
        var k :| 0 <= k < |s[1..]| && s[1..][k] == rest[i];
        assert s[k + 1] == rest[i];
      }
    }
  }
}
