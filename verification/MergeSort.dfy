/** The stable merge sort of include/flock-lib/parlay/internal/merge_sort.h, which goes back and forth
    between an array and a buffer. */
module MergeSort {
  import opened Ordering
  import opened Merge
  import Quicksort

  const MERGE_SORT_BASE: nat := 48

  /** t is the stable sorting of s. */
  ghost predicate StableSorted<T(!new)>(less: (T, T) -> bool, s: seq<T>, t: seq<T>) {
    Sorted(less, t) && StableOf(less, s, t)
  }

  /** There is only one stable sorting, so that any two sorts that are stable agree. */
  lemma OneStableSorting<T(!new)>(less: (T, T) -> bool, s: seq<T>, t: seq<T>, u: seq<T>)
    requires StrictWeak(less) && StableSorted(less, s, t) && StableSorted(less, s, u)
    ensures t == u && multiset(t) == multiset(s)
  {
    SortedStableUnique(less, t, u);
    StableIsPermutation(less, s, t);
  }

  /** The merge of the stable sortings of two halves is that of the whole. */
  lemma MergedHalves<T(!new)>(less: (T, T) -> bool, left: seq<T>, right: seq<T>, t: seq<T>, u: seq<T>)
    requires StrictWeak(less) && StableSorted(less, left, t) && StableSorted(less, right, u)
    ensures StableSorted(less, left + right, Merged(less, t, u))
  {
    MergedSorted(less, t, u);
    forall x ensures Class(less, x, Merged(less, t, u)) == Class(less, x, left + right) {
      MergedClass(less, t, u, x);
      ClassConcat(less, x, left, right);
    }
  }

  lemma WrittenSlice<T>(dst: array<T>, r: nat, m: seq<T>)
    requires Written(dst, r, m)
    ensures dst[r..r + |m|] == m
  {
  }

  lemma SortedSlice<T>(less: (T, T) -> bool, s: seq<T>, lo: nat, hi: nat)
    requires lo <= hi <= |s| && SortedRange(less, s, lo, hi)
    ensures Sorted(less, s[lo..hi])
  {
  }

  /** Insertion sort of a short slice, with a copy to the buffer if the result is wanted there. */
  method SortShort<T(!new)>(a: array<T>, b: array<T>, lo: nat, hi: nat, less: (T, T) -> bool, inplace: bool)
    requires lo <= hi <= a.Length && b.Length == a.Length && a != b && StrictWeak(less)
    modifies a, b
    ensures StableSorted(less, old(a[lo..hi]), if inplace then a[lo..hi] else b[lo..hi])
    ensures OnlyWrites(a, lo, hi - lo) && OnlyWrites(b, lo, hi - lo)
  {
    ghost var s := a[..];
    Quicksort.InsertionSort(a, lo, hi, less);
    StableRange(less, s, a[..], lo, hi);
    SortedSlice(less, a[..], lo, hi);
    assert a[..][lo..hi] == a[lo..hi] && s[lo..hi] == old(a[lo..hi]);
    if !inplace {
      Copy(a[lo..hi], b, lo);
      WrittenSlice(b, lo, a[lo..hi]);
    }
  }

  /** Merges the sorted halves of s, which are in src, into dst. */
  method MergeBack<T(!new)>(src: array<T>, dst: array<T>, lo: nat, mid: nat, hi: nat, less: (T, T) -> bool,
                            ghost left: seq<T>, ghost right: seq<T>)
    requires lo <= mid <= hi <= src.Length && dst.Length == src.Length && src != dst && StrictWeak(less)
    requires StableSorted(less, left, src[lo..mid]) && StableSorted(less, right, src[mid..hi])
    modifies dst
    ensures StableSorted(less, left + right, dst[lo..hi]) && OnlyWrites(dst, lo, hi - lo)
  {
    ghost var merged := Merged(less, src[lo..mid], src[mid..hi]);
    MergedHalves(less, left, right, src[lo..mid], src[mid..hi]);
    MergeInto(src[lo..mid], src[mid..hi], dst, lo, less);
    WrittenSlice(dst, lo, merged);
  }

  /** Sorts [lo, hi) of a, into a itself or into b; the other one is scratch space. */
  method SortInto<T(!new)>(a: array<T>, b: array<T>, lo: nat, hi: nat, less: (T, T) -> bool, inplace: bool)
    requires lo <= hi <= a.Length && b.Length == a.Length && a != b && StrictWeak(less)
    modifies a, b
    ensures inplace ==> StableSorted(less, old(a[lo..hi]), a[lo..hi])
    ensures !inplace ==> StableSorted(less, old(a[lo..hi]), b[lo..hi])
    ensures OnlyWrites(a, lo, hi - lo) && OnlyWrites(b, lo, hi - lo)
    decreases hi - lo
  {
    var n := hi - lo;
    if n < MERGE_SORT_BASE {
      SortShort(a, b, lo, hi, less, inplace);
    } else {
      var m := n / 2;
      ghost var left, right := a[lo..lo + m], a[lo + m..hi];
      assert a[lo..hi] == left + right;
      SortHalves(a, b, lo, lo + m, hi, less, !inplace);
      if inplace {
        MergeBack(b, a, lo, lo + m, hi, less, left, right);
      } else {
        MergeBack(a, b, lo, lo + m, hi, less, left, right);
      }
    }
  }

  /** Sorts both parts, each into the same one of the two arrays. */
  method SortHalves<T(!new)>(a: array<T>, b: array<T>, lo: nat, mid: nat, hi: nat, less: (T, T) -> bool, inplace: bool)
    requires lo < mid < hi <= a.Length && b.Length == a.Length && a != b && StrictWeak(less)
    modifies a, b
    ensures inplace ==> StableSorted(less, old(a[lo..mid]), a[lo..mid])
                        && StableSorted(less, old(a[mid..hi]), a[mid..hi])
    ensures !inplace ==> StableSorted(less, old(a[lo..mid]), b[lo..mid])
                         && StableSorted(less, old(a[mid..hi]), b[mid..hi])
    ensures OnlyWrites(a, lo, hi - lo) && OnlyWrites(b, lo, hi - lo)
    decreases hi - lo, 0
  {
    ghost var left, right := a[lo..mid], a[mid..hi];
    SortInto(a, b, lo, mid, less, inplace);
    ghost var sorted := if inplace then a[lo..mid] else b[lo..mid];
    assert a[mid..hi] == right;
    SortInto(a, b, mid, hi, less, inplace);
    if inplace { assert a[lo..mid] == sorted; } else { assert b[lo..mid] == sorted; }
  }

  /** Sorts an array, with a buffer of its own. */
  method SortInPlace<T(!new,0)>(a: array<T>, less: (T, T) -> bool)
    requires StrictWeak(less)
    modifies a
    ensures StableSorted(less, old(a[..]), a[..])
  {
    var n := a.Length;
    if n <= MERGE_SORT_BASE {
      Quicksort.InsertionSort(a, 0, n, less);
    } else {
      var b := new T[n];
      assert a[..] == a[0..n];
      SortInto(a, b, 0, n, less, true);
      assert a[..] == a[0..n];
    }
  }
}
