/** Merging sorted slices (include/flock-lib/parlay/internal/merge.h), with the search that splits them
    (include/flock-lib/parlay/internal/binary_search.h).  A slice that is only read is its contents. */
module Merge {
  import opened Ordering

  const SEARCH_BASE: nat := 16
  const MERGE_BASE: nat := 2000

  /** The elements of s below v come before the others. */
  ghost predicate Divided<T>(less: (T, T) -> bool, s: seq<T>, v: T) {
    forall i, j :: 0 <= i < j < |s| && less(s[j], v) ==> less(s[i], v)
  }

  /** k is the number of elements below v, all of which come first. */
  ghost predicate Divides<T>(less: (T, T) -> bool, s: seq<T>, v: T, k: nat) {
    && k <= |s| && (forall i :: 0 <= i < k ==> less(s[i], v))
    && (forall i :: k <= i < |s| ==> !less(s[i], v))
  }

  lemma SortedDivided<T(!new)>(less: (T, T) -> bool, s: seq<T>, v: T)
    requires StrictWeak(less) && Sorted(less, s)
    ensures Divided(less, s, v)
  {
    forall i, j | 0 <= i < j < |s| && less(s[j], v) ensures less(s[i], v) {
      Transitive(less, s[i], s[j], v);
    }
  }

  /** The index of the first element from start on that is not below v. */
  method LinearSearch<T>(s: seq<T>, start: nat, end: nat, v: T, less: (T, T) -> bool) returns (k: nat)
    requires start <= end <= |s|
    ensures start <= k <= end && (forall i :: start <= i < k ==> less(s[i], v)) && (k < end ==> !less(s[k], v))
  {
    for i := start to end
      invariant forall j :: start <= j < i ==> less(s[j], v)
    {
      if !less(s[i], v) { return i; }
    }
    return end;
  }

  method BinarySearch<T>(s: seq<T>, v: T, less: (T, T) -> bool) returns (k: nat)
    requires Divided(less, s, v)
    ensures Divides(less, s, v, k)
  {
    var start, end := 0, |s|;
    while end - start > SEARCH_BASE
      invariant start <= end <= |s|
      invariant forall i :: 0 <= i < start ==> less(s[i], v)
      invariant forall i :: end <= i < |s| ==> !less(s[i], v)
    {
      var mid := (end + start) / 2;
      if !less(s[mid], v) {
        end := mid;
      } else {
        start := mid + 1;
      }
    }
    k := LinearSearch(s, start, end, v, less);
  }

  // ---------------------------------------------------------------- what a merge is

  /** The merge of two sequences that takes from the second one only what is below the head of the first. */
  function Merged<T>(less: (T, T) -> bool, x: seq<T>, y: seq<T>): (m: seq<T>)
    ensures |m| == |x| + |y|
  {
    if x == [] then y
    else if y == [] then x
    else if less(y[0], x[0]) then [y[0]] + Merged(less, x, y[1..])
    else [x[0]] + Merged(less, x[1..], y)
  }

  /** No element of the second part of either sequence goes before one of the first part of the other. */
  ghost predicate NoCrossing<T>(less: (T, T) -> bool, x: seq<T>, y: seq<T>, i: nat, j: nat) {
    && i <= |x| && j <= |y|
    && (forall k, l :: 0 <= k < i && j <= l < |y| ==> !less(y[l], x[k]))
    && (forall k, l :: i <= k < |x| && 0 <= l < j ==> less(y[l], x[k]))
  }

  lemma FirstOfY<T>(less: (T, T) -> bool, x: seq<T>, y: seq<T>, i: nat, j: nat)
    requires x != [] && y != [] && less(y[0], x[0]) && i <= |x| && 0 < j <= |y|
    requires NoCrossing(less, x, y, i, j)
    ensures Merged(less, x[..i], y[..j]) == [y[0]] + Merged(less, x[..i], y[1..][..j - 1])
    ensures y[1..][j - 1..] == y[j..] && NoCrossing(less, x, y[1..], i, j - 1)
  {
    assert y[..j][1..] == y[1..][..j - 1] && y[..j][0] == y[0];
    if i == 0 {
      assert y[..j] == [y[0]] + y[..j][1..];
    } else {
      assert x[..i][0] == x[0];
    }
  }

  lemma FirstOfX<T>(less: (T, T) -> bool, x: seq<T>, y: seq<T>, i: nat, j: nat)
    requires x != [] && y != [] && !less(y[0], x[0]) && 0 < i <= |x| && j <= |y|
    requires NoCrossing(less, x, y, i, j)
    ensures Merged(less, x[..i], y[..j]) == [x[0]] + Merged(less, x[1..][..i - 1], y[..j])
    ensures x[1..][i - 1..] == x[i..] && NoCrossing(less, x[1..], y, i - 1, j)
  {
    assert x[..i][1..] == x[1..][..i - 1] && x[..i][0] == x[0];
    if j == 0 {
      assert x[..i] == [x[0]] + x[..i][1..];
    } else {
      assert y[..j][0] == y[0];
    }
  }

  /** A merge can be done in two parts, split where no element would cross. */
  lemma {:induction false} MergedSplit<T>(less: (T, T) -> bool, x: seq<T>, y: seq<T>, i: nat, j: nat)
    requires NoCrossing(less, x, y, i, j)
    ensures Merged(less, x, y) == Merged(less, x[..i], y[..j]) + Merged(less, x[i..], y[j..])
    decreases |x| + |y|
  {
    if x == [] || y == [] || (i == 0 && j == 0) {
    } else if less(y[0], x[0]) {
      FirstOfY(less, x, y, i, j);
      MergedSplit(less, x, y[1..], i, j - 1);
      Associative([y[0]], Merged(less, x[..i], y[1..][..j - 1]), Merged(less, x[i..], y[j..]));
    } else {
      FirstOfX(less, x, y, i, j);
      MergedSplit(less, x[1..], y, i - 1, j);
      Associative([x[0]], Merged(less, x[1..][..i - 1], y[..j]), Merged(less, x[i..], y[j..]));
    }
  }

  lemma {:induction false} MergedFrom<T>(less: (T, T) -> bool, x: seq<T>, y: seq<T>, e: T)
    requires e in Merged(less, x, y)
    ensures e in x || e in y
    decreases |x| + |y|
  {
    if x != [] && y != [] {
      if less(y[0], x[0]) {
        if e != y[0] { MergedFrom(less, x, y[1..], e); }
      } else {
        if e != x[0] { MergedFrom(less, x[1..], y, e); }
      }
    }
  }

  lemma SortedHead<T(!new)>(less: (T, T) -> bool, s: seq<T>, e: T)
    requires Sorted(less, s) && e in s && StrictWeak(less)
    ensures !less(e, s[0])
  {
    Asymmetric(less, e, e);
  }

  lemma {:induction false} MergedSorted<T(!new)>(less: (T, T) -> bool, x: seq<T>, y: seq<T>)
    requires StrictWeak(less) && Sorted(less, x) && Sorted(less, y)
    ensures Sorted(less, Merged(less, x, y))
    decreases |x| + |y|
  {
    if x != [] && y != [] {
      var first, rest: seq<T>;
      if less(y[0], x[0]) {
        first, rest := y[0], Merged(less, x, y[1..]);
        MergedSorted(less, x, y[1..]);
      } else {
        first, rest := x[0], Merged(less, x[1..], y);
        MergedSorted(less, x[1..], y);
      }
      forall k | 0 <= k < |rest| ensures !less(rest[k], first) {
        if less(y[0], x[0]) {
          MergedFrom(less, x, y[1..], rest[k]);
          AboveHeads(less, x, y, rest[k], first);
        } else {
          MergedFrom(less, x[1..], y, rest[k]);
          AboveHeads(less, x, y, rest[k], first);
        }
      }
      assert Merged(less, x, y) == [first] + rest;
    }
  }

  lemma AboveHeads<T(!new)>(less: (T, T) -> bool, x: seq<T>, y: seq<T>, e: T, first: T)
    requires StrictWeak(less) && Sorted(less, x) && Sorted(less, y) && x != [] && y != [] && (e in x || e in y)
    requires first == if less(y[0], x[0]) then y[0] else x[0]
    ensures !less(e, first)
  {
    Asymmetric(less, x[0], y[0]);
    if e in x {
      SortedHead(less, x, e);
      Transitive(less, first, x[0], e);
    } else {
      SortedHead(less, y, e);
      Transitive(less, first, y[0], e);
    }
  }

  lemma NoneEquivalent<T(!new)>(less: (T, T) -> bool, s: seq<T>, x: T, e: T)
    requires StrictWeak(less) && Sorted(less, s) && s != [] && less(e, s[0]) && Equivalent(less, x, e)
    ensures Class(less, x, s) == []
  {
    ClassIn(less, x, s);
    if Class(less, x, s) != [] {
      var k :| 0 <= k < |s| && s[k] == Class(less, x, s)[0] && Equivalent(less, x, s[k]);
      SortedHead(less, s, s[k]);
      Transitive(less, e, s[0], s[k]);
      Transitive(less, e, x, s[k]);
      Transitive(less, s[k], x, e);
    }
  }

  lemma ClassHead<T>(less: (T, T) -> bool, e: T, s: seq<T>)
    requires s != []
    ensures Class(less, e, s) == (if Equivalent(less, e, s[0]) then [s[0]] else []) + Class(less, e, s[1..])
  {
  }

  /** Merging is stable: equivalent elements stay in order, those of the first sequence before those of
      the second. */
  lemma {:induction false} MergedClass<T(!new)>(less: (T, T) -> bool, x: seq<T>, y: seq<T>, e: T)
    requires StrictWeak(less) && Sorted(less, x)
    ensures Class(less, e, Merged(less, x, y)) == Class(less, e, x) + Class(less, e, y)
    decreases |x| + |y|
  {
    if x != [] && y != [] {
      ClassHead(less, e, Merged(less, x, y));
      if less(y[0], x[0]) {
        ClassHead(less, e, y);
        MergedClass(less, x, y[1..], e);
        if Equivalent(less, e, y[0]) { NoneEquivalent(less, x, e, y[0]); }
      } else {
        ClassHead(less, e, x);
        MergedClass(less, x[1..], y, e);
        Associative(if Equivalent(less, e, x[0]) then [x[0]] else [], Class(less, e, x[1..]), Class(less, e, y));
      }
    }
  }

  lemma MergedStable<T(!new)>(less: (T, T) -> bool, x: seq<T>, y: seq<T>)
    requires StrictWeak(less) && Sorted(less, x)
    ensures StableOf(less, x + y, Merged(less, x, y))
  {
    forall e ensures Class(less, e, Merged(less, x, y)) == Class(less, e, x + y) {
      MergedClass(less, x, y, e);
      ClassConcat(less, e, x, y);
    }
  }

  // ---------------------------------------------------------------- the algorithms

  /** The slice m is in dst from r on. */
  ghost predicate Written<T>(dst: array<T>, r: nat, m: seq<T>)
    reads dst
  {
    r + |m| <= dst.Length && forall p :: r <= p < r + |m| ==> dst[p] == m[p - r]
  }

  /** The elements of dst outside [r, r + n) are as they were. */
  twostate predicate OnlyWrites<T>(dst: array<T>, r: nat, n: nat)
    reads dst
  {
    forall k :: 0 <= k < dst.Length && (k < r || r + n <= k) ==> dst[k] == old(dst[k])
  }

  /** Where a merge stands after i elements of x and j of y. */
  ghost predicate MergedUpTo<T>(less: (T, T) -> bool, x: seq<T>, y: seq<T>, i: nat, j: nat) {
    i <= |x| && j <= |y| && Merged(less, x[i..], y[j..]) == Merged(less, x, y)[i + j..]
  }

  /** dst holds the first n elements of m from r on. */
  ghost predicate Begun<T>(dst: array<T>, r: nat, m: seq<T>, n: nat)
    reads dst
  {
    n <= |m| && r + |m| <= dst.Length && forall p :: r <= p < r + n ==> dst[p] == m[p - r]
  }

  /** Writes the rest of one slice, which is the rest of m. */
  method WriteRest<T>(x: seq<T>, from: nat, dst: array<T>, r: nat, ghost m: seq<T>, at: nat)
    requires Begun(dst, r, m, at) && from <= |x| && at + (|x| - from) == |m|
    requires forall k :: from <= k < |x| ==> m[at + (k - from)] == x[k]
    modifies dst
    ensures Begun(dst, r, m, |m|) && OnlyWrites(dst, r, |m|)
  {
    for k := from to |x|
      invariant Begun(dst, r, m, at + (k - from)) && OnlyWrites(dst, r, |m|)
    {
      dst[r + at + (k - from)] := x[k];
    }
  }

  method FinishWithY<T>(x: seq<T>, y: seq<T>, dst: array<T>, r: nat, less: (T, T) -> bool, j: nat)
    requires MergedUpTo(less, x, y, |x|, j) && Begun(dst, r, Merged(less, x, y), |x| + j)
    modifies dst
    ensures Written(dst, r, Merged(less, x, y)) && OnlyWrites(dst, r, |x| + |y|)
  {
    WriteRest(y, j, dst, r, Merged(less, x, y), |x| + j);
  }

  method FinishWithX<T>(x: seq<T>, y: seq<T>, dst: array<T>, r: nat, less: (T, T) -> bool, i: nat)
    requires MergedUpTo(less, x, y, i, |y|) && Begun(dst, r, Merged(less, x, y), i + |y|)
    modifies dst
    ensures Written(dst, r, Merged(less, x, y)) && OnlyWrites(dst, r, |x| + |y|)
  {
    WriteRest(x, i, dst, r, Merged(less, x, y), i + |y|);
  }

  method SeqMerge<T>(x: seq<T>, y: seq<T>, dst: array<T>, r: nat, less: (T, T) -> bool)
    requires r + |x| + |y| <= dst.Length
    modifies dst
    ensures Written(dst, r, Merged(less, x, y)) && OnlyWrites(dst, r, |x| + |y|)
  {
    ghost var m := Merged(less, x, y);
    var i, j := 0, 0;
    while true
      invariant MergedUpTo(less, x, y, i, j) && Begun(dst, r, m, i + j) && OnlyWrites(dst, r, |x| + |y|)
      decreases |x| - i + |y| - j
    {
      if i == |x| {
        FinishWithY(x, y, dst, r, less, j);
        break;
      }
      if j == |y| {
        FinishWithX(x, y, dst, r, less, i);
        break;
      }
      i, j := MergeOne(x, y, dst, r, less, i, j);
    }
  }

  /** Writes the next element of the merge. */
  method MergeOne<T>(x: seq<T>, y: seq<T>, dst: array<T>, r: nat, less: (T, T) -> bool, i0: nat, j0: nat)
      returns (i: nat, j: nat)
    requires MergedUpTo(less, x, y, i0, j0) && i0 < |x| && j0 < |y| && Begun(dst, r, Merged(less, x, y), i0 + j0)
    modifies dst
    ensures MergedUpTo(less, x, y, i, j) && Begun(dst, r, Merged(less, x, y), i + j) && OnlyWrites(dst, r, |x| + |y|)
    ensures i + j == i0 + j0 + 1
  {
    i, j := i0, j0;
    if less(y[j], x[i]) {
      dst[r + i + j] := y[j];
      j := j + 1;
    } else {
      dst[r + i + j] := x[i];
      i := i + 1;
    }
  }

  /** Copies a slice. */
  method Copy<T>(x: seq<T>, dst: array<T>, r: nat)
    requires r + |x| <= dst.Length
    modifies dst
    ensures Written(dst, r, x) && OnlyWrites(dst, r, |x|)
  {
    WriteRest(x, 0, dst, r, x, 0);
  }

  /** Where merge_into splits: no element of either part would cross. */
  lemma SplitPoint<T(!new)>(less: (T, T) -> bool, x: seq<T>, y: seq<T>, pivot: nat, i: nat, j: nat)
    requires StrictWeak(less) && Sorted(less, x) && pivot < |x| && Divides(less, y, x[pivot], j)
    requires i == if j == 0 then pivot + 1 else pivot
    ensures Merged(less, x, y) == Merged(less, x[..i], y[..j]) + Merged(less, x[i..], y[j..])
  {
    forall k, l | 0 <= k < i && j <= l < |y| ensures !less(y[l], x[k]) {
      Asymmetric(less, x[k], x[pivot]);
      Transitive(less, x[k], x[pivot], y[l]);
    }
    forall k, l | i <= k < |x| && 0 <= l < j ensures less(y[l], x[k]) {
      Asymmetric(less, x[k], x[pivot]);
      Transitive(less, y[l], x[pivot], x[k]);
    }
    MergedSplit(less, x, y, i, j);
  }

  lemma WrittenConcat<T>(dst: array<T>, r: nat, u: seq<T>, v: seq<T>)
    requires Written(dst, r, u) && Written(dst, r + |u|, v)
    ensures Written(dst, r, u + v)
  {
  }

  /** Where merge_into divides its two slices. */
  method Divide<T(!new)>(x: seq<T>, y: seq<T>, less: (T, T) -> bool)
      returns (x1: seq<T>, x2: seq<T>, y1: seq<T>, y2: seq<T>)
    requires StrictWeak(less) && Sorted(less, x) && Sorted(less, y) && x != [] && y != []
    ensures |x1| + |x2| == |x| && |y1| + |y2| == |y| && 0 < |x1| + |y1| && 0 < |x2| + |y2|
    ensures Merged(less, x, y) == Merged(less, x1, y1) + Merged(less, x2, y2)
    ensures Sorted(less, x1) && Sorted(less, x2) && Sorted(less, y1) && Sorted(less, y2)
  {
    var mA := |x| / 2;
    ghost var pivot := mA;
    SortedDivided(less, y, x[mA]);
    var mB := BinarySearch(y, x[mA], less);
    if mB == 0 { mA := mA + 1; }
    SplitPoint(less, x, y, pivot, mA, mB);
    x1, x2, y1, y2 := x[..mA], x[mA..], y[..mB], y[mB..];
  }

  /** The parallel merge; its two halves write disjoint parts of dst, and are taken one after the other. */
  method MergeInto<T(!new)>(x: seq<T>, y: seq<T>, dst: array<T>, r: nat, less: (T, T) -> bool)
    requires r + |x| + |y| <= dst.Length && StrictWeak(less) && Sorted(less, x) && Sorted(less, y)
    modifies dst
    ensures Written(dst, r, Merged(less, x, y)) && OnlyWrites(dst, r, |x| + |y|)
    decreases |x| + |y|, 1
  {
    var nR := |x| + |y|;
    if nR < MERGE_BASE {
      SeqMerge(x, y, dst, r, less);
    } else if |x| == 0 {
      Copy(y, dst, r);
    } else if |y| == 0 {
      Copy(x, dst, r);
    } else {
      var x1, x2, y1, y2 := Divide(x, y, less);
      MergeParts(x1, y1, x2, y2, dst, r, less);
    }
  }

  method MergeParts<T(!new)>(x1: seq<T>, y1: seq<T>, x2: seq<T>, y2: seq<T>, dst: array<T>, r: nat,
                             less: (T, T) -> bool)
    requires r + |x1| + |y1| + |x2| + |y2| <= dst.Length && StrictWeak(less) && 0 < |x1| + |y1| && 0 < |x2| + |y2|
    requires Sorted(less, x1) && Sorted(less, y1) && Sorted(less, x2) && Sorted(less, y2)
    modifies dst
    ensures Written(dst, r, Merged(less, x1, y1) + Merged(less, x2, y2))
    ensures OnlyWrites(dst, r, |x1| + |y1| + |x2| + |y2|)
    decreases |x1| + |y1| + |x2| + |y2|, 0
  {
    ghost var left, right := Merged(less, x1, y1), Merged(less, x2, y2);
    MergeInto(x1, y1, dst, r, less);
    MergeInto(x2, y2, dst, r + |x1| + |y1|, less);
    assert Written(dst, r, left);
    WrittenConcat(dst, r, left, right);
  }
}
