/** The counting pass of include/flock-lib/parlay/internal/bucket_sort.h: elements are moved to their
    buckets, in order. */
module Radix {
  import opened Ordering
  import opened Merge

  /** The elements of s whose keys are in [from, to), in order; and how many keys are. */
  ghost function Pick<T>(s: seq<T>, keys: seq<nat>, from: nat, to: nat): (p: seq<T>)
    requires |keys| == |s|
    ensures |p| == NumIn(keys, from, to)
  {
    if s == [] then []
    else
      var n := |s| - 1;
      Pick(s[..n], keys[..n], from, to) + (if from <= keys[n] < to then [s[n]] else [])
  }

  ghost function NumIn(keys: seq<nat>, from: nat, to: nat): (n: nat)
    ensures n <= |keys|
  {
    if keys == [] then 0
    else
      var n := |keys| - 1;
      NumIn(keys[..n], from, to) + (if from <= keys[n] < to then 1 else 0)
  }

  /** Where bucket k starts. */
  ghost function First(keys: seq<nat>, k: nat): nat {
    NumIn(keys, 0, k)
  }

  /** Bucket k, and its size. */
  ghost function Bucket<T>(s: seq<T>, keys: seq<nat>, k: nat): (p: seq<T>)
    requires |keys| == |s|
    ensures |p| == HowMany(keys, k)
  {
    Pick(s, keys, k, k + 1)
  }

  ghost function HowMany(keys: seq<nat>, k: nat): nat {
    NumIn(keys, k, k + 1)
  }

  lemma {:induction false} NumInSum(keys: seq<nat>, from: nat, mid: nat, to: nat)
    requires from <= mid <= to
    ensures NumIn(keys, from, to) == NumIn(keys, from, mid) + NumIn(keys, mid, to)
  {
    if keys != [] { NumInSum(keys[..|keys| - 1], from, mid, to); }
  }

  lemma {:induction false} NumInPrefix(keys: seq<nat>, j: nat, from: nat, to: nat)
    requires j <= |keys|
    ensures NumIn(keys[..j], from, to) <= NumIn(keys, from, to)
  {
    if j < |keys| {
      NumInPrefix(keys[..|keys| - 1], j, from, to);
      assert keys[..|keys| - 1][..j] == keys[..j];
    } else {
      assert keys[..j] == keys;
    }
  }

  lemma {:induction false} NumInAll(keys: seq<nat>, to: nat)
    requires forall i :: 0 <= i < |keys| ==> keys[i] < to
    ensures NumIn(keys, 0, to) == |keys|
  {
    if keys != [] { NumInAll(keys[..|keys| - 1], to); }
  }

  lemma {:induction false} NumInSome(keys: seq<nat>, k: nat, i: nat)
    requires i < |keys| && keys[i] != k
    ensures NumIn(keys, k, k + 1) < |keys|
  {
    if i < |keys| - 1 { NumInSome(keys[..|keys| - 1], k, i); }
  }

  /** An element comes after those with its key that precede it. */
  lemma {:induction false} PickAt<T>(s: seq<T>, keys: seq<nat>, j: nat, from: nat, to: nat)
    requires |keys| == |s| && j < |s| && from <= keys[j] < to
    ensures NumIn(keys[..j], from, to) < NumIn(keys, from, to)
    ensures Pick(s, keys, from, to)[NumIn(keys[..j], from, to)] == s[j]
  {
    var n := |s| - 1;
    if j < n {
      PickAt(s[..n], keys[..n], j, from, to);
      assert keys[..n][..j] == keys[..j];
    }
  }

  lemma {:induction false} PickFrom<T>(s: seq<T>, keys: seq<nat>, from: nat, to: nat, p: nat) returns (i: nat)
    requires |keys| == |s| && p < NumIn(keys, from, to)
    ensures i < |s| && s[i] == Pick(s, keys, from, to)[p] && from <= keys[i] < to
  {
    var n := |s| - 1;
    if p < NumIn(keys[..n], from, to) {
      i := PickFrom(s[..n], keys[..n], from, to, p);
    } else {
      i := n;
    }
  }

  lemma {:induction false} PickAll<T>(s: seq<T>, keys: seq<nat>, to: nat)
    requires |keys| == |s| && forall i :: 0 <= i < |keys| ==> keys[i] < to
    ensures Pick(s, keys, 0, to) == s
  {
    if s != [] {
      PickAll(s[..|s| - 1], keys[..|s| - 1], to);
      assert s == s[..|s| - 1] + [s[|s| - 1]];
    }
  }

  // ---------------------------------------------------------------- the pass

  /** The elements of bucket k from the c-th on are in place. */
  ghost predicate Placed<T>(d: seq<T>, lo: nat, s: seq<T>, keys: seq<nat>, k: nat, c: nat)
    requires |keys| == |s|
  {
    && lo + |s| <= |d|
    && forall q :: lo + First(keys, k) + c <= q < lo + First(keys, k) + HowMany(keys, k) && q < |d| ==>
         d[q] == Bucket(s, keys, k)[q - lo - First(keys, k)]
  }

  /** The places of two buckets do not overlap. */
  lemma Apart(keys: seq<nat>, k: nat, l: nat)
    requires k < l
    ensures First(keys, k) + HowMany(keys, k) <= First(keys, l)
  {
    NumInSum(keys, 0, k, k + 1);
    NumInSum(keys, 0, k + 1, l);
  }

  lemma PlaceOne<T>(d: seq<T>, d': seq<T>, lo: nat, s: seq<T>, keys: seq<nat>, j: nat, k: nat)
    requires |keys| == |s| && j < |s| && |d'| == |d| && lo + |s| <= |d|
    requires Placed(d, lo, s, keys, k, HowMany(keys[..j + 1], k))
    requires var x := lo + First(keys, keys[j]) + HowMany(keys[..j], keys[j]);
             x < |d| && d'[x] == s[j] && forall q :: 0 <= q < |d| && q != x ==> d'[q] == d[q]
    ensures Placed(d', lo, s, keys, k, HowMany(keys[..j], k))
  {
    assert keys[..j + 1][..j] == keys[..j];
    PickAt(s, keys, j, keys[j], keys[j] + 1);
    if k < keys[j] { Apart(keys, k, keys[j]); }
    if keys[j] < k { Apart(keys, keys[j], k); }
  }

  lemma FirstInside(keys: seq<nat>, k: nat)
    ensures First(keys, k) + HowMany(keys, k) <= |keys|
  {
    NumInSum(keys, 0, k, k + 1);
  }

  method CountKeys(keys: seq<nat>, counts: array<nat>, m: nat)
    requires m == counts.Length && forall i :: 0 <= i < |keys| ==> keys[i] < m
    modifies counts
    ensures forall k: nat :: k < m ==> counts[k] == HowMany(keys, k)
  {
    for i := 0 to m
      invariant forall k: nat :: k < i ==> counts[k] == 0
    {
      counts[i] := 0;
    }
    for j := 0 to |keys|
      invariant forall k: nat :: k < m ==> counts[k] == HowMany(keys[..j], k)
    {
      assert keys[..j + 1][..j] == keys[..j];
      counts[keys[j]] := counts[keys[j]] + 1;
    }
    assert keys[..|keys|] == keys;
  }

  method SumCounts(keys: seq<nat>, counts: array<nat>, m: nat)
    requires m == counts.Length && forall k: nat :: k < m ==> counts[k] == HowMany(keys, k)
    modifies counts
    ensures forall k: nat :: k < m ==> counts[k] == First(keys, k) + HowMany(keys, k)
  {
    var sum := 0;
    assert First(keys, 0) == 0 by { NoneBelowZero(keys); }
    for i := 0 to m
      invariant sum == First(keys, i)
      invariant forall k: nat :: k < i ==> counts[k] == First(keys, k) + HowMany(keys, k)
      invariant forall k: nat :: i <= k < m ==> counts[k] == HowMany(keys, k)
    {
      NumInSum(keys, 0, i, i + 1);
      sum := sum + counts[i];
      counts[i] := sum;
    }
  }

  lemma {:induction false} NoneBelowZero(keys: seq<nat>)
    ensures NumIn(keys, 0, 0) == 0
  {
    if keys != [] { NoneBelowZero(keys[..|keys| - 1]); }
  }

  /** Moves s to dst, bucket by bucket and in order within each; counts is left with where the buckets start. */
  method RadixStep<T>(s: seq<T>, dst: array<T>, lo: nat, keys: seq<nat>, m: nat) returns (counts: array<nat>)
    requires lo + |s| <= dst.Length && |keys| == |s| && forall i :: 0 <= i < |keys| ==> keys[i] < m
    modifies dst
    ensures fresh(counts) && counts.Length == m && OnlyWrites(dst, lo, |s|)
    ensures forall k: nat :: k < m ==> counts[k] == First(keys, k) && Placed(dst[..], lo, s, keys, k, 0)
  {
    counts := new nat[m];
    CountKeys(keys, counts, m);
    SumCounts(keys, counts, m);
    assert keys[..|keys|] == keys;
    var j: nat := |s|;
    while j > 0
      invariant j <= |s| && OnlyWrites(dst, lo, |s|)
      invariant forall k: nat :: k < m ==> counts[k] == First(keys, k) + HowMany(keys[..j], k)
      invariant forall k: nat :: k < m ==> Placed(dst[..], lo, s, keys, k, HowMany(keys[..j], k))
    {
      PlaceNext(s, dst, lo, keys, counts, m, j - 1, j);
      j := j - 1;
    }
  }

  /** Moves the element at j to its place. */
  method PlaceNext<T>(s: seq<T>, dst: array<T>, lo: nat, keys: seq<nat>, counts: array<nat>, m: nat, j: nat, end: nat)
    requires lo + |s| <= dst.Length && |keys| == |s| && forall i :: 0 <= i < |keys| ==> keys[i] < m
    requires counts.Length == m && j + 1 == end <= |s| && (counts as object) != (dst as object)
    requires forall k: nat :: k < m ==> counts[k] == First(keys, k) + HowMany(keys[..end], k)
    requires forall k: nat :: k < m ==> Placed(dst[..], lo, s, keys, k, HowMany(keys[..end], k))
    modifies dst, counts
    ensures OnlyWrites(dst, lo, |s|)
    ensures forall k: nat :: k < m ==> counts[k] == First(keys, k) + HowMany(keys[..j], k)
    ensures forall k: nat :: k < m ==> Placed(dst[..], lo, s, keys, k, HowMany(keys[..j], k))
  {
    assert keys[..end][..j] == keys[..j];
    ghost var d := dst[..];
    PickAt(s, keys, j, keys[j], keys[j] + 1);
    FirstInside(keys, keys[j]);
    counts[keys[j]] := counts[keys[j]] - 1;
    dst[lo + counts[keys[j]]] := s[j];
    forall k: nat | k < m ensures Placed(dst[..], lo, s, keys, k, HowMany(keys[..j], k)) {
      PlaceOne(d, dst[..], lo, s, keys, j, k);
    }
  }
}
