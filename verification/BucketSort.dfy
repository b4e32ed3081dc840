/** The bucket sort of include/flock-lib/parlay/internal/bucket_sort.h: elements are classified by a
    tree of sampled pivots, moved bucket by bucket to the other array, and sorted there in turn. */
module BucketSort {
  import opened Ordering
  import opened PivotTree
  import opened Merge
  import opened Radix
  import MergeSort
  import Quicksort

  // ---------------------------------------------------------------- choosing buckets

  /** The order of indices by the elements they stand for. */
  function ByElement<T>(s: seq<T>, less: (T, T) -> bool): (nat, nat) -> bool
    requires s != []
  {
    (i: nat, j: nat) => less(s[i % |s|], s[j % |s|])
  }

  lemma ByElementWeak<T(!new)>(s: seq<T>, less: (T, T) -> bool)
    requires s != [] && StrictWeak(less)
    ensures StrictWeak(ByElement(s, less))
  {
    var order := ByElement(s, less);
    forall i: nat, j: nat, k: nat ensures LawsAt(order, i, j, k) {
      assert LawsAt(less, s[i % |s|], s[j % |s|], s[k % |s|]);
    }
  }

  /** What the buckets are for: lower ones hold lower elements, and no bucket holds all of them. */
  ghost predicate Classified<T>(less: (T, T) -> bool, s: seq<T>, keys: seq<nat>, m: nat) {
    && |keys| == |s| && (forall i :: 0 <= i < |keys| ==> keys[i] < m)
    && (forall i, j :: 0 <= i < |s| && 0 <= j < |s| && keys[i] < keys[j] ==> less(s[i], s[j]))
    && (exists i, j :: 0 <= i < |keys| && 0 <= j < |keys| && keys[i] != keys[j])
  }

  lemma PivotsClassify<T(!new)>(less: (T, T) -> bool, s: seq<T>, pivots: seq<nat>, keys: seq<nat>)
    requires StrictWeak(less) && SortedPivots(less, s, pivots) && pivots != [] && |keys| == |s|
    requires less(s[pivots[0]], s[pivots[|pivots| - 1]])
    requires forall i :: 0 <= i < |s| ==> IsBucket(less, s, pivots, s[i], keys[i])
    ensures Classified(less, s, keys, |pivots| + 1)
  {
    forall i, j | 0 <= i < |s| && 0 <= j < |s| && keys[i] < keys[j] ensures less(s[i], s[j]) {
      var p := s[pivots[keys[i]]];
      assert less(s[i], p) && !less(s[j], p);
      Transitive(less, s[i], p, s[j]);
    }
    var first, last := pivots[0], pivots[|pivots| - 1];
    Asymmetric(less, s[last], s[last]);
    assert keys[first] <= |pivots| - 1;
    assert keys[last] == |pivots| by { NoneAbove(less, s, pivots, keys[last]); }
    assert keys[first] != keys[last];
  }

  /** No pivot is above the last one. */
  lemma NoneAbove<T(!new)>(less: (T, T) -> bool, s: seq<T>, pivots: seq<nat>, k: nat)
    requires StrictWeak(less) && SortedPivots(less, s, pivots) && pivots != []
    requires IsBucket(less, s, pivots, s[pivots[|pivots| - 1]], k)
    ensures k == |pivots|
  {
    var last := |pivots| - 1;
    Asymmetric(less, s[pivots[last]], s[pivots[last]]);
  }

  /** A sorted sample of the indices of s. */
  method Sample<T(!new)>(s: seq<T>, size: nat, less: (T, T) -> bool, hash: nat -> nat) returns (sample: array<nat>)
    requires s != [] && StrictWeak(less)
    ensures fresh(sample) && sample.Length == size && IndicesOf(sample[..], |s|)
    ensures SortedRange(ByElement(s, less), sample[..], 0, size)
  {
    sample := new nat[size](i requires 0 <= i => hash(i) % |s|);
    ghost var drawn := sample[..];
    ByElementWeak(s, less);
    Quicksort.Sort(sample, 0, size, ByElement(s, less), hash, false);
    Quicksort.KeptAll(drawn, sample[..], 0, size, (x: nat) => x < |s|);
  }

  /** Every step-th index of the sample becomes a pivot. */
  method ChoosePivots<T(!new)>(s: seq<T>, sample: array<nat>, step: nat, numPivots: nat, less: (T, T) -> bool)
      returns (pivots: seq<nat>)
    requires s != [] && step > 0 && step * (numPivots + 1) <= sample.Length && IndicesOf(sample[..], |s|)
    requires SortedRange(ByElement(s, less), sample[..], 0, sample.Length)
    ensures |pivots| == numPivots && SortedPivots(less, s, pivots)
  {
    pivots := [];
    ghost var picked: seq<nat> := [];
    for i := 0 to numPivots
      invariant |pivots| == |picked| == i && (i > 0 ==> picked[i - 1] == step * i)
      invariant forall k :: 0 <= k < i ==> picked[k] < sample.Length && pivots[k] == sample[picked[k]]
      invariant forall k :: 0 <= k < i - 1 ==> picked[k] < picked[i - 1]
      invariant forall k, l :: 0 <= k < l < i ==> picked[k] < picked[l]
    {
      var next := step * (i + 1);
      pivots := pivots + [sample[next]];
      picked := picked + [next];
    }
    forall i, j | 0 <= i < j < numPivots ensures !less(s[pivots[j]], s[pivots[i]]) {
      InOrderBy(s, less, sample[..], picked[i], picked[j]);
    }
  }

  lemma InOrderBy<T(!new)>(s: seq<T>, less: (T, T) -> bool, sample: seq<nat>, i: nat, j: nat)
    requires s != [] && i < j < |sample| && IndicesOf(sample, |s|)
    requires SortedRange(ByElement(s, less), sample, 0, |sample|)
    ensures !less(s[sample[j]], s[sample[i]])
  {
    var order := ByElement(s, less);
    assert !order(sample[j], sample[i]);
    assert sample[j] % |s| == sample[j] && sample[i] % |s| == sample[i];
  }

  /** Classifies the elements of s, unless the lowest and the highest of the pivots are equivalent. */
  method GetBuckets<T(!new)>(s: seq<T>, less: (T, T) -> bool, hash: nat -> nat, rounds: nat)
      returns (allEqual: bool, buckets: array<nat>, ghost pivots: seq<nat>)
    requires s != [] && StrictWeak(less) && rounds > 0
    ensures fresh(buckets) && |pivots| == Pow2(rounds) - 1 > 0 && SortedPivots(less, s, pivots)
    ensures allEqual <==> !less(s[pivots[0]], s[pivots[|pivots| - 1]])
    ensures !allEqual ==> buckets.Length == |s|
                          && forall i :: 0 <= i < |s| ==> IsBucket(less, s, pivots, s[i], buckets[i])
  {
    var n := |s|;
    var numBuckets := Pow2(rounds);
    var overSample := 1 + n / (numBuckets * 400);
    var numPivots := numBuckets - 1;
    var sample := Sample(s, numBuckets * overSample, less, hash);
    var chosen := ChoosePivots(s, sample, overSample, numPivots, less);
    pivots := chosen;
    allEqual := !less(s[chosen[0]], s[chosen[numPivots - 1]]);
    buckets := new nat[n];
    if !allEqual {
      ToBalancedTree(chosen, sample, 0, 0, numPivots, rounds);
      DescendAll(s, sample, buckets, less, rounds, pivots);
    }
  }

  method DescendAll<T(!new)>(s: seq<T>, tree: array<nat>, buckets: array<nat>, less: (T, T) -> bool, rounds: nat,
                             ghost pivots: seq<nat>)
    requires |pivots| == Pow2(rounds) - 1 && Planted(tree[..], pivots, rounds, 0) && buckets.Length == |s|
    requires SortedPivots(less, s, pivots) && StrictWeak(less) && buckets != tree
    modifies buckets
    ensures forall i :: 0 <= i < |s| ==> IsBucket(less, s, pivots, s[i], buckets[i])
  {
    ghost var planted := tree[..];
    for i := 0 to |s|
      invariant forall k :: 0 <= k < i ==> IsBucket(less, s, pivots, s[k], buckets[k])
      invariant tree[..] == planted
    {
      buckets[i] := Descend(s, s[i], tree, less, rounds, pivots);
    }
  }

  // ---------------------------------------------------------------- putting the buckets together

  /** t is s sorted, and if stable is asked for, with equivalent elements in the order they have in s. */
  ghost predicate SortedBy<T(!new)>(less: (T, T) -> bool, s: seq<T>, t: seq<T>, stable: bool) {
    Sorted(less, t) && |t| == |s| && multiset(t) == multiset(s) && (stable ==> StableOf(less, s, t))
  }

  lemma {:induction false} PickMultiset<T>(s: seq<T>, keys: seq<nat>, j: nat)
    requires |keys| == |s|
    ensures multiset(Pick(s, keys, 0, j + 1)) == multiset(Pick(s, keys, 0, j)) + multiset(Bucket(s, keys, j))
  {
    if s != [] { PickMultiset(s[..|s| - 1], keys[..|s| - 1], j); }
  }

  /** The last element goes to the end of its bucket. */
  lemma PickLast<T>(s: seq<T>, keys: seq<nat>, j: nat)
    requires |keys| == |s| > 0
    ensures var n := |s| - 1;
            var s1, k1, e := s[..n], keys[..n], s[n];
            && Pick(s, keys, 0, j + 1) ==
               (if keys[n] <= j then Pick(s1, k1, 0, j + 1) + [e] else Pick(s1, k1, 0, j + 1))
            && Pick(s, keys, 0, j) == (if keys[n] < j then Pick(s1, k1, 0, j) + [e] else Pick(s1, k1, 0, j))
            && Bucket(s, keys, j) == (if keys[n] == j then Bucket(s1, k1, j) + [e] else Bucket(s1, k1, j))
  {
  }

  /** Elements of one class are all in one bucket. */
  lemma {:induction false} PickClass<T(!new)>(less: (T, T) -> bool, s: seq<T>, keys: seq<nat>, j: nat, x: T)
    requires StrictWeak(less) && |keys| == |s|
    requires forall i, k :: 0 <= i < |s| && 0 <= k < |s| && keys[i] < keys[k] ==> less(s[i], s[k])
    ensures Class(less, x, Pick(s, keys, 0, j + 1))
            == Class(less, x, Pick(s, keys, 0, j)) + Class(less, x, Bucket(s, keys, j))
  {
    if s != [] {
      var n := |s| - 1;
      var s1, k1, e := s[..n], keys[..n], s[n];
      PickClass(less, s1, k1, j, x);
      PickLast(s, keys, j);
      var upTo, lower, same := Pick(s1, k1, 0, j + 1), Pick(s1, k1, 0, j), Bucket(s1, k1, j);
      if keys[n] == j {
        AppendClass(less, x, upTo, lower, same, e);
      } else if keys[n] < j {
        if Equivalent(less, x, e) { NotInBucket(less, s, keys, j, x, n); }
        LowerClass(less, x, upTo, lower, same, e);
      }
    }
  }

  lemma AppendClass<T>(less: (T, T) -> bool, x: T, both: seq<T>, lower: seq<T>, same: seq<T>, e: T)
    requires Class(less, x, both) == Class(less, x, lower) + Class(less, x, same)
    ensures Class(less, x, both + [e]) == Class(less, x, lower) + Class(less, x, same + [e])
  {
    ClassConcat(less, x, both, [e]);
    ClassConcat(less, x, same, [e]);
    var l, m, r := Class(less, x, lower), Class(less, x, same), Class(less, x, [e]);
    assert (l + m) + r == l + (m + r);
  }

  lemma LowerClass<T>(less: (T, T) -> bool, x: T, both: seq<T>, lower: seq<T>, same: seq<T>, e: T)
    requires Class(less, x, both) == Class(less, x, lower) + Class(less, x, same)
    requires Equivalent(less, x, e) ==> Class(less, x, same) == []
    ensures Class(less, x, both + [e]) == Class(less, x, lower + [e]) + Class(less, x, same)
  {
    ClassConcat(less, x, both, [e]);
    ClassConcat(less, x, lower, [e]);
  }

  /** A class with an element in a lower bucket has none in bucket j. */
  lemma NotInBucket<T(!new)>(less: (T, T) -> bool, s: seq<T>, keys: seq<nat>, j: nat, x: T, n: nat)
    requires StrictWeak(less) && |keys| == |s| && n < |s| && keys[n] < j && Equivalent(less, x, s[n])
    requires forall i, k :: 0 <= i < |s| && 0 <= k < |s| && keys[i] < keys[k] ==> less(s[i], s[k])
    ensures Class(less, x, Bucket(s[..n], keys[..n], j)) == []
  {
    var b := Bucket(s[..n], keys[..n], j);
    ClassIn(less, x, b);
    forall p | 0 <= p < |b| ensures !Equivalent(less, x, b[p]) {
      var i := PickFrom(s[..n], keys[..n], j, j + 1, p);
      assert less(s[n], s[i]);
      assert LawsAt(less, s[n], x, s[i]);
    }
  }

  /** One more sorted bucket behind the sorted lower ones. */
  lemma OneBucketMore<T(!new)>(less: (T, T) -> bool, s: seq<T>, keys: seq<nat>, j: nat, m: nat, r: seq<T>, t: seq<T>,
                               stable: bool)
    requires StrictWeak(less) && Classified(less, s, keys, m)
    requires SortedBy(less, Pick(s, keys, 0, j), r, stable) && SortedBy(less, Bucket(s, keys, j), t, stable)
    ensures SortedBy(less, Pick(s, keys, 0, j + 1), r + t, stable)
  {
    PickMultiset(s, keys, j);
    forall a, b | a in r && b in t ensures !less(b, a) { LowerFirst(less, s, keys, j, m, r, t, a, b); }
    if stable {
      forall x ensures Class(less, x, r + t) == Class(less, x, Pick(s, keys, 0, j + 1)) {
        ClassConcat(less, x, r, t);
        PickClass(less, s, keys, j, x);
      }
    }
    NumInSum(keys, 0, j, j + 1);
  }

  lemma LowerFirst<T(!new)>(less: (T, T) -> bool, s: seq<T>, keys: seq<nat>, j: nat, m: nat, r: seq<T>, t: seq<T>,
                            a: T, b: T)
    requires StrictWeak(less) && Classified(less, s, keys, m) && a in r && b in t
    requires multiset(r) == multiset(Pick(s, keys, 0, j)) && multiset(t) == multiset(Bucket(s, keys, j))
    ensures !less(b, a)
  {
    assert a in multiset(r) && b in multiset(t);
    assert a in Pick(s, keys, 0, j) && b in Bucket(s, keys, j);
    var p :| 0 <= p < |Pick(s, keys, 0, j)| && Pick(s, keys, 0, j)[p] == a;
    var q :| 0 <= q < |Bucket(s, keys, j)| && Bucket(s, keys, j)[q] == b;
    var i := PickFrom(s, keys, 0, j, p);
    var k := PickFrom(s, keys, j, j + 1, q);
    Asymmetric(less, a, b);
  }

  // ---------------------------------------------------------------- the sort

  const BITS: nat := 4
  const NUM_BUCKETS: nat := 16

  /** Sorts [lo, hi) of a, into a itself or into b. */
  method BaseSort<T(!new)>(a: array<T>, b: array<T>, lo: nat, hi: nat, less: (T, T) -> bool, hash: nat -> nat,
                           large: bool, stable: bool, inplace: bool)
    requires lo <= hi <= a.Length && b.Length == a.Length && a != b && StrictWeak(less)
    modifies a, b
    ensures inplace ==> SortedBy(less, old(a[lo..hi]), a[lo..hi], stable)
    ensures !inplace ==> SortedBy(less, old(a[lo..hi]), b[lo..hi], stable)
    ensures OnlyWrites(a, lo, hi - lo) && OnlyWrites(b, lo, hi - lo)
  {
    if stable {
      MergeSort.SortInto(a, b, lo, hi, less, inplace);
      StableIsPermutation(less, old(a[lo..hi]), if inplace then a[lo..hi] else b[lo..hi]);
    } else {
      ghost var s := a[..];
      Quicksort.Sort(a, lo, hi, less, hash, large);
      ShuffledRange(s, a[..], lo, hi);
      MergeSort.SortedSlice(less, a[..], lo, hi);
      assert a[..][lo..hi] == a[lo..hi] && s[lo..hi] == old(a[lo..hi]);
      if !inplace {
        Copy(a[lo..hi], b, lo);
        MergeSort.WrittenSlice(b, lo, a[lo..hi]);
      }
    }
  }

  /** A bucket in place is a slice. */
  lemma PlacedSlice<T>(d: seq<T>, lo: nat, s: seq<T>, keys: seq<nat>, k: nat)
    requires |keys| == |s| && Placed(d, lo, s, keys, k, 0)
    ensures First(keys, k) + HowMany(keys, k) <= |s|
    ensures d[lo + First(keys, k)..lo + First(keys, k) + HowMany(keys, k)] == Bucket(s, keys, k)
  {
    FirstInside(keys, k);
  }

  /** Where the next bucket starts, this one ends. */
  lemma NextFirst(keys: seq<nat>, k: nat, m: nat)
    requires k < m && forall i :: 0 <= i < |keys| ==> keys[i] < m
    ensures First(keys, k) + HowMany(keys, k) == if k == m - 1 then |keys| else First(keys, k + 1)
  {
    NumInSum(keys, 0, k, k + 1);
    NumInAll(keys, m);
  }

  lemma BucketSmaller<T>(less: (T, T) -> bool, s: seq<T>, keys: seq<nat>, m: nat, k: nat)
    requires Classified(less, s, keys, m)
    ensures HowMany(keys, k) < |s|
  {
    var i, j :| 0 <= i < |keys| && 0 <= j < |keys| && keys[i] != keys[j];
    NumInSome(keys, k, if keys[i] != k then i else j);
  }

  method SortInto<T(!new)>(a: array<T>, b: array<T>, lo: nat, hi: nat, less: (T, T) -> bool, hash: nat -> nat,
                           large: bool, stable: bool, inplace: bool)
    requires lo <= hi <= a.Length && b.Length == a.Length && a != b && StrictWeak(less)
    modifies a, b
    ensures inplace ==> SortedBy(less, old(a[lo..hi]), a[lo..hi], stable)
    ensures !inplace ==> SortedBy(less, old(a[lo..hi]), b[lo..hi], stable)
    ensures OnlyWrites(a, lo, hi - lo) && OnlyWrites(b, lo, hi - lo)
    decreases hi - lo, 4
  {
    var n := hi - lo;
    if n < NUM_BUCKETS * 32 {
      BaseSort(a, b, lo, hi, less, hash, large, stable, inplace);
    } else {
      ghost var s := a[lo..hi];
      var allEqual, buckets, pivots := GetBuckets(a[lo..hi], less, hash, BITS);
      if allEqual {
        BaseSort(a, b, lo, hi, less, hash, large, stable, inplace);
      } else {
        PivotsClassify(less, s, pivots, buckets[..]);
        SortBuckets(a, b, lo, hi, less, hash, large, stable, inplace, buckets[..]);
      }
    }
  }

  /** The buckets from the j-th on are where the counting pass has put them. */
  ghost predicate Remaining<T>(d: seq<T>, lo: nat, s: seq<T>, keys: seq<nat>, j: nat)
    requires |keys| == |s|
  {
    forall k: nat :: j <= k < NUM_BUCKETS ==> Placed(d, lo, s, keys, k, 0)
  }

  lemma StaysPlaced<T>(d: seq<T>, d': seq<T>, lo: nat, s: seq<T>, keys: seq<nat>, j: nat, k: nat)
    requires |keys| == |s| && Placed(d, lo, s, keys, k, 0) && j < k && |d'| == |d|
    requires forall q :: 0 <= q < |d| && (q < lo + First(keys, j) || lo + First(keys, j) + HowMany(keys, j) <= q) ==>
               d'[q] == d[q]
    ensures Placed(d', lo, s, keys, k, 0)
  {
    Radix.Apart(keys, j, k);
  }

  /** The slice m is in the array that the result is to be in. */
  ghost predicate InTarget<T>(a: array<T>, b: array<T>, inplace: bool, r: nat, m: seq<T>)
    reads a, b
  {
    if inplace then Written(a, r, m) else Written(b, r, m)
  }

  lemma TargetConcat<T>(a: array<T>, b: array<T>, inplace: bool, r: nat, u: seq<T>, v: seq<T>)
    requires InTarget(a, b, inplace, r, u) && InTarget(a, b, inplace, r + |u|, v)
    ensures InTarget(a, b, inplace, r, u + v)
  {
    if inplace { WrittenConcat(a, r, u, v); } else { WrittenConcat(b, r, u, v); }
  }

  /** Sorts a slice of b into the array that the result is to be in, and says what is there then. */
  method SortSlice<T(!new)>(a: array<T>, b: array<T>, l: nat, r: nat, less: (T, T) -> bool, hash: nat -> nat,
                            large: bool, stable: bool, inplace: bool) returns (ghost t: seq<T>)
    requires l <= r <= a.Length && b.Length == a.Length && a != b && StrictWeak(less)
    modifies a, b
    ensures SortedBy(less, old(b[l..r]), t, stable) && InTarget(a, b, inplace, l, t)
    ensures OnlyWrites(a, l, r - l) && OnlyWrites(b, l, r - l)
    decreases r - l, 5
  {
    SortInto(b, a, l, r, less, hash, large, stable, !inplace);
    if inplace {
      t := a[l..r];
    } else {
      t := b[l..r];
    }
  }

  /** Sorts the j-th bucket, which is in b, into the array that the result is to be in. */
  method SortBucket<T(!new)>(a: array<T>, b: array<T>, lo: nat, ghost hi: nat, less: (T, T) -> bool, hash: nat -> nat,
                             large: bool, stable: bool, inplace: bool, start: nat, end: nat,
                             ghost s: seq<T>, ghost keys: seq<nat>, ghost j: nat) returns (ghost t: seq<T>)
    requires lo <= hi <= a.Length && b.Length == a.Length && a != b && StrictWeak(less) && hi - lo == |s|
    requires Classified(less, s, keys, NUM_BUCKETS) && j < NUM_BUCKETS && Placed(b[..], lo, s, keys, j, 0)
    requires start == First(keys, j) && end == start + HowMany(keys, j) <= |s|
    modifies a, b
    ensures SortedBy(less, Bucket(s, keys, j), t, stable) && InTarget(a, b, inplace, lo + start, t)
    ensures OnlyWrites(a, lo + start, end - start) && OnlyWrites(b, lo + start, end - start)
    decreases hi - lo, 0
  {
    BucketSmaller(less, s, keys, NUM_BUCKETS, j);
    PlacedSlice(b[..], lo, s, keys, j);
    ghost var bucket := b[lo + start..lo + end];
    assert bucket == Bucket(s, keys, j) by { assert bucket == b[..][lo + start..lo + end]; }
    t := SortSlice(a, b, lo + start, lo + end, less, hash, large, stable, inplace);
  }

  /** Where the pass over the buckets stands before the j-th: what is done is sorted and in place. */
  ghost predicate SortedSoFar<T(!new)>(less: (T, T) -> bool, s: seq<T>, keys: seq<nat>, j: nat, done: seq<T>,
                                       stable: bool)
    requires |keys| == |s|
  {
    |done| == First(keys, j) <= |s| && SortedBy(less, Pick(s, keys, 0, j), done, stable)
  }

  lemma NextSorted<T(!new)>(less: (T, T) -> bool, s: seq<T>, keys: seq<nat>, j: nat, done: seq<T>, t: seq<T>,
                            stable: bool)
    requires StrictWeak(less) && Classified(less, s, keys, NUM_BUCKETS) && j < NUM_BUCKETS
    requires SortedSoFar(less, s, keys, j, done, stable) && SortedBy(less, Bucket(s, keys, j), t, stable)
    ensures SortedSoFar(less, s, keys, j + 1, done + t, stable)
  {
    OneBucketMore(less, s, keys, j, NUM_BUCKETS, done, t, stable);
    NumInSum(keys, 0, j, j + 1);
  }

  lemma StillRemaining<T>(d: seq<T>, d': seq<T>, lo: nat, s: seq<T>, keys: seq<nat>, j: nat)
    requires |keys| == |s| && Remaining(d, lo, s, keys, j) && |d'| == |d|
    requires forall q :: 0 <= q < |d| && (q < lo + First(keys, j) || lo + First(keys, j) + HowMany(keys, j) <= q) ==>
               d'[q] == d[q]
    ensures Remaining(d', lo, s, keys, j + 1)
  {
    forall k: nat | j < k < NUM_BUCKETS ensures Placed(d', lo, s, keys, k, 0) { StaysPlaced(d, d', lo, s, keys, j, k); }
  }

  /** Sorts the next bucket behind those that are done. */
  method AddBucket<T(!new)>(a: array<T>, b: array<T>, lo: nat, ghost hi: nat, less: (T, T) -> bool, hash: nat -> nat,
                            large: bool, stable: bool, inplace: bool, start: nat, end: nat,
                            ghost s: seq<T>, ghost keys: seq<nat>, ghost j: nat, ghost done: seq<T>)
      returns (ghost more: seq<T>)
    requires lo <= hi <= a.Length && b.Length == a.Length && a != b && StrictWeak(less) && hi - lo == |s|
    requires Classified(less, s, keys, NUM_BUCKETS) && j < NUM_BUCKETS && Placed(b[..], lo, s, keys, j, 0)
    requires start == First(keys, j) && end == start + HowMany(keys, j) <= |s|
    requires SortedSoFar(less, s, keys, j, done, stable) && InTarget(a, b, inplace, lo, done)
    modifies a, b
    ensures SortedSoFar(less, s, keys, j + 1, more, stable) && InTarget(a, b, inplace, lo, more)
    ensures OnlyWrites(a, lo + start, end - start) && OnlyWrites(b, lo + start, end - start)
    decreases hi - lo, 1
  {
    ghost var t := SortBucket(a, b, lo, hi, less, hash, large, stable, inplace, start, end, s, keys, j);
    TargetConcat(a, b, inplace, lo, done, t);
    NextSorted(less, s, keys, j, done, t, stable);
    more := done + t;
  }

  /** Sorts every bucket. */
  method EachBucket<T(!new)>(a: array<T>, b: array<T>, lo: nat, hi: nat, less: (T, T) -> bool, hash: nat -> nat,
                             large: bool, stable: bool, inplace: bool, counts: seq<nat>,
                             ghost s: seq<T>, ghost keys: seq<nat>) returns (ghost done: seq<T>)
    requires lo <= hi <= a.Length && b.Length == a.Length && a != b && StrictWeak(less) && hi - lo == |s|
    requires Classified(less, s, keys, NUM_BUCKETS) && Remaining(b[..], lo, s, keys, 0)
    requires |counts| == NUM_BUCKETS && forall k: nat :: k < NUM_BUCKETS ==> counts[k] == First(keys, k)
    modifies a, b
    ensures SortedBy(less, s, done, stable) && |done| == |s| && InTarget(a, b, inplace, lo, done)
    ensures OnlyWrites(a, lo, hi - lo) && OnlyWrites(b, lo, hi - lo)
    decreases hi - lo, 2
  {
    done := [];
    EmptyPick(less, s, keys, stable);
    for j := 0 to NUM_BUCKETS
      invariant Remaining(b[..], lo, s, keys, j)
      invariant SortedSoFar(less, s, keys, j, done, stable) && InTarget(a, b, inplace, lo, done)
      invariant OnlyWrites(a, lo, hi - lo) && OnlyWrites(b, lo, hi - lo)
    {
      var start := counts[j];
      var end := if j == NUM_BUCKETS - 1 then hi - lo else counts[j + 1];
      NextFirst(keys, j, NUM_BUCKETS);
      FirstInside(keys, j);
      ghost var d := b[..];
      done := AddBucket(a, b, lo, hi, less, hash, large, stable, inplace, start, end, s, keys, j, done);
      StillRemaining(d, b[..], lo, s, keys, j);
    }
    AllSorted(less, s, keys, done, stable);
  }

  /** Moves the elements to their buckets in b, and sorts every bucket. */
  method SortBuckets<T(!new)>(a: array<T>, b: array<T>, lo: nat, hi: nat, less: (T, T) -> bool, hash: nat -> nat,
                              large: bool, stable: bool, inplace: bool, keys: seq<nat>)
    requires lo <= hi <= a.Length && b.Length == a.Length && a != b && StrictWeak(less)
    requires Classified(less, a[lo..hi], keys, NUM_BUCKETS)
    modifies a, b
    ensures inplace ==> SortedBy(less, old(a[lo..hi]), a[lo..hi], stable)
    ensures !inplace ==> SortedBy(less, old(a[lo..hi]), b[lo..hi], stable)
    ensures OnlyWrites(a, lo, hi - lo) && OnlyWrites(b, lo, hi - lo)
    decreases hi - lo, 3
  {
    ghost var s := a[lo..hi];
    var counts := RadixStep(a[lo..hi], b, lo, keys, NUM_BUCKETS);
    ghost var done := EachBucket(a, b, lo, hi, less, hash, large, stable, inplace, counts[..], s, keys);
    if inplace {
      MergeSort.WrittenSlice(a, lo, done);
      assert a[lo..hi] == done;
    } else {
      MergeSort.WrittenSlice(b, lo, done);
      assert b[lo..hi] == done;
    }
  }

  lemma AllSorted<T(!new)>(less: (T, T) -> bool, s: seq<T>, keys: seq<nat>, done: seq<T>, stable: bool)
    requires Classified(less, s, keys, NUM_BUCKETS) && SortedSoFar(less, s, keys, NUM_BUCKETS, done, stable)
    ensures SortedBy(less, s, done, stable) && |done| == |s|
  {
    PickAll(s, keys, NUM_BUCKETS);
  }

  lemma EmptyPick<T(!new)>(less: (T, T) -> bool, s: seq<T>, keys: seq<nat>, stable: bool)
    requires |keys| == |s|
    ensures Pick(s, keys, 0, 0) == [] && SortedBy(less, Pick(s, keys, 0, 0), [], stable)
  {
    NoneBelowZero(keys);
  }

  /** Sorts an array, with a buffer of its own. */
  method SortInPlace<T(!new,0)>(a: array<T>, less: (T, T) -> bool, hash: nat -> nat, large: bool, stable: bool)
    requires StrictWeak(less)
    modifies a
    ensures SortedBy(less, old(a[..]), a[..], stable)
  {
    var b := new T[a.Length];
    assert a[..] == a[0..a.Length];
    SortInto(a, b, 0, a.Length, less, hash, large, stable, true);
    assert a[..] == a[0..a.Length];
  }
}
