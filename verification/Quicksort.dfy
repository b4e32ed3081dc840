/** The in-place sorts of include/flock-lib/parlay/internal/quicksort.h, on the range [lo, hi) of an
    array and for any strict weak order. */
module Quicksort {
  import opened Ordering

  method Swap<T>(a: array<T>, i: nat, j: nat)
    requires i < a.Length && j < a.Length
    modifies a
    ensures Exchanged(old(a[..]), a[..], i, j)
  {
    a[i], a[j] := a[j], a[i];
  }

  /** Everything but the element on its way down is in order, and that element is not below those it passed. */
  ghost predicate Sifting<T>(less: (T, T) -> bool, s: seq<T>, lo: nat, j: nat, i: nat)
    requires lo <= j <= i < |s|
  {
    && (forall k, l :: lo <= k < l <= i && k != j && l != j ==> !less(s[l], s[k]))
    && (forall l :: j < l <= i ==> !less(s[l], s[j]))
  }

  lemma SiftDown<T(!new)>(less: (T, T) -> bool, s: seq<T>, s': seq<T>, lo: nat, j: nat, i: nat)
    requires StrictWeak(less) && lo < j <= i < |s| && Sifting(less, s, lo, j, i) && less(s[j], s[j - 1])
    requires Exchanged(s, s', j - 1, j)
    ensures Sifting(less, s', lo, j - 1, i)
  {
    Asymmetric(less, s[j], s[j - 1]);
  }

  lemma SiftDone<T(!new)>(less: (T, T) -> bool, s: seq<T>, lo: nat, j: nat, i: nat)
    requires StrictWeak(less) && lo <= j <= i < |s| && Sifting(less, s, lo, j, i)
    requires j > lo ==> !less(s[j], s[j - 1])
    ensures SortedRange(less, s, lo, i + 1)
  {
    forall k, l | lo <= k < l <= i ensures !less(s[l], s[k]) {
      if l == j && k < j - 1 { Transitive(less, s[k], s[j - 1], s[j]); }
    }
  }

  /** Sorts, stably: the insertion sort moves an element only past larger ones. */
  method InsertionSort<T(!new)>(a: array<T>, lo: nat, hi: nat, less: (T, T) -> bool)
    requires lo <= hi <= a.Length && StrictWeak(less)
    modifies a
    ensures Shuffled(old(a[..]), a[..], lo, hi) && SortedRange(less, a[..], lo, hi)
    ensures StableOf(less, old(a[..]), a[..])
  {
    var i := lo + 1;
    while i < hi
      invariant lo < i && (i <= hi || i == lo + 1)
      invariant Shuffled(old(a[..]), a[..], lo, hi) && StableOf(less, old(a[..]), a[..])
      invariant SortedRange(less, a[..], lo, if i <= hi then i else hi)
    {
      var j := i;
      while j > lo && less(a[j], a[j - 1])
        invariant lo <= j <= i
        invariant Shuffled(old(a[..]), a[..], lo, hi) && StableOf(less, old(a[..]), a[..])
        invariant Sifting(less, a[..], lo, j, i)
      {
        ghost var s := a[..];
        Swap(a, j - 1, j);
        SiftDown(less, s, a[..], lo, j, i);
        ExchangeStable(less, s, a[..], j - 1);
        Swapped(s, a[..], j - 1, j, lo, hi);
        j := j - 1;
      }
      SiftDone(less, a[..], lo, j, i);
      i := i + 1;
    }
  }

  /** The number of elements that sort5 sorts; the second and the fourth of them become the pivots. */
  const SAMPLE: nat := 5

  /** Sorts a sample of five, picked by a hash, to the front. */
  method Sort5<T(!new)>(a: array<T>, lo: nat, hi: nat, less: (T, T) -> bool, hash: nat -> nat)
    requires lo + SAMPLE <= hi <= a.Length && StrictWeak(less)
    modifies a
    ensures Shuffled(old(a[..]), a[..], lo, hi) && SortedRange(less, a[..], lo, lo + SAMPLE)
  {
    for i := 0 to SAMPLE
      invariant Shuffled(old(a[..]), a[..], lo, hi)
    {
      var j := i + hash(i) % (hi - lo - i);
      ghost var s := a[..];
      Swap(a, lo + i, lo + j);
      Swapped(s, a[..], lo + i, lo + j, lo, hi);
    }
    ghost var picked := a[..];
    InsertionSort(a, lo, lo + SAMPLE, less);
    ShuffledOn(old(a[..]), picked, a[..], lo, lo, lo + SAMPLE, hi);
  }

  /** Each scan of the partition has an element to stop it. */
  ghost predicate Guarded<T>(less: (T, T) -> bool, s: seq<T>, lo: nat, hi: nat) {
    && lo + 2 <= hi <= |s| && !less(s[lo + 1], s[lo])
    && (exists l :: lo + 2 <= l < hi && !less(s[l], s[lo]))
    && (exists r :: lo + 2 <= r < hi && !less(s[lo + 1], s[r]))
  }

  lemma PivotsGuard<T(!new)>(less: (T, T) -> bool, s: seq<T>, s': seq<T>, s'': seq<T>, lo: nat, hi: nat)
    requires lo + SAMPLE <= hi <= |s| && SortedRange(less, s, lo, lo + SAMPLE)
    requires Exchanged(s, s', lo, lo + 1) && Exchanged(s', s'', lo + 1, lo + 3)
    ensures Guarded(less, s'', lo, hi)
  {
    assert s''[lo] == s[lo + 1] && s''[lo + 1] == s[lo + 3] && s''[lo + 2] == s[lo + 2];
    assert !less(s''[lo + 2], s''[lo]) && !less(s''[lo + 1], s''[lo + 2]);
  }

  /** Puts the pivots in front, in order, and leaves behind them an element to stop each scan. */
  method PlacePivots<T(!new)>(a: array<T>, lo: nat, hi: nat, less: (T, T) -> bool, hash: nat -> nat)
    requires lo + SAMPLE <= hi <= a.Length && StrictWeak(less)
    modifies a
    ensures Shuffled(old(a[..]), a[..], lo, hi) && Guarded(less, a[..], lo, hi)
  {
    Sort5(a, lo, hi, less, hash);
    ghost var s := a[..];
    Swap(a, lo, lo + 1);
    ghost var s' := a[..];
    Swap(a, lo + 1, lo + 3);
    PivotsGuard(less, s, s', a[..], lo, hi);
    Swapped(s, s', lo, lo + 1, lo, hi);
    Swapped(s', a[..], lo + 1, lo + 3, lo, hi);
  }

  /** Behind the pivots, up to l, the elements are below the first; from there up to m they are between
      the pivots; and those after r are above the second. */
  ghost predicate Parted<T>(less: (T, T) -> bool, s: seq<T>, lo: nat, l: nat, m: nat, r: nat, hi: nat) {
    && lo + 2 <= l <= m <= r + 1 <= hi <= |s|
    && (forall k :: lo + 2 <= k < l ==> less(s[k], s[lo]))
    && (forall k :: l <= k < m ==> !less(s[k], s[lo]) && !less(s[lo + 1], s[k]))
    && (forall k :: r < k < hi ==> less(s[lo + 1], s[k]))
  }

  /** An element above the second pivot is exchanged with the last one that is not, which may in turn
      have to go below the first. */
  method ExchangeHigh<T(!new)>(a: array<T>, lo: nat, l0: nat, m: nat, r: nat, hi: nat, less: (T, T) -> bool)
      returns (l: nat)
    requires hi <= a.Length && Parted(less, a[..], lo, l0, m, r, hi) && m <= r && !less(a[lo + 1], a[r])
    requires StrictWeak(less) && !less(a[lo + 1], a[lo]) && less(a[lo + 1], a[m])
    modifies a
    ensures Parted(less, a[..], lo, l, m + 1, r - 1, hi) && m <= r - 1 && !less(a[lo + 1], a[m])
    ensures a[lo] == old(a[lo]) && a[lo + 1] == old(a[lo + 1]) && Shuffled(old(a[..]), a[..], lo, hi)
  {
    l := l0;
    Swap(a, m, r);
    Swapped(old(a[..]), a[..], m, r, lo, hi);
    if less(a[m], a[lo]) {
      Transitive(less, a[m], a[lo], a[lo + 1]);
      ghost var s := a[..];
      Swap(a, l, m);
      Swapped(s, a[..], l, m, lo, hi);
      l := l + 1;
    }
  }

  /** One round of the partition: the element at m is put where it belongs. */
  method Place<T(!new)>(a: array<T>, lo: nat, l0: nat, m: nat, r0: nat, hi: nat, less: (T, T) -> bool)
      returns (l: nat, r: nat)
    requires hi <= a.Length && Parted(less, a[..], lo, l0, m, r0, hi) && m <= r0 && !less(a[lo + 1], a[r0])
    requires StrictWeak(less) && !less(a[lo + 1], a[lo])
    modifies a
    ensures Parted(less, a[..], lo, l, m + 1, r, hi) && r <= r0
    ensures a[lo] == old(a[lo]) && a[lo + 1] == old(a[lo + 1]) && (m + 1 <= r ==> !less(a[lo + 1], a[r]))
    ensures Shuffled(old(a[..]), a[..], lo, hi)
  {
    l, r := l0, r0;
    if less(a[m], a[lo]) {
      Swap(a, m, l);
      Swapped(old(a[..]), a[..], m, l, lo, hi);
      l := l + 1;
    } else if less(a[lo + 1], a[m]) {
      l := ExchangeHigh(a, lo, l, m, r, hi, less);
      r := Scan(a, lo, l, m, r - 1, hi, less);
    }
  }

  /** The scan from the right, which runs into the element just placed if into no other. */
  method Scan<T(!new)>(a: array<T>, lo: nat, l: nat, m: nat, r0: nat, hi: nat, less: (T, T) -> bool) returns (r: nat)
    requires hi <= a.Length && Parted(less, a[..], lo, l, m + 1, r0, hi) && m <= r0 && !less(a[lo + 1], a[m])
    ensures m <= r <= r0 && Parted(less, a[..], lo, l, m + 1, r, hi) && !less(a[lo + 1], a[r])
  {
    r := r0;
    while less(a[lo + 1], a[r])
      invariant m <= r <= r0 && Parted(less, a[..], lo, l, m + 1, r, hi)
      decreases r
    {
      r := r - 1;
    }
  }

  /** What split3 promises: the pivots at l and m - 1, with what is below, between and above them. */
  ghost predicate ThreeWay<T>(less: (T, T) -> bool, s: seq<T>, lo: nat, l: nat, m: nat, hi: nat) {
    && lo <= l < m - 1 < hi <= |s| && Arranged(less, s, lo, l, m, hi, s[l], s[m - 1])
  }

  ghost predicate Arranged<T>(less: (T, T) -> bool, s: seq<T>, lo: nat, l: nat, m: nat, hi: nat, p1: T, p2: T) {
    && lo <= l < m <= hi <= |s| && s[l] == p1 && !less(p2, p1)
    && (forall k :: lo <= k < l ==> less(s[k], p1))
    && (forall k :: l < k < m ==> !less(s[k], p1) && !less(p2, s[k]))
    && (forall k :: m <= k < hi ==> less(p2, s[k]))
  }

  lemma PivotsHome<T(!new)>(less: (T, T) -> bool, s: seq<T>, s1: seq<T>, s2: seq<T>, s3: seq<T>,
                            lo: nat, l: nat, m: nat, r: nat, hi: nat)
    requires Parted(less, s, lo, l, m, r, hi) && m == r + 1 && !less(s[lo + 1], s[lo]) && StrictWeak(less)
    requires Exchanged(s, s1, lo + 1, l - 1) && Exchanged(s1, s2, lo, l - 2) && Exchanged(s2, s3, l - 1, r)
    ensures ThreeWay(less, s3, lo, l - 2, m, hi) && s3[l - 2] == s[lo] && s3[m - 1] == s[lo + 1]
  {
    Asymmetric(less, s[lo], s[lo + 1]);
    assert LawsAt(less, s[lo + 1], s[lo + 1], s[lo + 1]);
  }

  /** Dual-pivot partition.  The loops run without bounds checks. */
  method Split3<T(!new)>(a: array<T>, lo: nat, hi: nat, less: (T, T) -> bool, hash: nat -> nat)
      returns (l: nat, m: nat, pivotsEqual: bool)
    requires lo + SAMPLE <= hi <= a.Length && StrictWeak(less)
    modifies a
    ensures Shuffled(old(a[..]), a[..], lo, hi) && ThreeWay(less, a[..], lo, l, m, hi)
    ensures pivotsEqual <==> !less(a[l], a[m - 1])
  {
    PlacePivots(a, lo, hi, less, hash);
    pivotsEqual := !less(a[lo], a[lo + 1]);
    var r: nat;
    l, r := FirstScans(a, lo, hi, less);
    m := l;
    ghost var p1, p2 := a[lo], a[lo + 1];
    while m <= r
      invariant Parted(less, a[..], lo, l, m, r, hi) && a[lo] == p1 && a[lo + 1] == p2
      invariant m <= r ==> !less(p2, a[r])
      invariant Shuffled(old(a[..]), a[..], lo, hi)
    {
      l, r := Place(a, lo, l, m, r, hi, less);
      m := m + 1;
    }
    l := MovePivots(a, lo, l, m, r, hi, less);
  }

  method FirstScans<T(!new)>(a: array<T>, lo: nat, hi: nat, less: (T, T) -> bool) returns (l: nat, r: nat)
    requires hi <= a.Length && Guarded(less, a[..], lo, hi) && StrictWeak(less)
    ensures Parted(less, a[..], lo, l, l, r, hi) && (l <= r ==> !less(a[lo + 1], a[r]))
  {
    ghost var stop :| lo + 2 <= stop < hi && !less(a[..][stop], a[lo]);
    l := lo + 2;
    while less(a[l], a[lo])
      invariant lo + 2 <= l <= stop && forall k :: lo + 2 <= k < l ==> less(a[k], a[lo])
      decreases stop - l
    {
      l := l + 1;
    }
    ghost var last :| lo + 2 <= last < hi && !less(a[lo + 1], a[..][last]);
    r := hi - 1;
    while less(a[lo + 1], a[r])
      invariant last <= r < hi && forall k :: r < k < hi ==> less(a[lo + 1], a[k])
      decreases r
    {
      r := r - 1;
    }
    if lo + 2 < l {
      Transitive(less, a[l - 1], a[lo], a[lo + 1]);
      Asymmetric(less, a[l - 1], a[lo + 1]);
      assert l - 1 <= r;
    }
  }

  method MovePivots<T(!new)>(a: array<T>, lo: nat, l0: nat, m: nat, r: nat, hi: nat, less: (T, T) -> bool)
      returns (l: nat)
    requires hi <= a.Length && Parted(less, a[..], lo, l0, m, r, hi) && m == r + 1 && !less(a[lo + 1], a[lo])
    requires StrictWeak(less)
    modifies a
    ensures Shuffled(old(a[..]), a[..], lo, hi) && ThreeWay(less, a[..], lo, l, m, hi)
    ensures a[l] == old(a[lo]) && a[m - 1] == old(a[lo + 1])
  {
    l := l0 - 2;
    ghost var s := a[..];
    Swap(a, lo + 1, l + 1);
    ghost var s1 := a[..];
    Swap(a, lo, l);
    ghost var s2 := a[..];
    Swap(a, l + 1, r);
    PivotsHome(less, s, s1, s2, a[..], lo, l0, m, r, hi);
    Swapped(s, s1, lo + 1, l + 1, lo, hi);
    Swapped(s1, s2, lo, l, lo, hi);
    Swapped(s2, a[..], l + 1, r, lo, hi);
  }

  // ---------------------------------------------------------------- the sort

  predicate BaseCase(large: bool, n: nat) {
    if large then n < 16 else n < 24
  }

  /** No element of [mid, hi) is below one of [lo, mid). */
  ghost predicate Below<T>(less: (T, T) -> bool, s: seq<T>, lo: nat, mid: nat, hi: nat) {
    && lo <= mid <= hi <= |s|
    && forall i, j :: lo <= i < mid <= j < hi ==> !less(s[j], s[i])
  }

  lemma KeptAll<T>(s: seq<T>, s': seq<T>, lo: nat, hi: nat, p: T -> bool)
    requires Shuffled(s, s', lo, hi) && hi <= |s| && forall k :: lo <= k < hi ==> p(s[k])
    ensures forall k :: lo <= k < hi ==> p(s'[k])
  {
    forall k | lo <= k < hi ensures p(s'[k]) {
      var m := Origin(s, s', lo, hi, k);
    }
  }

  lemma BelowKept<T>(less: (T, T) -> bool, s: seq<T>, s': seq<T>, lo: nat, mid: nat, hi: nat)
    requires Below(less, s, lo, mid, hi) && Shuffled(s, s', lo, mid)
    ensures Below(less, s', lo, mid, hi)
  {
    forall j | mid <= j < hi ensures forall i :: lo <= i < mid ==> !less(s'[j], s'[i]) {
      KeptAll(s, s', lo, mid, x => !less(s[j], x));
    }
  }

  lemma ArrangedKept<T>(less: (T, T) -> bool, s: seq<T>, s': seq<T>, lo: nat, l: nat, m: nat, hi: nat, p1: T, p2: T)
    requires Arranged(less, s, lo, l, m, hi, p1, p2)
    requires Shuffled(s, s', lo, l) || Shuffled(s, s', l + 1, m) || Shuffled(s, s', m, hi)
    ensures Arranged(less, s', lo, l, m, hi, p1, p2)
  {
    if Shuffled(s, s', lo, l) { KeptAll(s, s', lo, l, x => less(x, p1)); }
    else if Shuffled(s, s', l + 1, m) { KeptAll(s, s', l + 1, m, x => !less(x, p1) && !less(p2, x)); }
    else { KeptAll(s, s', m, hi, x => less(p2, x)); }
  }

  /** The parts put together: everything from the first pivot on is in order. */
  lemma Joined<T(!new)>(less: (T, T) -> bool, s: seq<T>, lo: nat, l: nat, m: nat, mid: nat, hi: nat, p1: T, p2: T)
    requires StrictWeak(less) && Arranged(less, s, lo, l, m, mid, p1, p2) && Below(less, s, lo, mid, hi)
    requires SortedRange(less, s, l + 1, m) && SortedRange(less, s, m, mid) && SortedRange(less, s, mid, hi)
    ensures SortedRange(less, s, l, hi) && Below(less, s, lo, l, hi)
  {
    forall i, j | l <= i < j < hi ensures !less(s[j], s[i]) {
      InOrder(less, s, lo, l, m, mid, hi, p1, p2, i, j);
    }
    forall i, j | lo <= i < l <= j < hi ensures !less(s[j], s[i]) {
      InOrder(less, s, lo, l, m, mid, hi, p1, p2, i, j);
    }
  }

  /** Any two elements of different parts are in order. */
  lemma InOrder<T(!new)>(less: (T, T) -> bool, s: seq<T>, lo: nat, l: nat, m: nat, mid: nat, hi: nat, p1: T, p2: T,
                         i: nat, j: nat)
    requires StrictWeak(less) && Arranged(less, s, lo, l, m, mid, p1, p2) && Below(less, s, lo, mid, hi)
    requires SortedRange(less, s, l + 1, m) && SortedRange(less, s, m, mid) && SortedRange(less, s, mid, hi)
    requires lo <= i < j < hi && l <= j
    ensures !less(s[j], s[i])
  {
    Asymmetric(less, s[i], s[j]);
    if j < mid {
      if m <= j && i < m {
        Transitive(less, p1, p2, s[j]);
        Transitive(less, s[i], p2, s[j]);
        Transitive(less, s[i], p1, s[j]);
      } else if i < l {
        Transitive(less, s[i], p1, s[j]);
      }
    }
  }

  /** A middle part between equal pivots is in order as it is. */
  lemma EqualMiddle<T(!new)>(less: (T, T) -> bool, s: seq<T>, lo: nat, l: nat, m: nat, hi: nat, p1: T, p2: T)
    requires StrictWeak(less) && Arranged(less, s, lo, l, m, hi, p1, p2) && !less(p1, p2)
    ensures SortedRange(less, s, l + 1, m)
  {
    forall i, j | l < i < j < m ensures !less(s[j], s[i]) {
      Transitive(less, s[i], p2, p1);
      Transitive(less, s[i], p1, s[j]);
    }
  }

  /** Sorts what split3 has put between and above the pivots. */
  method SortMiddleAndRight<T(!new)>(a: array<T>, lo: nat, l: nat, m: nat, hi: nat, less: (T, T) -> bool,
                                     hash: nat -> nat, large: bool, pivotsEqual: bool)
    requires ThreeWay(less, a[..], lo, l, m, hi) && StrictWeak(less) && (pivotsEqual <==> !less(a[l], a[m - 1]))
    modifies a
    ensures lo <= l < m <= hi <= a.Length && Shuffled(old(a[..]), a[..], lo, hi)
    ensures Arranged(less, a[..], lo, l, m, hi, old(a[l]), old(a[m - 1]))
    ensures SortedRange(less, a[..], l + 1, m) && SortedRange(less, a[..], m, hi)
    decreases hi - lo, 0
  {
    ghost var p1, p2 := a[l], a[m - 1];
    if pivotsEqual {
      EqualMiddle(less, a[..], lo, l, m, hi, p1, p2);
    } else {
      QuicksortSerial(a, l + 1, m, less, hash, large);
      ArrangedKept(less, old(a[..]), a[..], lo, l, m, hi, p1, p2);
    }
    ghost var s := a[..];
    QuicksortSerial(a, m, hi, less, hash, large);
    ArrangedKept(less, s, a[..], lo, l, m, hi, p1, p2);
    ShuffledOn(old(a[..]), s, a[..], lo, m, hi, hi);
  }

  method QuicksortSerial<T(!new)>(a: array<T>, lo: nat, hi: nat, less: (T, T) -> bool, hash: nat -> nat, large: bool)
    requires lo <= hi <= a.Length && StrictWeak(less)
    modifies a
    ensures Shuffled(old(a[..]), a[..], lo, hi) && SortedRange(less, a[..], lo, hi)
    decreases hi - lo, 1
  {
    var end := hi;
    while !BaseCase(large, end - lo)
      invariant lo <= end <= hi && Shuffled(old(a[..]), a[..], lo, hi)
      invariant SortedRange(less, a[..], end, hi) && Below(less, a[..], lo, end, hi)
      decreases end
    {
      ghost var s := a[..];
      var l, m, pivotsEqual := Split3(a, lo, end, less, hash);
      ghost var p1, p2 := a[l], a[m - 1];
      SortMiddleAndRight(a, lo, l, m, end, less, hash, large, pivotsEqual);
      BelowKept(less, s, a[..], lo, end, hi);
      Joined(less, a[..], lo, l, m, end, hi, p1, p2);
      end := l;
    }
    ghost var s := a[..];
    InsertionSort(a, lo, end, less);
    BelowKept(less, s, a[..], lo, end, hi);
  }

  const SERIAL_BELOW: nat := 256

  /** The sort that runs its parts in parallel: they are disjoint ranges, taken here one after another. */
  method Sort<T(!new)>(a: array<T>, lo: nat, hi: nat, less: (T, T) -> bool, hash: nat -> nat, large: bool)
    requires lo <= hi <= a.Length && StrictWeak(less)
    modifies a
    ensures Shuffled(old(a[..]), a[..], lo, hi) && SortedRange(less, a[..], lo, hi)
    decreases hi - lo
  {
    if hi - lo < SERIAL_BELOW {
      QuicksortSerial(a, lo, hi, less, hash, large);
    } else {
      var l, m, pivotsEqual := Split3(a, lo, hi, less, hash);
      ghost var p1, p2, s := a[l], a[m - 1], a[..];
      Sort(a, lo, l, less, hash, large);
      ArrangedKept(less, s, a[..], lo, l, m, hi, p1, p2);
      ghost var s1 := a[..];
      if pivotsEqual {
        EqualMiddle(less, a[..], lo, l, m, hi, p1, p2);
      } else {
        Sort(a, l + 1, m, less, hash, large);
        ArrangedKept(less, s1, a[..], lo, l, m, hi, p1, p2);
      }
      ghost var s2 := a[..];
      Sort(a, m, hi, less, hash, large);
      ArrangedKept(less, s2, a[..], lo, l, m, hi, p1, p2);
      Joined(less, a[..], lo, l, m, hi, hi, p1, p2);
    }
  }
}
