/** Sequences ordered by a strict weak order, and what it means to rearrange one. */
module Ordering {

  /** The laws of a strict weak order, at three elements. */
  predicate LawsAt<T>(less: (T, T) -> bool, x: T, y: T, z: T) {
    && !less(x, x)
    && (less(x, y) && less(y, z) ==> less(x, z))
    && (less(x, z) ==> less(x, y) || less(y, z))
  }

  ghost predicate StrictWeak<T(!new)>(less: (T, T) -> bool) {
    forall x, y, z {:trigger LawsAt(less, x, y, z)} :: LawsAt(less, x, y, z)
  }

  lemma Transitive<T(!new)>(less: (T, T) -> bool, x: T, y: T, z: T)
    requires StrictWeak(less)
    ensures less(x, y) && less(y, z) ==> less(x, z)
    ensures !less(y, x) && !less(z, y) ==> !less(z, x)
    ensures less(x, y) && !less(z, y) ==> less(x, z)
    ensures !less(y, x) && less(y, z) ==> less(x, z)
  {
    assert LawsAt(less, x, y, z) && LawsAt(less, z, y, x) && LawsAt(less, x, z, y) && LawsAt(less, y, x, z);
  }

  lemma Asymmetric<T(!new)>(less: (T, T) -> bool, x: T, y: T)
    requires StrictWeak(less)
    ensures !less(x, x) && !(less(x, y) && less(y, x))
  {
    assert LawsAt(less, x, y, x);
  }

  ghost predicate Sorted<T>(less: (T, T) -> bool, s: seq<T>) {
    SortedRange(less, s, 0, |s|)
  }

  ghost predicate SortedRange<T>(less: (T, T) -> bool, s: seq<T>, lo: nat, hi: nat)
    requires hi <= |s|
  {
    forall i, j :: lo <= i < j < hi ==> !less(s[j], s[i])
  }

  /** s' rearranges the range [lo, hi) of s, and leaves the rest alone. */
  ghost predicate Shuffled<T>(s: seq<T>, s': seq<T>, lo: nat, hi: nat) {
    && |s'| == |s| && multiset(s') == multiset(s)
    && forall k :: 0 <= k < |s| && (k < lo || hi <= k) ==> s'[k] == s[k]
  }

  lemma Cancel<T>(p: multiset<T>, m: multiset<T>, m': multiset<T>, q: multiset<T>)
    requires p + m + q == p + m' + q
    ensures m == m'
  {
    forall x ensures m[x] == m'[x] {
      assert (p + m + q)[x] == p[x] + m[x] + q[x] && (p + m' + q)[x] == p[x] + m'[x] + q[x];
    }
  }

  lemma Parts<T>(s: seq<T>, lo: nat, hi: nat)
    requires lo <= hi <= |s|
    ensures multiset(s) == multiset(s[..lo]) + multiset(s[lo..hi]) + multiset(s[hi..])
  {
    assert s == s[..lo] + s[lo..hi] + s[hi..];
  }

  lemma ShuffledRange<T>(s: seq<T>, s': seq<T>, lo: nat, hi: nat)
    requires Shuffled(s, s', lo, hi) && lo <= hi <= |s|
    ensures multiset(s'[lo..hi]) == multiset(s[lo..hi])
  {
    Parts(s, lo, hi);
    Parts(s', lo, hi);
    assert s'[..lo] == s[..lo] && s'[hi..] == s[hi..];
    Cancel(multiset(s[..lo]), multiset(s[lo..hi]), multiset(s'[lo..hi]), multiset(s[hi..]));
  }

  /** Where an element of a rearranged range came from. */
  lemma Origin<T>(s: seq<T>, s': seq<T>, lo: nat, hi: nat, k: nat) returns (m: nat)
    requires Shuffled(s, s', lo, hi) && lo <= k < hi <= |s|
    ensures lo <= m < hi && s[m] == s'[k]
  {
    ShuffledRange(s, s', lo, hi);
    assert s'[lo..hi][k - lo] == s'[k];
    assert s'[k] in multiset(s'[lo..hi]);
    assert s'[k] in s[lo..hi];
    var i :| 0 <= i < hi - lo && s[lo..hi][i] == s'[k];
    m := lo + i;
  }

  /** s' is s with the elements at i and j exchanged. */
  ghost predicate Exchanged<T>(s: seq<T>, s': seq<T>, i: nat, j: nat) {
    && i < |s| && j < |s| && |s'| == |s| && s'[i] == s[j] && s'[j] == s[i]
    && forall k :: 0 <= k < |s| && k != i && k != j ==> s'[k] == s[k]
  }

  lemma Swapped<T>(s: seq<T>, s': seq<T>, i: nat, j: nat, lo: nat, hi: nat)
    requires lo <= i < hi <= |s| && lo <= j < hi && Exchanged(s, s', i, j)
    ensures Shuffled(s, s', lo, hi)
  {
    assert s' == s[i := s[j]][j := s[i]];
  }

  lemma ShuffledOn<T>(s: seq<T>, s': seq<T>, s'': seq<T>, lo: nat, from: nat, to: nat, hi: nat)
    requires Shuffled(s, s', lo, hi) && Shuffled(s', s'', from, to) && lo <= from && to <= hi
    ensures Shuffled(s, s'', lo, hi)
  {
  }

  // ---------------------------------------------------------------- stability

  predicate Equivalent<T>(less: (T, T) -> bool, x: T, y: T) {
    !less(x, y) && !less(y, x)
  }

  /** The elements that the order does not tell from x, in sequence order. */
  ghost function Class<T>(less: (T, T) -> bool, x: T, s: seq<T>): seq<T> {
    if s == [] then []
    else (if Equivalent(less, x, s[0]) then [s[0]] else []) + Class(less, x, s[1..])
  }

  /** s' rearranges s and keeps equivalent elements in the order they have in s. */
  ghost predicate StableOf<T(!new)>(less: (T, T) -> bool, s: seq<T>, s': seq<T>) {
    |s'| == |s| && forall x :: Class(less, x, s') == Class(less, x, s)
  }

  lemma TailConcat<T>(s: seq<T>, t: seq<T>)
    requires s != []
    ensures s + t != [] && (s + t)[0] == s[0] && (s + t)[1..] == s[1..] + t
  {
  }

  lemma Associative<T>(s: seq<T>, t: seq<T>, u: seq<T>)
    ensures (s + t) + u == s + (t + u)
  {
  }

  lemma {:induction false} ClassConcat<T>(less: (T, T) -> bool, x: T, s: seq<T>, t: seq<T>)
    ensures Class(less, x, s + t) == Class(less, x, s) + Class(less, x, t)
  {
    if s == [] {
      assert s + t == t;
    } else {
      TailConcat(s, t);
      ClassConcat(less, x, s[1..], t);
      Associative(if Equivalent(less, x, s[0]) then [s[0]] else [], Class(less, x, s[1..]), Class(less, x, t));
    }
  }

  lemma {:induction false} ClassCount<T>(less: (T, T) -> bool, x: T, s: seq<T>)
    requires !less(x, x)
    ensures multiset(Class(less, x, s))[x] == multiset(s)[x]
  {
    if s != [] {
      assert s == [s[0]] + s[1..];
      ClassCount(less, x, s[1..]);
    }
  }

  /** A stable rearrangement is a rearrangement. */
  lemma StableIsPermutation<T(!new)>(less: (T, T) -> bool, s: seq<T>, s': seq<T>)
    requires StrictWeak(less) && StableOf(less, s, s')
    ensures multiset(s') == multiset(s)
  {
    forall x ensures multiset(s')[x] == multiset(s)[x] {
      assert LawsAt(less, x, x, x);
      ClassCount(less, x, s);
      ClassCount(less, x, s');
    }
  }

  /** The first element of a sorted sequence is the first of its class, and no element is below it. */
  lemma FirstOfClass<T(!new)>(less: (T, T) -> bool, s: seq<T>)
    requires StrictWeak(less) && s != []
    ensures Class(less, s[0], s) == [s[0]] + Class(less, s[0], s[1..])
  {
    assert LawsAt(less, s[0], s[0], s[0]);
  }

  lemma {:induction false} ClassIn<T>(less: (T, T) -> bool, x: T, s: seq<T>)
    ensures Class(less, x, s) != [] ==>
              exists k :: 0 <= k < |s| && s[k] == Class(less, x, s)[0] && Equivalent(less, x, s[k])
  {
    if s != [] && !Equivalent(less, x, s[0]) {
      ClassIn(less, x, s[1..]);
      if Class(less, x, s) != [] {
        var k :| 0 <= k < |s| - 1 && s[1..][k] == Class(less, x, s[1..])[0] && Equivalent(less, x, s[1..][k]);
        assert s[k + 1] == s[1..][k];
      }
    }
  }

  /** There is at most one sorted stable rearrangement: two that agree on every class are equal. */
  lemma {:induction false} SortedStableUnique<T(!new)>(less: (T, T) -> bool, s: seq<T>, t: seq<T>)
    requires StrictWeak(less) && Sorted(less, s) && Sorted(less, t) && StableOf(less, s, t)
    ensures s == t
    decreases |s|
  {
    if s != [] {
      SameHead(less, s, t);
      forall x ensures Class(less, x, t[1..]) == Class(less, x, s[1..]) {
        var head := if Equivalent(less, x, s[0]) then [s[0]] else [];
        assert Class(less, x, s) == head + Class(less, x, s[1..]);
        assert Class(less, x, t) == head + Class(less, x, t[1..]);
        assert Class(less, x, t[1..]) == Class(less, x, t)[|head|..];
        assert Class(less, x, s[1..]) == Class(less, x, s)[|head|..];
      }
      SortedStableUnique(less, s[1..], t[1..]);
      assert s == [s[0]] + s[1..] && t == [t[0]] + t[1..];
    }
  }

  lemma SameHead<T(!new)>(less: (T, T) -> bool, s: seq<T>, t: seq<T>)
    requires StrictWeak(less) && Sorted(less, s) && Sorted(less, t) && StableOf(less, s, t) && s != []
    ensures s[0] == t[0]
  {
    FirstOfClass(less, s);
    FirstOfClass(less, t);
    ClassIn(less, s[0], t);
    ClassIn(less, t[0], s);
    var k :| 0 <= k < |t| && t[k] == Class(less, s[0], t)[0] && Equivalent(less, s[0], t[k]);
    var m :| 0 <= m < |s| && s[m] == Class(less, t[0], s)[0] && Equivalent(less, t[0], s[m]);
    Transitive(less, t[0], t[k], s[0]);
    Transitive(less, s[0], s[m], t[0]);
    assert Equivalent(less, s[0], t[0]);
    assert Class(less, t[0], t)[0] == t[0];
    assert Class(less, s[0], t)[0] == s[0];
    assert Class(less, s[0], t) == [t[0]] + Class(less, s[0], t[1..]);
  }

  /** Exchanging neighbours that are out of order keeps every class as it is. */
  lemma ExchangeStable<T(!new)>(less: (T, T) -> bool, s: seq<T>, s': seq<T>, i: nat)
    requires StrictWeak(less) && i + 1 < |s| && less(s[i + 1], s[i]) && Exchanged(s, s', i, i + 1)
    ensures StableOf(less, s, s')
  {
    var u, v := s[i], s[i + 1];
    forall x ensures Class(less, x, s') == Class(less, x, s) {
      assert s == s[..i] + ([u] + ([v] + s[i + 2..]));
      assert s' == s[..i] + ([v] + ([u] + s[i + 2..]));
      ClassConcat(less, x, s[..i], [u] + ([v] + s[i + 2..]));
      ClassConcat(less, x, s[..i], [v] + ([u] + s[i + 2..]));
      ClassConcat(less, x, [u], [v] + s[i + 2..]);
      ClassConcat(less, x, [v], [u] + s[i + 2..]);
      ClassConcat(less, x, [v], s[i + 2..]);
      ClassConcat(less, x, [u], s[i + 2..]);
      assert LawsAt(less, v, x, u);
    }
  }

  lemma CancelBoth<T>(p: seq<T>, m: seq<T>, m': seq<T>, q: seq<T>)
    requires p + (m + q) == p + (m' + q)
    ensures m == m'
  {
    var s, s' := p + (m + q), p + (m' + q);
    assert |s| == |p| + |m| + |q| && |s'| == |p| + |m'| + |q|;
    forall k | 0 <= k < |m| ensures m[k] == m'[k] {
      assert s[|p| + k] == m[k] && s'[|p| + k] == m'[k];
    }
  }

  lemma ClassMiddle<T>(less: (T, T) -> bool, x: T, p: seq<T>, m: seq<T>, m': seq<T>, q: seq<T>)
    requires Class(less, x, p + (m + q)) == Class(less, x, p + (m' + q))
    ensures Class(less, x, m) == Class(less, x, m')
  {
    ClassConcat(less, x, p, m + q);
    ClassConcat(less, x, p, m' + q);
    ClassConcat(less, x, m, q);
    ClassConcat(less, x, m', q);
    CancelBoth(Class(less, x, p), Class(less, x, m), Class(less, x, m'), Class(less, x, q));
  }

  lemma InThree<T>(s: seq<T>, lo: nat, hi: nat)
    requires lo <= hi <= |s|
    ensures s == s[..lo] + (s[lo..hi] + s[hi..])
  {
  }

  /** Stability of a range, from stability of the whole when the rest is unchanged. */
  lemma StableRange<T(!new)>(less: (T, T) -> bool, s: seq<T>, s': seq<T>, lo: nat, hi: nat)
    requires StableOf(less, s, s') && lo <= hi <= |s| && Shuffled(s, s', lo, hi)
    ensures StableOf(less, s[lo..hi], s'[lo..hi])
  {
    InThree(s, lo, hi);
    InThree(s', lo, hi);
    assert s'[..lo] == s[..lo] && s'[hi..] == s[hi..];
    forall x ensures Class(less, x, s'[lo..hi]) == Class(less, x, s[lo..hi]) {
      assert Class(less, x, s') == Class(less, x, s);
      ClassMiddle(less, x, s[..lo], s[lo..hi], s'[lo..hi], s[hi..]);
    }
  }
}
