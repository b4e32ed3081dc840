/** The implicit pivot tree of include/flock-lib/parlay/internal/bucket_sort.h, and the choice of a
    bucket for every element. */
module PivotTree {
  import opened Ordering
  import Quicksort

  function Pow2(n: nat): (p: nat)
    ensures p > 0
  {
    if n == 0 then 1 else 2 * Pow2(n - 1)
  }

  /** The heap index j of a perfect tree of height rounds: the height of the subtree below it, itself
      included, and the first of the pivots in that subtree. */
  function Height(j: nat, rounds: nat): int {
    if j == 0 then rounds else Height((j - 1) / 2, rounds) - 1
  }

  function Low(j: nat, rounds: nat): nat {
    if j == 0 then 0
    else
      var parent := (j - 1) / 2;
      if j % 2 == 1 || Height(parent, rounds) < 1 then Low(parent, rounds)
      else Low(parent, rounds) + Pow2(Height(parent, rounds) - 1)
  }

  /** The pivot at heap index j: the middle one of its subtree. */
  function PivotAt(j: nat, rounds: nat): int {
    if Height(j, rounds) < 1 then -1 else Low(j, rounds) + Pow2(Height(j, rounds) - 1) - 1
  }

  lemma Children(j: nat, rounds: nat)
    requires Height(j, rounds) >= 1
    ensures Height(2 * j + 1, rounds) == Height(j, rounds) - 1 && Low(2 * j + 1, rounds) == Low(j, rounds)
    ensures Height(2 * j + 2, rounds) == Height(j, rounds) - 1
    ensures Low(2 * j + 2, rounds) == Low(j, rounds) + Pow2(Height(j, rounds) - 1)
  {
    assert (2 * j + 1 - 1) / 2 == j && (2 * j + 2 - 1) / 2 == j;
  }

  lemma ChildTimes(a: nat, b: nat, q: nat, right: nat)
    requires b == 2 * a + right && right <= 1
    ensures b * q == a * (2 * q) + right * q
  {
  }

  lemma TimesLess(a: nat, b: nat, p: nat)
    requires a * p < b * 2 && p >= 2
    ensures a < b
  {
  }

  /** The heap index of a subtree, and where it starts among the pivots. */
  ghost predicate Indexed(j: nat, rounds: nat) {
    && 0 <= Height(j, rounds) <= rounds
    && (j + 1) * Pow2(Height(j, rounds)) == Pow2(rounds) + Low(j, rounds)
    && Low(j, rounds) + Pow2(Height(j, rounds)) <= Pow2(rounds)
  }

  lemma ChildIndexed(parent: nat, rounds: nat)
    requires Indexed(parent, rounds) && Height(parent, rounds) >= 1
    ensures Indexed(2 * parent + 1, rounds) && Indexed(2 * parent + 2, rounds)
  {
    Children(parent, rounds);
    var q := Pow2(Height(parent, rounds) - 1);
    assert Pow2(Height(parent, rounds)) == 2 * q;
    ChildTimes(parent + 1, 2 * parent + 2, q, 0);
    ChildTimes(parent + 1, 2 * parent + 3, q, 1);
  }

  /** Where a subtree starts among the pivots determines its heap index, and the other way round. */
  lemma {:induction false} HeapIndex(j: nat, rounds: nat)
    requires Height(j, rounds) >= 0
    ensures Indexed(j, rounds)
  {
    if j > 0 {
      HeapIndex((j - 1) / 2, rounds);
      ChildIndexed((j - 1) / 2, rounds);
    }
  }

  lemma InHeap(j: nat, rounds: nat)
    requires Height(j, rounds) >= 1
    ensures j < Pow2(rounds) - 1 && 0 <= PivotAt(j, rounds) < Pow2(rounds) - 1
  {
    HeapIndex(j, rounds);
    TimesLess(j + 1, Pow2(rounds), Pow2(Height(j, rounds)));
  }

  lemma AtLeastFour(h: nat)
    requires h >= 2
    ensures Pow2(h) >= 4
  {
  }

  /** The tree holds every pivot at its heap index, as far as the subtree of root goes. */
  ghost predicate Planted(tree: seq<nat>, pivots: seq<nat>, rounds: nat, root: nat)
    requires |pivots| == Pow2(rounds) - 1
    decreases Height(root, rounds)
  {
    Height(root, rounds) >= 1 ==>
      && InTree(tree, pivots, rounds, root)
      && Height(2 * root + 1, rounds) < Height(root, rounds) && Height(2 * root + 2, rounds) < Height(root, rounds)
      && Planted(tree, pivots, rounds, 2 * root + 1) && Planted(tree, pivots, rounds, 2 * root + 2)
  }

  ghost predicate InTree(tree: seq<nat>, pivots: seq<nat>, rounds: nat, j: nat) {
    j < |tree| && 0 <= PivotAt(j, rounds) < |pivots| && tree[j] == pivots[PivotAt(j, rounds)]
  }

  /** Every index is as it was or holds the pivot that belongs there. */
  ghost predicate OnlyPlants(was: seq<nat>, tree: seq<nat>, pivots: seq<nat>, rounds: nat) {
    |tree| == |was| && forall j :: 0 <= j < |tree| ==> tree[j] == was[j] || InTree(tree, pivots, rounds, j)
  }

  lemma PlantsOn(s0: seq<nat>, s1: seq<nat>, s2: seq<nat>, pivots: seq<nat>, rounds: nat)
    requires OnlyPlants(s0, s1, pivots, rounds) && OnlyPlants(s1, s2, pivots, rounds)
    ensures OnlyPlants(s0, s2, pivots, rounds)
  {
  }

  lemma StaysInTree(was: seq<nat>, tree: seq<nat>, pivots: seq<nat>, rounds: nat, j: nat)
    requires InTree(was, pivots, rounds, j) && OnlyPlants(was, tree, pivots, rounds)
    ensures InTree(tree, pivots, rounds, j)
  {
  }

  lemma {:induction false} StaysPlanted(was: seq<nat>, tree: seq<nat>, pivots: seq<nat>, rounds: nat, root: nat)
    requires |pivots| == Pow2(rounds) - 1 && Planted(was, pivots, rounds, root) && OnlyPlants(was, tree, pivots, rounds)
    ensures Planted(tree, pivots, rounds, root)
    decreases Height(root, rounds)
  {
    if Height(root, rounds) >= 1 {
      StaysPlanted(was, tree, pivots, rounds, 2 * root + 1);
      StaysPlanted(was, tree, pivots, rounds, 2 * root + 2);
    }
  }

  lemma PlantedNode(tree: seq<nat>, pivots: seq<nat>, rounds: nat, root: nat)
    requires |pivots| == Pow2(rounds) - 1 && InTree(tree, pivots, rounds, root) && Height(root, rounds) >= 1
    requires Height(root, rounds) > 1 ==>
               Planted(tree, pivots, rounds, 2 * root + 1) && Planted(tree, pivots, rounds, 2 * root + 2)
    ensures Planted(tree, pivots, rounds, root)
  {
    Children(root, rounds);
  }

  /** The pivots [l, r) are those of the subtree of root. */
  ghost predicate Slot(root: nat, l: nat, r: nat, rounds: nat) {
    Height(root, rounds) >= 1 && l == Low(root, rounds) && r == l + Pow2(Height(root, rounds)) - 1
  }

  /** Where the middle pivot goes, and what is left to lay out on both sides. */
  lemma Halves(root: nat, l: nat, r: nat, rounds: nat)
    requires Slot(root, l, r, rounds)
    ensures var m := l + (r - l) / 2;
            && root < Pow2(rounds) - 1 && l <= m < r <= Pow2(rounds) - 1 && m == PivotAt(root, rounds)
            && (r - l == 1 <==> Height(root, rounds) == 1)
            && (r - l > 1 ==> Slot(2 * root + 1, l, m, rounds) && Slot(2 * root + 2, m + 1, r, rounds))
    ensures Height(2 * root + 1, rounds) < Height(root, rounds) && Height(2 * root + 2, rounds) < Height(root, rounds)
  {
    var half: nat := Pow2(Height(root, rounds) - 1);
    assert r - l == 2 * half - 1 && (r - l) / 2 == half - 1;
    InHeap(root, rounds);
    Children(root, rounds);
    HeapBound(root, rounds);
    if Height(root, rounds) >= 2 { AtLeastFour(Height(root, rounds)); }
  }

  lemma HeapBound(j: nat, rounds: nat)
    requires Height(j, rounds) >= 0
    ensures Low(j, rounds) + Pow2(Height(j, rounds)) <= Pow2(rounds)
  {
    HeapIndex(j, rounds);
  }

  /** Lays the pivots [l, r) out as the subtree of root. */
  method ToBalancedTree(pivots: seq<nat>, tree: array<nat>, root: nat, l: nat, r: nat, ghost rounds: nat)
    requires |pivots| == Pow2(rounds) - 1 <= tree.Length
    requires Slot(root, l, r, rounds)
    modifies tree
    ensures Planted(tree[..], pivots, rounds, root) && OnlyPlants(old(tree[..]), tree[..], pivots, rounds)
    decreases Height(root, rounds)
  {
    var n := r - l;
    var m := l + n / 2;
    Halves(root, l, r, rounds);
    tree[root] := pivots[m];
    ghost var s0, s1 := old(tree[..]), tree[..];
    assert InTree(s1, pivots, rounds, root);
    if n == 1 {
      PlantedNode(s1, pivots, rounds, root);
      return;
    }
    ToBalancedTree(pivots, tree, 2 * root + 1, l, m, rounds);
    ghost var s2 := tree[..];
    ToBalancedTree(pivots, tree, 2 * root + 2, m + 1, r, rounds);
    StaysPlanted(s2, tree[..], pivots, rounds, 2 * root + 1);
    StaysInTree(s1, s2, pivots, rounds, root);
    StaysInTree(s2, tree[..], pivots, rounds, root);
    PlantedNode(tree[..], pivots, rounds, root);
    PlantsOn(s0, s1, s2, pivots, rounds);
    PlantsOn(s0, s2, tree[..], pivots, rounds);
  }

  // ---------------------------------------------------------------- choosing buckets

  ghost predicate IndicesOf(pivots: seq<nat>, n: nat) {
    forall i :: 0 <= i < |pivots| ==> pivots[i] < n
  }

  /** The bucket of x: the pivots before it are not above x, and those from it on are. */
  ghost predicate IsBucket<T>(less: (T, T) -> bool, s: seq<T>, pivots: seq<nat>, x: T, k: nat)
    requires IndicesOf(pivots, |s|)
  {
    && k <= |pivots| && (forall i :: 0 <= i < k ==> !less(x, s[pivots[i]]))
    && (forall i :: k <= i < |pivots| ==> less(x, s[pivots[i]]))
  }

  ghost predicate SortedPivots<T>(less: (T, T) -> bool, s: seq<T>, pivots: seq<nat>) {
    IndicesOf(pivots, |s|) && forall i, j :: 0 <= i < j < |pivots| ==> !less(s[pivots[j]], s[pivots[i]])
  }

  /** The pivots below heap index j are those that x has yet to be compared with. */
  ghost predicate Narrowed<T>(less: (T, T) -> bool, s: seq<T>, pivots: seq<nat>, x: T, rounds: nat, j: nat)
    requires IndicesOf(pivots, |s|)
  {
    && Height(j, rounds) >= 0
    && (forall i :: 0 <= i < Low(j, rounds) && i < |pivots| ==> !less(x, s[pivots[i]]))
    && (forall i :: Low(j, rounds) + Pow2(Height(j, rounds)) - 1 <= i < |pivots| ==> less(x, s[pivots[i]]))
  }

  lemma NarrowLeft<T(!new)>(less: (T, T) -> bool, s: seq<T>, pivots: seq<nat>, x: T, rounds: nat, j: nat)
    requires SortedPivots(less, s, pivots) && StrictWeak(less) && Narrowed(less, s, pivots, x, rounds, j)
    requires Height(j, rounds) >= 1 && 0 <= PivotAt(j, rounds) < |pivots| && less(x, s[pivots[PivotAt(j, rounds)]])
    ensures Narrowed(less, s, pivots, x, rounds, 2 * j + 1) && Height(2 * j + 1, rounds) == Height(j, rounds) - 1
  {
    Children(j, rounds);
    var mid := PivotAt(j, rounds);
    forall i | mid <= i < |pivots| ensures less(x, s[pivots[i]]) {
      if i > mid { Transitive(less, x, s[pivots[mid]], s[pivots[i]]); }
    }
  }

  lemma NarrowRight<T(!new)>(less: (T, T) -> bool, s: seq<T>, pivots: seq<nat>, x: T, rounds: nat, j: nat)
    requires SortedPivots(less, s, pivots) && StrictWeak(less) && Narrowed(less, s, pivots, x, rounds, j)
    requires Height(j, rounds) >= 1 && 0 <= PivotAt(j, rounds) < |pivots| && !less(x, s[pivots[PivotAt(j, rounds)]])
    ensures Narrowed(less, s, pivots, x, rounds, 2 * j + 2) && Height(2 * j + 2, rounds) == Height(j, rounds) - 1
  {
    Children(j, rounds);
    var mid := PivotAt(j, rounds);
    forall i | 0 <= i <= mid ensures !less(x, s[pivots[i]]) {
      if i < mid { Transitive(less, x, s[pivots[i]], s[pivots[mid]]); }
    }
  }

  lemma NarrowedToBucket<T>(less: (T, T) -> bool, s: seq<T>, pivots: seq<nat>, x: T, rounds: nat, j: nat)
    requires |pivots| == Pow2(rounds) - 1 && IndicesOf(pivots, |s|)
    requires Narrowed(less, s, pivots, x, rounds, j) && Height(j, rounds) == 0
    ensures j >= Pow2(rounds) - 1 && IsBucket(less, s, pivots, x, j - (Pow2(rounds) - 1))
  {
    HeapIndex(j, rounds);
  }

  /** Descends the tree to a leaf, which is the bucket. */
  method Descend<T(!new)>(s: seq<T>, x: T, tree: array<nat>, less: (T, T) -> bool, rounds: nat, ghost pivots: seq<nat>)
      returns (k: nat)
    requires |pivots| == Pow2(rounds) - 1 && Planted(tree[..], pivots, rounds, 0)
    requires SortedPivots(less, s, pivots) && StrictWeak(less)
    ensures IsBucket(less, s, pivots, x, k)
  {
    var j: nat := 0;
    for d := 0 to rounds
      invariant Height(j, rounds) == rounds - d && Planted(tree[..], pivots, rounds, j)
      invariant Narrowed(less, s, pivots, x, rounds, j)
    {
      if less(x, s[tree[j]]) {
        NarrowLeft(less, s, pivots, x, rounds, j);
        j := 2 * j + 1;
      } else {
        NarrowRight(less, s, pivots, x, rounds, j);
        j := 2 * j + 2;
      }
    }
    NarrowedToBucket(less, s, pivots, x, rounds, j);
    k := j - (Pow2(rounds) - 1);
  }
}
