/** Prioritized linear probing: what a table of parlay's hashtable looks like, and why there is only
    one such table for a set of keys. */
module HashLayout {
  import opened Options

  datatype Elem = Elem(key: int, data: int)
  type Table = seq<Option<Elem>>

  /** Where probing for a key starts: hashToRange of its hash. */
  function FirstIndex(hash: int -> nat, m: nat, k: int): (i: nat)
    requires m > 0
    ensures i < m
  {
    hash(k) % m
  }

  function IncrementIndex(m: nat, h: nat): (i: nat)
    requires h < m
    ensures i < m
  {
    if h + 1 == m then 0 else h + 1
  }

  function DecrementIndex(m: nat, h: nat): (i: nat)
    requires h < m
    ensures i < m
  {
    if h == 0 then m - 1 else h - 1
  }

  predicate LessIndex(m: nat, a: nat, b: nat) {
    if a < b then 2 * (b - a) < m else 2 * (a - b) > m
  }

  /** How many increments lead from a to b. */
  function Dist(m: nat, a: nat, b: nat): (d: nat)
    requires a < m && b < m
    ensures d < m
  {
    if a <= b then b - a else m - a + b
  }

  /** Stepping forward or back moves by one, unless it wraps onto the origin. */
  lemma DistSteps(m: nat, a: nat, b: nat)
    requires a < m && b < m
    ensures IncrementIndex(m, b) != a ==> Dist(m, a, IncrementIndex(m, b)) == Dist(m, a, b) + 1
    ensures a != b ==> Dist(m, a, DecrementIndex(m, b)) == Dist(m, a, b) - 1
  {
  }

  /** A cell on the way to e is nearer to it. */
  lemma DistSplit(m: nat, a: nat, b: nat, e: nat)
    requires a < m && b < m && e < m && Dist(m, a, b) <= Dist(m, a, e)
    ensures Dist(m, b, e) == Dist(m, a, e) - Dist(m, a, b)
  {
  }

  /** lessIndex asks whether b lies ahead of a by less than half the table. */
  lemma LessIndexIsHalf(m: nat, a: nat, b: nat)
    requires a < m && b < m
    ensures LessIndex(m, a, b) <==> 0 < Dist(m, a, b) && 2 * Dist(m, a, b) < m
  {
  }

  function KeyOf(t: Table, i: nat): int
    requires i < |t| && t[i].Some?
  {
    t[i].value.key
  }

  /** Cell p holds a key larger than k. */
  predicate Above(t: Table, p: nat, k: int)
    requires p < |t|
  {
    t[p].Some? && KeyOf(t, p) > k
  }

  /** Every cell from home up to but not including i holds a key larger than k. */
  predicate Passed(t: Table, home: nat, i: nat, k: int)
    requires home < |t| && i < |t|
  {
    forall p :: 0 <= p < |t| && Dist(|t|, home, p) < Dist(|t|, home, i) ==> Above(t, p, k)
  }

  /** The cell i holds the first key its element meets, from its home on, that is not larger. */
  predicate InPlace(t: Table, hash: int -> nat, i: nat)
    requires i < |t| && t[i].Some?
  {
    Passed(t, FirstIndex(hash, |t|, KeyOf(t, i)), i, KeyOf(t, i))
  }

  /** The probe-order invariant. */
  predicate Ordered(t: Table, hash: int -> nat) {
    forall i :: 0 <= i < |t| && t[i].Some? ==> InPlace(t, hash, i)
  }

  predicate HasKeyAt(t: Table, i: nat, k: int) {
    i < |t| && t[i].Some? && KeyOf(t, i) == k
  }

  predicate HasKey(t: Table, k: int) {
    exists i :: 0 <= i < |t| && HasKeyAt(t, i, k)
  }

  function Keys(t: Table): set<int> {
    set i | 0 <= i < |t| && t[i].Some? :: KeyOf(t, i)
  }

  function Larger(t: Table, k: int): set<int> {
    set x | x in Keys(t) && x > k
  }

  lemma Locate(t: Table, k: int) returns (i: nat)
    requires k in Keys(t)
    ensures HasKeyAt(t, i, k)
  {
    i :| 0 <= i < |t| && t[i].Some? && KeyOf(t, i) == k;
  }

  /** No key occurs twice. */
  lemma Distinct(t: Table, hash: int -> nat, i: nat, j: nat, k: int)
    requires Ordered(t, hash) && HasKeyAt(t, i, k) && HasKeyAt(t, j, k)
    ensures i == j
  {
    var h := FirstIndex(hash, |t|, k);
    assert InPlace(t, hash, i) && InPlace(t, hash, j);
    assert !Above(t, i, k) && !Above(t, j, k);
    assert Dist(|t|, h, i) == Dist(|t|, h, j);
  }

  /** Two ordered tables with the same keys have each key in the same cell. */
  lemma {:induction false} SameCell(t: Table, u: Table, hash: int -> nat, k: int, i: nat, j: nat)
    requires Ordered(t, hash) && Ordered(u, hash) && |t| == |u| && Keys(t) == Keys(u)
    requires HasKeyAt(t, i, k) && HasKeyAt(u, j, k)
    ensures i == j
    decreases |Larger(t, k)|, 1
  {
    assert Larger(u, k) == Larger(t, k);
    NotFurther(t, u, hash, k, i, j);
    NotFurther(u, t, hash, k, j, i);
  }

  /** u's copy of k does not lie further from home than t's: the larger key in its way in u would be
      in its way in t too. */
  lemma {:induction false} NotFurther(t: Table, u: Table, hash: int -> nat, k: int, i: nat, j: nat)
    requires Ordered(t, hash) && Ordered(u, hash) && |t| == |u| && Keys(t) == Keys(u)
    requires HasKeyAt(t, i, k) && HasKeyAt(u, j, k)
    ensures var h := FirstIndex(hash, |t|, k); Dist(|t|, h, j) <= Dist(|t|, h, i)
    decreases |Larger(t, k)|, 0
  {
    var h := FirstIndex(hash, |t|, k);
    if Dist(|t|, h, i) < Dist(|t|, h, j) {
      assert InPlace(u, hash, j) && Above(u, i, k);
      var k' := KeyOf(u, i);
      assert k' in Keys(u);
      var i' := Locate(t, k');
      ProperSubset(Larger(t, k'), Larger(t, k), k');
      SameCell(t, u, hash, k', i', i);
    }
  }

  lemma ProperSubset(a: set<int>, b: set<int>, x: int)
    requires a <= b && x in b && x !in a
    ensures |a| < |b|
  {
    assert b == a + (b - a) && a * (b - a) == {};
    assert x in b - a;
  }

  function KeyAt(t: Table, i: nat): Option<int>
    requires i < |t|
  {
    if t[i].Some? then Some(KeyOf(t, i)) else None
  }

  /** History independence: the key set alone determines which key is in which cell. */
  lemma UniqueLayout(t: Table, u: Table, hash: int -> nat)
    requires Ordered(t, hash) && Ordered(u, hash) && |t| == |u| && Keys(t) == Keys(u)
    ensures forall i :: 0 <= i < |t| ==> KeyAt(t, i) == KeyAt(u, i)
  {
    forall i | 0 <= i < |t| ensures KeyAt(t, i) == KeyAt(u, i) {
      if t[i].Some? {
        assert KeyOf(t, i) in Keys(u);
        var j := Locate(u, KeyOf(t, i));
        SameCell(t, u, hash, KeyOf(t, i), i, j);
      }
      if u[i].Some? {
        assert KeyOf(u, i) in Keys(t);
        var j := Locate(t, KeyOf(u, i));
        SameCell(t, u, hash, KeyOf(u, i), j, i);
      }
    }
  }

  // ---------------------------------------------------------------- placing an element

  /** Writing v into a cell it has reached and that is empty, smaller or equal keeps the order. */
  lemma Place(t: Table, hash: int -> nat, i: nat, v: Elem)
    requires i < |t| && Ordered(t, hash)
    requires Passed(t, FirstIndex(hash, |t|, v.key), i, v.key)
    requires t[i].Some? ==> KeyOf(t, i) <= v.key
    ensures Ordered(t[i := Some(v)], hash)
  {
    var u := t[i := Some(v)];
    forall j | 0 <= j < |u| && u[j].Some? ensures InPlace(u, hash, j) {
      if j == i {
        assert forall p :: 0 <= p < |t| && Above(t, p, v.key) && p != i ==> Above(u, p, v.key);
      } else {
        assert InPlace(t, hash, j);
        forall p | 0 <= p < |u|
            && Dist(|u|, FirstIndex(hash, |u|, KeyOf(u, j)), p) < Dist(|u|, FirstIndex(hash, |u|, KeyOf(u, j)), j)
          ensures Above(u, p, KeyOf(u, j))
        {
          assert Above(t, p, KeyOf(t, j));
        }
      }
    }
  }

  /** What has been passed stays passed when cells only rise. */
  lemma StillPassed(t: Table, home: nat, i: nat, k: int, j: nat, v: Elem)
    requires home < |t| && i < |t| && j < |t| && Passed(t, home, i, k)
    requires t[j].Some? ==> KeyOf(t, j) <= v.key
    ensures Passed(t[j := Some(v)], home, i, k)
  {
    var u := t[j := Some(v)];
    forall p | 0 <= p < |u| && Dist(|u|, home, p) < Dist(|u|, home, i) ensures Above(u, p, k) {
      assert Above(t, p, k);
    }
  }

  /** Passing one more cell. */
  lemma PassNext(t: Table, home: nat, i: nat, k: int)
    requires home < |t| && i < |t| && Passed(t, home, i, k) && Above(t, i, k)
    ensures Passed(t, home, IncrementIndex(|t|, i), k)
  {
    var n := IncrementIndex(|t|, i);
    forall p | 0 <= p < |t| && Dist(|t|, home, p) < Dist(|t|, home, n) ensures Above(t, p, k) {
      assert p == i || Dist(|t|, home, p) < Dist(|t|, home, i);
    }
  }
}
