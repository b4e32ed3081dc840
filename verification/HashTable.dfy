/** parlay's hashtable, one operation at a time: search, and deletion with its chain of hole fillings, on
    the array in place.  Module HashInsert has the insertions. */
module HashTable {
  import opened Options
  import opened HashLayout

  predicate Holds(t: Table, e: Elem) {
    exists i :: 0 <= i < |t| && t[i] == Some(e)
  }

  /** Some cell makes a search for k stop. */
  predicate CanStop(t: Table, k: int) {
    exists i :: 0 <= i < |t| && (t[i].None? || KeyOf(t, i) <= k)
  }

  predicate HasEmpty(t: Table) {
    exists i :: 0 <= i < |t| && t[i].None?
  }

  /** Three-way comparison of key k with a cell; an empty cell compares as smaller. */
  function Cmp(k: int, c: Option<Elem>): (r: int) {
    match c
    case None => 1
    case Some(e) => if k > e.key then 1 else if k == e.key then 0 else -1
  }

  // ---------------------------------------------------------------- searching

  /** A search that has passed larger keys and meets something else knows whether k is there. */
  lemma SearchEnds(t: Table, hash: int -> nat, k: int, i: nat)
    requires i < |t| && Ordered(t, hash)
    requires Passed(t, FirstIndex(hash, |t|, k), i, k) && !Above(t, i, k)
    ensures HasKey(t, k) <==> HasKeyAt(t, i, k)
  {
    if HasKey(t, k) {
      var q :| 0 <= q < |t| && HasKeyAt(t, q, k);
      var h := FirstIndex(hash, |t|, k);
      assert InPlace(t, hash, q);
      assert !Above(t, q, k) && !Above(t, i, k);
      assert Dist(|t|, h, q) == Dist(|t|, h, i);
    }
  }

  /** A cell that stops the search lies ahead. */
  lemma StopAhead(t: Table, home: nat, i: nat, k: int, e: nat)
    requires home < |t| && i < |t| && e < |t| && Passed(t, home, i, k) && !Above(t, e, k)
    ensures Dist(|t|, home, i) <= Dist(|t|, home, e)
    ensures i != e ==> Dist(|t|, IncrementIndex(|t|, i), e) < Dist(|t|, i, e)
  {
  }

  lemma StepBack(t: Table, home: nat, j: nat, k: int)
    requires home < |t| && j < |t| && j != home && Passed(t, home, j, k)
    ensures var p := DecrementIndex(|t|, j);
            Above(t, p, k) && Passed(t, home, p, k) && Dist(|t|, home, p) < Dist(|t|, home, j)
  {
    DistSteps(|t|, home, j);
  }

  /** One step on the way from j to e. */
  lemma Onward(m: nat, j: nat, i: nat, e: nat)
    requires j < m && i < m && e < m && i != e && Dist(m, j, i) <= Dist(m, j, e)
    ensures var n := IncrementIndex(m, i);
            && Dist(m, j, n) == Dist(m, j, i) + 1 && Dist(m, j, n) <= Dist(m, j, e)
            && Dist(m, n, e) == Dist(m, i, e) - 1
            && forall q :: 0 <= q < m && Dist(m, j, q) < Dist(m, j, n) ==> q == i || Dist(m, j, q) < Dist(m, j, i)
  {
  }

  // ---------------------------------------------------------------- what deleteVal computes

  /** Every element except the one at j is in place. */
  predicate HoleAt(t: Table, hash: int -> nat, j: nat) {
    && j < |t| && t[j].Some?
    && forall q :: 0 <= q < |t| && q != j && t[q].Some? ==> InPlace(t, hash, q)
  }

  /** deleteVal skips the element at q when it looks for one to move to j. */
  predicate Skips(t: Table, hash: int -> nat, j: nat, q: nat)
    requires q < |t|
  {
    t[q].Some? && LessIndex(|t|, j, FirstIndex(hash, |t|, KeyOf(t, q)))
  }

  /** jj is the first cell after j whose element is not skipped. */
  predicate Replacement(t: Table, hash: int -> nat, j: nat, jj: nat) {
    && j < |t| && jj < |t| && j != jj
    && (forall q :: 0 <= q < |t| && 0 < Dist(|t|, j, q) < Dist(|t|, j, jj) ==> Skips(t, hash, j, q))
    && !Skips(t, hash, j, jj)
  }

  /** The cell at which the search for a replacement of hole j stops, from q on; e is an empty cell. */
  ghost function StopCell(t: Table, hash: int -> nat, j: nat, e: nat, q: nat): (jj: nat)
    requires j < |t| && e < |t| && q < |t| && t[e].None?
    requires 0 < Dist(|t|, j, q) <= Dist(|t|, j, e)
    requires forall p :: 0 <= p < |t| && 0 < Dist(|t|, j, p) < Dist(|t|, j, q) ==> Skips(t, hash, j, p)
    ensures Replacement(t, hash, j, jj) && Dist(|t|, j, jj) <= Dist(|t|, j, e)
    decreases Dist(|t|, q, e)
  {
    if Skips(t, hash, j, q) then
      DistSplit(|t|, j, q, e);
      DistSteps(|t|, j, q);
      DistSteps(|t|, e, q);
      DistSplit(|t|, j, IncrementIndex(|t|, q), e);
      StopCell(t, hash, j, e, IncrementIndex(|t|, q))
    else q
  }

  ghost function NextHole(t: Table, hash: int -> nat, j: nat, e: nat): (jj: nat)
    requires j < |t| && e < |t| && t[e].None? && t[j].Some?
    ensures Replacement(t, hash, j, jj) && Dist(|t|, j, jj) <= Dist(|t|, j, e)
  {
    DistSteps(|t|, j, j);
    StopCell(t, hash, j, e, IncrementIndex(|t|, j))
  }

  lemma OneReplacement(t: Table, hash: int -> nat, j: nat, a: nat, b: nat)
    requires Replacement(t, hash, j, a) && Replacement(t, hash, j, b)
    ensures a == b
  {
    assert !Skips(t, hash, j, a) && !Skips(t, hash, j, b);
    assert Dist(|t|, j, a) == Dist(|t|, j, b);
  }

  /** The table after the whole chain of hole fillings that starts at j. */
  ghost function Deleted(t: Table, hash: int -> nat, j: nat, e: nat): (u: Table)
    requires j < |t| && e < |t| && t[e].None? && t[j].Some?
    ensures |u| == |t|
    decreases Dist(|t|, j, e)
  {
    var jj := NextHole(t, hash, j, e);
    DistSplit(|t|, j, jj, e);
    if t[jj].None? then t[j := None] else Deleted(t[j := t[jj]], hash, jj, e)
  }

  /** Only the cells from the hole up to the empty cell change. */
  lemma DeletedFrame(t: Table, hash: int -> nat, j: nat, e: nat, p: nat)
    requires j < |t| && e < |t| && t[e].None? && t[j].Some?
    requires p < |t| && Dist(|t|, j, p) >= Dist(|t|, j, e)
    ensures Deleted(t, hash, j, e)[p] == t[p]
    decreases Dist(|t|, j, e)
  {
    var jj := NextHole(t, hash, j, e);
    DistSplit(|t|, j, jj, e);
    if t[jj].Some? { DeletedFrame(t[j := t[jj]], hash, jj, e, p); }
  }

  // ---------------------------------------------------------------- which elements remain

  ghost predicate HoldsBut(t: Table, j: nat, e: Elem) {
    exists i :: 0 <= i < |t| && i != j && t[i] == Some(e)
  }

  lemma FillKeeps(t: Table, j: nat, jj: nat, e: Elem)
    requires j < |t| && jj < |t| && j != jj
    ensures HoldsBut(t[j := t[jj]], jj, e) <==> HoldsBut(t, j, e)
  {
    var u := t[j := t[jj]];
    if HoldsBut(t, j, e) {
      var i :| 0 <= i < |t| && i != j && t[i] == Some(e);
      assert u[if i == jj then j else i] == Some(e);
    }
    if HoldsBut(u, jj, e) {
      var i :| 0 <= i < |u| && i != jj && u[i] == Some(e);
      assert t[if i == j then jj else i] == Some(e);
    }
  }

  lemma EmptiedKeeps(t: Table, j: nat, e: Elem)
    requires j < |t|
    ensures Holds(t[j := None], e) <==> HoldsBut(t, j, e)
  {
    var u := t[j := None];
    if Holds(u, e) {
      var i :| 0 <= i < |u| && u[i] == Some(e);
      assert t[i] == Some(e) && i != j;
    }
    if HoldsBut(t, j, e) {
      var i :| 0 <= i < |t| && i != j && t[i] == Some(e);
      assert u[i] == Some(e);
    }
  }

  /** Whatever the table looks like, the chain drops the element of its first hole and no other. */
  lemma {:induction false} DeletedHolds(t: Table, hash: int -> nat, j: nat, e: nat, x: Elem)
    requires j < |t| && e < |t| && t[e].None? && t[j].Some?
    ensures Holds(Deleted(t, hash, j, e), x) <==> HoldsBut(t, j, x)
    decreases Dist(|t|, j, e)
  {
    var jj := NextHole(t, hash, j, e);
    DistSplit(|t|, j, jj, e);
    if t[jj].None? {
      EmptiedKeeps(t, j, x);
    } else {
      FillKeeps(t, j, jj, x);
      DeletedHolds(t[j := t[jj]], hash, jj, e, x);
    }
  }

  // ---------------------------------------------------------------- when the probe order survives

  /** Comparing indices by half the table tells rightly whether the home of the element at q lies
      after the hole. */
  predicate WellJudged(t: Table, hash: int -> nat, j: nat, q: nat)
    requires j < |t| && q < |t|
  {
    t[q].Some? ==>
      (Skips(t, hash, j, q) <==> 0 < Dist(|t|, j, FirstIndex(hash, |t|, KeyOf(t, q))) <= Dist(|t|, j, q))
  }

  /** Every element looked at to fill hole j is well judged. */
  predicate StepJudged(t: Table, hash: int -> nat, j: nat, jj: nat)
    requires j < |t| && jj < |t|
  {
    forall q :: 0 <= q < |t| && 0 < Dist(|t|, j, q) <= Dist(|t|, j, jj) ==> WellJudged(t, hash, j, q)
  }

  /** Every element looked at in the whole chain is well judged. */
  ghost predicate ChainJudged(t: Table, hash: int -> nat, j: nat, e: nat)
    requires j < |t| && e < |t| && t[e].None? && t[j].Some?
    decreases Dist(|t|, j, e)
  {
    var jj := NextHole(t, hash, j, e);
    DistSplit(|t|, j, jj, e);
    StepJudged(t, hash, j, jj) && (t[jj].Some? ==> ChainJudged(t[j := t[jj]], hash, jj, e))
  }

  /** An element whose path crosses the hole but that is not the replacement lies beyond it. */
  lemma CrossesBoth(t: Table, hash: int -> nat, j: nat, jj: nat, q: nat)
    requires HoleAt(t, hash, j) && Replacement(t, hash, j, jj) && StepJudged(t, hash, j, jj)
    requires q < |t| && q != j && q != jj && t[q].Some?
    requires var h := FirstIndex(hash, |t|, KeyOf(t, q)); Dist(|t|, h, j) < Dist(|t|, h, q)
    ensures var h := FirstIndex(hash, |t|, KeyOf(t, q)); Dist(|t|, h, jj) < Dist(|t|, h, q)
  {
    if Dist(|t|, j, q) < Dist(|t|, j, jj) {
      assert WellJudged(t, hash, j, q) && Skips(t, hash, j, q);
    }
  }

  /** Moving the replacement into the hole leaves the replacement's old cell as the only hole. */
  lemma FillHole(t: Table, hash: int -> nat, j: nat, jj: nat)
    requires HoleAt(t, hash, j) && Replacement(t, hash, j, jj) && StepJudged(t, hash, j, jj) && t[jj].Some?
    ensures HoleAt(t[j := t[jj]], hash, jj)
  {
    var u := t[j := t[jj]];
    var x := KeyOf(t, jj);
    var hx := FirstIndex(hash, |t|, x);
    assert WellJudged(t, hash, j, jj);
    assert InPlace(t, hash, jj);
    forall q | 0 <= q < |u| && q != jj && u[q].Some? ensures InPlace(u, hash, q) {
      var k := KeyOf(u, q);
      var h := FirstIndex(hash, |u|, k);
      forall p | 0 <= p < |u| && Dist(|u|, h, p) < Dist(|u|, h, q) ensures Above(u, p, k) {
        if q == j {
          assert Above(t, p, x);
        } else {
          assert InPlace(t, hash, q);
          assert Above(t, p, k);
          if p == j {
            CrossesBoth(t, hash, j, jj, q);
            assert Above(t, jj, k);
          }
        }
      }
    }
  }

  /** Emptying a hole that has no replacement restores the order. */
  lemma EmptyHole(t: Table, hash: int -> nat, j: nat, jj: nat)
    requires HoleAt(t, hash, j) && Replacement(t, hash, j, jj) && StepJudged(t, hash, j, jj) && t[jj].None?
    ensures Ordered(t[j := None], hash)
  {
    var u := t[j := None];
    forall q | 0 <= q < |u| && u[q].Some? ensures InPlace(u, hash, q) {
      var k := KeyOf(u, q);
      var h := FirstIndex(hash, |u|, k);
      assert InPlace(t, hash, q) && !Above(t, jj, k);
      if Dist(|u|, h, j) < Dist(|u|, h, q) {
        CrossesBoth(t, hash, j, jj, q);
      }
      forall p | 0 <= p < |u| && Dist(|u|, h, p) < Dist(|u|, h, q) ensures Above(u, p, k) {
        assert Above(t, p, k);
      }
    }
  }

  /** A misjudged element that is moved ends up where a search for it misses it. */
  lemma MisjudgedMoved(t: Table, hash: int -> nat, j: nat, e: nat)
    requires HoleAt(t, hash, j) && e < |t| && t[e].None?
    requires var jj := NextHole(t, hash, j, e); t[jj].Some? && !WellJudged(t, hash, j, jj)
    ensures !Ordered(Deleted(t, hash, j, e), hash)
  {
    var u := Deleted(t, hash, j, e);
    FirstStep(t, hash, j, e);
    assert !Above(u, e, KeyOf(u, j));
    assert !InPlace(u, hash, j);
  }

  /** A misjudged element ends up where a search for it, or for the one it displaced, misses it. */
  lemma Misjudged(t: Table, hash: int -> nat, j: nat, e: nat, q: nat)
    requires HoleAt(t, hash, j) && e < |t| && t[e].None?
    requires var jj := NextHole(t, hash, j, e);
             q < |t| && 0 < Dist(|t|, j, q) <= Dist(|t|, j, jj) && !WellJudged(t, hash, j, q)
    ensures !Ordered(Deleted(t, hash, j, e), hash)
  {
    var jj := NextHole(t, hash, j, e);
    if t[jj].Some? && !WellJudged(t, hash, j, jj) {
      MisjudgedMoved(t, hash, j, e);
    } else {
      var u := Deleted(t, hash, j, e);
      FirstStep(t, hash, j, e);
      assert !Skips(t, hash, j, jj) && u[q] == t[q];
      if t[jj].Some? {
        assert InPlace(t, hash, jj) && Above(t, q, KeyOf(t, jj));
      }
      assert !Above(u, j, KeyOf(u, q));
      assert !InPlace(u, hash, q);
    }
  }

  /** After the first filling, the rest of the chain touches neither the filled cell nor those skipped. */
  lemma FirstStep(t: Table, hash: int -> nat, j: nat, e: nat)
    requires j < |t| && e < |t| && t[e].None? && t[j].Some?
    ensures var jj := NextHole(t, hash, j, e);
            var u := Deleted(t, hash, j, e);
            && u[j] == t[jj] && u[e].None?
            && forall q :: 0 <= q < |t| && 0 < Dist(|t|, j, q) < Dist(|t|, j, jj) ==> u[q] == t[q]
  {
    var jj := NextHole(t, hash, j, e);
    var u := Deleted(t, hash, j, e);
    DistSplit(|t|, j, jj, e);
    DeletedFrame(t, hash, j, e, e);
    if t[jj].Some? {
      var t' := t[j := t[jj]];
      DeletedFrame(t', hash, jj, e, j);
      forall q | 0 <= q < |t| && 0 < Dist(|t|, j, q) < Dist(|t|, j, jj) ensures u[q] == t[q] {
        DeletedFrame(t', hash, jj, e, q);
      }
    }
  }

  /** The chain restores the probe order exactly when it judges every element it looks at rightly. */
  lemma {:induction false} OrderSurvives(t: Table, hash: int -> nat, j: nat, e: nat)
    requires HoleAt(t, hash, j) && e < |t| && t[e].None?
    ensures Ordered(Deleted(t, hash, j, e), hash) <==> ChainJudged(t, hash, j, e)
    decreases Dist(|t|, j, e)
  {
    var jj := NextHole(t, hash, j, e);
    DistSplit(|t|, j, jj, e);
    if StepJudged(t, hash, j, jj) {
      if t[jj].None? {
        EmptyHole(t, hash, j, jj);
      } else {
        FillHole(t, hash, j, jj);
        OrderSurvives(t[j := t[jj]], hash, jj, e);
      }
    } else {
      var q :| 0 <= q < |t| && 0 < Dist(|t|, j, q) <= Dist(|t|, j, jj) && !WellJudged(t, hash, j, q);
      Misjudged(t, hash, j, e, q);
    }
  }

  // ---------------------------------------------------------------- short runs are enough

  /** The cells from p to q, wrapping around, are all occupied. */
  predicate Run(t: Table, p: nat, q: nat)
    requires p < |t| && q < |t|
  {
    forall r :: 0 <= r < |t| && Dist(|t|, p, r) <= Dist(|t|, p, q) ==> t[r].Some?
  }

  /** No run of occupied cells is longer than half the table. */
  predicate RunsShort(t: Table) {
    forall p, q :: 0 <= p < |t| && 0 <= q < |t| && Run(t, p, q) ==> 2 * (Dist(|t|, p, q) + 1) <= |t|
  }

  lemma ShortJudged(t: Table, hash: int -> nat, j: nat, q: nat)
    requires RunsShort(t) && HoleAt(t, hash, j)
    requires q < |t| && q != j && Run(t, j, q)
    ensures WellJudged(t, hash, j, q)
  {
    var h := FirstIndex(hash, |t|, KeyOf(t, q));
    assert InPlace(t, hash, q);
    if !(0 < Dist(|t|, j, h) <= Dist(|t|, j, q)) {
      forall r | 0 <= r < |t| && Dist(|t|, h, r) <= Dist(|t|, h, q) ensures t[r].Some? {
        if Dist(|t|, h, r) < Dist(|t|, h, q) { assert Above(t, r, KeyOf(t, q)); }
      }
      assert Run(t, h, q);
    }
  }

  lemma ShortStepJudged(t: Table, hash: int -> nat, j: nat, jj: nat)
    requires RunsShort(t) && HoleAt(t, hash, j) && Replacement(t, hash, j, jj)
    ensures StepJudged(t, hash, j, jj)
  {
    forall q | 0 <= q < |t| && 0 < Dist(|t|, j, q) <= Dist(|t|, j, jj) ensures WellJudged(t, hash, j, q) {
      if t[q].Some? {
        forall r | 0 <= r < |t| && Dist(|t|, j, r) <= Dist(|t|, j, q) ensures t[r].Some? {
          if r != j && r != jj { assert Skips(t, hash, j, r); }
        }
        ShortJudged(t, hash, j, q);
      }
    }
  }

  lemma {:induction false} ShortChainJudged(t: Table, hash: int -> nat, j: nat, e: nat)
    requires RunsShort(t) && HoleAt(t, hash, j) && e < |t| && t[e].None?
    ensures ChainJudged(t, hash, j, e)
    decreases Dist(|t|, j, e)
  {
    var jj := NextHole(t, hash, j, e);
    DistSplit(|t|, j, jj, e);
    ShortStepJudged(t, hash, j, jj);
    if t[jj].Some? {
      FillHole(t, hash, j, jj);
      ShortChainJudged(t[j := t[jj]], hash, jj, e);
    }
  }

  // ---------------------------------------------------------------- deleting a key

  ghost function EmptyCell(t: Table): (e: nat)
    requires HasEmpty(t)
    ensures e < |t| && t[e].None?
  {
    var e: nat :| e < |t| && t[e].None?;
    e
  }

  ghost function CellOf(t: Table, v: int): (j: nat)
    requires HasKey(t, v)
    ensures HasKeyAt(t, j, v)
  {
    var j: nat :| j < |t| && HasKeyAt(t, j, v);
    j
  }

  /** The table after deleteVal(v). */
  ghost function DeletedKey(t: Table, hash: int -> nat, v: int): Table
    requires HasEmpty(t)
  {
    if HasKey(t, v) then Deleted(t, hash, CellOf(t, v), EmptyCell(t)) else t
  }

  /** deleteVal(v) judges every element it looks at rightly. */
  ghost predicate Judged(t: Table, hash: int -> nat, v: int)
    requires HasEmpty(t)
  {
    HasKey(t, v) ==> ChainJudged(t, hash, CellOf(t, v), EmptyCell(t))
  }

  lemma AbsentKey(t: Table, v: int)
    requires !HasKey(t, v)
    ensures forall e :: Holds(t, e) ==> e.key != v
  {
    forall e | Holds(t, e) ensures e.key != v {
      var i :| 0 <= i < |t| && t[i] == Some(e);
      assert !HasKeyAt(t, i, v);
    }
  }

  /** In an ordered table with an empty cell, deleting v always leaves exactly the other elements, and
      leaves an ordered table, in which searches find what is there, exactly when every element that
      deleteVal looks at is rightly judged. */
  lemma DeleteCorrect(t: Table, hash: int -> nat, v: int)
    requires Ordered(t, hash) && HasEmpty(t)
    ensures forall x :: Holds(DeletedKey(t, hash, v), x) <==> Holds(t, x) && x.key != v
    ensures Ordered(DeletedKey(t, hash, v), hash) <==> Judged(t, hash, v)
  {
    if HasKey(t, v) {
      var j, e := CellOf(t, v), EmptyCell(t);
      OrderSurvives(t, hash, j, e);
      forall x ensures Holds(DeletedKey(t, hash, v), x) <==> Holds(t, x) && x.key != v {
        DeletedHolds(t, hash, j, e, x);
        OthersRemain(t, hash, j, v, x);
      }
    } else {
      AbsentKey(t, v);
    }
  }

  /** Apart from cell j, an ordered table holds no other element with j's key. */
  lemma OthersRemain(t: Table, hash: int -> nat, j: nat, v: int, e: Elem)
    requires Ordered(t, hash) && HasKeyAt(t, j, v)
    ensures HoldsBut(t, j, e) <==> Holds(t, e) && e.key != v
  {
    if HoldsBut(t, j, e) {
      var i :| 0 <= i < |t| && i != j && t[i] == Some(e);
      if e.key == v { Distinct(t, hash, i, j, v); }
    }
    if Holds(t, e) && e.key != v {
      var i :| 0 <= i < |t| && t[i] == Some(e);
      assert i != j;
    }
  }

  /** When no run of occupied cells is longer than half the table, deletion is always right. */
  lemma ShortRunsDeleteCorrect(t: Table, hash: int -> nat, v: int)
    requires |t| > 0 && Ordered(t, hash) && RunsShort(t)
    ensures HasEmpty(t) && Ordered(DeletedKey(t, hash, v), hash)
  {
    assert Dist(|t|, 0, |t| - 1) == |t| - 1;
    assert !Run(t, 0, |t| - 1);
    DeleteCorrect(t, hash, v);
    if HasKey(t, v) { ShortChainJudged(t, hash, CellOf(t, v), EmptyCell(t)); }
  }

  /** A table of m cells whose first n cells hold keys that all hash to 0, the largest first. */
  function Crowded(m: nat, n: nat): Table
    requires n <= m
  {
    seq(m, i => if i < n then Some(Elem(-i, 0)) else None)
  }

  lemma CrowdedOrdered(m: nat, n: nat, hash: int -> nat)
    requires 0 < n < m && forall k :: FirstIndex(hash, m, k) == 0
    ensures Ordered(Crowded(m, n), hash) && Crowded(m, n)[n].None?
  {
    var t := Crowded(m, n);
    forall i | 0 <= i < m && t[i].Some? ensures InPlace(t, hash, i) {
      assert FirstIndex(hash, m, KeyOf(t, i)) == 0;
    }
  }

  /** Deletion can lose a key: if all keys hash to 0, in a table of m >= 8 cells with a run of m/2 + 3 keys,
      deleting the last but one leaves the last one out of reach of a search.  The constructor makes
      100 + 1.5 size cells for size keys, so that from m = 418 on the run is within the declared size. */
  lemma LongRunLosesKey(m: nat, hash: int -> nat)
    requires m >= 8 && forall k :: FirstIndex(hash, m, k) == 0
    ensures var n := m / 2 + 3;
            var t, v := Crowded(m, n), 2 - n;
            && Ordered(t, hash) && HasEmpty(t) && HasKeyAt(t, n - 2, v) && HasKeyAt(t, n - 1, v - 1)
            && HasKeyAt(DeletedKey(t, hash, v), n - 1, v - 1)
            && DeletedKey(t, hash, v)[n - 2].None?
            && !Ordered(DeletedKey(t, hash, v), hash)
  {
    var n := m / 2 + 3;
    var t, v := Crowded(m, n), 2 - n;
    CrowdedOrdered(m, n, hash);
    assert t[n].None?;
    assert HasKeyAt(t, n - 2, v);
    var j, e := CellOf(t, v), EmptyCell(t);
    Distinct(t, hash, j, n - 2, v);
    OneReplacement(t, hash, j, n, NextHole(t, hash, j, e));
    Misjudged(t, hash, j, e, n - 1);
  }

  class Hashtable {
    const hash: int -> nat
    const TA: array<Option<Elem>>

    predicate Valid()
      reads this, TA
    {
      TA.Length > 0 && Ordered(TA[..], hash)
    }

    constructor (m: nat, hash: int -> nat)
      requires m > 0
      ensures Valid() && fresh(TA) && TA.Length == m && this.hash == hash
      ensures forall e :: !Holds(TA[..], e)
    {
      this.hash := hash;
      TA := new Option<Elem>[m](_ => None);
    }

    /** find: the element with key v, if the table holds one.  The loop stops exactly when some cell
        is empty or holds a key that is not larger. */
    method Find(v: int) returns (r: Option<Elem>)
      requires Valid() && CanStop(TA[..], v)
      ensures r.Some? <==> HasKey(TA[..], v)
      ensures r.Some? ==> r.value.key == v && Holds(TA[..], r.value)
    {
      ghost var t := TA[..];
      ghost var e: nat :| 0 <= e < |t| && (t[e].None? || KeyOf(t, e) <= v);
      var h := FirstIndex(hash, TA.Length, v);
      var c := TA[h];
      while true
        invariant h < TA.Length && c == TA[h] && t == TA[..]
        invariant Passed(t, FirstIndex(hash, |t|, v), h, v)
        decreases Dist(|t|, h, e)
      {
        if c.None? {
          SearchEnds(t, hash, v, h);
          return None;
        }
        var cmp := Cmp(v, c);
        if cmp >= 0 {
          SearchEnds(t, hash, v, h);
          if cmp > 0 { return None; }
          assert t[h] == c;
          return c;
        }
        PassNext(t, FirstIndex(hash, |t|, v), h, v);
        StopAhead(t, FirstIndex(hash, |t|, v), h, v, e);
        h := IncrementIndex(TA.Length, h);
        c := TA[h];
      }
    }

    /** The search of deleteVal for an element to move into cell j: forward to the first one whose
        home is not judged to lie after j, then back in case others have moved meanwhile. */
    method FindReplacement(j: nat, ghost e: nat) returns (x: Option<Elem>, jj: nat)
      requires j < TA.Length && e < TA.Length && TA[e].None? && TA[j].Some?
      ensures Replacement(TA[..], hash, j, jj) && x == TA[jj]
      ensures Dist(TA.Length, j, jj) <= Dist(TA.Length, j, e)
    {
      ghost var t := TA[..];
      var m := TA.Length;
      jj := IncrementIndex(m, j);
      x := TA[jj];
      while x.Some? && LessIndex(m, j, FirstIndex(hash, m, x.value.key))
        invariant jj < m && jj != j && x == TA[jj] && t == TA[..]
        invariant Dist(m, j, jj) <= Dist(m, j, e)
        invariant forall q :: 0 <= q < m && 0 < Dist(m, j, q) < Dist(m, j, jj) ==> Skips(t, hash, j, q)
        decreases Dist(m, jj, e)
      {
        assert Skips(t, hash, j, jj);
        Onward(m, j, jj, e);
        jj := IncrementIndex(m, jj);
        x := TA[jj];
      }
      var jjj: nat := DecrementIndex(m, jj);
      ghost var found := jj;
      assert Replacement(t, hash, j, found);
      while jjj != j
        invariant jj == found && x == TA[jj] && jjj < m
        invariant Dist(m, j, jjj) < Dist(m, j, found)
        decreases Dist(m, j, jjj)
      {
        var y := TA[jjj];
        assert Skips(t, hash, j, jjj);
        if y.None? || !LessIndex(m, j, FirstIndex(hash, m, y.value.key)) {
          x := y;
          jj := jjj;
        }
        DistSteps(m, j, jjj);
        jjj := DecrementIndex(m, jjj);
      }
    }

    /** deleteVal.  What it leaves behind is DeletedKey; DeleteCorrect says what that is worth. */
    method DeleteVal(v: int) returns (r: bool)
      requires Valid() && HasEmpty(TA[..])
      modifies TA
      ensures r && TA[..] == DeletedKey(old(TA[..]), hash, v)
    {
      var m := TA.Length;
      ghost var t0 := TA[..];
      ghost var e := EmptyCell(t0);
      var k := v;
      var i: nat := FirstIndex(hash, m, k);
      var j: nat := i;
      var c := TA[j];
      if c.None? {
        SearchEnds(t0, hash, v, i);
        return true;
      }
      var cmp := Cmp(k, c);
      while cmp < 0
        invariant j < m && c == TA[j] && cmp == Cmp(k, c) && TA[..] == t0
        invariant Passed(t0, i, j, k)
        decreases Dist(m, j, e)
      {
        PassNext(t0, i, j, k);
        StopAhead(t0, i, j, k, e);
        j := IncrementIndex(m, j);
        c := TA[j];
        cmp := Cmp(k, c);
      }
      SearchEnds(t0, hash, v, j);
      ghost var found := cmp == 0;
      if found { Distinct(t0, hash, j, CellOf(t0, v), v); }
      while true
        invariant j < m && i < m && c == TA[j] && cmp == Cmp(k, c) && |TA[..]| == m
        invariant !found ==> TA[..] == t0 && cmp != 0 && Passed(t0, i, j, v) && k == v && !HasKey(t0, v)
        invariant found ==> cmp == 0 && TA[..][e].None? && TA[..][j].Some?
        invariant found ==> Deleted(TA[..], hash, j, e) == DeletedKey(t0, hash, v)
        decreases if found then Dist(m, j, e) else Dist(m, i, j)
      {
        ghost var t := TA[..];
        if cmp != 0 {
          if j == i { return true; }
          StepBack(t0, i, j, v);
          j := DecrementIndex(m, j);
          c := TA[j];
          cmp := Cmp(k, c);
        } else {
          var x, jj := FindReplacement(j, e);
          OneReplacement(t, hash, j, jj, NextHole(t, hash, j, e));
          TA[j] := x;
          assert TA[..] == t[j := t[jj]];
          if x.None? { return true; }
          DistSplit(m, j, jj, e);
          k := x.value.key;
          j := jj;
          i := FirstIndex(hash, m, k);
          c := TA[j];
          cmp := Cmp(k, c);
        }
      }
    }
  }
}
