/** Concurrent insertion into parlay's hashtable: any number of threads insert at once; the read of
    a cell and the compare-and-swap on it are separate steps. */
module HashInsert {
  import opened Options
  import opened HashLayout

  /** What a user of the table supplies: its hash, and replaceQ, which says whether a new element
      replaces an old one with the same key. */
  datatype Policy = Policy(hash: int -> nat, replaceQ: (Elem, Elem) -> bool)

  datatype PC =
    | Idle
    | Read(v: Elem, i: nat)                        // next loads TA[i]
    | Swap(v: Elem, i: nat, c: Option<Elem>)       // loaded c, next compares-and-swaps v in

  /** inserted is history: every element whose insertion has started. */
  datatype State = State(table: Table, pcs: seq<PC>, inserted: set<Elem>)

  /** What the thread does once it has loaded c. */
  function Decide(p: Policy, v: Elem, i: nat, m: nat, c: Option<Elem>): PC
    requires i < m
  {
    match c
    case None => Swap(v, i, c)
    case Some(e) =>
      if v.key == e.key then
        if !p.replaceQ(v, e) then Idle else Swap(v, i, c)
      else if v.key < e.key then Read(v, IncrementIndex(m, i))
      else Swap(v, i, c)
  }

  /** What the thread does after its compare-and-swap has replaced c. */
  function AfterSwap(v: Elem, i: nat, m: nat, c: Option<Elem>): PC
    requires i < m
  {
    match c
    case None => Idle
    case Some(e) => if v.key == e.key then Idle else Read(e, IncrementIndex(m, i))
  }

  /** One step of thread t; an idle thread starts to insert v. */
  function Step(p: Policy, s: State, t: nat, v: Elem): State {
    if t >= |s.pcs| || |s.table| == 0 then s
    else
      var m := |s.table|;
      match s.pcs[t]
      case Idle =>
        State(s.table, s.pcs[t := Read(v, FirstIndex(p.hash, m, v.key))], s.inserted + {v})
      case Read(w, i) =>
        if i >= m then s else State(s.table, s.pcs[t := Decide(p, w, i, m, s.table[i])], s.inserted)
      case Swap(w, i, c) =>
        if i >= m then s
        else if s.table[i] == c then
          State(s.table[i := Some(w)], s.pcs[t := AfterSwap(w, i, m, c)], s.inserted)
        else State(s.table, s.pcs[t := Read(w, i)], s.inserted)
  }

  function Exec(p: Policy, s: State, sched: seq<(nat, Elem)>): State
    decreases |sched|
  {
    if sched == [] then s
    else
      var last := sched[|sched| - 1];
      Step(p, Exec(p, s, sched[..|sched| - 1]), last.0, last.1)
  }

  predicate Quiet(s: State) {
    forall t :: 0 <= t < |s.pcs| ==> s.pcs[t].Idle?
  }

  function Elements(t: Table): set<Elem> {
    set i | 0 <= i < |t| && t[i].Some? :: t[i].value
  }

  /** Insertions start on an ordered table; what it already holds counts as inserted. */
  predicate Init(p: Policy, s: State) {
    && |s.table| > 0 && Quiet(s) && Ordered(s.table, p.hash)
    && s.inserted == Elements(s.table)
  }

  /** The elements whose insertion the schedule has started: those of the entries that find their thread idle. */
  function Started(p: Policy, s: State, sched: seq<(nat, Elem)>): set<Elem>
    decreases |sched|
  {
    if sched == [] then {}
    else
      var n := |sched| - 1;
      var r, (t, v) := Exec(p, s, sched[..n]), sched[n];
      Started(p, s, sched[..n]) + if t < |r.pcs| && r.pcs[t].Idle? then {v} else {}
  }

  /** What the table held at first, and what the schedule has started to insert. */
  function Offered(p: Policy, s: State, sched: seq<(nat, Elem)>): set<Elem> {
    Elements(s.table) + Started(p, s, sched)
  }

  /** The element a thread carries and the cell it has reached with it. */
  ghost predicate Carries(pc: PC, v: Elem) {
    !pc.Idle? && pc.v == v
  }

  ghost predicate PcOK(p: Policy, t: Table, pc: PC) {
    !pc.Idle? ==>
      && pc.i < |t|
      && Passed(t, FirstIndex(p.hash, |t|, pc.v.key), pc.i, pc.v.key)
      && (pc.Swap? && pc.c.Some? ==>
            pc.c.value.key < pc.v.key || (pc.c.value.key == pc.v.key && p.replaceQ(pc.v, pc.c.value)))
  }

  ghost predicate InTable(t: Table, v: Elem) {
    exists i :: 0 <= i < |t| && t[i] == Some(v)
  }

  ghost predicate Present(s: State, v: Elem) {
    InTable(s.table, v) || exists t :: 0 <= t < |s.pcs| && Carries(s.pcs[t], v)
  }

  /** v, or an element that may stand for it. */
  ghost predicate Covered(p: Policy, s: State, v: Elem) {
    exists w :: Present(s, w) && w.key == v.key && AtLeast(p, w, v)
  }

  /** With replaceQ preferring larger data, only an element with larger data may stand for another. */
  ghost predicate Ranked(p: Policy) {
    forall a: Elem, b: Elem :: p.replaceQ(a, b) <==> a.data > b.data
  }

  ghost predicate AtLeast(p: Policy, w: Elem, v: Elem) {
    Ranked(p) ==> w.data >= v.data
  }

  ghost predicate Inv(p: Policy, s: State) {
    && |s.table| > 0
    && Ordered(s.table, p.hash)
    && (forall t :: 0 <= t < |s.pcs| ==> PcOK(p, s.table, s.pcs[t]))
    && (forall v {:trigger Covered(p, s, v)} :: v in s.inserted ==> Covered(p, s, v))
    && (forall v :: Present(s, v) ==> v in s.inserted)
  }

  lemma SwapOrdered(p: Policy, s: State, t: nat)
    requires Inv(p, s) && t < |s.pcs| && s.pcs[t].Swap? && s.table[s.pcs[t].i] == s.pcs[t].c
    ensures var w, i := s.pcs[t].v, s.pcs[t].i;
            && Ordered(s.table[i := Some(w)], p.hash)
            && (forall u :: 0 <= u < |s.pcs| ==> PcOK(p, s.table[i := Some(w)], s.pcs[u]))
            && PcOK(p, s.table[i := Some(w)], AfterSwap(w, i, |s.table|, s.pcs[t].c))
  {
    var w, i, c := s.pcs[t].v, s.pcs[t].i, s.pcs[t].c;
    var table := s.table[i := Some(w)];
    Place(s.table, p.hash, i, w);
    forall u | 0 <= u < |s.pcs| ensures PcOK(p, table, s.pcs[u]) {
    }
    if c.Some? && c.value.key < w.key {
      assert InPlace(s.table, p.hash, i);
      StillPassed(s.table, FirstIndex(p.hash, |s.table|, c.value.key), i, c.value.key, i, w);
    }
  }

  lemma PresentCovered(p: Policy, s: State, v: Elem)
    requires Present(s, v)
    ensures Covered(p, s, v)
  {
    assert AtLeast(p, v, v);
  }

  lemma LocalCovered(p: Policy, s: State, s': State, t: nat, v: Elem)
    requires t < |s.pcs| && Present(s, v)
    requires s'.table == s.table && |s'.pcs| == |s.pcs| && s'.pcs == s.pcs[t := s'.pcs[t]]
    requires Carries(s.pcs[t], v) && !Carries(s'.pcs[t], v) ==> Covered(p, s', v)
    ensures Covered(p, s', v)
  {
    if InTable(s.table, v) {
      PresentCovered(p, s', v);
    } else {
      var u :| 0 <= u < |s.pcs| && Carries(s.pcs[u], v);
      if u != t || Carries(s'.pcs[t], v) {
        assert Carries(s'.pcs[u], v);
        PresentCovered(p, s', v);
      }
    }
  }

  lemma SwapCovered(p: Policy, s: State, t: nat, v: Elem)
    requires Inv(p, s) && t < |s.pcs| && s.pcs[t].Swap? && s.table[s.pcs[t].i] == s.pcs[t].c
    requires s.pcs[t].c.Some? && s.pcs[t].c.value.key == s.pcs[t].v.key ==> p.replaceQ(s.pcs[t].v, s.pcs[t].c.value)
    requires Present(s, v)
    ensures Covered(p, Step(p, s, t, v), v)
  {
    var w, i, c := s.pcs[t].v, s.pcs[t].i, s.pcs[t].c;
    var s' := Step(p, s, t, v);
    assert s'.table[i] == Some(w);
    assert Present(s', w);
    if v == w {
      PresentCovered(p, s', w);
    } else if c == Some(v) {
      if v.key == w.key {
        assert AtLeast(p, w, v);
      } else {
        assert Carries(s'.pcs[t], v);
        PresentCovered(p, s', v);
      }
    } else if InTable(s.table, v) {
      var j :| 0 <= j < |s.table| && s.table[j] == Some(v);
      assert s'.table[j] == Some(v);
      PresentCovered(p, s', v);
    } else {
      var u :| 0 <= u < |s.pcs| && Carries(s.pcs[u], v);
      assert Carries(s'.pcs[u], v);
      PresentCovered(p, s', v);
    }
  }

  /** A step that leaves the table alone keeps every inserted element covered, if what t lets go of is. */
  lemma AllCovered(p: Policy, s: State, s': State, t: nat)
    requires t < |s.pcs| && s'.table == s.table && |s'.pcs| == |s.pcs| && s'.pcs == s.pcs[t := s'.pcs[t]]
    requires forall v {:trigger Covered(p, s, v)} :: v in s.inserted ==> Covered(p, s, v)
    requires forall v :: Carries(s.pcs[t], v) && !Carries(s'.pcs[t], v) ==> Covered(p, s', v)
    ensures forall v {:trigger Covered(p, s', v)} :: v in s.inserted ==> Covered(p, s', v)
  {
    forall v | v in s.inserted ensures Covered(p, s', v) {
      forall w | Present(s, w) ensures Covered(p, s', w) {
        LocalCovered(p, s, s', t, w);
      }
      assert Covered(p, s, v);
    }
  }

  /** When the table does not change, only t can have brought in a new element. */
  lemma NewPresent(s: State, s': State, t: nat, v: Elem)
    requires t < |s.pcs| && s'.table == s.table && |s'.pcs| == |s.pcs| && s'.pcs == s.pcs[t := s'.pcs[t]]
    requires Present(s', v)
    ensures Present(s, v) || Carries(s'.pcs[t], v)
  {
    if !InTable(s.table, v) {
      var u :| 0 <= u < |s'.pcs| && Carries(s'.pcs[u], v);
      if u != t { assert Carries(s.pcs[u], v); }
    }
  }

  lemma StartOK(p: Policy, s: State, t: nat, v: Elem)
    requires Inv(p, s) && t < |s.pcs| && s.pcs[t].Idle?
    ensures Inv(p, Step(p, s, t, v))
  {
    var s' := Step(p, s, t, v);
    AllCovered(p, s, s', t);
    assert Carries(s'.pcs[t], v);
    PresentCovered(p, s', v);
    assert forall x :: x in s'.inserted ==> x in s.inserted || x == v;
  }

  lemma ReadOK(p: Policy, s: State, t: nat, v: Elem)
    requires Inv(p, s) && t < |s.pcs| && s.pcs[t].Read? && PcOK(p, s.table, s.pcs[t])
    ensures Inv(p, Step(p, s, t, v))
  {
    var s' := Step(p, s, t, v);
    var w, i := s.pcs[t].v, s.pcs[t].i;
    var c := s.table[i];
    assert Carries(s.pcs[t], w);
    if s'.pcs[t].Idle? {
      assert InTable(s'.table, c.value) && AtLeast(p, c.value, w);
      assert Covered(p, s', w);
    }
    AllCovered(p, s, s', t);
    forall x | Present(s', x) ensures x in s'.inserted {
      NewPresent(s, s', t, x);
    }
  }

  /** A compare-and-swap that fails only makes the thread read again. */
  lemma RetryOK(p: Policy, s: State, t: nat, v: Elem)
    requires Inv(p, s) && t < |s.pcs| && s.pcs[t].Swap? && PcOK(p, s.table, s.pcs[t])
             && s.table[s.pcs[t].i] != s.pcs[t].c
    ensures Inv(p, Step(p, s, t, v))
  {
    var s' := Step(p, s, t, v);
    AllCovered(p, s, s', t);
    forall x | Present(s', x) ensures x in s'.inserted {
      NewPresent(s, s', t, x);
      assert Carries(s'.pcs[t], x) ==> Carries(s.pcs[t], x);
    }
  }

  lemma SwapOK(p: Policy, s: State, t: nat, v: Elem)
    requires Inv(p, s) && t < |s.pcs| && s.pcs[t].Swap? && s.table[s.pcs[t].i] == s.pcs[t].c
    ensures Inv(p, Step(p, s, t, v))
  {
    var s' := Step(p, s, t, v);
    SwapOrdered(p, s, t);
    forall x | x in s.inserted ensures Covered(p, s', x) {
      forall y | Present(s, y) ensures Covered(p, s', y) {
        SwapCovered(p, s, t, y);
      }
      assert Covered(p, s, x);
    }
    forall x | Present(s', x) ensures x in s'.inserted {
    }
  }

  lemma StepInv(p: Policy, s: State, t: nat, v: Elem)
    requires Inv(p, s)
    ensures Inv(p, Step(p, s, t, v)) && |Step(p, s, t, v).table| == |s.table|
  {
    if t < |s.pcs| {
      assert PcOK(p, s.table, s.pcs[t]);
      if s.pcs[t].Idle? { StartOK(p, s, t, v); }
      else if s.pcs[t].Read? { ReadOK(p, s, t, v); }
      else if s.table[s.pcs[t].i] == s.pcs[t].c { SwapOK(p, s, t, v); }
      else { RetryOK(p, s, t, v); }
    }
  }

  lemma InitInv(p: Policy, s: State)
    requires Init(p, s)
    ensures Inv(p, s)
  {
    forall v | v in s.inserted ensures Covered(p, s, v) {
      var i :| 0 <= i < |s.table| && s.table[i].Some? && s.table[i].value == v;
      assert s.table[i] == Some(v);
      PresentCovered(p, s, v);
    }
  }

  lemma {:induction false} Reachable(p: Policy, s: State, sched: seq<(nat, Elem)>)
    requires Init(p, s)
    ensures Inv(p, Exec(p, s, sched)) && |Exec(p, s, sched).table| == |s.table|
    decreases |sched|
  {
    if sched == [] {
      InitInv(p, s);
    } else {
      var n := |sched| - 1;
      Reachable(p, s, sched[..n]);
      StepInv(p, Exec(p, s, sched[..n]), sched[n].0, sched[n].1);
    }
  }

  // ---------------------------------------------------------------- what the interleaving cannot change

  ghost function KeysOf(es: set<Elem>): set<int> {
    set e | e in es :: e.key
  }

  /** The history is that of the calls: what counts as inserted is what the table held at first and the
      elements that the schedule hands to idle threads. */
  lemma {:induction false} InsertedIsOffered(p: Policy, s: State, sched: seq<(nat, Elem)>)
    requires Init(p, s)
    ensures Exec(p, s, sched).inserted == Offered(p, s, sched)
    decreases |sched|
  {
    if sched != [] {
      var n := |sched| - 1;
      InsertedIsOffered(p, s, sched[..n]);
      Reachable(p, s, sched[..n]);
    }
  }

  /** Whatever the interleaving, once all insertions have returned the table is ordered and holds
      exactly the keys offered to it, each with data offered for it. */
  lemma TableHoldsInserted(p: Policy, s: State, sched: seq<(nat, Elem)>)
    requires Init(p, s) && Quiet(Exec(p, s, sched))
    ensures var r := Exec(p, s, sched);
            && Ordered(r.table, p.hash)
            && Keys(r.table) == KeysOf(Offered(p, s, sched))
            && Elements(r.table) <= Offered(p, s, sched)
  {
    var r := Exec(p, s, sched);
    Reachable(p, s, sched);
    InsertedIsOffered(p, s, sched);
    forall i | 0 <= i < |r.table| && r.table[i].Some? ensures r.table[i].value in r.inserted {
      assert InTable(r.table, r.table[i].value);
      assert Present(r, r.table[i].value);
    }
    forall k | k in KeysOf(r.inserted) ensures k in Keys(r.table) {
      var e :| e in r.inserted && e.key == k;
      assert Covered(p, r, e);
      var w :| Present(r, w) && w.key == e.key && AtLeast(p, w, e);
      assert InTable(r.table, w);
    }
  }

  /** History independence under concurrency: two runs in which the same keys are offered, to any
      threads in any interleaving, end with the same key in every cell. */
  lemma HistoryIndependent(p: Policy, s: State, a: seq<(nat, Elem)>, s2: State, b: seq<(nat, Elem)>)
    requires Init(p, s) && Init(p, s2) && |s.table| == |s2.table|
    requires Quiet(Exec(p, s, a)) && Quiet(Exec(p, s2, b))
    requires KeysOf(Offered(p, s, a)) == KeysOf(Offered(p, s2, b))
    ensures forall i :: 0 <= i < |s.table| ==>
              i < |Exec(p, s, a).table| && i < |Exec(p, s2, b).table| &&
              KeyAt(Exec(p, s, a).table, i) == KeyAt(Exec(p, s2, b).table, i)
  {
    TableHoldsInserted(p, s, a);
    TableHoldsInserted(p, s2, b);
    Reachable(p, s, a);
    Reachable(p, s2, b);
    UniqueLayout(Exec(p, s, a).table, Exec(p, s2, b).table, p.hash);
  }

  /** When replaceQ prefers larger data, each key ends with the largest data offered for it. */
  lemma LargestDataWins(p: Policy, s: State, sched: seq<(nat, Elem)>, i: nat, e: Elem)
    requires Init(p, s) && Quiet(Exec(p, s, sched)) && Ranked(p)
    requires i < |Exec(p, s, sched).table| && HasKeyAt(Exec(p, s, sched).table, i, e.key)
    requires e in Offered(p, s, sched)
    ensures Exec(p, s, sched).table[i].value.data >= e.data
  {
    var r := Exec(p, s, sched);
    Reachable(p, s, sched);
    InsertedIsOffered(p, s, sched);
    assert Covered(p, r, e);
    var w :| Present(r, w) && w.key == e.key && AtLeast(p, w, e);
    assert InTable(r.table, w);
    var j :| 0 <= j < |r.table| && r.table[j] == Some(w);
    Distinct(r.table, p.hash, i, j, e.key);
  }

  /** Then two runs in which the same elements are offered end with the same table. */
  lemma SameElementsSameTable(p: Policy, s: State, a: seq<(nat, Elem)>, s2: State, b: seq<(nat, Elem)>)
    requires Init(p, s) && Init(p, s2) && |s.table| == |s2.table| && Ranked(p)
    requires Quiet(Exec(p, s, a)) && Quiet(Exec(p, s2, b))
    requires Offered(p, s, a) == Offered(p, s2, b)
    ensures Exec(p, s, a).table == Exec(p, s2, b).table
  {
    var r, r2 := Exec(p, s, a), Exec(p, s2, b);
    HistoryIndependent(p, s, a, s2, b);
    Reachable(p, s, a);
    Reachable(p, s2, b);
    TableHoldsInserted(p, s, a);
    TableHoldsInserted(p, s2, b);
    forall i | 0 <= i < |r.table| ensures r.table[i] == r2.table[i] {
      assert KeyAt(r.table, i) == KeyAt(r2.table, i);
      if r.table[i].Some? {
        assert r.table[i].value in Elements(r.table) && r2.table[i].value in Elements(r2.table);
        NotSmaller(p, s, a, i, r2.table[i].value);
        NotSmaller(p, s2, b, i, r.table[i].value);
      }
    }
  }

  lemma NotSmaller(p: Policy, s: State, a: seq<(nat, Elem)>, i: nat, e: Elem)
    requires Init(p, s) && Quiet(Exec(p, s, a)) && Ranked(p)
    requires i < |Exec(p, s, a).table| && HasKeyAt(Exec(p, s, a).table, i, e.key)
    ensures e in Offered(p, s, a) ==> Exec(p, s, a).table[i].value.data >= e.data
  {
    if e in Offered(p, s, a) { LargestDataWins(p, s, a, i, e); }
  }

  // ---------------------------------------------------------------- a thread left alone

  /** n steps of thread t with nobody else moving; it stops when its insertion has returned. */
  function Alone(p: Policy, s: State, t: nat, n: nat): State
    decreases n
  {
    if n == 0 || t >= |s.pcs| || s.pcs[t].Idle? then s else Alone(p, Step(p, s, t, s.pcs[t].v), t, n - 1)
  }

  /** How far thread t is from returning, with e an empty cell. */
  function Remaining(s: State, t: nat, e: nat): nat
    requires t < |s.pcs| && e < |s.table| && !s.pcs[t].Idle? && s.pcs[t].i < |s.table|
  {
    var pc := s.pcs[t];
    2 * Dist(|s.table|, pc.i, e) + if pc.Read? then 2 else if s.table[pc.i] == pc.c then 1 else 3
  }

  lemma {:induction false} Progress(p: Policy, s: State, t: nat, e: nat, n: nat)
    requires t < |s.pcs| && e < |s.table| && s.table[e].None? && !s.pcs[t].Idle? && s.pcs[t].i < |s.table|
    requires n >= Remaining(s, t, e)
    ensures |Alone(p, s, t, n).pcs| == |s.pcs| && Alone(p, s, t, n).pcs[t].Idle?
    decreases n
  {
    var pc := s.pcs[t];
    var s' := Step(p, s, t, pc.v);
    if s'.pcs[t].Idle? {
      assert Alone(p, s', t, n - 1) == s';
    } else {
      Progress(p, s', t, e, n - 1);
    }
  }

  /** A thread that is left alone while some cell is empty returns from its insertion within two steps a
      cell, whatever the other threads were doing when they stopped. */
  lemma AloneReturns(p: Policy, s: State, sched: seq<(nat, Elem)>, t: nat, e: nat)
    requires Init(p, s) && t < |Exec(p, s, sched).pcs|
    requires e < |Exec(p, s, sched).table| && Exec(p, s, sched).table[e].None?
    ensures var r := Alone(p, Exec(p, s, sched), t, 2 * |s.table| + 1);
            t < |r.pcs| && r.pcs[t].Idle?
  {
    var r := Exec(p, s, sched);
    Reachable(p, s, sched);
    assert PcOK(p, r.table, r.pcs[t]);
    if !r.pcs[t].Idle? { Progress(p, r, t, e, 2 * |s.table| + 1); }
  }
}
