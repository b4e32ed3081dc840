/** The sequential meaning of a critical section.
    A thunk is any deterministic program: what it does next is a function of what it has
    observed so far.  A load observes the value it read, an allocation the object it was given;
    a store and a cam (compare-and-modify, which returns nothing) observe 0. */
module Thunks {
  type Addr = nat
  type Val = int
  type Mem = map<Addr, Val>

  datatype Op =
    | Load(a: Addr)
    | Store(a: Addr, v: Val)
    | Cam(a: Addr, expected: Val, v: Val)
    | Alloc
    | Return(r: Val)

  type Thunk = seq<Val> -> Op

  function Get(m: Mem, a: Addr): Val {
    if a in m then m[a] else 0
  }

  function Effect(op: Op, m: Mem): Mem {
    match op
    case Store(a, v) => m[a := v]
    case Cam(a, e, v) => if Get(m, a) == e then m[a := v] else m
    case _ => m
  }

  /** The memory after the first |obs| operations of f, started on m. */
  function After(f: Thunk, m: Mem, obs: seq<Val>): Mem
    decreases |obs|
  {
    if obs == [] then m
    else
      var before := obs[..|obs| - 1];
      Effect(f(before), After(f, m, before))
  }

  /** What operation op may observe on memory m. */
  predicate Observes(op: Op, m: Mem, o: Val) {
    match op
    case Load(a) => o == Get(m, a)
    case Alloc => true
    case Return(_) => false
    case _ => o == 0
  }

  /** obs is what f observes when it runs alone on m. */
  predicate IsRun(f: Thunk, m: Mem, obs: seq<Val>)
    decreases |obs|
  {
    obs == [] ||
    var before := obs[..|obs| - 1];
    IsRun(f, m, before) && Observes(f(before), After(f, m, before), obs[|obs| - 1])
  }

  predicate IsCompleteRun(f: Thunk, m: Mem, obs: seq<Val>) {
    IsRun(f, m, obs) && f(obs).Return?
  }

  lemma RunPrefix(f: Thunk, m: Mem, obs: seq<Val>, n: nat)
    requires IsRun(f, m, obs) && n <= |obs|
    ensures IsRun(f, m, obs[..n])
    ensures n < |obs| ==> Observes(f(obs[..n]), After(f, m, obs[..n]), obs[n])
    decreases |obs|
  {
    if n == |obs| {
      assert obs[..n] == obs;
    } else if n < |obs| - 1 {
      var before := obs[..|obs| - 1];
      RunPrefix(f, m, before, n);
      assert before[..n] == obs[..n];
    }
  }

  /** The sequential meaning is unique: two runs from the same memory that are given the same
      objects by their allocations agree as long as both go on. */
  lemma {:induction false} RunsAgree(f: Thunk, m: Mem, p: seq<Val>, q: seq<Val>)
    requires IsRun(f, m, p) && IsRun(f, m, q) && |p| <= |q|
    requires forall i :: 0 <= i < |p| && f(p[..i]).Alloc? && f(q[..i]).Alloc? ==> p[i] == q[i]
    ensures p == q[..|p|]
    decreases |p|
  {
    if p != [] {
      var n := |p| - 1;
      forall i | 0 <= i < n && f(p[..n][..i]).Alloc? && f(q[..i]).Alloc?
        ensures p[..n][i] == q[i]
      {
        assert p[..n][..i] == p[..i];
      }
      RunPrefix(f, m, p, n);
      RunsAgree(f, m, p[..n], q);
      RunPrefix(f, m, q, n);
      assert p == p[..n] + [p[n]];
      assert q[..|p|] == q[..n] + [q[n]];
    }
  }

  /** Two complete runs given the same objects are the same run: same results, same memory. */
  lemma {:induction false} CompleteRunUnique(f: Thunk, m: Mem, p: seq<Val>, q: seq<Val>)
    requires IsCompleteRun(f, m, p) && IsCompleteRun(f, m, q)
    requires forall i :: 0 <= i < |p| && i < |q| && f(p[..i]).Alloc? && f(q[..i]).Alloc? ==> p[i] == q[i]
    ensures p == q
  {
    var short, long := if |p| <= |q| then p else q, if |p| <= |q| then q else p;
    RunsAgree(f, m, short, long);
    RunPrefix(f, m, long, |short|);
    assert long[..|long|] == long;
  }
}
