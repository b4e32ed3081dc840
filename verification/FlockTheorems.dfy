/** What the invariant of module FlockSafety means for users of the lock. */
module FlockTheorems {
  import opened Options
  import opened Thunks
  import opened FlockLock
  import opened FlockSafety

  /** One critical section: a thunk and what it observed. */
  datatype Section = Section(f: Thunk, obs: seq<Val>)

  /** Memory after running the sections one after the other. */
  ghost function SerialMem(init: Mem, sections: seq<Section>): Mem
    decreases |sections|
  {
    if sections == [] then init
    else
      var last := sections[|sections| - 1];
      After(last.f, SerialMem(init, sections[..|sections| - 1]), last.obs)
  }

  /** Each section is a complete run of its thunk, alone, on the memory the previous ones left. */
  ghost predicate SerialRuns(init: Mem, sections: seq<Section>) {
    forall i :: 0 <= i < |sections| ==>
      IsCompleteRun(sections[i].f, SerialMem(init, sections[..i]), sections[i].obs)
  }

  ghost function SectionOf(x: Descriptor): Section {
    Section(x.f, Parse(x.f, x.log).obs)
  }

  /** The first n critical sections in the order in which they took the lock. */
  ghost function Sections(sh: Shared, n: nat): (r: seq<Section>)
    requires n <= |sh.order| && forall i :: 0 <= i < |sh.order| ==> sh.order[i] < |sh.descs|
    ensures |r| == n && forall i :: 0 <= i < n ==> r[i] == SectionOf(sh.descs[sh.order[i]])
  {
    seq(n, i requires 0 <= i < n => SectionOf(sh.descs[sh.order[i]]))
  }

  ghost predicate OrderInRange(sh: Shared) {
    forall i :: 0 <= i < |sh.order| ==> sh.order[i] < |sh.descs|
  }

  lemma SlotsInRange(sh: Shared, init: Mem)
    requires OrderOK(sh, init)
    ensures OrderInRange(sh)
    ensures forall i :: 0 <= i < |sh.order| ==> sh.descs[sh.order[i]].taken
  {
    forall i | 0 <= i < |sh.order| ensures sh.order[i] < |sh.descs| && sh.descs[sh.order[i]].taken {
      assert SlotOK(sh, init, i);
    }
  }

  lemma {:induction false} StartsSerial(sh: Shared, init: Mem, n: nat)
    requires OrderOK(sh, init) && OrderInRange(sh) && n <= |sh.order|
    ensures SerialMem(init, Sections(sh, n)) == MemAfter(sh, init, n)
  {
    if n > 0 {
      StartsSerial(sh, init, n - 1);
      assert Sections(sh, n)[..n - 1] == Sections(sh, n - 1);
      assert SlotOK(sh, init, n - 1);
    }
  }

  /** The number of critical sections that have run to completion and released the lock. */
  ghost function Released(sh: Shared): nat {
    if sh.lck.Ptr? && sh.order != [] then |sh.order| - 1 else |sh.order|
  }

  lemma SectionsSerial(sh: Shared, init: Mem)
    requires GInv(sh, init)
    ensures OrderInRange(sh)
    ensures SerialRuns(init, Sections(sh, Released(sh)))
  {
    SlotsInRange(sh, init);
    var ss := Sections(sh, Released(sh));
    forall i | 0 <= i < |ss|
      ensures IsCompleteRun(ss[i].f, SerialMem(init, ss[..i]), ss[i].obs)
    {
      assert ss[..i] == Sections(sh, i);
      StartsSerial(sh, init, i);
      assert SlotOK(sh, init, i) && DescOK(sh, sh.order[i]);
      if sh.lck.Ptr? { assert Increasing(sh, i, |sh.order| - 1); }
    }
  }

  /** The serial order: after any run of any number of threads, whenever the lock is free the memory is
      what the critical sections that took the lock produce when each is run once, alone, in that
      order, starting on the initial memory. */
  lemma SerialOrder(s: State, sched: seq<(nat, Job)>)
    requires Init(s)
    ensures var sh := Exec(s, sched).sh;
            var init := Values(s.sh.mem);
            && OrderInRange(sh)
            && SerialRuns(init, Sections(sh, Released(sh)))
            && (sh.lck.Num? ==> Values(sh.mem) == SerialMem(init, Sections(sh, |sh.order|)))
            && (forall i, j :: 0 <= i < j < |sh.order| ==> sh.order[i] != sh.order[j])
  {
    var sh := Exec(s, sched).sh;
    var init := Values(s.sh.mem);
    Reachable(s, sched);
    SectionsSerial(sh, init);
    StartsSerial(sh, init, |sh.order|);
    forall i, j | 0 <= i < j < |sh.order| ensures sh.order[i] != sh.order[j] {
      assert Increasing(sh, i, j);
    }
  }

  /** While descriptor d holds the lock, memory is what d's thunk has produced so far, run alone on
      the memory left by all the critical sections before it: a store is visible or not yet. */
  lemma HolderRunsAlone(s: State, sched: seq<(nat, Job)>)
    requires Init(s) && Exec(s, sched).sh.lck.Ptr?
    ensures var sh := Exec(s, sched).sh;
            var init := Values(s.sh.mem);
            && OrderInRange(sh) && sh.order != [] && sh.order[|sh.order| - 1] == sh.lck.d
            && var section := SectionOf(sh.descs[sh.lck.d]);
               var before := SerialMem(init, Sections(sh, |sh.order| - 1));
               && IsRun(section.f, before, section.obs)
               && (|| Values(sh.mem) == After(section.f, before, section.obs)
                   || Values(sh.mem) == After(section.f, before, section.obs + [0]))
  {
    var sh := Exec(s, sched).sh;
    var init := Values(s.sh.mem);
    Reachable(s, sched);
    SlotsInRange(sh, init);
    StartsSerial(sh, init, |sh.order| - 1);
    assert SlotOK(sh, init, |sh.order| - 1) && DescOK(sh, sh.lck.d);
  }

  lemma ExecAppend(s: State, p: seq<(nat, Job)>, q: seq<(nat, Job)>)
    ensures Exec(s, p + q) == Exec(Exec(s, p), q)
    decreases |q|
  {
    if q == [] {
      assert p + q == p;
    } else {
      assert (p + q)[..|p + q| - 1] == p + q[..|q| - 1];
      ExecAppend(s, p, q[..|q| - 1]);
    }
  }

  /** Only the last step of a call sets an outcome, that of the thread's own descriptor. */
  lemma OutcomeSet(sh: Shared, t: nat, pc: PC, job: Job, d: nat)
    requires d < |sh.descs|
    ensures var sh' := ThreadStep(sh, t, pc, job).0;
            && d < |sh'.descs| && sh'.descs[d].f == sh.descs[d].f && sh'.descs[d].owner == sh.descs[d].owner
            && (|| sh'.descs[d].outcome == sh.descs[d].outcome
                || ((pc.TFail? || (pc.Leave? && pc.d == pc.my)) && pc.my == d))
  {
    if MineExists(sh, pc) && pc.Running? { RunKeeps(sh, t, pc.job, pc.my, pc.run); }
  }

  ghost predicate SameEnd(x: Descriptor, y: Descriptor) {
    y.outcome == x.outcome && y.f == x.f && y.owner == x.owner
  }

  /** An outcome, once it is there, is final. */
  lemma OutcomeStays(s: State, init: Mem, t: nat, job: Job, d: nat)
    requires Inv(s, init) && d < |s.sh.descs| && !s.sh.descs[d].outcome.Pending?
    ensures var sh' := Step(s, t, job).sh; d < |sh'.descs| && SameEnd(s.sh.descs[d], sh'.descs[d])
  {
    if t < |s.pcs| {
      OutcomeSet(s.sh, t, s.pcs[t], job, d);
      assert TInv(s.sh, t, s.pcs[t]);
    }
  }

  lemma {:induction false} OutcomeIsFinal(s: State, init: Mem, q: seq<(nat, Job)>, d: nat)
    requires Inv(s, init) && d < |s.sh.descs| && !s.sh.descs[d].outcome.Pending?
    ensures Inv(Exec(s, q), init)
    ensures var sh' := Exec(s, q).sh; d < |sh'.descs| && SameEnd(s.sh.descs[d], sh'.descs[d])
    decreases |q|
  {
    if q != [] {
      var n := |q| - 1;
      OutcomeIsFinal(s, init, q[..n], d);
      StepInv(Exec(s, q[..n]), init, q[n].0, q[n].1);
      OutcomeStays(Exec(s, q[..n]), init, q[n].0, q[n].1, d);
    }
  }

  lemma EndMatches(sh: Shared, init: Mem, d: nat)
    requires GInv(sh, init) && d < |sh.descs|
    ensures OrderInRange(sh)
    ensures sh.descs[d].outcome.Failed? ==> d !in sh.order
    ensures sh.descs[d].outcome.Returned? ==>
              && d in sh.order[..Released(sh)]
              && sh.descs[d].f(SectionOf(sh.descs[d]).obs) == Return(sh.descs[d].outcome.r)
  {
    SlotsInRange(sh, init);
    assert DescOK(sh, d);
    if sh.descs[d].taken && sh.lck != Ptr(d) {
      var i :| 0 <= i < |sh.order| && sh.order[i] == d;
      assert sh.order[..Released(sh)][i] == d;
    }
  }

  /** A descriptor with a result ran exactly once, and the result is that of its critical section
      in the serial order; one that failed has not run, and will not have run at any later time. */
  lemma OutcomesMatch(s: State, p: seq<(nat, Job)>, q: seq<(nat, Job)>, d: nat)
    requires Init(s) && d < |Exec(s, p).sh.descs|
    ensures var outcome := Exec(s, p).sh.descs[d].outcome;
            var sh := Exec(s, p + q).sh;
            && (!outcome.Pending? ==> d < |sh.descs| && SameEnd(Exec(s, p).sh.descs[d], sh.descs[d]))
            && (outcome.Failed? ==> d !in sh.order)
            && (outcome.Returned? ==>
                  && OrderInRange(sh) && d in sh.order[..Released(sh)]
                  && sh.descs[d].f(SectionOf(sh.descs[d]).obs) == Return(outcome.r))
  {
    var init := Values(s.sh.mem);
    Reachable(s, p);
    Reachable(s, p + q);
    ExecAppend(s, p, q);
    if !Exec(s, p).sh.descs[d].outcome.Pending? {
      OutcomeIsFinal(Exec(s, p), init, q, d);
      EndMatches(Exec(s, p + q).sh, init, d);
    }
  }

  /** A thread that still runs a thunk whose descriptor no longer holds the lock changes neither the
      memory, nor the lock, nor any log. */
  lemma StaleHelperHarmless(s: State, sched: seq<(nat, Job)>, t: nat, job: Job)
    requires Init(s) && t < |Exec(s, sched).pcs|
    requires var r := Exec(s, sched); r.pcs[t].Running? && r.sh.lck != Ptr(r.pcs[t].run.d)
    ensures var r := Exec(s, sched);
            var r' := Step(r, t, job);
            r'.sh.mem == r.sh.mem && r'.sh.lck == r.sh.lck && r'.sh.descs == r.sh.descs && r'.sh.order == r.sh.order
  {
    var r := Exec(s, sched);
    Reachable(s, sched);
    assert TInv(r.sh, t, r.pcs[t]) && DescOK(r.sh, r.pcs[t].run.d);
    StaleStep(r.sh, t, r.pcs[t].job, r.pcs[t].my, r.pcs[t].run);
  }

  lemma StaleStep(sh: Shared, t: nat, job: Job, my: nat, run: Run)
    requires LockOK(sh) && RunOK(sh, t, run) && sh.lck != Ptr(run.d) && DescOK(sh, run.d)
    ensures var sh' := RunStep(sh, t, job, my, run).0;
            sh'.mem == sh.mem && sh'.lck == sh.lck && sh'.descs == sh.descs && sh'.order == sh.order
  {
    var x := sh.descs[run.d];
    PrefixFits(x.f, x.log, run.pos);
    if run.pos == |x.log| { assert x.log[..run.pos] == x.log; }
    if run.ph.Mark? { MarkAgain(sh, t, run); }
  }

  /** A thread outside any critical section never sees its own descriptor in the lock word, so the
      re-entrant branch of try_lock_result is not taken. */
  lemma NeverReentrant(s: State, sched: seq<(nat, Job)>, t: nat)
    requires Init(s) && t < |Exec(s, sched).pcs|
    ensures !Exec(s, sched).pcs[t].Reentrant?
  {
    Reachable(s, sched);
    assert TInv(Exec(s, sched).sh, t, Exec(s, sched).pcs[t]);
  }

  // ---------------------------------------------------------------- the unlocked counter

  /** Only a compare-and-swap that takes the lock extends the order. */
  lemma OrderGrows(sh: Shared, t: nat, pc: PC, job: Job)
    ensures var sh' := ThreadStep(sh, t, pc, job).0;
            sh'.order == sh.order || (|sh'.order| == |sh.order| + 1 && sh'.lck.Ptr?)
  {
  }

  lemma StepLevel(s: State, init: Mem, t: nat, job: Job)
    requires Inv(s, init)
    ensures var s' := Step(s, t, job);
            && Level(s.sh) <= Level(s'.sh)
            && |s.sh.order| <= |s'.sh.order|
            && (|s.sh.order| < |s'.sh.order| ==> s'.sh.lck.Ptr?)
  {
    if t < |s.pcs| {
      ThreadOK(s.sh, init, t, s.pcs[t], job);
      OrderGrows(s.sh, t, s.pcs[t], job);
      var sh' := ThreadStep(s.sh, t, s.pcs[t], job).0;
      assert Rely(s.sh, sh', t + 1);
    }
  }

  lemma {:induction false} LevelRises(s: State, init: Mem, q: seq<(nat, Job)>)
    requires Inv(s, init)
    ensures Inv(Exec(s, q), init)
    ensures Level(s.sh) <= Level(Exec(s, q).sh) && |s.sh.order| <= |Exec(s, q).sh.order|
    ensures s.sh.lck.Num? && |s.sh.order| < |Exec(s, q).sh.order| && Exec(s, q).sh.lck.Num? ==>
              Level(s.sh) < Level(Exec(s, q).sh)
    ensures s.sh.lck.Num? && |s.sh.order| == |Exec(s, q).sh.order| ==> Exec(s, q).sh.lck == s.sh.lck
    decreases |q|
  {
    if q != [] {
      var n := |q| - 1;
      var r := Exec(s, q[..n]);
      LevelRises(s, init, q[..n]);
      StepInv(r, init, q[n].0, q[n].1);
      StepLevel(r, init, q[n].0, q[n].1);
      LockChange(r, init, q[n].0, q[n].1);
    }
  }

  /** The lock word changes only when a descriptor takes it, or when its holder clears it to a
      larger counter. */
  lemma LockChange(s: State, init: Mem, t: nat, job: Job)
    requires Inv(s, init)
    ensures var s' := Step(s, t, job);
            || s'.sh.lck == s.sh.lck
            || (s.sh.lck.Num? && s'.sh.lck.Ptr? && |s'.sh.order| == |s.sh.order| + 1)
            || (s.sh.lck.Ptr? && s'.sh.lck == Num(Level(s.sh) + 1) && s'.sh.order == s.sh.order)
  {
    if t < |s.pcs| {
      var pc := s.pcs[t];
      assert TInv(s.sh, t, pc);
      if s.sh.lck.Ptr? { assert DescOK(s.sh, s.sh.lck.d); }
      if MineExists(s.sh, pc) && pc.Running? { RunKeeps(s.sh, t, pc.job, pc.my, pc.run); }
    }
  }

  /** If the lock is free at two moments of a run and was taken in between, its counter is strictly
      larger at the later one; if it was not taken, it is the same. */
  lemma CounterStrictlyIncreases(s: State, p: seq<(nat, Job)>, q: seq<(nat, Job)>)
    requires Init(s) && Exec(s, p).sh.lck.Num? && Exec(s, p + q).sh.lck.Num?
    ensures var a, b := Exec(s, p).sh, Exec(s, p + q).sh;
            if |a.order| < |b.order| then a.lck.n < b.lck.n else a.lck == b.lck
  {
    Reachable(s, p);
    ExecAppend(s, p, q);
    LevelRises(Exec(s, p), Values(s.sh.mem), q);
  }

  // ---------------------------------------------------------------- idempotent allocation

  /** A private object is in the hands of the thread that allocated it. */
  ghost predicate NoLeak(s: State) {
    forall o :: 0 <= o < |s.sh.objs| && s.sh.objs[o].Private? ==>
      var u := s.sh.objs[o].owner;
      && u < |s.pcs| && s.pcs[u].Running?
      && (s.pcs[u].run.ph == Got(Obj(o)) || s.pcs[u].run.ph == Empty(Obj(o)))
  }

  lemma NoLeakStep(s: State, init: Mem, t: nat, job: Job)
    requires Inv(s, init) && NoLeak(s)
    ensures NoLeak(Step(s, t, job))
  {
    if t < |s.pcs| {
      assert PcOK(s.sh, t, s.pcs[t]);
      if s.pcs[t].Running? {
        NoLeakRun(s, t, s.pcs[t].job, s.pcs[t].my, s.pcs[t].run);
      } else {
      }
    }
  }

  lemma NoLeakRun(s: State, t: nat, job: Job, my: nat, run: Run)
    requires t < |s.pcs| && s.pcs[t] == Running(job, my, run) && RunOK(s.sh, t, run) && ObjsOK(s.sh) && NoLeak(s)
    ensures var r := RunStep(s.sh, t, job, my, run); NoLeak(State(r.0, s.pcs[t := r.1]))
  {
  }

  lemma {:induction false} NoLeakEver(s: State, sched: seq<(nat, Job)>)
    requires Init(s)
    ensures NoLeak(Exec(s, sched))
    decreases |sched|
  {
    if sched != [] {
      var n := |sched| - 1;
      Reachable(s, sched[..n]);
      NoLeakEver(s, sched[..n]);
      NoLeakStep(Exec(s, sched[..n]), Values(s.sh.mem), sched[n].0, sched[n].1);
    }
  }

  /** Idempotent allocation: however many helpers run an allocation, exactly one of the objects they
      make is kept.  When no thread is in the middle of an allocation, an object is either given back
      or the one committed by exactly one log entry. */
  lemma AllocatedOnce(s: State, sched: seq<(nat, Job)>, o: nat)
    requires Init(s) && o < |Exec(s, sched).sh.objs|
    requires forall t :: 0 <= t < |Exec(s, sched).pcs| && Exec(s, sched).pcs[t].Running? ==>
               Exec(s, sched).pcs[t].run.ph.Ready?
    ensures var sh := Exec(s, sched).sh;
            || sh.objs[o] == Destructed
            || (exists d, i :: 0 <= d < |sh.descs| && 0 <= i < |sh.descs[d].log| && sh.descs[d].log[i] == Obj(o))
    ensures var sh := Exec(s, sched).sh;
            forall d, i, e, j ::
              (&& 0 <= d < |sh.descs| && 0 <= i < |sh.descs[d].log| && sh.descs[d].log[i] == Obj(o)
               && 0 <= e < |sh.descs| && 0 <= j < |sh.descs[e].log| && sh.descs[e].log[j] == Obj(o))
              ==> d == e && i == j && sh.objs[o] != Destructed
  {
    Reachable(s, sched);
    NoLeakEver(s, sched);
    var sh := Exec(s, sched).sh;
    if sh.objs[o].Published? {
      assert sh.descs[sh.objs[o].d].log[sh.objs[o].i] == Obj(o);
    }
  }
}
