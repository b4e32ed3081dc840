/** Nobody waits for a thread that has stopped: the calls of Flock's lock return as long as their thunks
    do. */
module FlockProgress {
  import opened Options
  import opened Thunks
  import opened Progress
  import opened FlockLock
  import opened FlockSafety
  import opened FlockTheorems
  import opened FlockCalls

  /** f returns after at most k operations, whatever it observes. */
  ghost predicate Bounded(f: Thunk, k: nat) {
    forall obs :: |obs| >= k ==> f(obs).Return?
  }

  function PhaseLeft(ph: Phase): nat {
    match ph
    case Ready => 6
    case Got(_) => 5
    case Empty(_) => 4
    case Hold(_) => 3
    case Do(_) => 2
    case Mark(_) => 1
  }

  /** The steps to the end of the thunk, of at most k operations with six steps each. */
  function RunLeft(run: Run, k: nat): nat {
    PhaseLeft(run.ph) + if |run.obs| < k then 6 * (k - |run.obs|) else 0
  }

  /** The steps from reading the lock afresh in with_lock: when another descriptor holds it, that one's
      thunk has to be run first. */
  function AgainLeft(sh: Shared, k: nat): nat {
    if sh.lck.Num? then 6 * k + 17 else 12 * k + 34
  }

  /** What a thread still has to do when it is back from helping d. */
  function HelpedLeft(sh: Shared, job: Job, d: nat, k: nat): nat {
    if job.isTry then 1 else if sh.lck == Ptr(d) then 6 * k + 17 else AgainLeft(sh, k)
  }

  function EndLeft(sh: Shared, job: Job, my: nat, d: nat, k: nat): nat {
    if my == d then 0 else HelpedLeft(sh, job, d, k)
  }

  function TryLeft(pc: PC, k: nat): nat {
    match pc
    case TLoad(_) => 6 * k + 18
    case TSelf(_, _) => 6 * k + 17
    case TNew(_, _) => 6 * k + 16
    case TCasRead(_, _, _) => 6 * k + 15
    case TCas(_, _, _) => 6 * k + 14
    case TReRead(_, _) => 6 * k + 13
    case TDone(_, _, _) => 6 * k + 12
    case _ => 1
  }

  /** The steps in with_lock outside the thunk; cur may be out of date. */
  function WithLeft(sh: Shared, pc: PC, k: nat): nat {
    var again := AgainLeft(sh, k);
    match pc
    case WRead(_) => again + 1
    case WNew(_, cur) => if sh.lck == cur then again else again + 5
    case WCtr(_, _, cur) => if sh.lck == cur then again - 1 else again + 4
    case WCtrCas(_, _, cur, _) => if sh.lck == cur then again - 2 else again + 3
    case WDone(_, _, cur) => if sh.lck == cur then again - 3 else again + 2
    case WCasRead(_, _, cur) => if sh.lck == cur then again - 4 else again + 1
    case WCas(_, _, cur) => if sh.lck == cur then again - 5 else again + 1
    case _ => again
  }

  function HelpLeft(sh: Shared, pc: PC, k: nat): nat {
    match pc
    case HFirst(job, _, d) => HelpedLeft(sh, job, d, k) + if sh.lck == Ptr(d) || job.isTry then 6 * k + 13 else 1
    case HSecond(job, _, d) => HelpedLeft(sh, job, d, k) + if sh.lck == Ptr(d) || job.isTry then 6 * k + 12 else 1
    case Running(job, my, run) => RunLeft(run, k) + 5 + EndLeft(sh, job, my, run.d, k)
    case SetDone(job, my, d, _) => 5 + EndLeft(sh, job, my, d, k)
    case ClearRead(job, my, d, _) => 4 + EndLeft(sh, job, my, d, k)
    case ClearCtr(job, my, d, _) => 3 + EndLeft(sh, job, my, d, k)
    case ClearCas(job, my, d, _, _) => 2 + EndLeft(sh, job, my, d, k)
    case Leave(job, my, d, _) => 1 + EndLeft(sh, job, my, d, k)
    case _ => 0
  }

  /** The steps that a call has left, if its thread is left alone. */
  function CallLeft(sh: Shared, pc: PC, k: nat): nat {
    if InTry(pc) then TryLeft(pc, k) else if InWith(pc) then WithLeft(sh, pc, k) else HelpLeft(sh, pc, k)
  }

  // ---------------------------------------------------------------- each step counts

  lemma ConsumeNearer(f: Thunk, run: Run, e: Entry, k: nat)
    requires Bounded(f, k) && Fits(f, Cursor(run.obs, HeldOf(run.ph)), e) && !run.ph.Ready?
    ensures RunLeft(Consume(f, run, HeldOf(run.ph), e), k) < RunLeft(run, k)
  {
    assert !f(run.obs).Return?;
  }

  /** The steps left of a pass over a thunk, 0 when it has ended. */
  function PassLeft(pc: PC, k: nat): nat {
    if pc.Running? then RunLeft(pc.run, k) else 0
  }

  lemma ReadyNearer(sh: Shared, t: nat, job: Job, my: nat, run: Run, k: nat)
    requires run.d < |sh.descs| && Bounded(sh.descs[run.d].f, k) && run.ph.Ready?
    ensures PassLeft(RunStep(sh, t, job, my, run).1, k) < RunLeft(run, k)
  {
  }

  /** A step that consumes an entry of the log. */
  lemma LogNearer(sh: Shared, t: nat, job: Job, my: nat, run: Run, k: nat)
    requires At(sh, run) && DescOK(sh, run.d) && Bounded(sh.descs[run.d].f, k)
    requires (run.ph.Got? || run.ph.Empty? || run.ph.Hold?) && run.pos < |sh.descs[run.d].log|
    ensures PassLeft(RunStep(sh, t, job, my, run).1, k) < RunLeft(run, k)
  {
    var x := sh.descs[run.d];
    PrefixFits(x.f, x.log, run.pos);
    ConsumeNearer(x.f, run, x.log[run.pos], k);
  }

  /** A step that commits an entry. */
  lemma CommitNearer(sh: Shared, t: nat, job: Job, my: nat, run: Run, k: nat)
    requires RunOK(sh, t, run) && Bounded(sh.descs[run.d].f, k) && run.ph.Empty? && run.pos >= |sh.descs[run.d].log|
    ensures PassLeft(RunStep(sh, t, job, my, run).1, k) < RunLeft(run, k)
  {
    ConsumeNearer(sh.descs[run.d].f, run, run.ph.e, k);
  }

  lemma MarkNearer(sh: Shared, t: nat, job: Job, my: nat, run: Run, k: nat)
    requires At(sh, run) && DescOK(sh, run.d) && Bounded(sh.descs[run.d].f, k) && run.ph.Mark?
    ensures PassLeft(RunStep(sh, t, job, my, run).1, k) < RunLeft(run, k)
  {
    var x := sh.descs[run.d];
    PrefixFits(x.f, x.log, run.pos);
    HeldOp(x.f, x.log[..run.pos]);
    ConsumeNearer(x.f, run, Flag, k);
  }

  lemma PassNearer(sh: Shared, t: nat, job: Job, my: nat, run: Run, k: nat)
    requires RunOK(sh, t, run) && DescOK(sh, run.d) && Bounded(sh.descs[run.d].f, k)
    ensures PassLeft(RunStep(sh, t, job, my, run).1, k) < RunLeft(run, k)
  {
    if run.ph.Ready? { ReadyNearer(sh, t, job, my, run, k); }
    else if run.ph.Mark? { MarkNearer(sh, t, job, my, run, k); }
    else if run.ph.Do? { }
    else if run.pos < |sh.descs[run.d].log| { LogNearer(sh, t, job, my, run, k); }
    else if run.ph.Empty? { CommitNearer(sh, t, job, my, run, k); }
  }

  lemma PassPc(sh: Shared, t: nat, job: Job, my: nat, run: Run)
    requires run.d < |sh.descs|
    ensures var pc := RunStep(sh, t, job, my, run).1;
            if pc.Running? then pc.job == job && pc.my == my && pc.run.d == run.d
            else pc.SetDone? && pc.job == job && pc.my == my && pc.d == run.d
  {
  }

  lemma PassCounts(sh: Shared, sh': Shared, job: Job, my: nat, run: Run, pc: PC, k: nat)
    requires sh'.lck == sh.lck && PassLeft(pc, k) < RunLeft(run, k)
    requires if pc.Running? then pc.job == job && pc.my == my && pc.run.d == run.d
             else pc.SetDone? && pc.job == job && pc.my == my && pc.d == run.d
    ensures CallLeft(sh', pc, k) < CallLeft(sh, Running(job, my, run), k)
  {
    assert EndLeft(sh', job, my, run.d, k) == EndLeft(sh, job, my, run.d, k);
  }

  lemma RunNearer(sh: Shared, t: nat, job: Job, my: nat, run: Run, k: nat)
    requires RunOK(sh, t, run) && DescOK(sh, run.d) && Bounded(sh.descs[run.d].f, k)
    ensures var res := RunStep(sh, t, job, my, run);
            CallLeft(res.0, res.1, k) < CallLeft(sh, Running(job, my, run), k)
  {
    var res := RunStep(sh, t, job, my, run);
    PassNearer(sh, t, job, my, run, k);
    PassPc(sh, t, job, my, run);
    RunKeeps(sh, t, job, my, run);
    PassCounts(sh, res.0, job, my, run, res.1, k);
  }

  lemma TryNearer(sh: Shared, t: nat, pc: PC, k: nat)
    requires TInv(sh, t, pc) && MineExists(sh, pc) && InTry(pc) && pc.job.isTry
    ensures var res := TryStep(sh, t, pc); CallLeft(res.0, res.1, k) < CallLeft(sh, pc, k)
  {
  }

  lemma WritesNearer(sh: Shared, t: nat, pc: PC, k: nat)
    requires LockOK(sh) && TInv(sh, t, pc) && MineExists(sh, pc)
    requires (pc.WNew? || pc.WCtrCas? || pc.WCas?) && !pc.job.isTry
    ensures var res := WithStep(sh, t, pc); CallLeft(res.0, res.1, k) < CallLeft(sh, pc, k)
  {
  }

  lemma WDoneNearer(sh: Shared, t: nat, pc: PC, k: nat)
    requires LockOK(sh) && TInv(sh, t, pc) && MineExists(sh, pc) && pc.WDone? && !pc.job.isTry && DescOK(sh, pc.my)
    ensures var res := WithStep(sh, t, pc); CallLeft(res.0, res.1, k) < CallLeft(sh, pc, k)
  {
  }

  lemma WithNearer(sh: Shared, t: nat, pc: PC, k: nat)
    requires LockOK(sh) && TInv(sh, t, pc) && MineExists(sh, pc) && InWith(pc) && !pc.job.isTry
    requires pc.WDone? ==> DescOK(sh, pc.my)
    ensures var res := WithStep(sh, t, pc); CallLeft(res.0, res.1, k) < CallLeft(sh, pc, k)
  {
    if pc.WNew? || pc.WCtrCas? || pc.WCas? { WritesNearer(sh, t, pc, k); }
    else if pc.WDone? { WDoneNearer(sh, t, pc, k); }
    else { assert WithStep(sh, t, pc).0 == sh; }
  }

  lemma ClearNearer(sh: Shared, t: nat, pc: PC, k: nat)
    requires TInv(sh, t, pc) && MineExists(sh, pc) && pc.ClearCas?
    ensures var res := HelpStep(sh, t, pc); CallLeft(res.0, res.1, k) < CallLeft(sh, pc, k)
  {
  }

  lemma SetDoneNearer(sh: Shared, t: nat, pc: PC, k: nat)
    requires MineExists(sh, pc) && (pc.SetDone? || pc.ClearRead? || pc.ClearCtr?)
    ensures var res := HelpStep(sh, t, pc); CallLeft(res.0, res.1, k) < CallLeft(sh, pc, k)
  {
    var sh' := HelpStep(sh, t, pc).0;
    assert sh'.lck == sh.lck;
  }

  lemma HelpNearer(sh: Shared, t: nat, pc: PC, k: nat)
    requires TInv(sh, t, pc) && MineExists(sh, pc) && !pc.Idle? && !pc.Running? && !InTry(pc) && !InWith(pc)
    ensures var res := HelpStep(sh, t, pc); CallLeft(res.0, res.1, k) < CallLeft(sh, pc, k)
  {
    if pc.ClearCas? { ClearNearer(sh, t, pc, k); }
    else if pc.SetDone? || pc.ClearRead? || pc.ClearCtr? { SetDoneNearer(sh, t, pc, k); }
    else { assert pc.HFirst? || pc.HSecond? || pc.Leave?; }
  }

  ghost predicate DescsBounded(sh: Shared, k: nat) {
    forall d :: 0 <= d < |sh.descs| ==> Bounded(sh.descs[d].f, k)
  }

  lemma Nearer(sh: Shared, init: Mem, t: nat, pc: PC, job: Job, call: Call, k: nat)
    requires GInv(sh, init) && TInv(sh, t, pc) && InCall(sh, t, pc, call) && DescsBounded(sh, k)
    ensures var res := ThreadStep(sh, t, pc, job); CallLeft(res.0, res.1, k) < CallLeft(sh, pc, k)
  {
    PcExists(sh, t, pc);
    if pc.Running? {
      assert DescOK(sh, pc.run.d);
      RunNearer(sh, t, pc.job, pc.my, pc.run, k);
    }
    else if InTry(pc) { TryNearer(sh, t, pc, k); }
    else if InWith(pc) {
      if pc.WDone? { assert DescOK(sh, pc.my); }
      WithNearer(sh, t, pc, k);
    }
    else { HelpNearer(sh, t, pc, k); }
  }

  // ---------------------------------------------------------------- a thread left alone

  /** At most n steps of thread t with nobody else moving, until it is idle. */
  function Alone(s: State, t: nat, n: nat): State
    decreases n
  {
    if n == 0 || t >= |s.pcs| || s.pcs[t].Idle? then s else Alone(Step(s, t, s.pcs[t].job), t, n - 1)
  }

  lemma BoundedStep(s: State, t: nat, job: Job, call: Call, k: nat)
    requires t < |s.pcs| && TInv(s.sh, t, s.pcs[t]) && InCall(s.sh, t, s.pcs[t], call)
    requires DescsBounded(s.sh, k) && Bounded(call.job.f, k)
    ensures DescsBounded(Step(s, t, job).sh, k)
  {
    var sh' := Step(s, t, job).sh;
    PcExists(s.sh, t, s.pcs[t]);
    DescriptorMade(s.sh, t, s.pcs[t], job);
    forall d | 0 <= d < |sh'.descs| ensures Bounded(sh'.descs[d].f, k) {
      if d < |s.sh.descs| { CodeKept(s, t, job, d); }
    }
  }

  /** What holds of a thread that returns within n steps, for the next step to hold again. */
  ghost predicate OnItsWay(s: State, init: Mem, t: nat, call: Call, k: nat, n: int) {
    && t < |s.pcs|
    && (&& Inv(s, init) && Serves(s.sh, t, s.pcs[t], call) && DescsBounded(s.sh, k) && Bounded(call.job.f, k)
        && CallLeft(s.sh, s.pcs[t], k) <= n) == true
  }

  lemma StepOn(s: State, init: Mem, t: nat, call: Call, k: nat, n: nat) returns (next: Call)
    requires OnItsWay(s, init, t, call, k, n) && !s.pcs[t].Idle?
    ensures n > 0 && OnItsWay(Step(s, t, s.pcs[t].job), init, t, next, k, n - 1)
  {
    var pc := s.pcs[t];
    var s' := Step(s, t, pc.job);
    next := Seen(Born(call, s.sh, s'.sh), s'.sh, t);
    Nearer(s.sh, init, t, pc, pc.job, call, k);
    StepInv(s, init, t, pc.job);
    OwnServes(s.sh, t, pc, pc.job, call);
    BoundedStep(s, t, pc.job, call, k);
  }

  lemma {:induction false} RunsOut(s: State, init: Mem, t: nat, call: Call, k: nat, n: nat)
    requires OnItsWay(s, init, t, call, k, n)
    ensures t < |Alone(s, t, n).pcs| && Alone(s, t, n).pcs[t].Idle?
    decreases n
  {
    if !s.pcs[t].Idle? {
      var s' := Step(s, t, s.pcs[t].job);
      var next := StepOn(s, init, t, call, k, n);
      RunsOut(s', init, t, next, k, n - 1);
      assert Alone(s, t, n) == Alone(s', t, n - 1);
    }
  }

  /** The thunks of the schedule return after at most k operations. */
  ghost predicate JobsBounded(sched: seq<(nat, Job)>, k: nat) {
    forall i :: 0 <= i < |sched| ==> Bounded(sched[i].1.f, k)
  }

  lemma RunBounded(s: State, sched: seq<(nat, Job)>, k: nat)
    requires Init(s) && JobsBounded(sched, k)
    ensures DescsBounded(Exec(s, sched).sh, k)
  {
    var sh := Exec(s, sched).sh;
    BeginningsCount(s, sched);
    forall d | 0 <= d < |sh.descs| ensures Bounded(sh.descs[d].f, k) {
      MadeByACall(s, sched, d);
    }
  }

  /** Enough steps for a call that has to finish the section of another thread before its own. */
  function Enough(k: nat): nat {
    18 * k + 45
  }

  lemma LeftBound(sh: Shared, pc: PC, k: nat)
    ensures CallLeft(sh, pc, k) <= Enough(k)
  {
    assert AgainLeft(sh, k) <= 12 * k + 34;
    if pc.Running? {
      assert RunLeft(pc.run, k) <= 6 * k + 6;
      assert EndLeft(sh, pc.job, pc.my, pc.run.d, k) <= 12 * k + 34;
    }
  }

  /** Lock freedom: a thread that is left alone comes to the end of its call, wherever the others have
      stopped, even in the middle of a critical section: the thread finishes that section for them. */
  lemma AloneReturns(s: State, sched: seq<(nat, Job)>, t: nat, k: nat)
    requires Init(s) && JobsBounded(sched, k) && t < |Exec(s, sched).pcs|
    ensures var r := Alone(Exec(s, sched), t, Enough(k)); t < |r.pcs| && r.pcs[t].Idle?
  {
    var r, enough := Exec(s, sched), Enough(k);
    if !r.pcs[t].Idle? {
      Reachable(s, sched);
      CallServed(s, sched, t);
      BegunThere(s, sched, t);
      RunBounded(s, sched, k);
      LeftBound(r.sh, r.pcs[t], k);
      RunsOut(r, Values(s.sh.mem), t, CallOf(s, sched, t).value, k, enough);
    }
  }

  // ---------------------------------------------------------------- a try does not wait

  ghost predicate Trying(s: State, sched: seq<(nat, Job)>, t: nat) {
    var r := Exec(s, sched);
    t < |r.pcs| && !r.pcs[t].Idle? && r.pcs[t].job.isTry
  }

  ghost function TryLeftAfter(s: State, sched: seq<(nat, Job)>, t: nat, k: nat): nat {
    if JobsBounded(sched, k) && Trying(s, sched, t) then CallLeft(Exec(s, sched).sh, Exec(s, sched).pcs[t], k) else 0
  }

  lemma TryBound(sh: Shared, sh': Shared, pc: PC, k: nat)
    requires !pc.Idle? && pc.job.isTry && !InWith(pc)
    ensures CallLeft(sh', pc, k) == CallLeft(sh, pc, k) <= 6 * k + 18
  {
  }

  lemma TryLeftBound(s: State, sched: seq<(nat, Job)>, t: nat, k: nat)
    requires Init(s)
    ensures TryLeftAfter(s, sched, t, k) <= 6 * k + 18
    ensures TryLeftAfter(s, sched, t, k) == 0 ==> !JobsBounded(sched, k) || !Trying(s, sched, t)
  {
    var r := Exec(s, sched);
    if JobsBounded(sched, k) && Trying(s, sched, t) {
      Reachable(s, sched);
      CallServed(s, sched, t);
      TryBound(r.sh, r.sh, r.pcs[t], k);
    }
  }

  lemma TryNearerAfter(s: State, sched: seq<(nat, Job)>, x: (nat, Job), t: nat, k: nat)
    requires Init(s) && TryLeftAfter(s, sched, t, k) > 0
    ensures TryLeftAfter(s, sched + [x], t, k) <= TryLeftAfter(s, sched, t, k) - if x.0 == t then 1 else 0
  {
    var r, init := Exec(s, sched), Values(s.sh.mem);
    assert (sched + [x])[..|sched|] == sched;
    var r' := Exec(s, sched + [x]);
    Reachable(s, sched);
    CallServed(s, sched, t);
    if x.0 == t {
      RunBounded(s, sched, k);
      Nearer(r.sh, init, t, r.pcs[t], x.1, CallOf(s, sched, t).value, k);
    } else {
      TryBound(r.sh, r'.sh, r.pcs[t], k);
    }
  }

  /** try_lock_result is wait-free: whatever the other threads do, it is over by the time its thread has
      taken six steps for each operation of a thunk, and 18 more. */
  lemma TryWaitFree(s: State, sched: seq<(nat, Job)>, more: seq<(nat, Job)>, t: nat, k: nat)
    requires Init(s) && JobsBounded(sched + more, k) && Own((x: (nat, Job)) => x.0 == t, more) >= 6 * k + 18
    ensures exists i :: 0 <= i <= |more| && !Trying(s, sched + more[..i], t)
  {
    var left := (ms: seq<(nat, Job)>) => TryLeftAfter(s, ms, t, k);
    var mine := (x: (nat, Job)) => x.0 == t;
    forall ms, x | left(ms) > 0 ensures left(ms + [x]) <= left(ms) - if mine(x) then 1 else 0 {
      TryNearerAfter(s, ms, x, t, k);
    }
    TryLeftBound(s, sched, t, k);
    Returns(left, mine, sched, more);
    var i :| 0 <= i <= |more| && left(sched + more[..i]) == 0;
    TryLeftBound(s, sched + more[..i], t, k);
    PrefixBounded(sched, more, i, k);
  }

  lemma PrefixBounded(sched: seq<(nat, Job)>, more: seq<(nat, Job)>, i: nat, k: nat)
    requires JobsBounded(sched + more, k) && i <= |more|
    ensures JobsBounded(sched + more[..i], k)
  {
    forall j | 0 <= j < |sched + more[..i]| ensures Bounded((sched + more[..i])[j].1.f, k) {
      assert (sched + more[..i])[j] == (sched + more)[j];
    }
  }
}
