/** What a call of Flock's lock gives back to the caller, in terms of the entry of the schedule that
    began it. */
module FlockCalls {
  import opened Options
  import opened Thunks
  import opened FlockLock
  import opened FlockSafety
  import opened FlockTheorems

  /** The lock is held by a descriptor of another thread than t. */
  predicate HeldByOther(sh: Shared, t: nat) {
    sh.lck.Ptr? && sh.lck.d < |sh.descs| && sh.descs[sh.lck.d].owner != t
  }

  /** A call: the entry of the schedule that began it and the job given there, the descriptor created in it,
      whether another thread has held the lock at some moment of it, and the descriptor that has held the
      lock all the time since. */
  datatype Call = Call(begun: nat, job: Job, mine: Option<nat>, contended: bool, held: Option<nat>)

  function NewCall(n: nat, job: Job, sh: Shared, t: nat): Call {
    Call(n, job, None, HeldByOther(sh, t), if HeldByOther(sh, t) then Some(sh.lck.d) else None)
  }

  /** The latest call of thread t: it begins with the entry that finds the thread idle and lasts until the
      thread is idle again. */
  function CallOf(s: State, sched: seq<(nat, Job)>, t: nat): Option<Call>
    decreases |sched|
  {
    if sched == [] then None
    else
      var n := |sched| - 1;
      NextCall(CallOf(s, sched[..n], t), Exec(s, sched[..n]), n, sched[n].0, sched[n].1, t)
  }

  /** What has become of t's call after entry n of the schedule, a step of thread u from r. */
  function NextCall(call: Option<Call>, r: State, n: nat, u: nat, job: Job, t: nat): Option<Call> {
    if t >= |r.pcs| then None
    else if u == t && r.pcs[t].Idle? then Some(NewCall(n, job, r.sh, t))
    else if call.None? || r.pcs[t].Idle? then call
    else
      var sh' := Step(r, u, job).sh;
      Some(Seen(if u == t then Born(call.value, r.sh, sh') else call.value, sh', t))
  }

  function Born(call: Call, sh: Shared, sh': Shared): Call {
    if |sh'.descs| > |sh.descs| then call.(mine := Some(|sh.descs|)) else call
  }

  function Seen(call: Call, sh: Shared, t: nat): Call {
    call.(contended := call.contended || HeldByOther(sh, t),
          held := if call.held.Some? && sh.lck == Ptr(call.held.value) then call.held else None)
  }

  /** A call that has returned: its descriptor carries the caller's thunk and the outcome. */
  ghost predicate Ended(sh: Shared, t: nat, call: Call) {
    && call.mine.Some? && call.mine.value < |sh.descs|
    && var x := sh.descs[call.mine.value];
    && x.owner == t && x.f == call.job.f && !x.outcome.Pending?
    && (x.outcome.Failed? ==> call.job.isTry && call.contended)
    && (Helper(call.job) ==> call.held.None?)
  }

  predicate Helper(job: Job) {
    job.isTry && job.doHelp
  }

  /** On the way to help d, or helping it. */
  predicate Toward(pc: PC, d: nat) {
    || pc.TLoad? || (pc.TSelf? && pc.cur == Ptr(d)) || (pc.TNew? && pc.cur == Ptr(d))
    || ((pc.HFirst? || pc.HSecond? || pc.SetDone? || pc.ClearRead? || pc.ClearCtr? || pc.ClearCas?) && pc.d == d)
    || (pc.Running? && pc.run.d == d)
  }

  predicate Unborn(pc: PC) {
    pc.TLoad? || pc.TSelf? || pc.Reentrant? || pc.TNew? || pc.WRead? || pc.WNew?
  }

  predicate Helping(pc: PC) {
    || pc.HFirst? || pc.HSecond? || (pc.Running? && pc.run.d != pc.my)
    || ((pc.SetDone? || pc.ClearRead? || pc.ClearCtr? || pc.ClearCas? || pc.Leave?) && pc.d != pc.my)
  }

  predicate GivingUp(sh: Shared, pc: PC) {
    (pc.TReRead? || pc.TDone? || pc.TFail?) && pc.my < |sh.descs| && !sh.descs[pc.my].taken
  }

  /** A try that can no longer take the lock, or that helps: it will give up. */
  predicate LostChance(sh: Shared, pc: PC) {
    || (pc.TSelf? && sh.lck != pc.cur) || (pc.TNew? && sh.lck != pc.cur)
    || (pc.TCasRead? && sh.lck != pc.cur) || (pc.TCas? && sh.lck != pc.cur)
    || (pc.TSelf? && pc.cur.Ptr?) || (pc.TNew? && pc.cur.Ptr?)
    || GivingUp(sh, pc) || (Helping(pc) && pc.job.isTry)
  }

  ghost predicate InCall(sh: Shared, t: nat, pc: PC, call: Call) {
    && !pc.Idle? && pc.job == call.job
    && call.mine == (if Unborn(pc) then None else Some(pc.my))
    && (InTry(pc) ==> call.job.isTry) && (InWith(pc) ==> !call.job.isTry)
    && (HeldByOther(sh, t) || LostChance(sh, pc) ==> call.contended)
    && (Helper(call.job) && call.held.Some? ==> sh.lck == Ptr(call.held.value) && Toward(pc, call.held.value))
  }

  /** A thread at pc is carrying out the call, or has returned from it. */
  ghost predicate Serves(sh: Shared, t: nat, pc: PC, call: Call) {
    if pc.Idle? then Ended(sh, t, call) else InCall(sh, t, pc, call)
  }

  // ---------------------------------------------------------------- steps of other threads

  /** The lock word is left alone, taken by a descriptor, or cleared. */
  ghost predicate LockMoves(sh: Shared, sh': Shared) {
    sh'.lck == sh.lck || sh'.lck.Ptr? || sh.lck.Ptr?
  }

  lemma OtherEnded(sh: Shared, sh': Shared, t: nat, call: Call)
    requires Rely(sh, sh', t) && Ended(sh, t, call)
    ensures Ended(sh', t, call)
  {
    assert DescLe(sh.descs[call.mine.value], sh'.descs[call.mine.value]);
  }

  lemma OtherChance(sh: Shared, sh': Shared, t: nat, pc: PC)
    requires Rely(sh, sh', t) && TInv(sh, t, pc) && LockMoves(sh, sh') && !pc.Idle? && LostChance(sh', pc)
    ensures LostChance(sh, pc) || HeldByOther(sh, t) || HeldByOther(sh', t)
  {
  }

  lemma OtherServes(sh: Shared, sh': Shared, t: nat, pc: PC, call: Call)
    requires Rely(sh, sh', t) && TInv(sh, t, pc) && LockMoves(sh, sh') && Serves(sh, t, pc, call)
    ensures Serves(sh', t, pc, if pc.Idle? then call else Seen(call, sh', t))
  {
    if pc.Idle? {
      OtherEnded(sh, sh', t, call);
    } else if LostChance(sh', pc) {
      OtherChance(sh, sh', t, pc);
    }
  }

  // ---------------------------------------------------------------- the thread's own steps

  lemma OwnStart(sh: Shared, t: nat, n: nat, job: Job)
    ensures var res := ThreadStep(sh, t, Idle, job);
            Serves(res.0, t, res.1, NewCall(n, job, sh, t))
  {
  }

  /** What a step of t that turns (sh, pc) into res has to keep of the call. */
  ghost predicate StillServes(sh: Shared, t: nat, res: (Shared, PC), call: Call) {
    Serves(res.0, t, res.1, Seen(Born(call, sh, res.0), res.0, t))
  }

  lemma OwnTNew(sh: Shared, t: nat, pc: PC, call: Call)
    requires LockOK(sh) && TInv(sh, t, pc) && MineExists(sh, pc) && pc.TNew? && InCall(sh, t, pc, call)
    ensures StillServes(sh, t, TryStep(sh, t, pc), call)
  {
  }

  lemma OwnTCas(sh: Shared, t: nat, pc: PC, call: Call)
    requires LockOK(sh) && TInv(sh, t, pc) && MineExists(sh, pc) && pc.TCas? && InCall(sh, t, pc, call)
    ensures StillServes(sh, t, TryStep(sh, t, pc), call)
  {
  }

  lemma OwnTFail(sh: Shared, t: nat, pc: PC, call: Call)
    requires TInv(sh, t, pc) && MineExists(sh, pc) && pc.TFail? && InCall(sh, t, pc, call)
    ensures StillServes(sh, t, TryStep(sh, t, pc), call)
  {
  }

  lemma OwnTDone(sh: Shared, t: nat, pc: PC, call: Call)
    requires TInv(sh, t, pc) && MineExists(sh, pc) && (pc.TReRead? || pc.TDone?) && InCall(sh, t, pc, call)
    ensures StillServes(sh, t, TryStep(sh, t, pc), call)
  {
  }

  lemma OwnTry(sh: Shared, t: nat, pc: PC, call: Call)
    requires LockOK(sh) && TInv(sh, t, pc) && MineExists(sh, pc) && InTry(pc) && InCall(sh, t, pc, call)
    ensures StillServes(sh, t, TryStep(sh, t, pc), call)
  {
    if pc.TNew? { OwnTNew(sh, t, pc, call); }
    else if pc.TCas? { OwnTCas(sh, t, pc, call); }
    else if pc.TFail? { OwnTFail(sh, t, pc, call); }
    else if pc.TReRead? || pc.TDone? { OwnTDone(sh, t, pc, call); }
    else { assert TryStep(sh, t, pc).0 == sh; }
  }

  lemma OwnWith(sh: Shared, t: nat, pc: PC, call: Call)
    requires LockOK(sh) && TInv(sh, t, pc) && MineExists(sh, pc) && InWith(pc) && InCall(sh, t, pc, call)
    ensures StillServes(sh, t, WithStep(sh, t, pc), call)
  {
  }

  lemma OwnClear(sh: Shared, t: nat, pc: PC, call: Call)
    requires TInv(sh, t, pc) && MineExists(sh, pc) && InCall(sh, t, pc, call) && (pc.SetDone? || pc.ClearCas?)
    ensures StillServes(sh, t, HelpStep(sh, t, pc), call)
  {
  }

  lemma OwnLeave(sh: Shared, t: nat, pc: PC, call: Call)
    requires TInv(sh, t, pc) && MineExists(sh, pc) && InCall(sh, t, pc, call) && pc.Leave?
    ensures StillServes(sh, t, HelpStep(sh, t, pc), call)
  {
  }

  lemma OwnHelp(sh: Shared, t: nat, pc: PC, call: Call)
    requires TInv(sh, t, pc) && MineExists(sh, pc) && InCall(sh, t, pc, call)
    requires !pc.Running? && !InTry(pc) && !InWith(pc)
    ensures StillServes(sh, t, HelpStep(sh, t, pc), call)
  {
    if pc.SetDone? || pc.ClearCas? { OwnClear(sh, t, pc, call); }
    else if pc.Leave? { OwnLeave(sh, t, pc, call); }
    else { assert HelpStep(sh, t, pc).0 == sh; }
  }

  lemma OwnRun(sh: Shared, t: nat, job: Job, my: nat, run: Run, call: Call)
    requires TInv(sh, t, Running(job, my, run)) && InCall(sh, t, Running(job, my, run), call)
    requires run.d < |sh.descs|
    ensures StillServes(sh, t, RunStep(sh, t, job, my, run), call)
  {
    RunKeeps(sh, t, job, my, run);
  }

  lemma OwnServes(sh: Shared, t: nat, pc: PC, job: Job, call: Call)
    requires LockOK(sh) && TInv(sh, t, pc) && !pc.Idle? && InCall(sh, t, pc, call)
    ensures StillServes(sh, t, ThreadStep(sh, t, pc, job), call)
  {
    PcExists(sh, t, pc);
    if pc.Running? { OwnRun(sh, t, pc.job, pc.my, pc.run, call); }
    else if InTry(pc) { OwnTry(sh, t, pc, call); }
    else if InWith(pc) { OwnWith(sh, t, pc, call); }
    else { OwnHelp(sh, t, pc, call); }
  }

  // ---------------------------------------------------------------- every run

  lemma StepServes(s: State, init: Mem, n: nat, u: nat, job: Job, t: nat, call: Call)
    requires Inv(s, init) && t < |s.pcs| && Serves(s.sh, t, s.pcs[t], call)
    ensures var s' := Step(s, u, job);
            && t < |s'.pcs| && NextCall(Some(call), s, n, u, job, t).Some?
            && Serves(s'.sh, t, s'.pcs[t], NextCall(Some(call), s, n, u, job, t).value)
  {
    if u < |s.pcs| {
      if u == t {
        if s.pcs[t].Idle? { OwnStart(s.sh, t, n, job); } else { OwnServes(s.sh, t, s.pcs[t], job, call); }
      } else {
        ThreadOK(s.sh, init, u, s.pcs[u], job);
        LockChange(s, init, u, job);
        OtherServes(s.sh, Step(s, u, job).sh, t, s.pcs[t], call);
      }
    }
  }

  /** A thread that has been given a call carries it out until it has returned; one without is idle. */
  lemma {:induction false} CallServed(s: State, sched: seq<(nat, Job)>, t: nat)
    requires Init(s) && t < |Exec(s, sched).pcs|
    ensures var r, call := Exec(s, sched), CallOf(s, sched, t);
            if call.Some? then Serves(r.sh, t, r.pcs[t], call.value) else r.pcs[t].Idle?
    decreases |sched|
  {
    if sched != [] {
      var n := |sched| - 1;
      var r, call := Exec(s, sched[..n]), CallOf(s, sched[..n], t);
      CallServed(s, sched[..n], t);
      Reachable(s, sched[..n]);
      if call.Some? {
        StepServes(r, Values(s.sh.mem), n, sched[n].0, sched[n].1, t, call.value);
      } else if sched[n].0 == t {
        OwnStart(r.sh, t, n, sched[n].1);
      }
    }
  }

  // ---------------------------------------------------------------- the sections are the calls

  /** Entry n of the schedule begins a call of thread t with this job. */
  ghost predicate Begins(s: State, sched: seq<(nat, Job)>, n: nat, t: nat, job: Job) {
    && n < |sched| && sched[n] == (t, job)
    && var r := Exec(s, sched[..n]); t < |r.pcs| && r.pcs[t].Idle?
  }

  lemma BeginsLater(s: State, sched: seq<(nat, Job)>, k: nat, n: nat, t: nat, job: Job)
    requires k <= |sched| && Begins(s, sched[..k], n, t, job)
    ensures Begins(s, sched, n, t, job)
  {
    assert sched[..k][..n] == sched[..n];
  }

  lemma {:induction false} BegunThere(s: State, sched: seq<(nat, Job)>, t: nat)
    requires CallOf(s, sched, t).Some?
    ensures var call := CallOf(s, sched, t).value; Begins(s, sched, call.begun, t, call.job)
    decreases |sched|
  {
    var n, call := |sched| - 1, CallOf(s, sched, t).value;
    if call.begun != n || sched[n].0 != t || !Exec(s, sched[..n]).pcs[t].Idle? {
      BegunThere(s, sched[..n], t);
      BeginsLater(s, sched, n, call.begun, t, call.job);
    }
  }

  /** For each descriptor, the entry that began the call in which it was made. */
  function Beginnings(s: State, sched: seq<(nat, Job)>): seq<nat>
    decreases |sched|
  {
    if sched == [] then []
    else
      var n := |sched| - 1;
      var r, call := Exec(s, sched[..n]), CallOf(s, sched[..n], sched[n].0);
      Beginnings(s, sched[..n]) +
      if |Exec(s, sched).sh.descs| > |r.sh.descs| && call.Some? then [call.value.begun] else []
  }

  lemma DescriptorMade(sh: Shared, t: nat, pc: PC, job: Job)
    requires MineExists(sh, pc)
    ensures var sh' := ThreadStep(sh, t, pc, job).0;
            if pc.TNew? || pc.WNew? then
              && |sh'.descs| == |sh.descs| + 1
              && sh'.descs[|sh.descs|].owner == t && sh'.descs[|sh.descs|].f == pc.job.f
            else |sh'.descs| == |sh.descs|
  {
    if pc.Running? { RunKeeps(sh, t, pc.job, pc.my, pc.run); }
  }

  lemma {:induction false} BeginningsPast(s: State, sched: seq<(nat, Job)>, d: nat)
    requires d < |Beginnings(s, sched)|
    ensures Beginnings(s, sched)[d] < |sched|
    decreases |sched|
  {
    var n := |sched| - 1;
    if d < |Beginnings(s, sched[..n])| { BeginningsPast(s, sched[..n], d); }
    else { BegunThere(s, sched[..n], sched[n].0); }
  }

  /** A call that has made no descriptor yet is not among the beginnings. */
  lemma {:induction false} UnbornIsNew(s: State, sched: seq<(nat, Job)>, t: nat)
    requires Init(s) && t < |Exec(s, sched).pcs| && CallOf(s, sched, t).Some? && Unborn(Exec(s, sched).pcs[t])
    ensures CallOf(s, sched, t).value.begun !in Beginnings(s, sched)
    decreases |sched|
  {
    var n := |sched| - 1;
    var r, u := Exec(s, sched[..n]), sched[n].0;
    CallServed(s, sched, t);
    CallServed(s, sched[..n], t);
    if u == t && r.pcs[t].Idle? {
      forall d | 0 <= d < |Beginnings(s, sched[..n])| ensures Beginnings(s, sched[..n])[d] < n {
        BeginningsPast(s, sched[..n], d);
      }
    } else {
      UnbornIsNew(s, sched[..n], t);
      BegunThere(s, sched[..n], t);
      if u != t && CallOf(s, sched[..n], u).Some? { BegunThere(s, sched[..n], u); }
    }
  }

  /** Entry n of the schedule, a step from r, makes at most one descriptor, and that for the call it is in. */
  lemma MadeInCall(s: State, sched: seq<(nat, Job)>, u: nat, job: Job)
    requires Init(s)
    ensures var r, r', call := Exec(s, sched), Step(Exec(s, sched), u, job), CallOf(s, sched, u);
            || |r'.sh.descs| == |r.sh.descs|
            || (&& |r'.sh.descs| == |r.sh.descs| + 1 && u < |r.pcs| && Unborn(r.pcs[u]) && call.Some?
                && r'.sh.descs[|r.sh.descs|].owner == u && r'.sh.descs[|r.sh.descs|].f == call.value.job.f)
  {
    var r := Exec(s, sched);
    if u < |r.pcs| {
      Reachable(s, sched);
      CallServed(s, sched, u);
      PcExists(r.sh, u, r.pcs[u]);
      DescriptorMade(r.sh, u, r.pcs[u], job);
    }
  }

  lemma CodeKept(s: State, u: nat, job: Job, d: nat)
    requires d < |s.sh.descs|
    ensures var sh' := Step(s, u, job).sh;
            d < |sh'.descs| && sh'.descs[d].f == s.sh.descs[d].f && sh'.descs[d].owner == s.sh.descs[d].owner
  {
    if u < |s.pcs| { OutcomeSet(s.sh, u, s.pcs[u], job, d); }
  }

  lemma {:induction false} BeginningsCount(s: State, sched: seq<(nat, Job)>)
    requires Init(s)
    ensures |Beginnings(s, sched)| == |Exec(s, sched).sh.descs|
    decreases |sched|
  {
    if sched != [] {
      var n := |sched| - 1;
      BeginningsCount(s, sched[..n]);
      MadeInCall(s, sched[..n], sched[n].0, sched[n].1);
    }
  }

  /** Every descriptor was made in a call of its owner, and carries the thunk that the schedule gave there. */
  lemma {:induction false} MadeByACall(s: State, sched: seq<(nat, Job)>, d: nat)
    requires Init(s) && d < |Exec(s, sched).sh.descs| && |Beginnings(s, sched)| == |Exec(s, sched).sh.descs|
    ensures var n, x := Beginnings(s, sched)[d], Exec(s, sched).sh.descs[d];
            n < |sched| && Begins(s, sched, n, x.owner, sched[n].1) && x.f == sched[n].1.f
    decreases |sched|
  {
    var n := |sched| - 1;
    var r, b := Exec(s, sched[..n]), Beginnings(s, sched)[d];
    var (u, job) := sched[n];
    MadeInCall(s, sched[..n], u, job);
    BeginningsCount(s, sched[..n]);
    if d < |r.sh.descs| {
      MadeByACall(s, sched[..n], d);
      CodeKept(r, u, job, d);
      BeginsLater(s, sched, n, b, r.sh.descs[d].owner, sched[b].1);
    } else {
      BegunThere(s, sched[..n], u);
      BeginsLater(s, sched, n, b, u, CallOf(s, sched[..n], u).value.job);
    }
  }

  /** No two descriptors were made in the same call. */
  lemma {:induction false} OneDescriptorACall(s: State, sched: seq<(nat, Job)>, d: nat, e: nat)
    requires Init(s) && d < e < |Exec(s, sched).sh.descs|
    ensures e < |Beginnings(s, sched)| && Beginnings(s, sched)[d] != Beginnings(s, sched)[e]
    decreases |sched|
  {
    var n := |sched| - 1;
    BeginningsCount(s, sched);
    BeginningsCount(s, sched[..n]);
    MadeInCall(s, sched[..n], sched[n].0, sched[n].1);
    if e < |Exec(s, sched[..n]).sh.descs| {
      OneDescriptorACall(s, sched[..n], d, e);
    } else {
      UnbornIsNew(s, sched[..n], sched[n].0);
    }
  }

  /** Exactly once: after any run of any number of threads there is a serial order of calls of the schedule,
      no call twice, such that the critical sections are what the thunks of these calls do when each is run
      once, alone, in that order, starting on the initial memory; whenever the lock is free, that is how
      the memory has come about. */
  lemma ExactlyOnce(s: State, sched: seq<(nat, Job)>) returns (calls: seq<nat>)
    requires Init(s)
    ensures var sh := Exec(s, sched).sh;
            var init := Values(s.sh.mem);
            && |calls| == |sh.order| && OrderInRange(sh) && |Beginnings(s, sched)| == |sh.descs|
            && (forall i :: 0 <= i < |calls| ==>
                  && calls[i] == Beginnings(s, sched)[sh.order[i]] < |sched|
                  && Begins(s, sched, calls[i], sh.descs[sh.order[i]].owner, sched[calls[i]].1)
                  && Sections(sh, |sh.order|)[i].f == sched[calls[i]].1.f)
            && (forall i, j :: 0 <= i < j < |calls| ==> calls[i] != calls[j])
            && SerialRuns(init, Sections(sh, Released(sh)))
            && (sh.lck.Num? ==> Values(sh.mem) == SerialMem(init, Sections(sh, |sh.order|)))
  {
    var sh := Exec(s, sched).sh;
    SerialOrder(s, sched);
    BeginningsCount(s, sched);
    calls := seq(|sh.order|, i requires 0 <= i < |sh.order| => Beginnings(s, sched)[sh.order[i]]);
    forall i | 0 <= i < |calls|
      ensures calls[i] < |sched|
      ensures Begins(s, sched, calls[i], sh.descs[sh.order[i]].owner, sched[calls[i]].1)
      ensures sh.descs[sh.order[i]].f == sched[calls[i]].1.f
    {
      MadeByACall(s, sched, sh.order[i]);
    }
    forall i, j | 0 <= i < j < |calls| ensures calls[i] != calls[j] {
      var d, e := sh.order[i], sh.order[j];
      OneDescriptorACall(s, sched, if d < e then d else e, if d < e then e else d);
    }
  }

  lemma {:induction false} MadeInItsCall(s: State, sched: seq<(nat, Job)>, t: nat)
    requires Init(s) && CallOf(s, sched, t).Some? && CallOf(s, sched, t).value.mine.Some?
    ensures var call, bs := CallOf(s, sched, t).value, Beginnings(s, sched);
            call.mine.value < |bs| && bs[call.mine.value] == call.begun
    decreases |sched|
  {
    var n := |sched| - 1;
    var before := CallOf(s, sched[..n], t);
    BeginningsCount(s, sched[..n]);
    if before.Some? && before.value.mine == CallOf(s, sched, t).value.mine { MadeInItsCall(s, sched[..n], t); }
  }

  /** A call that has returned made one descriptor, of its own, for the thunk that the schedule gave it.
      Either it returned a result: then that descriptor's section is in the serial order, and the result is
      what the thunk returned there.  Or it gave up: then it was a try, another thread held the lock at some
      moment of the call, and the thunk has not run and will not run.  A try that helps does not return
      while the descriptor that held the lock when it began has held it all the time. */
  lemma ReturnsItsResult(s: State, p: seq<(nat, Job)>, q: seq<(nat, Job)>, t: nat)
    requires Init(s) && t < |Exec(s, p).pcs| && Exec(s, p).pcs[t].Idle? && CallOf(s, p, t).Some?
    ensures var call, sh := CallOf(s, p, t).value, Exec(s, p + q).sh;
            && Begins(s, p, call.begun, t, call.job)
            && call.mine.Some? && call.mine.value < |Exec(s, p).sh.descs| == |Beginnings(s, p)|
            && Beginnings(s, p)[call.mine.value] == call.begun
            && (Helper(call.job) ==> call.held.None?)
            && var d := call.mine.value;
               var outcome := Exec(s, p).sh.descs[d].outcome;
               if outcome.Returned? then
                 && OrderInRange(sh) && d in sh.order[..Released(sh)]
                 && SectionOf(sh.descs[d]).f == call.job.f
                 && call.job.f(SectionOf(sh.descs[d]).obs) == Return(outcome.r)
               else outcome.Failed? && call.job.isTry && call.contended && d !in sh.order
  {
    CallServed(s, p, t);
    BegunThere(s, p, t);
    BeginningsCount(s, p);
    MadeInItsCall(s, p, t);
    var d := CallOf(s, p, t).value.mine.value;
    OutcomesMatch(s, p, q, d);
  }
}
