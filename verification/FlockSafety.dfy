/** Safety of Flock's helping lock over every run: critical sections behave as if each ran once,
    alone, in the order in which they took the lock. */
module FlockSafety {
  import opened Options
  import opened Thunks
  import opened FlockLock

  // ---------------------------------------------------------------- reading a log

  /** Where a thread stands that has consumed the whole of log. */
  ghost function Parse(f: Thunk, log: seq<Entry>): Cursor
    decreases |log|
  {
    if log == [] then Cursor([], None)
    else AdvanceOrStay(f, Parse(f, log[..|log| - 1]), log[|log| - 1])
  }

  /** Every entry is of the kind its operation commits. */
  ghost predicate WellFormed(f: Thunk, log: seq<Entry>)
    decreases |log|
  {
    log == [] ||
    (WellFormed(f, log[..|log| - 1]) && Fits(f, Parse(f, log[..|log| - 1]), log[|log| - 1]))
  }

  ghost predicate Complete(f: Thunk, log: seq<Entry>) {
    Parse(f, log).held.None? && f(Parse(f, log).obs).Return?
  }

  lemma ParseAppend(f: Thunk, log: seq<Entry>, e: Entry)
    ensures Parse(f, log + [e]) == AdvanceOrStay(f, Parse(f, log), e)
    ensures WellFormed(f, log) && Fits(f, Parse(f, log), e) ==> WellFormed(f, log + [e])
  {
    assert (log + [e])[..|log|] == log;
  }

  lemma {:induction false} PrefixFits(f: Thunk, log: seq<Entry>, n: nat)
    requires WellFormed(f, log) && n <= |log|
    ensures WellFormed(f, log[..n])
    ensures n < |log| ==> Fits(f, Parse(f, log[..n]), log[n])
    ensures n < |log| ==> Parse(f, log[..n + 1]) == Advance(f, Parse(f, log[..n]), log[n])
    decreases |log|
  {
    if n == |log| {
      assert log[..n] == log;
    } else {
      assert log[..|log|] == log;
      if n < |log| - 1 {
        PrefixFits(f, log[..|log| - 1], n);
        assert log[..|log| - 1][..n] == log[..n];
        assert log[..|log| - 1][..n + 1] == log[..n + 1];
      }
    }
  }

  lemma {:induction false} HeldOp(f: Thunk, log: seq<Entry>)
    requires WellFormed(f, log) && Parse(f, log).held.Some?
    ensures var c := Parse(f, log); var op := f(c.obs);
            op.Store? || (op.Cam? && c.held.value.val == op.expected)
  {
  }

  // ---------------------------------------------------------------- the invariant

  ghost function Level(sh: Shared): nat {
    match sh.lck
    case Num(n) => n
    case Ptr(d) => if d < |sh.descs| then sh.descs[d].counter else 0
  }

  ghost function FinalMem(x: Descriptor): Mem {
    After(x.f, x.start, Parse(x.f, x.log).obs)
  }

  /** While x holds the lock, memory is what x's run has produced so far; between the two entries
      of a store the word may or may not have been written. */
  ghost predicate MemOK(x: Descriptor, mem: map<Addr, Cell>) {
    var c := Parse(x.f, x.log);
    var op := x.f(c.obs);
    match c.held
    case None => Values(mem) == After(x.f, x.start, c.obs)
    case Some(w) =>
      && (op.Store? || op.Cam?)
      && (|| (Fetch(mem, op.a) == w && Values(mem) == After(x.f, x.start, c.obs))
          || (Fetch(mem, op.a) == Cell(w.tag + 1, op.v) && Values(mem) == After(x.f, x.start, c.obs + [0])))
  }

  ghost predicate DescOK(sh: Shared, d: nat)
    requires d < |sh.descs|
  {
    var x := sh.descs[d];
    && WellFormed(x.f, x.log)
    && (!x.taken ==> x.log == [] && !x.done)
    && (x.taken ==>
          && UNLOCKED_BIT <= x.counter <= Level(sh)
          && IsRun(x.f, x.start, Parse(x.f, x.log).obs)
          && (sh.lck != Ptr(d) ==> x.done))
    && (x.done ==> Complete(x.f, x.log))
    && (x.outcome.Failed? ==> !x.taken)
    && (x.outcome.Returned? ==>
          x.taken && sh.lck != Ptr(d) && x.f(Parse(x.f, x.log).obs) == Return(x.outcome.r))
  }

  ghost predicate LockOK(sh: Shared) {
    match sh.lck
    case Num(n) => UNLOCKED_BIT <= n
    case Ptr(d) => d < |sh.descs| && sh.descs[d].taken && MemOK(sh.descs[d], sh.mem)
  }

  /** Memory after the first n critical sections. */
  ghost function MemAfter(sh: Shared, init: Mem, n: nat): Mem
    requires n <= |sh.order|
  {
    if n == 0 || sh.order[n - 1] >= |sh.descs| then init else FinalMem(sh.descs[sh.order[n - 1]])
  }

  /** The i-th descriptor to take the lock started on the memory the previous one left, with a
      larger counter than all before it. */
  ghost predicate SlotOK(sh: Shared, init: Mem, i: nat)
    requires i < |sh.order|
  {
    && sh.order[i] < |sh.descs|
    && sh.descs[sh.order[i]].taken
    && sh.descs[sh.order[i]].start == MemAfter(sh, init, i)
  }

  ghost predicate Increasing(sh: Shared, i: nat, j: nat)
    requires i < |sh.order| && j < |sh.order|
  {
    && sh.order[i] < |sh.descs| && sh.order[j] < |sh.descs|
    && sh.descs[sh.order[i]].counter < sh.descs[sh.order[j]].counter
  }

  ghost predicate OrderOK(sh: Shared, init: Mem) {
    && (forall i :: 0 <= i < |sh.order| ==> SlotOK(sh, init, i))
    && (forall i, j :: 0 <= i < j < |sh.order| ==> Increasing(sh, i, j))
    && (forall d :: 0 <= d < |sh.descs| && sh.descs[d].taken ==> d in sh.order)
    && (sh.lck.Ptr? ==> sh.order != [] && sh.order[|sh.order| - 1] == sh.lck.d)
    && (sh.lck.Num? ==>
          && Values(sh.mem) == MemAfter(sh, init, |sh.order|)
          && forall d :: 0 <= d < |sh.descs| && sh.descs[d].taken ==> sh.descs[d].counter < sh.lck.n)
  }

  ghost predicate ObjsOK(sh: Shared) {
    && (forall d, i :: 0 <= d < |sh.descs| && 0 <= i < |sh.descs[d].log| && sh.descs[d].log[i].Obj? ==>
          sh.descs[d].log[i].id < |sh.objs| && sh.objs[sh.descs[d].log[i].id] == Published(d, i))
    && (forall o :: 0 <= o < |sh.objs| && sh.objs[o].Published? ==>
          && sh.objs[o].d < |sh.descs|
          && sh.objs[o].i < |sh.descs[sh.objs[o].d].log|
          && sh.descs[sh.objs[o].d].log[sh.objs[o].i] == Obj(o))
  }

  ghost predicate GInv(sh: Shared, init: Mem) {
    && LockOK(sh)
    && (forall d :: 0 <= d < |sh.descs| ==> DescOK(sh, d))
    && OrderOK(sh, init)
    && ObjsOK(sh)
  }

  ghost function HeldOf(ph: Phase): Option<Cell> {
    match ph
    case Hold(w) => Some(w)
    case Do(w) => Some(w)
    case Mark(w) => Some(w)
    case _ => None
  }

  /** e is still what its thread read, as far as the lock holder is concerned. */
  ghost predicate Fresh(sh: Shared, t: nat, run: Run, e: Entry)
    requires run.d < |sh.descs|
  {
    var x := sh.descs[run.d];
    && Fits(x.f, Cursor(run.obs, None), e)
    && (e.Obj? ==> e.id < |sh.objs| && sh.objs[e.id] == Private(t))
    && (!e.Obj? && run.pos == |x.log| && sh.lck == Ptr(run.d) ==>
          var op := x.f(run.obs); !op.Return? && !op.Alloc? && e == Read(Fetch(sh.mem, op.a)))
  }

  ghost predicate Overwritten(sh: Shared, op: Op, w: Cell) {
    (op.Store? || op.Cam?) && Fetch(sh.mem, op.a).tag > w.tag
  }

  /** The thread's registers are what the first run.pos entries of the log determine. */
  ghost predicate At(sh: Shared, run: Run) {
    && run.d < |sh.descs|
    && var x := sh.descs[run.d];
    && x.taken
    && run.pos <= |x.log|
    && Parse(x.f, x.log[..run.pos]) == Cursor(run.obs, HeldOf(run.ph))
  }

  ghost predicate RunOK(sh: Shared, t: nat, run: Run) {
    && At(sh, run)
    && var x := sh.descs[run.d];
    && match run.ph
       case Ready => true
       case Got(e) => Fresh(sh, t, run, e)
       case Empty(e) => Fresh(sh, t, run, e)
       case Hold(_) => true
       case Do(w) => run.pos < |x.log| ==> Overwritten(sh, x.f(run.obs), w)
       case Mark(w) => Overwritten(sh, x.f(run.obs), w)
  }

  ghost predicate CurOK(sh: Shared, cur: LockWord) {
    match cur
    case Num(n) => UNLOCKED_BIT <= n <= Level(sh)
    case Ptr(d) => d < |sh.descs| && sh.descs[d].taken
  }

  /** my is t's descriptor for its current call. */
  ghost predicate MyOK(sh: Shared, t: nat, job: Job, my: nat) {
    && my < |sh.descs|
    && sh.descs[my].owner == t && sh.descs[my].f == job.f && sh.descs[my].outcome.Pending?
  }

  ghost predicate NotTaken(sh: Shared, t: nat, job: Job, my: nat) {
    && MyOK(sh, t, job, my)
    && !sh.descs[my].taken
    && sh.descs[my].counter <= Level(sh)
  }

  /** my while running or clearing d: taken when it is d itself, not taken when t helps. */
  ghost predicate RunnerOK(sh: Shared, t: nat, job: Job, my: nat, d: nat) {
    if my == d then MyOK(sh, t, job, my) else NotTaken(sh, t, job, my)
  }

  /** d's thunk has been run to its end with result r. */
  ghost predicate Finished(sh: Shared, d: nat, r: Val) {
    && d < |sh.descs| && sh.descs[d].taken
    && Complete(sh.descs[d].f, sh.descs[d].log)
    && sh.descs[d].f(Parse(sh.descs[d].f, sh.descs[d].log).obs) == Return(r)
  }

  /** t is on its way to release its own descriptor d. */
  ghost predicate Owns(pc: PC, d: nat) {
    match pc
    case TReRead(_, my) => my == d
    case TDone(_, my, cur) => my == d
    case Running(_, my, run) => my == d && run.d == d
    case SetDone(_, my, e, _) => my == d && e == d
    case ClearRead(_, my, e, _) => my == d && e == d
    case ClearCtr(_, my, e, _) => my == d && e == d
    case ClearCas(_, my, e, _, _) => my == d && e == d
    case _ => false
  }

  ghost predicate OwnLock(sh: Shared, t: nat, pc: PC) {
    sh.lck.Ptr? && sh.lck.d < |sh.descs| && sh.descs[sh.lck.d].owner == t ==> Owns(pc, sh.lck.d)
  }

  ghost predicate PcOK(sh: Shared, t: nat, pc: PC) {
    match pc
    case Idle => true
    case TLoad(_) => true
    case TSelf(_, cur) => CurOK(sh, cur) && (cur.Ptr? ==> sh.descs[cur.d].owner != t)
    case Reentrant(_) => false
    case TNew(_, cur) => CurOK(sh, cur) && (cur.Ptr? ==> sh.descs[cur.d].owner != t)
    case TCasRead(job, my, cur) => NotTaken(sh, t, job, my) && CurOK(sh, cur) && cur == Num(sh.descs[my].counter)
    case TCas(job, my, cur) => NotTaken(sh, t, job, my) && CurOK(sh, cur) && cur == Num(sh.descs[my].counter)
    case TReRead(job, my) => MyOK(sh, t, job, my)
    case TDone(job, my, cur) =>
      MyOK(sh, t, job, my) && (sh.descs[my].taken <==> cur == Ptr(my) || sh.descs[my].done)
    case TFail(job, my) => MyOK(sh, t, job, my) && !sh.descs[my].taken
    case WRead(_) => true
    case WNew(_, cur) => CurOK(sh, cur)
    case WCtr(job, my, cur) =>
      NotTaken(sh, t, job, my) && CurOK(sh, cur) && (cur.Num? ==> sh.descs[my].counter <= cur.n)
    case WCtrCas(job, my, cur, seen) =>
      NotTaken(sh, t, job, my) && CurOK(sh, cur) && cur.Num? && sh.descs[my].counter == seen
    case WDone(job, my, cur) =>
      NotTaken(sh, t, job, my) && CurOK(sh, cur) && (cur.Num? ==> sh.descs[my].counter == cur.n)
    case WCasRead(job, my, cur) =>
      NotTaken(sh, t, job, my) && CurOK(sh, cur) && cur == Num(sh.descs[my].counter)
    case WCas(job, my, cur) =>
      NotTaken(sh, t, job, my) && CurOK(sh, cur) && cur == Num(sh.descs[my].counter)
    case WReRead(job, my) => NotTaken(sh, t, job, my)
    case HFirst(job, my, d) => NotTaken(sh, t, job, my) && d < |sh.descs| && sh.descs[d].taken
    case HSecond(job, my, d) => NotTaken(sh, t, job, my) && d < |sh.descs| && sh.descs[d].taken
    case Running(job, my, run) => RunnerOK(sh, t, job, my, run.d) && RunOK(sh, t, run)
    case SetDone(job, my, d, r) => RunnerOK(sh, t, job, my, d) && Finished(sh, d, r)
    case ClearRead(job, my, d, r) => RunnerOK(sh, t, job, my, d) && Finished(sh, d, r) && sh.descs[d].done
    case ClearCtr(job, my, d, r) => RunnerOK(sh, t, job, my, d) && Finished(sh, d, r) && sh.descs[d].done
    case ClearCas(job, my, d, r, ctr) =>
      RunnerOK(sh, t, job, my, d) && Finished(sh, d, r) && sh.descs[d].done && ctr == sh.descs[d].counter
    case Leave(job, my, d, r) => RunnerOK(sh, t, job, my, d) && Finished(sh, d, r) && sh.lck != Ptr(d)
  }

  /** As one fact: the comparison keeps proofs that pass it on from being split into the cases of PcOK. */
  ghost predicate TInv(sh: Shared, t: nat, pc: PC) {
    (PcOK(sh, t, pc) && OwnLock(sh, t, pc)) == true
  }

  ghost predicate Inv(s: State, init: Mem) {
    GInv(s.sh, init) && forall t :: 0 <= t < |s.pcs| ==> TInv(s.sh, t, s.pcs[t])
  }

  // ---------------------------------------------------------------- what other threads may do

  ghost predicate DescLe(x: Descriptor, y: Descriptor) {
    && x.owner == y.owner && x.f == y.f
    && x.log <= y.log
    && (x.done ==> y.done)
    && (x.taken ==> y.taken && x.start == y.start && x.counter == y.counter)
  }

  /** A step of a thread other than t, as t sees it. */
  ghost predicate Rely(sh: Shared, sh': Shared, t: nat) {
    && |sh.descs| <= |sh'.descs|
    && (forall d :: 0 <= d < |sh.descs| ==> DescLe(sh.descs[d], sh'.descs[d]))
    && (forall d :: 0 <= d < |sh.descs| && sh.descs[d].owner == t ==>
          && sh'.descs[d].counter == sh.descs[d].counter && sh'.descs[d].taken == sh.descs[d].taken
          && sh'.descs[d].outcome == sh.descs[d].outcome)
    && (forall a :: Fetch(sh.mem, a).tag <= Fetch(sh'.mem, a).tag)
    && Level(sh) <= Level(sh')
    && (forall d :: 0 <= d < |sh.descs| && sh.descs[d].taken && sh.lck != Ptr(d) ==> sh'.lck != Ptr(d))
    && (sh'.lck.Ptr? && sh'.lck != sh.lck ==> sh'.lck.d < |sh'.descs| && sh'.descs[sh'.lck.d].owner != t)
    && (sh.lck.Ptr? && sh.lck.d < |sh.descs| && Parse(sh.descs[sh.lck.d].f, sh.descs[sh.lck.d].log).held.None? ==>
          sh'.mem == sh.mem)
    && (forall d :: 0 <= d < |sh.descs| && |sh.descs[d].log| < |sh'.descs[d].log| ==>
          var c := Parse(sh.descs[d].f, sh.descs[d].log);
          c.held.Some? ==> Overwritten(sh', sh.descs[d].f(c.obs), c.held.value))
    && |sh.objs| <= |sh'.objs|
    && (forall o :: 0 <= o < |sh.objs| && sh.objs[o] == Private(t) ==> sh'.objs[o] == Private(t))
  }

  lemma StableRun(sh: Shared, sh': Shared, t: nat, run: Run)
    requires Rely(sh, sh', t) && RunOK(sh, t, run)
    ensures RunOK(sh', t, run)
  {
    var x, y := sh.descs[run.d], sh'.descs[run.d];
    assert DescLe(x, y);
    assert y.log[..run.pos] == x.log[..run.pos];
    if run.pos == |x.log| {
      assert x.log[..run.pos] == x.log;
    }
  }

  lemma StableMine(sh: Shared, sh': Shared, t: nat, job: Job, my: nat, cur: LockWord)
    requires Rely(sh, sh', t)
    ensures MyOK(sh, t, job, my) ==> MyOK(sh', t, job, my)
    ensures NotTaken(sh, t, job, my) ==> NotTaken(sh', t, job, my)
    ensures CurOK(sh, cur) ==> CurOK(sh', cur) && (cur.Ptr? ==> sh'.descs[cur.d].owner == sh.descs[cur.d].owner)
  {
    if my < |sh.descs| { assert DescLe(sh.descs[my], sh'.descs[my]); }
    if cur.Ptr? && cur.d < |sh.descs| { assert DescLe(sh.descs[cur.d], sh'.descs[cur.d]); }
  }

  ghost predicate InRun(pc: PC) {
    pc.Running? || pc.SetDone? || pc.ClearRead? || pc.ClearCtr? || pc.ClearCas? || pc.Leave?
  }

  lemma StableInRun(sh: Shared, sh': Shared, t: nat, pc: PC)
    requires Rely(sh, sh', t) && PcOK(sh, t, pc) && InRun(pc)
    requires !pc.Running? ==> pc.d < |sh'.descs| && DescOK(sh', pc.d)
    ensures PcOK(sh', t, pc)
  {
    if pc.Running? {
      StableMine(sh, sh', t, pc.job, pc.my, Num(0));
      StableRun(sh, sh', t, pc.run);
    } else {
      StableEnd(sh, sh', t, pc.job, pc.my, pc.d, pc.r);
    }
  }

  /** Before the thread has a descriptor, or while it looks at another one's. */
  lemma StableLooking(sh: Shared, sh': Shared, t: nat, pc: PC)
    requires Rely(sh, sh', t) && PcOK(sh, t, pc)
    requires pc.Idle? || pc.TLoad? || pc.TSelf? || pc.TNew? || pc.WRead? || pc.WNew? || pc.HFirst? || pc.HSecond?
    ensures PcOK(sh', t, pc)
  {
    if pc.TSelf? || pc.TNew? || pc.WNew? { StableMine(sh, sh', t, pc.job, 0, pc.cur); }
    else if pc.HFirst? || pc.HSecond? { StableMine(sh, sh', t, pc.job, pc.my, Ptr(pc.d)); }
  }

  lemma StableOutside(sh: Shared, sh': Shared, t: nat, pc: PC)
    requires Rely(sh, sh', t) && PcOK(sh, t, pc) && !InRun(pc)
    requires pc.TDone? ==> pc.my < |sh'.descs| && DescOK(sh', pc.my)
    ensures PcOK(sh', t, pc)
  {
    if pc.TDone? {
      StableMine(sh, sh', t, pc.job, pc.my, pc.cur);
      assert DescLe(sh.descs[pc.my], sh'.descs[pc.my]);
    } else if pc.TReRead? || pc.TFail? || pc.WReRead? {
      StableMine(sh, sh', t, pc.job, pc.my, Num(0));
    } else if pc.TCasRead? || pc.TCas? || pc.WCtr? || pc.WCtrCas? || pc.WDone? || pc.WCasRead? || pc.WCas? {
      StableMine(sh, sh', t, pc.job, pc.my, pc.cur);
    } else {
      StableLooking(sh, sh', t, pc);
    }
  }

  lemma StableEnd(sh: Shared, sh': Shared, t: nat, job: Job, my: nat, d: nat, r: Val)
    requires Rely(sh, sh', t) && RunnerOK(sh, t, job, my, d) && Finished(sh, d, r) && DescOK(sh', d)
    ensures RunnerOK(sh', t, job, my, d) && Finished(sh', d, r)
  {
    StableMine(sh, sh', t, job, my, Num(0));
    var x, y := sh.descs[d], sh'.descs[d];
    assert DescLe(x, y);
    assert y.log[..|x.log|] == x.log;
    PrefixFits(x.f, y.log, |x.log|);
    assert y.log == x.log;
  }

  lemma StablePc(sh: Shared, sh': Shared, t: nat, pc: PC)
    requires Rely(sh, sh', t) && PcOK(sh, t, pc)
    requires forall d :: 0 <= d < |sh'.descs| ==> DescOK(sh', d)
    ensures PcOK(sh', t, pc)
  {
    if InRun(pc) {
      if !pc.Running? { assert pc.d < |sh.descs| <= |sh'.descs|; }
      StableInRun(sh, sh', t, pc);
    } else {
      if pc.TDone? { assert pc.my < |sh.descs| <= |sh'.descs|; }
      StableOutside(sh, sh', t, pc);
    }
  }

  lemma Stable(sh: Shared, sh': Shared, t: nat, pc: PC)
    requires Rely(sh, sh', t) && TInv(sh, t, pc) && LockOK(sh)
    requires forall d :: 0 <= d < |sh'.descs| ==> DescOK(sh', d)
    ensures TInv(sh', t, pc)
  {
    StablePc(sh, sh', t, pc);
  }

  // ---------------------------------------------------------------- the steps that change shared state

  ghost predicate OthersRely(sh: Shared, sh': Shared, t: nat) {
    forall u: nat :: u != t ==> Rely(sh, sh', u)
  }

  /** x and y differ at most in done, outcome and, before the lock is taken, the counter. */
  ghost predicate SameCore(x: Descriptor, y: Descriptor) {
    && x.owner == y.owner && x.f == y.f && x.log == y.log && x.taken == y.taken && x.start == y.start
    && (x.taken ==> x.counter == y.counter)
  }

  /** Nothing that the order of critical sections, the objects or the lock depend on changes. */
  ghost predicate SameCores(sh: Shared, sh': Shared) {
    && sh'.lck == sh.lck && sh'.mem == sh.mem && sh'.order == sh.order
    && |sh'.descs| == |sh.descs|
    && forall d :: 0 <= d < |sh.descs| ==> SameCore(sh.descs[d], sh'.descs[d])
  }

  /** What the order of critical sections depends on is unchanged: only the holder's log and, while
      the lock is held, the memory may differ. */
  ghost predicate SameSlots(sh: Shared, sh': Shared) {
    && sh'.lck == sh.lck && sh'.order == sh.order && |sh.descs| <= |sh'.descs|
    && (sh.lck.Num? ==> sh'.mem == sh.mem)
    && (forall d :: 0 <= d < |sh.descs| ==>
          var x, y := sh.descs[d], sh'.descs[d];
          && x.taken == y.taken && x.start == y.start && (x.taken ==> x.counter == y.counter)
          && (sh.lck != Ptr(d) ==> x.f == y.f && x.log == y.log))
    && forall d :: |sh.descs| <= d < |sh'.descs| ==> !sh'.descs[d].taken
  }

  lemma OrderFrame(sh: Shared, sh': Shared, init: Mem)
    requires SameSlots(sh, sh') && LockOK(sh) && OrderOK(sh, init)
    ensures OrderOK(sh', init) && Level(sh') == Level(sh)
  {
    forall i | 0 <= i < |sh.order| ensures SlotOK(sh', init, i) {
      assert SlotOK(sh, init, i);
      if i > 0 {
        assert SlotOK(sh, init, i - 1);
        assert Increasing(sh, i - 1, i);
        if i < |sh.order| - 1 { assert Increasing(sh, i - 1, |sh.order| - 1); }
      }
    }
    forall i, j | 0 <= i < j < |sh.order| ensures Increasing(sh', i, j) {
      assert Increasing(sh, i, j) && SlotOK(sh, init, i) && SlotOK(sh, init, j);
    }
    if sh.order != [] { assert SlotOK(sh, init, |sh.order| - 1); }
  }

  lemma CoreRely(sh: Shared, sh': Shared, t: nat, d: nat)
    requires SameCores(sh, sh') && sh'.objs == sh.objs && LockOK(sh) && d < |sh.descs|
    requires sh'.descs == sh.descs[d := sh'.descs[d]]
    requires sh.descs[d].done ==> sh'.descs[d].done
    requires sh.descs[d].owner == t ||
             (sh'.descs[d].outcome == sh.descs[d].outcome && sh'.descs[d].counter == sh.descs[d].counter)
    ensures OthersRely(sh, sh', t)
  {
  }

  /** Changing done, outcome or an untaken counter of descriptor d keeps the invariant if d is still fine. */
  lemma CoreStep(sh: Shared, sh': Shared, init: Mem, t: nat, d: nat)
    requires GInv(sh, init)
    requires SameCores(sh, sh') && sh'.objs == sh.objs && d < |sh.descs|
    requires sh'.descs == sh.descs[d := sh'.descs[d]] && DescOK(sh', d)
    requires sh.descs[d].done ==> sh'.descs[d].done
    requires sh.descs[d].owner == t ||
             (sh'.descs[d].outcome == sh.descs[d].outcome && sh'.descs[d].counter == sh.descs[d].counter)
    ensures GInv(sh', init) && OthersRely(sh, sh', t)
  {
    OrderFrame(sh, sh', init);
    CoreRely(sh, sh', t, d);
    forall e | 0 <= e < |sh.descs| ensures DescOK(sh', e) {
      assert DescOK(sh, e);
    }
  }

  lemma AddDescriptor(sh: Shared, init: Mem, t: nat, x: Descriptor, sh': Shared)
    requires GInv(sh, init)
    requires sh' == sh.(descs := sh.descs + [x])
    requires x.owner == t && x.log == [] && !x.done && !x.taken && x.outcome.Pending?
    ensures GInv(sh', init) && OthersRely(sh, sh', t)
  {
    forall d | 0 <= d < |sh'.descs| ensures DescOK(sh', d) {
      if d < |sh.descs| { assert DescOK(sh, d); }
    }
    OrderFrame(sh, sh', init);
  }

  lemma TakeOrder(sh: Shared, init: Mem, my: nat, sh': Shared)
    requires LockOK(sh) && OrderOK(sh, init) && my < |sh.descs| && !sh.descs[my].taken
    requires sh.lck == Num(sh.descs[my].counter) && sh' == TakeLock(sh, my)
    ensures OrderOK(sh', init)
  {
    var n := |sh.order|;
    forall i | 0 <= i <= n ensures SlotOK(sh', init, i) {
      if i < n { assert SlotOK(sh, init, i); }
      if i > 0 { assert SlotOK(sh, init, i - 1); }
    }
    forall i, j | 0 <= i < j <= n ensures Increasing(sh', i, j) {
      assert SlotOK(sh, init, i);
      if j < n { assert Increasing(sh, i, j) && SlotOK(sh, init, j); }
    }
  }

  lemma Take(sh: Shared, init: Mem, t: nat, job: Job, my: nat, sh': Shared)
    requires GInv(sh, init) && NotTaken(sh, t, job, my)
    requires sh.lck == Num(sh.descs[my].counter)
    requires sh' == TakeLock(sh, my)
    ensures GInv(sh', init) && OthersRely(sh, sh', t)
  {
    TakeOrder(sh, init, my, sh');
    assert DescOK(sh, my);
    forall d | 0 <= d < |sh'.descs| ensures DescOK(sh', d) {
      assert DescOK(sh, d);
    }
  }

  lemma Clear(sh: Shared, init: Mem, t: nat, d: nat, sh': Shared)
    requires GInv(sh, init) && sh.lck == Ptr(d) && sh.descs[d].done
    requires sh' == sh.(lck := Num(sh.descs[d].counter + 1))
    ensures GInv(sh', init) && OthersRely(sh, sh', t)
  {
    var n := |sh.order|;
    assert DescOK(sh, d);
    forall e | 0 <= e < |sh'.descs| ensures DescOK(sh', e) {
      assert DescOK(sh, e);
    }
    forall i | 0 <= i < n ensures SlotOK(sh', init, i) {
      assert SlotOK(sh, init, i);
      if i > 0 { assert SlotOK(sh, init, i - 1); }
    }
    forall i, j | 0 <= i < j < n ensures Increasing(sh', i, j) {
      assert Increasing(sh, i, j);
    }
    forall e | 0 <= e < |sh'.descs| && sh'.descs[e].taken ensures sh'.descs[e].counter < sh'.lck.n {
      assert DescOK(sh, e);
    }
  }

  lemma ObjsStep(sh: Shared, init: Mem, t: nat, sh': Shared)
    requires GInv(sh, init) && sh' == sh.(objs := sh'.objs) && ObjsOK(sh')
    requires |sh.objs| <= |sh'.objs|
    requires forall o :: 0 <= o < |sh.objs| && sh.objs[o].Private? && sh.objs[o].owner != t ==>
               sh'.objs[o] == sh.objs[o]
    ensures GInv(sh', init) && OthersRely(sh, sh', t)
  {
    OrderFrame(sh, sh', init);
    forall d | 0 <= d < |sh.descs| ensures DescOK(sh', d) {
      assert DescOK(sh, d);
    }
  }

  lemma AfterAppend(f: Thunk, m: Mem, obs: seq<Val>, o: Val)
    ensures After(f, m, obs + [o]) == Effect(f(obs), After(f, m, obs))
    ensures IsRun(f, m, obs) && Observes(f(obs), After(f, m, obs), o) ==> IsRun(f, m, obs + [o])
  {
    assert (obs + [o])[..|obs|] == obs;
  }

  /** A thread that stands at the end of an unfinished log is running the lock holder. */
  lemma AtFrontier(sh: Shared, t: nat, run: Run)
    requires RunOK(sh, t, run) && DescOK(sh, run.d)
    requires run.pos == |sh.descs[run.d].log|
    requires HeldOf(run.ph).Some? || !sh.descs[run.d].f(run.obs).Return?
    ensures Parse(sh.descs[run.d].f, sh.descs[run.d].log) == Cursor(run.obs, HeldOf(run.ph))
    ensures sh.lck == Ptr(run.d) && !sh.descs[run.d].done
  {
    var x := sh.descs[run.d];
    assert x.log[..run.pos] == x.log;
  }

  /** e may be appended to the log of the holder, on which run stands at the frontier. */
  ghost predicate Appendable(sh: Shared, t: nat, run: Run, e: Entry) {
    && RunOK(sh, t, run)
    && var x := sh.descs[run.d];
    && var c := Cursor(run.obs, HeldOf(run.ph));
    && sh.lck == Ptr(run.d) && !x.done && Parse(x.f, x.log) == c
    && Fits(x.f, c, e)
    && MemOK(x.(log := x.log + [e]), sh.mem)
    && IsRun(x.f, x.start, Advance(x.f, c, e).obs)
    && (c.held.Some? ==> Overwritten(sh, x.f(run.obs), c.held.value))
  }

  ghost predicate ObjsKept(sh: Shared, sh': Shared, t: nat) {
    && |sh.objs| <= |sh'.objs|
    && forall o :: 0 <= o < |sh.objs| && sh.objs[o].Private? && sh.objs[o].owner != t ==> sh'.objs[o] == sh.objs[o]
  }

  lemma AppendRely(sh: Shared, t: nat, run: Run, e: Entry, sh': Shared)
    requires LockOK(sh) && Appendable(sh, t, run, e) && ObjsKept(sh, sh', t)
    requires var x := sh.descs[run.d];
             sh' == sh.(descs := sh.descs[run.d := x.(log := x.log + [e])], objs := sh'.objs)
    ensures OthersRely(sh, sh', t)
  {
    forall u: nat | u != t ensures Rely(sh, sh', u) { AppendRelyFor(sh, t, run, e, sh', u); }
  }

  lemma AppendRelyFor(sh: Shared, t: nat, run: Run, e: Entry, sh': Shared, u: nat)
    requires LockOK(sh) && Appendable(sh, t, run, e) && ObjsKept(sh, sh', t) && u != t
    requires var x := sh.descs[run.d];
             sh' == sh.(descs := sh.descs[run.d := x.(log := x.log + [e])], objs := sh'.objs)
    ensures Rely(sh, sh', u)
  {
    forall c | 0 <= c < |sh.descs| ensures DescLe(sh.descs[c], sh'.descs[c]) {
      assert c != run.d ==> sh'.descs[c] == sh.descs[c];
    }
  }

  lemma AppendEntry(sh: Shared, init: Mem, t: nat, run: Run, e: Entry, sh': Shared)
    requires GInv(sh, init) && Appendable(sh, t, run, e) && ObjsOK(sh')
    requires var x := sh.descs[run.d];
             sh' == sh.(descs := sh.descs[run.d := x.(log := x.log + [e])], objs := sh'.objs)
    ensures GInv(sh', init)
  {
    var d, x := run.d, sh.descs[run.d];
    assert DescOK(sh, d);
    ParseAppend(x.f, x.log, e);
    OrderFrame(sh, sh', init);
    forall c | 0 <= c < |sh.descs| ensures DescOK(sh', c) {
      assert DescOK(sh, c);
    }
  }

  /** run, which stands at the frontier, has an entry to commit. */
  ghost predicate MayCommit(sh: Shared, t: nat, run: Run) {
    && LockOK(sh) && RunOK(sh, t, run) && run.ph.Empty? && DescOK(sh, run.d)
    && run.pos == |sh.descs[run.d].log|
  }

  lemma CommitFits(sh: Shared, t: nat, run: Run)
    requires MayCommit(sh, t, run)
    ensures var x, e, c := sh.descs[run.d], run.ph.e, Cursor(run.obs, None);
            && sh.lck == Ptr(run.d) && !x.done && Parse(x.f, x.log) == c && Fits(x.f, c, e)
            && Parse(x.f, x.log + [e]) == Advance(x.f, c, e)
  {
    AtFrontier(sh, t, run);
    ParseAppend(sh.descs[run.d].f, sh.descs[run.d].log, run.ph.e);
  }

  lemma CommitRun(sh: Shared, t: nat, run: Run)
    requires MayCommit(sh, t, run) && Fits(sh.descs[run.d].f, Cursor(run.obs, None), run.ph.e)
    ensures var x := sh.descs[run.d];
            var obs := Advance(x.f, Cursor(run.obs, None), run.ph.e).obs;
            IsRun(x.f, x.start, obs) && (obs == run.obs || obs[..|obs| - 1] == run.obs)
  {
    var x := sh.descs[run.d];
    CommitFits(sh, t, run);
    var obs := Advance(x.f, Cursor(run.obs, None), run.ph.e).obs;
    if obs != run.obs { AfterAppend(x.f, x.start, run.obs, obs[|run.obs|]); }
  }

  lemma CommitMem(sh: Shared, t: nat, run: Run)
    requires MayCommit(sh, t, run)
    ensures var x := sh.descs[run.d]; MemOK(x.(log := x.log + [run.ph.e]), sh.mem)
  {
    CommitFits(sh, t, run);
    CommitRun(sh, t, run);
  }

  lemma CommitAppendable(sh: Shared, t: nat, run: Run)
    requires MayCommit(sh, t, run)
    ensures Appendable(sh, t, run, run.ph.e)
  {
    CommitFits(sh, t, run);
    CommitRun(sh, t, run);
    CommitMem(sh, t, run);
  }

  /** sh' is sh with the entry of run, which stands at the end of the log, committed. */
  ghost predicate Commits(sh: Shared, run: Run, sh': Shared) {
    && run.d < |sh.descs| && run.ph.Empty?
    && var x, e := sh.descs[run.d], run.ph.e;
    && run.pos == |x.log|
    && sh' == sh.(descs := sh.descs[run.d := x.(log := x.log + [e])],
                  objs := if e.Obj? && e.id < |sh.objs| then sh.objs[e.id := Published(run.d, run.pos)] else sh.objs)
  }

  lemma CommitObjs(sh: Shared, t: nat, run: Run, sh': Shared)
    requires ObjsOK(sh) && RunOK(sh, t, run) && Commits(sh, run, sh')
    ensures ObjsOK(sh') && ObjsKept(sh, sh', t)
  {
  }

  lemma MarkAppendable(sh: Shared, t: nat, run: Run)
    requires LockOK(sh) && RunOK(sh, t, run) && run.ph.Mark? && DescOK(sh, run.d)
    requires run.pos == |sh.descs[run.d].log|
    ensures Appendable(sh, t, run, Flag)
  {
    var x := sh.descs[run.d];
    AtFrontier(sh, t, run);
    ParseAppend(x.f, x.log, Flag);
    AfterAppend(x.f, x.start, run.obs, 0);
  }

  lemma FlagObjs(sh: Shared, d: nat, sh': Shared)
    requires ObjsOK(sh) && d < |sh.descs|
    requires sh' == sh.(descs := sh.descs[d := sh.descs[d].(log := sh.descs[d].log + [Flag])])
    ensures ObjsOK(sh')
  {
  }

  lemma MarkFlag(sh: Shared, init: Mem, t: nat, run: Run, sh': Shared)
    requires GInv(sh, init) && RunOK(sh, t, run) && run.ph.Mark? && run.pos == |sh.descs[run.d].log|
    requires var x := sh.descs[run.d]; sh' == sh.(descs := sh.descs[run.d := x.(log := x.log + [Flag])])
    ensures GInv(sh', init) && OthersRely(sh, sh', t)
  {
    assert DescOK(sh, run.d);
    MarkAppendable(sh, t, run);
    FlagObjs(sh, run.d, sh');
    AppendRely(sh, t, run, Flag, sh');
    AppendEntry(sh, init, t, run, Flag, sh');
  }

  /** sh' is sh with the word written that run is to write. */
  ghost predicate Writes(sh: Shared, run: Run, sh': Shared) {
    && run.d < |sh.descs| && run.ph.Do?
    && var op := sh.descs[run.d].f(run.obs);
    && (op.Store? || op.Cam?) && Fetch(sh.mem, op.a) == run.ph.w
    && sh' == sh.(mem := sh.mem[op.a := Cell(run.ph.w.tag + 1, op.v)])
  }

  lemma WrittenRely(sh: Shared, t: nat, run: Run, sh': Shared)
    requires Writes(sh, run, sh') && sh.lck == Ptr(run.d)
    requires Parse(sh.descs[run.d].f, sh.descs[run.d].log).held.Some?
    ensures OthersRely(sh, sh', t)
  {
    forall a ensures Fetch(sh.mem, a).tag <= Fetch(sh'.mem, a).tag {}
  }

  lemma WriteWord(sh: Shared, init: Mem, t: nat, run: Run, sh': Shared)
    requires GInv(sh, init) && RunOK(sh, t, run) && Writes(sh, run, sh')
    ensures GInv(sh', init) && OthersRely(sh, sh', t)
  {
    assert DescOK(sh, run.d);
    AtFrontier(sh, t, run);
    WrittenRely(sh, t, run, sh');
    OrderFrame(sh, sh', init);
    forall c | 0 <= c < |sh.descs| ensures DescOK(sh', c) {
      assert DescOK(sh, c);
    }
  }

  // ---------------------------------------------------------------- running the thunk

  /** What a step inside a thunk leaves alone. */
  ghost predicate Keeps(sh: Shared, sh': Shared) {
    && sh'.lck == sh.lck && |sh'.descs| == |sh.descs|
    && forall d :: 0 <= d < |sh.descs| ==>
         var x, y := sh.descs[d], sh'.descs[d];
         y.owner == x.owner && y.f == x.f && y.taken == x.taken && y.outcome == x.outcome && y.counter == x.counter
  }

  lemma RunKeeps(sh: Shared, t: nat, job: Job, my: nat, run: Run)
    requires run.d < |sh.descs|
    ensures Keeps(sh, RunStep(sh, t, job, my, run).0)
  {
  }

  /** What a step of t inside a thunk, from (sh, run) to (sh', run'), has to keep. */
  ghost predicate Ran(sh: Shared, init: Mem, t: nat, run: Run, sh': Shared, run': Run) {
    GInv(sh', init) && OthersRely(sh, sh', t) && run'.d == run.d && RunOK(sh', t, run')
  }

  lemma ReadOnly(sh: Shared, t: nat)
    ensures OthersRely(sh, sh, t)
  {
  }

  lemma ConsumeOK(sh: Shared, t: nat, run: Run, e: Entry)
    requires At(sh, run) && run.pos < |sh.descs[run.d].log| && WellFormed(sh.descs[run.d].f, sh.descs[run.d].log)
    requires e == sh.descs[run.d].log[run.pos]
    ensures RunOK(sh, t, Consume(sh.descs[run.d].f, run, HeldOf(run.ph), e))
    ensures HeldOf(run.ph).Some? ==> e == Flag
  {
    PrefixFits(sh.descs[run.d].f, sh.descs[run.d].log, run.pos);
    if HeldOf(run.ph).Some? {
      HeldOp(sh.descs[run.d].f, sh.descs[run.d].log[..run.pos]);
    }
  }

  /** The thread that appended e stands after it. */
  lemma AppendedOK(sh: Shared, sh': Shared, t: nat, run: Run, e: Entry)
    requires At(sh, run) && run.pos == |sh.descs[run.d].log|
    requires |sh'.descs| == |sh.descs| && DescOK(sh', run.d)
    requires sh'.descs[run.d] == sh.descs[run.d].(log := sh.descs[run.d].log + [e])
    ensures RunOK(sh', t, Consume(sh.descs[run.d].f, run, HeldOf(run.ph), e))
  {
    var x := sh.descs[run.d];
    assert (x.log + [e])[..run.pos] == x.log == x.log[..run.pos];
    ConsumeOK(sh', t, run, e);
  }

  lemma AllocOK(sh: Shared, init: Mem, t: nat, run: Run)
    requires GInv(sh, init) && RunOK(sh, t, run) && run.ph.Ready? && sh.descs[run.d].f(run.obs).Alloc?
    ensures Ran(sh, init, t, run, sh.(objs := sh.objs + [Private(t)]), run.(ph := Got(Obj(|sh.objs|))))
  {
    ObjsStep(sh, init, t, sh.(objs := sh.objs + [Private(t)]));
  }

  /** A thread whose entry is already committed takes over the committed value, and gives back what
      it allocated itself. */
  lemma AgreeOK(sh: Shared, init: Mem, t: nat, run: Run)
    requires GInv(sh, init) && RunOK(sh, t, run)
    requires (run.ph.Got? || run.ph.Empty?) && run.pos < |sh.descs[run.d].log|
    ensures var x := sh.descs[run.d];
            var e := x.log[run.pos];
            Ran(sh, init, t, run, sh.(objs := GiveBack(sh.objs, run.ph.e, e)), Consume(x.f, run, None, e))
  {
    var e := sh.descs[run.d].log[run.pos];
    var sh' := sh.(objs := GiveBack(sh.objs, run.ph.e, e));
    ObjsStep(sh, init, t, sh');
    assert DescOK(sh', run.d);
    ConsumeOK(sh', t, run, e);
  }

  lemma EmptyOK(sh: Shared, init: Mem, t: nat, run: Run, sh': Shared)
    requires GInv(sh, init) && RunOK(sh, t, run) && run.ph.Empty? && Commits(sh, run, sh')
    ensures Ran(sh, init, t, run, sh', Consume(sh.descs[run.d].f, run, None, run.ph.e))
  {
    assert DescOK(sh, run.d);
    CommitAppendable(sh, t, run);
    CommitObjs(sh, t, run, sh');
    AppendRely(sh, t, run, run.ph.e, sh');
    AppendEntry(sh, init, t, run, run.ph.e, sh');
    assert DescOK(sh', run.d);
    AppendedOK(sh, sh', t, run, run.ph.e);
  }

  /** The write succeeds: the thread is at the frontier, and it holds the lock. */
  lemma DoWrites(sh: Shared, init: Mem, t: nat, run: Run, sh': Shared)
    requires GInv(sh, init) && RunOK(sh, t, run) && run.ph.Do? && Writes(sh, run, sh')
    ensures Ran(sh, init, t, run, sh', run.(ph := Mark(run.ph.w)))
  {
    WriteWord(sh, init, t, run, sh');
  }

  /** The write is that of another thread, done before, and nothing is written. */
  lemma DoMisses(sh: Shared, t: nat, run: Run)
    requires LockOK(sh) && RunOK(sh, t, run) && run.ph.Do? && DescOK(sh, run.d)
    requires var op := sh.descs[run.d].f(run.obs); !((op.Store? || op.Cam?) && Fetch(sh.mem, op.a) == run.ph.w)
    ensures RunOK(sh, t, run.(ph := Mark(run.ph.w)))
  {
    if run.pos == |sh.descs[run.d].log| {
      AtFrontier(sh, t, run);
      HeldOp(sh.descs[run.d].f, sh.descs[run.d].log);
    }
  }

  /** The flag is there already: nothing changes. */
  lemma MarkAgain(sh: Shared, t: nat, run: Run)
    requires RunOK(sh, t, run) && run.ph.Mark? && DescOK(sh, run.d) && run.pos < |sh.descs[run.d].log|
    ensures var x := sh.descs[run.d];
            && sh == sh.(descs := sh.descs[run.d := x.(log := x.log[run.pos := Flag])])
            && RunOK(sh, t, Consume(x.f, run, Some(run.ph.w), Flag))
  {
    var x := sh.descs[run.d];
    ConsumeOK(sh, t, run, x.log[run.pos]);
    assert x.log[run.pos := Flag] == x.log;
    assert x.(log := x.log[run.pos := Flag]) == x;
    assert sh.descs[run.d := x] == sh.descs;
  }

  lemma MarkOK(sh: Shared, init: Mem, t: nat, run: Run, sh': Shared)
    requires GInv(sh, init) && RunOK(sh, t, run) && run.ph.Mark? && run.pos == |sh.descs[run.d].log|
    requires var x := sh.descs[run.d]; sh' == sh.(descs := sh.descs[run.d := x.(log := x.log + [Flag])])
    ensures Ran(sh, init, t, run, sh', Consume(sh.descs[run.d].f, run, Some(run.ph.w), Flag))
  {
    MarkFlag(sh, init, t, run, sh');
    assert DescOK(sh', run.d);
    AppendedOK(sh, sh', t, run, Flag);
  }

  lemma ReturnOK(sh: Shared, t: nat, run: Run)
    requires RunOK(sh, t, run) && run.ph.Ready? && DescOK(sh, run.d) && sh.descs[run.d].f(run.obs).Return?
    ensures Finished(sh, run.d, sh.descs[run.d].f(run.obs).r)
  {
    var x := sh.descs[run.d];
    PrefixFits(x.f, x.log, run.pos);
    assert x.log[..run.pos] == x.log;
  }

  lemma ReturnPc(sh: Shared, t: nat, job: Job, my: nat, run: Run, r: Val)
    requires TInv(sh, t, Running(job, my, run)) && Finished(sh, run.d, r)
    ensures TInv(sh, t, SetDone(job, my, run.d, r))
  {
  }

  /** What a step inside a thunk does, but for the one that ends it. */
  lemma RunningOK(sh: Shared, init: Mem, t: nat, job: Job, my: nat, run: Run)
    requires GInv(sh, init) && RunOK(sh, t, run)
    requires !(run.ph.Ready? && sh.descs[run.d].f(run.obs).Return?)
    ensures var res := RunStep(sh, t, job, my, run);
            res.1.Running? && res.1.job == job && res.1.my == my && Ran(sh, init, t, run, res.0, res.1.run)
  {
    var x := sh.descs[run.d];
    var sh' := RunStep(sh, t, job, my, run).0;
    assert DescOK(sh, run.d);
    if run.ph.Ready? && x.f(run.obs).Alloc? { AllocOK(sh, init, t, run); }
    else if (run.ph.Got? || run.ph.Empty?) && run.pos < |x.log| { AgreeOK(sh, init, t, run); }
    else if run.ph.Empty? { EmptyOK(sh, init, t, run, sh'); }
    else if run.ph.Do? && Writes(sh, run, sh') { DoWrites(sh, init, t, run, sh'); }
    else if run.ph.Mark? && run.pos == |x.log| { MarkOK(sh, init, t, run, sh'); }
    else {
      ReadOnly(sh, t);
      if run.ph.Mark? { MarkAgain(sh, t, run); }
      if run.ph.Do? { DoMisses(sh, t, run); }
      if run.ph.Hold? && run.pos < |x.log| { ConsumeOK(sh, t, run, x.log[run.pos]); }
    }
  }

  lemma GoesOn(sh: Shared, sh': Shared, t: nat, job: Job, my: nat, run: Run, run': Run)
    requires TInv(sh, t, Running(job, my, run)) && Keeps(sh, sh') && run'.d == run.d && RunOK(sh', t, run')
    ensures TInv(sh', t, Running(job, my, run'))
  {
  }

  // ---------------------------------------------------------------- every step keeps the invariant

  /** What a step of t that turns (sh, pc) into res has to keep. */
  ghost predicate StepOK(sh: Shared, init: Mem, t: nat, res: (Shared, PC)) {
    GInv(res.0, init) && TInv(res.0, t, res.1) && OthersRely(sh, res.0, t)
  }

  lemma InThunkOK(sh: Shared, init: Mem, t: nat, job: Job, my: nat, run: Run)
    requires GInv(sh, init) && TInv(sh, t, Running(job, my, run))
    ensures StepOK(sh, init, t, RunStep(sh, t, job, my, run))
  {
    if run.ph.Ready? && sh.descs[run.d].f(run.obs).Return? {
      assert DescOK(sh, run.d);
      ReturnOK(sh, t, run);
      ReturnPc(sh, t, job, my, run, sh.descs[run.d].f(run.obs).r);
      ReadOnly(sh, t);
    } else {
      var res := RunStep(sh, t, job, my, run);
      RunningOK(sh, init, t, job, my, run);
      RunKeeps(sh, t, job, my, run);
      GoesOn(sh, res.0, t, job, my, run, res.1.run);
    }
  }

  lemma TNewOK(sh: Shared, init: Mem, t: nat, job: Job, cur: LockWord)
    requires GInv(sh, init) && TInv(sh, t, TNew(job, cur))
    ensures StepOK(sh, init, t, TryStep(sh, t, TNew(job, cur)))
  {
    AddDescriptor(sh, init, t, NewDescriptor(t, job, cur), sh.(descs := sh.descs + [NewDescriptor(t, job, cur)]));
  }

  lemma StartOK(sh: Shared, t: nat, job: Job, my: nat, d: nat)
    requires d < |sh.descs| && sh.descs[d].taken && RunnerOK(sh, t, job, my, d)
    ensures PcOK(sh, t, StartRun(job, my, d))
  {
    assert sh.descs[d].log[..0] == [];
  }

  lemma TryPc(sh: Shared, t: nat, pc: PC)
    requires LockOK(sh) && TInv(sh, t, pc) && InTry(pc)
    requires !pc.TNew? && !pc.TFail? && (pc.TCas? ==> sh.lck != pc.cur)
    requires pc.TReRead? || pc.TDone? ==> DescOK(sh, pc.my)
    ensures MineExists(sh, pc) && TryStep(sh, t, pc).0 == sh && TInv(sh, t, TryStep(sh, t, pc).1)
  {
    if pc.TDone? && sh.descs[pc.my].taken { StartOK(sh, t, pc.job, pc.my, pc.my); }
  }

  lemma TryOK(sh: Shared, init: Mem, t: nat, pc: PC)
    requires GInv(sh, init) && TInv(sh, t, pc) && MineExists(sh, pc) && InTry(pc)
    ensures StepOK(sh, init, t, TryStep(sh, t, pc))
  {
    if pc.TNew? { TNewOK(sh, init, t, pc.job, pc.cur); }
    else if pc.TCas? && sh.lck == pc.cur {
      Take(sh, init, t, pc.job, pc.my, TakeLock(sh, pc.my));
    }
    else if pc.TFail? {
      assert DescOK(sh, pc.my);
      CoreStep(sh, SetOutcome(sh, pc.my, Failed), init, t, pc.my);
    }
    else {
      ReadOnly(sh, t);
      TryPc(sh, t, pc);
    }
  }

  lemma WNewOK(sh: Shared, init: Mem, t: nat, job: Job, cur: LockWord)
    requires GInv(sh, init) && TInv(sh, t, WNew(job, cur))
    ensures StepOK(sh, init, t, WithStep(sh, t, WNew(job, cur)))
  {
    AddDescriptor(sh, init, t, NewDescriptor(t, job, cur), sh.(descs := sh.descs + [NewDescriptor(t, job, cur)]));
  }

  lemma WCasOK(sh: Shared, init: Mem, t: nat, job: Job, my: nat, cur: LockWord)
    requires GInv(sh, init) && TInv(sh, t, WCas(job, my, cur)) && sh.lck == cur
    ensures StepOK(sh, init, t, WithStep(sh, t, WCas(job, my, cur)))
  {
    Take(sh, init, t, job, my, TakeLock(sh, my));
    StartOK(TakeLock(sh, my), t, job, my, my);
  }

  lemma WithPc(sh: Shared, t: nat, pc: PC)
    requires LockOK(sh) && TInv(sh, t, pc) && InWith(pc)
    requires !pc.WNew? && !pc.WCtrCas? && !pc.WDone? && (pc.WCas? ==> sh.lck != pc.cur)
    ensures MineExists(sh, pc) && WithStep(sh, t, pc).0 == sh && TInv(sh, t, WithStep(sh, t, pc).1)
  {
  }

  lemma WithOK(sh: Shared, init: Mem, t: nat, pc: PC)
    requires GInv(sh, init) && TInv(sh, t, pc) && MineExists(sh, pc) && InWith(pc)
    ensures StepOK(sh, init, t, WithStep(sh, t, pc))
  {
    if pc.WNew? { WNewOK(sh, init, t, pc.job, pc.cur); }
    else if pc.WCtrCas? {
      assert DescOK(sh, pc.my);
      CoreStep(sh, sh.(descs := sh.descs[pc.my := sh.descs[pc.my].(counter := pc.cur.n)]), init, t, pc.my);
    }
    else if pc.WCas? && sh.lck == pc.cur { WCasOK(sh, init, t, pc.job, pc.my, pc.cur); }
    else {
      ReadOnly(sh, t);
      if pc.WDone? {
        assert DescOK(sh, pc.my);
      } else {
        WithPc(sh, t, pc);
      }
    }
  }

  lemma SetDonePc(sh: Shared, sh': Shared, t: nat, job: Job, my: nat, d: nat, r: Val)
    requires TInv(sh, t, SetDone(job, my, d, r)) && d < |sh.descs|
    requires sh' == sh.(descs := sh.descs[d := sh.descs[d].(done := true)])
    ensures TInv(sh', t, ClearRead(job, my, d, r))
  {
  }

  lemma SetDoneOK(sh: Shared, init: Mem, t: nat, job: Job, my: nat, d: nat, r: Val)
    requires GInv(sh, init) && TInv(sh, t, SetDone(job, my, d, r))
    ensures StepOK(sh, init, t, HelpStep(sh, t, SetDone(job, my, d, r)))
  {
    var sh' := sh.(descs := sh.descs[d := sh.descs[d].(done := true)]);
    assert DescOK(sh, d);
    CoreStep(sh, sh', init, t, d);
    SetDonePc(sh, sh', t, job, my, d, r);
  }

  lemma LeaveOK(sh: Shared, init: Mem, t: nat, job: Job, my: nat, r: Val)
    requires GInv(sh, init) && TInv(sh, t, Leave(job, my, my, r))
    ensures StepOK(sh, init, t, HelpStep(sh, t, Leave(job, my, my, r)))
  {
    assert DescOK(sh, my);
    CoreStep(sh, SetOutcome(sh, my, Returned(r)), init, t, my);
  }

  lemma EnterPc(sh: Shared, t: nat, pc: PC)
    requires TInv(sh, t, pc) && MineExists(sh, pc) && (pc.HFirst? || pc.HSecond?)
    ensures HelpStep(sh, t, pc).0 == sh && TInv(sh, t, HelpStep(sh, t, pc).1)
  {
    if pc.HSecond? && sh.lck == Ptr(pc.d) { StartOK(sh, t, pc.job, pc.my, pc.d); }
  }

  lemma ClearPc(sh: Shared, t: nat, pc: PC)
    requires TInv(sh, t, pc) && MineExists(sh, pc)
    requires pc.ClearRead? || pc.ClearCtr? || (pc.ClearCas? && sh.lck != Ptr(pc.d))
    ensures HelpStep(sh, t, pc).0 == sh && TInv(sh, t, HelpStep(sh, t, pc).1)
  {
  }

  /** A helper that is done goes back to its own call. */
  lemma HelpedPc(sh: Shared, t: nat, job: Job, my: nat, d: nat, r: Val)
    requires LockOK(sh) && TInv(sh, t, Leave(job, my, d, r)) && d != my
    ensures var res := HelpStep(sh, t, Leave(job, my, d, r)); res.0 == sh && TInv(sh, t, res.1)
  {
  }

  lemma HelpOK(sh: Shared, init: Mem, t: nat, pc: PC)
    requires GInv(sh, init) && TInv(sh, t, pc) && MineExists(sh, pc) && !pc.Idle? && !pc.Running? && !InTry(pc)
             && !InWith(pc)
    ensures StepOK(sh, init, t, HelpStep(sh, t, pc))
  {
    if pc.SetDone? { SetDoneOK(sh, init, t, pc.job, pc.my, pc.d, pc.r); }
    else if pc.ClearCas? && sh.lck == Ptr(pc.d) {
      Clear(sh, init, t, pc.d, sh.(lck := Num(pc.ctr + 1)));
    }
    else if pc.Leave? && pc.d == pc.my { LeaveOK(sh, init, t, pc.job, pc.my, pc.r); }
    else {
      ReadOnly(sh, t);
      if pc.HFirst? || pc.HSecond? { EnterPc(sh, t, pc); }
      else if pc.Leave? { HelpedPc(sh, t, pc.job, pc.my, pc.d, pc.r); }
      else { ClearPc(sh, t, pc); }
    }
  }

  lemma PcExists(sh: Shared, t: nat, pc: PC)
    requires PcOK(sh, t, pc)
    ensures MineExists(sh, pc)
  {
  }

  lemma ThreadOK(sh: Shared, init: Mem, t: nat, pc: PC, job: Job)
    requires GInv(sh, init) && TInv(sh, t, pc)
    ensures StepOK(sh, init, t, ThreadStep(sh, t, pc, job))
  {
    PcExists(sh, t, pc);
    if pc.Idle? { ReadOnly(sh, t); }
    else if pc.Running? { InThunkOK(sh, init, t, pc.job, pc.my, pc.run); }
    else if InTry(pc) { TryOK(sh, init, t, pc); }
    else if InWith(pc) { WithOK(sh, init, t, pc); }
    else { HelpOK(sh, init, t, pc); }
  }

  lemma StepInv(s: State, init: Mem, t: nat, job: Job)
    requires Inv(s, init)
    ensures Inv(Step(s, t, job), init)
  {
    if t < |s.pcs| {
      var res := ThreadStep(s.sh, t, s.pcs[t], job);
      ThreadOK(s.sh, init, t, s.pcs[t], job);
      forall u | 0 <= u < |s.pcs| && u != t ensures TInv(res.0, u, s.pcs[u]) {
        Stable(s.sh, res.0, u, s.pcs[u]);
      }
    }
  }

  lemma InitInv(s: State)
    requires Init(s)
    ensures Inv(s, Values(s.sh.mem))
  {
  }

  lemma {:induction false} Reachable(s: State, sched: seq<(nat, Job)>)
    requires Init(s)
    ensures Inv(Exec(s, sched), Values(s.sh.mem))
    decreases |sched|
  {
    if sched == [] {
      InitInv(s);
    } else {
      var last := sched[|sched| - 1];
      Reachable(s, sched[..|sched| - 1]);
      StepInv(Exec(s, sched[..|sched| - 1]), Values(s.sh.mem), last.0, last.1);
    }
  }
}
