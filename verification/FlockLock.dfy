/** Flock's lock with helping, as a transition system.  Any number of threads use one lock; the
    memory it protects is a set of tagged words.  Every load, store or compare-and-swap of shared
    memory is one step, and threads interleave arbitrarily.

    A descriptor's log is a sequence here: position i of the sequence is the i-th cell of the
    linked arrays of module LogArrays, and a cell beyond the end is still null. */
module FlockLock {
  import opened Options
  import opened Thunks

  /** Bit 63 of a lock word: set in the counter of a free lock, clear in a descriptor address. */
  const UNLOCKED_BIT: nat := 0x8000_0000_0000_0000

  /** A tagged memory word; the tag does not wrap. */
  datatype Cell = Cell(tag: nat, val: Val)

  /** A committed log entry: a tagged word, the mark left by skip_if_done_no_log, or an object. */
  datatype Entry = Read(cell: Cell) | Flag | Obj(id: nat)

  datatype LockWord = Num(n: nat) | Ptr(d: nat)

  /** What has become of an object allocated inside a thunk. */
  datatype ObjState = Private(owner: nat) | Published(d: nat, i: nat) | Destructed

  datatype Outcome = Pending | Failed | Returned(r: Val)

  /** A descriptor.  taken, start and outcome are history: whether the lock word ever held it,
      the memory when it first did, and what the owner's call returned. */
  datatype Descriptor = Descriptor(owner: nat, f: Thunk, counter: nat, log: seq<Entry>, done: bool,
                                   taken: bool, start: Mem, outcome: Outcome)

  /** order is history: the descriptors in the order in which they took the lock. */
  datatype Shared = Shared(lck: LockWord, mem: map<Addr, Cell>, descs: seq<Descriptor>,
                           objs: seq<ObjState>, order: seq<nat>)

  /** A call: try_lock_result (with its do_help flag) or with_lock, of thunk f. */
  datatype Job = Job(isTry: bool, doHelp: bool, f: Thunk)

  /** Where a thread is inside the current operation of the thunk it runs. */
  datatype Phase =
    | Ready
    | Got(e: Entry)       // has e to commit, next loads the log entry
    | Empty(e: Entry)     // saw a null entry, next compares-and-swaps e into it
    | Hold(w: Cell)     // w is committed, next loads the skip flag
    | Do(w: Cell)       // saw a null flag, next compares-and-swaps the memory word
    | Mark(w: Cell)     // next stores the flag

  /** A thread's pass over descriptor d: pos is its log position, obs what it has observed. */
  datatype Run = Run(d: nat, pos: nat, obs: seq<Val>, ph: Phase)

  /** Program counters.  my is the thread's own descriptor; it helps when it runs another one. */
  datatype PC =
    | Idle
    | TLoad(job: Job)
    | TSelf(job: Job, cur: LockWord)
    | Reentrant(job: Job)
    | TNew(job: Job, cur: LockWord)
    | TCasRead(job: Job, my: nat, cur: LockWord)
    | TCas(job: Job, my: nat, cur: LockWord)
    | TReRead(job: Job, my: nat)
    | TDone(job: Job, my: nat, cur: LockWord)
    | TFail(job: Job, my: nat)
    | WRead(job: Job)
    | WNew(job: Job, cur: LockWord)
    | WCtr(job: Job, my: nat, cur: LockWord)
    | WCtrCas(job: Job, my: nat, cur: LockWord, seen: nat)
    | WDone(job: Job, my: nat, cur: LockWord)
    | WCasRead(job: Job, my: nat, cur: LockWord)
    | WCas(job: Job, my: nat, cur: LockWord)
    | WReRead(job: Job, my: nat)
    | HFirst(job: Job, my: nat, d: nat)
    | HSecond(job: Job, my: nat, d: nat)
    | Running(job: Job, my: nat, run: Run)
    | SetDone(job: Job, my: nat, d: nat, r: Val)
    | ClearRead(job: Job, my: nat, d: nat, r: Val)
    | ClearCtr(job: Job, my: nat, d: nat, r: Val)
    | ClearCas(job: Job, my: nat, d: nat, r: Val, ctr: nat)
    | Leave(job: Job, my: nat, d: nat, r: Val)

  datatype State = State(sh: Shared, pcs: seq<PC>)

  predicate IsLocked(w: LockWord) {
    match w
    case Num(n) => n < UNLOCKED_BIT
    case Ptr(_) => true
  }

  function Fetch(mem: map<Addr, Cell>, a: Addr): Cell {
    if a in mem then mem[a] else Cell(1, 0)
  }

  function Values(mem: map<Addr, Cell>): Mem {
    map a | a in mem :: mem[a].val
  }

  function AddrOf(op: Op): Addr
    requires op.Load? || op.Store? || op.Cam?
  {
    op.a
  }

  function NewVal(op: Op): Val
    requires op.Store? || op.Cam?
  {
    op.v
  }

  /** A pass through the log: what has been observed and, between the two entries of a store or
      cam, the committed old word. */
  datatype Cursor = Cursor(obs: seq<Val>, held: Option<Cell>)

  /** The entry that the operation at cursor c expects. */
  predicate Fits(f: Thunk, c: Cursor, e: Entry) {
    match f(c.obs)
    case Load(_) => e.Read?
    case Alloc => e.Obj?
    case Return(_) => false
    case _ => if c.held.None? then e.Read? else e.Flag?
  }

  /** Consume committed entry e. */
  function Advance(f: Thunk, c: Cursor, e: Entry): Cursor
    requires Fits(f, c, e)
  {
    match f(c.obs)
    case Load(_) => Cursor(c.obs + [e.cell.val], None)
    case Alloc => Cursor(c.obs + [e.id], None)
    case Store(_, _) => if c.held.None? then Cursor(c.obs, Some(e.cell)) else Cursor(c.obs + [0], None)
    case Cam(_, expected, _) =>
      if c.held.Some? || e.cell.val != expected then Cursor(c.obs + [0], None)
      else Cursor(c.obs, Some(e.cell))
    case Return(_) => c
  }

  function AdvanceOrStay(f: Thunk, c: Cursor, e: Entry): Cursor {
    if Fits(f, c, e) then Advance(f, c, e) else c
  }

  function NewDescriptor(t: nat, job: Job, cur: LockWord): Descriptor {
    Descriptor(t, job.f, if IsLocked(cur) || cur.Ptr? then 0 else cur.n, [], false, false, map[], Pending)
  }

  /** lock::cas, the compare-exchange itself. */
  function TakeLock(sh: Shared, my: nat): Shared
    requires my < |sh.descs|
  {
    sh.(lck := Ptr(my), order := sh.order + [my],
        descs := sh.descs[my := sh.descs[my].(taken := true, start := Values(sh.mem))])
  }

  function SetOutcome(sh: Shared, my: nat, o: Outcome): Shared
    requires my < |sh.descs|
  {
    sh.(descs := sh.descs[my := sh.descs[my].(outcome := o)])
  }

  /** The end of help_descriptor: try_lock_result gives up, with_lock goes round its loop. */
  function AfterHelp(job: Job, my: nat): PC {
    if job.isTry then TFail(job, my) else WReRead(job, my)
  }

  function StartRun(job: Job, my: nat, d: nat): PC {
    Running(job, my, Run(d, 0, [], Ready))
  }

  /** The descriptors that pc refers to exist. */
  predicate MineExists(sh: Shared, pc: PC) {
    && (pc.Idle? || pc.TLoad? || pc.TSelf? || pc.Reentrant? || pc.TNew? || pc.WRead? || pc.WNew? || pc.my < |sh.descs|)
    && (pc.HFirst? || pc.HSecond? || pc.SetDone? || pc.ClearRead? || pc.ClearCtr? || pc.ClearCas? || pc.Leave? ==>
          pc.d < |sh.descs|)
    && (pc.Running? ==> pc.run.d < |sh.descs|)
  }

  /** try_lock_result up to the point where it runs the thunk, helps, or gives up. */
  function TryStep(sh: Shared, t: nat, pc: PC): (Shared, PC)
    requires MineExists(sh, pc)
  {
    match pc
    case TLoad(job) => (sh, TSelf(job, sh.lck))
    case TSelf(job, cur) =>
      if cur.Ptr? && cur.d < |sh.descs| && sh.descs[cur.d].owner == t then (sh, Reentrant(job))
      else (sh, TNew(job, cur))
    case TNew(job, cur) =>
      var my := |sh.descs|;
      var sh' := sh.(descs := sh.descs + [NewDescriptor(t, job, cur)]);
      if !IsLocked(cur) then (sh', TCasRead(job, my, cur))
      else if job.doHelp && cur.Ptr? then (sh', HFirst(job, my, cur.d))
      else (sh', TFail(job, my))
    case TCasRead(job, my, cur) =>
      (sh, if sh.lck == cur then TCas(job, my, cur) else TReRead(job, my))
    case TCas(job, my, cur) =>
      (if sh.lck == cur then TakeLock(sh, my) else sh, TReRead(job, my))
    case TReRead(job, my) => (sh, TDone(job, my, sh.lck))
    case TDone(job, my, cur) =>
      (sh, if sh.descs[my].done || cur == Ptr(my) then StartRun(job, my, my) else TFail(job, my))
    case TFail(job, my) => (SetOutcome(sh, my, Failed), Idle)
    case _ => (sh, pc)
  }

  /** with_lock up to the point where it runs the thunk or helps. */
  function WithStep(sh: Shared, t: nat, pc: PC): (Shared, PC)
    requires MineExists(sh, pc)
  {
    match pc
    case WRead(job) => (sh, WNew(job, sh.lck))
    case WNew(job, cur) =>
      (sh.(descs := sh.descs + [NewDescriptor(t, job, cur)]), WCtr(job, |sh.descs|, cur))
    case WCtr(job, my, cur) =>
      var seen := sh.descs[my].counter;
      (sh, if !IsLocked(cur) && cur.Num? && seen < cur.n then WCtrCas(job, my, cur, seen)
           else WDone(job, my, cur))
    case WCtrCas(job, my, cur, seen) =>
      if sh.descs[my].counter == seen && cur.Num? then
        (sh.(descs := sh.descs[my := sh.descs[my].(counter := cur.n)]), WDone(job, my, cur))
      else (sh, WDone(job, my, Num(sh.descs[my].counter)))
    case WDone(job, my, cur) =>
      (sh, if sh.descs[my].done || cur == Ptr(my) then StartRun(job, my, my)
           else if !IsLocked(cur) then WCasRead(job, my, cur)
           else if cur.Ptr? then HFirst(job, my, cur.d)
           else WReRead(job, my))
    case WCasRead(job, my, cur) =>
      (sh, if sh.lck == cur then WCas(job, my, cur) else WReRead(job, my))
    case WCas(job, my, cur) =>
      if sh.lck == cur then (TakeLock(sh, my), StartRun(job, my, my)) else (sh, WReRead(job, my))
    case WReRead(job, my) => (sh, WCtr(job, my, sh.lck))
    case _ => (sh, pc)
  }

  /** help_descriptor up to the run, and everything after a run. */
  function HelpStep(sh: Shared, t: nat, pc: PC): (Shared, PC)
    requires MineExists(sh, pc)
  {
    match pc
    case HFirst(job, my, d) =>
      (sh, if sh.lck == Ptr(d) then HSecond(job, my, d) else AfterHelp(job, my))
    case HSecond(job, my, d) =>
      (sh, if sh.lck == Ptr(d) then StartRun(job, my, d) else AfterHelp(job, my))
    case SetDone(job, my, d, r) =>
      (sh.(descs := sh.descs[d := sh.descs[d].(done := true)]), ClearRead(job, my, d, r))
    case ClearRead(job, my, d, r) =>
      (sh, if sh.lck == Ptr(d) then ClearCtr(job, my, d, r) else Leave(job, my, d, r))
    case ClearCtr(job, my, d, r) => (sh, ClearCas(job, my, d, r, sh.descs[d].counter))
    case ClearCas(job, my, d, r, ctr) =>
      (if sh.lck == Ptr(d) then sh.(lck := Num(ctr + 1)) else sh, Leave(job, my, d, r))
    case Leave(job, my, d, r) =>
      if d == my then (SetOutcome(sh, my, Returned(r)), Idle) else (sh, AfterHelp(job, my))
    case _ => (sh, pc)
  }

  /** The thread has read committed entry e at its position. */
  function Consume(f: Thunk, run: Run, held: Option<Cell>, e: Entry): Run {
    var c := AdvanceOrStay(f, Cursor(run.obs, held), e);
    Run(run.d, run.pos + 1, c.obs, if c.held.Some? then Hold(c.held.value) else Ready)
  }

  /** An allocation whose pointer lost the race for the log entry is given back. */
  function GiveBack(objs: seq<ObjState>, mine: Entry, e: Entry): seq<ObjState> {
    if mine.Obj? && mine != e && mine.id < |objs| then objs[mine.id := Destructed] else objs
  }

  /** One step of running the thunk of run.d against its log. */
  function RunStep(sh: Shared, t: nat, job: Job, my: nat, run: Run): (Shared, PC)
    requires run.d < |sh.descs|
  {
    var d := run.d;
    var desc := sh.descs[d];
    var op := desc.f(run.obs);
    match run.ph
    case Ready =>
      if op.Return? then (sh, SetDone(job, my, d, op.r))
      else if op.Alloc? then
        (sh.(objs := sh.objs + [Private(t)]), Running(job, my, run.(ph := Got(Obj(|sh.objs|)))))
      else (sh, Running(job, my, run.(ph := Got(Read(Fetch(sh.mem, AddrOf(op)))))))
    case Got(e) =>
      if run.pos < |desc.log| then
        (sh.(objs := GiveBack(sh.objs, e, desc.log[run.pos])),
         Running(job, my, Consume(desc.f, run, None, desc.log[run.pos])))
      else (sh, Running(job, my, run.(ph := Empty(e))))
    case Empty(e) =>
      if run.pos < |desc.log| then
        (sh.(objs := GiveBack(sh.objs, e, desc.log[run.pos])),
         Running(job, my, Consume(desc.f, run, None, desc.log[run.pos])))
      else
        (sh.(descs := sh.descs[d := desc.(log := desc.log + [e])],
             objs := if e.Obj? && e.id < |sh.objs| then sh.objs[e.id := Published(d, run.pos)] else sh.objs),
         Running(job, my, Consume(desc.f, run, None, e)))
    case Hold(w) =>
      if run.pos < |desc.log| then (sh, Running(job, my, Consume(desc.f, run, Some(w), desc.log[run.pos])))
      else (sh, Running(job, my, run.(ph := Do(w))))
    case Do(w) =>
      var sh' := if (op.Store? || op.Cam?) && Fetch(sh.mem, op.a) == w
                 then sh.(mem := sh.mem[op.a := Cell(w.tag + 1, NewVal(op))]) else sh;
      (sh', Running(job, my, run.(ph := Mark(w))))
    case Mark(w) =>
      var log := if run.pos < |desc.log| then desc.log[run.pos := Flag] else desc.log + [Flag];
      (sh.(descs := sh.descs[d := desc.(log := log)]), Running(job, my, Consume(desc.f, run, Some(w), Flag)))
  }

  predicate InTry(pc: PC) {
    pc.TLoad? || pc.TSelf? || pc.TNew? || pc.TCasRead? || pc.TCas? || pc.TReRead? || pc.TDone? || pc.TFail?
  }

  predicate InWith(pc: PC) {
    pc.WRead? || pc.WNew? || pc.WCtr? || pc.WCtrCas? || pc.WDone? || pc.WCasRead? || pc.WCas? || pc.WReRead?
  }

  /** One step of thread t; an idle thread starts job. */
  function ThreadStep(sh: Shared, t: nat, pc: PC, job: Job): (Shared, PC) {
    if !MineExists(sh, pc) then (sh, pc)
    else if pc.Idle? then (sh, if job.isTry then TLoad(job) else WRead(job))
    else if pc.Running? then RunStep(sh, t, pc.job, pc.my, pc.run)
    else if InTry(pc) then TryStep(sh, t, pc)
    else if InWith(pc) then WithStep(sh, t, pc)
    else HelpStep(sh, t, pc)
  }

  function Step(s: State, t: nat, job: Job): State {
    if t < |s.pcs| then
      var (sh, pc) := ThreadStep(s.sh, t, s.pcs[t], job);
      State(sh, s.pcs[t := pc])
    else s
  }

  /** A free lock over memory whose words hold the given values. */
  predicate Init(s: State) {
    && s.sh.lck == Num(UNLOCKED_BIT)
    && s.sh.descs == [] && s.sh.objs == [] && s.sh.order == []
    && forall t :: 0 <= t < |s.pcs| ==> s.pcs[t] == Idle
  }

  /** The state after a schedule: which thread moves, and what it starts if it is idle. */
  function Exec(s: State, sched: seq<(nat, Job)>): State
    decreases |sched|
  {
    if sched == [] then s
    else
      var last := sched[|sched| - 1];
      Step(Exec(s, sched[..|sched| - 1]), last.0, last.1)
  }
}
