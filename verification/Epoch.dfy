/** Flock's epoch-based reclamation: announcing an epoch, the slot-by-slot scan that advances the
    global epoch, and the per-thread lists of retired objects.  Every access to an announcement slot
    or to the global epoch is one step. */
module Epoch {
  import opened Options
  import opened Progress

  /** A retired object; since is history: the moment at which the call of retire began. */
  datatype Link = Link(value: nat, since: nat)

  /** A thread's lists.  retired and destructed are history: every link it has added, and every link
      whose object it has destructed. */
  datatype OldCurrent = OldCurrent(previous: seq<Link>, current: seq<Link>, epoch: nat,
                                   retired: seq<Link>, destructed: seq<Link>)

  datatype PC =
    | Ready
    | AnnounceRead
    | AnnounceStore(e: nat)
    | AnnounceCheck(e: nat)
    | AdvanceCheck(l: Link)
    | Clearing(l: Link)
    | AdvanceSet(l: Link)
    | MayUpdate(l: Link)
    | UpdateRead(l: Link)
    | ScanFirst(l: Link, e: nat, i: nat)
    | ScanSecond(l: Link, e: nat, i: nat)
    | UpdateCas(l: Link, e: nat)
    | AddLink(l: Link)

  /** entered is history: when the thread's announcement was confirmed, if it is inside with_epoch. */
  datatype Thread = Thread(entered: Option<nat>, pc: PC)

  /** NONE in a slot means that its thread is outside. */
  const NONE: int := -1

  /** epochs is history: the global epoch at every past moment. */
  datatype State = State(currentEpoch: nat, announcements: seq<int>, pools: seq<OldCurrent>,
                         threads: seq<Thread>, epochs: seq<nat>)

  /** What a thread that is Ready does next. */
  datatype Choice = Enter | Leave | Retire(p: nat)

  function Now(s: State): nat {
    |s.epochs|
  }

  predicate SameSizes(s: State) {
    |s.announcements| == |s.threads| && |s.pools| == |s.threads|
  }

  function WithPc(s: State, t: nat, pc: PC): State
    requires t < |s.threads|
  {
    s.(threads := s.threads[t := s.threads[t].(pc := pc)])
  }

  function WithPool(s: State, t: nat, pool: OldCurrent): State
    requires t < |s.pools|
  {
    s.(pools := s.pools[t := pool])
  }

  /** A step of thread t on everything but the history of epochs. */
  function Act(s: State, t: nat, c: Choice, update: bool): State
    requires t < |s.threads| && SameSizes(s)
  {
    var th := s.threads[t];
    var pool := s.pools[t];
    match th.pc
    case Ready =>
      (match c
       case Enter => if th.entered.None? then WithPc(s, t, AnnounceRead) else s
       case Leave =>
         if th.entered.Some? then
           s.(announcements := s.announcements[t := NONE], threads := s.threads[t := Thread(None, Ready)])
         else s
       case Retire(p) => WithPc(s, t, AdvanceCheck(Link(p, Now(s)))))
    case AnnounceRead => WithPc(s, t, AnnounceStore(s.currentEpoch))
    case AnnounceStore(e) => WithPc(s.(announcements := s.announcements[t := e]), t, AnnounceCheck(e))
    case AnnounceCheck(e) =>
      if s.currentEpoch == e then s.(threads := s.threads[t := Thread(Some(Now(s)), Ready)])
      else WithPc(s, t, AnnounceRead)
    case AdvanceCheck(l) =>
      WithPc(s, t, if pool.epoch + 1 < s.currentEpoch then Clearing(l) else MayUpdate(l))
    case Clearing(l) =>
      if pool.previous == [] then
        WithPc(WithPool(s, t, pool.(previous := pool.current, current := [])), t, AdvanceSet(l))
      else
        WithPool(s, t, pool.(previous := pool.previous[1..], destructed := pool.destructed + [pool.previous[0]]))
    case AdvanceSet(l) => WithPc(WithPool(s, t, pool.(epoch := s.currentEpoch)), t, MayUpdate(l))
    case MayUpdate(l) => WithPc(s, t, if update then UpdateRead(l) else AddLink(l))
    case UpdateRead(l) => WithPc(s, t, ScanFirst(l, s.currentEpoch, 0))
    case ScanFirst(l, e, i) =>
      WithPc(s, t, if i >= |s.announcements| then UpdateCas(l, e)
                   else if s.announcements[i] != NONE then ScanSecond(l, e, i)
                   else ScanFirst(l, e, i + 1))
    case ScanSecond(l, e, i) =>
      WithPc(s, t, if i < |s.announcements| && s.announcements[i] < e then AddLink(l)
                   else ScanFirst(l, e, i + 1))
    case UpdateCas(l, e) =>
      WithPc(if s.currentEpoch == e then s.(currentEpoch := e + 1) else s, t, AddLink(l))
    case AddLink(l) =>
      WithPc(WithPool(s, t, pool.(current := [l] + pool.current, retired := pool.retired + [l])), t, Ready)
  }

  function Step(s: State, t: nat, c: Choice, update: bool): State {
    if t < |s.threads| && SameSizes(s) then Act(s, t, c, update).(epochs := s.epochs + [s.currentEpoch]) else s
  }

  function Exec(s: State, sched: seq<(nat, Choice, bool)>): State
    decreases |sched|
  {
    if sched == [] then s
    else
      var last := sched[|sched| - 1];
      Step(Exec(s, sched[..|sched| - 1]), last.0, last.1, last.2)
  }

  predicate Init(s: State) {
    && SameSizes(s) && s.currentEpoch == 0 && s.epochs == []
    && (forall t :: 0 <= t < |s.threads| ==>
          && s.announcements[t] == NONE
          && s.pools[t] == OldCurrent([], [], 0, [], [])
          && s.threads[t] == Thread(None, Ready))
  }

  // ---------------------------------------------------------------- the invariant

  /** A thread past the re-check in announce. */
  predicate Active(s: State, t: nat) {
    t < |s.threads| && s.threads[t].entered.Some?
  }

  /** The epoch in force at moment k. */
  function EpochAt(s: State, k: nat): nat
    requires k < |s.epochs|
  {
    s.epochs[k]
  }

  ghost predicate HistoryOK(s: State) {
    && (forall j, k :: 0 <= j <= k < |s.epochs| ==> s.epochs[j] <= s.epochs[k])
    && (forall k :: 0 <= k < |s.epochs| ==> s.epochs[k] <= s.currentEpoch)
  }

  /** The grace-period invariant: an active thread announces the epoch of its entry, which is at most
      one behind the current one. */
  ghost predicate ActiveOK(s: State, t: nat)
    requires SameSizes(s)
  {
    Active(s, t) ==>
      && s.threads[t].entered.value < Now(s)
      && s.announcements[t] == EpochAt(s, s.threads[t].entered.value)
      && s.announcements[t] >= s.currentEpoch - 1
  }

  /** If the global epoch is still e, no active thread among the first i is behind it. */
  ghost predicate Scanned(s: State, e: nat, i: nat)
    requires SameSizes(s)
  {
    s.currentEpoch == e ==> forall u :: 0 <= u < i && Active(s, u) ==> s.announcements[u] >= e
  }

  predicate Announcing(pc: PC) {
    pc.AnnounceRead? || pc.AnnounceStore? || pc.AnnounceCheck?
  }

  ghost predicate PcOK(s: State, t: nat)
    requires t < |s.threads| && SameSizes(s)
  {
    var pc := s.threads[t].pc;
    && (Announcing(pc) ==> s.threads[t].entered.None?)
    && (pc.AnnounceStore? ==> pc.e <= s.currentEpoch)
    && (pc.AnnounceCheck? ==> pc.e <= s.currentEpoch && s.announcements[t] == pc.e)
    && (pc.ScanFirst? ==> pc.e <= s.currentEpoch && Scanned(s, pc.e, pc.i))
    && (pc.ScanSecond? ==> pc.e <= s.currentEpoch && Scanned(s, pc.e, pc.i))
    && (pc.UpdateCas? ==> pc.e <= s.currentEpoch && Scanned(s, pc.e, |s.threads|))
  }

  /** l was retired when the global epoch was at most e. */
  ghost predicate RetiredBy(s: State, l: Link, e: int) {
    l.since < Now(s) && EpochAt(s, l.since) <= e
  }

  ghost predicate AllRetiredBy(s: State, ls: seq<Link>, e: int) {
    forall i :: 0 <= i < |ls| ==> RetiredBy(s, ls[i], e)
  }

  ghost predicate PoolOK(s: State, t: nat)
    requires t < |s.threads| && SameSizes(s)
  {
    var pool, pc := s.pools[t], s.threads[t].pc;
    && pool.epoch <= s.currentEpoch
    && AllRetiredBy(s, pool.current, pool.epoch + 1)
    && AllRetiredBy(s, pool.previous, if pc.AdvanceSet? then pool.epoch + 1 else pool.epoch - 1)
    && (pc.Clearing? || pc.AdvanceSet? ==> pool.epoch + 2 <= s.currentEpoch)
    && (pc.AdvanceCheck? || pc.Clearing? || pc.AdvanceSet? ==> pc.l.since < Now(s))
    && (pc.MayUpdate? || pc.UpdateRead? || pc.ScanFirst? || pc.ScanSecond? || pc.UpdateCas? || pc.AddLink? ==>
          RetiredBy(s, pc.l, pool.epoch + 1))
  }

  /** Every link the thread has added is in exactly one place. */
  ghost predicate Conserved(s: State, t: nat)
    requires t < |s.threads| && SameSizes(s)
  {
    var pool, pc := s.pools[t], s.threads[t].pc;
    && multiset(pool.retired) == multiset(pool.destructed) + multiset(pool.previous) + multiset(pool.current)
    && (forall i, j :: 0 <= i < j < |pool.retired| ==> pool.retired[i].since < pool.retired[j].since)
    && (forall i :: 0 <= i < |pool.retired| ==> pool.retired[i].since < Now(s))
    && (!pc.Ready? && !Announcing(pc) ==> forall i :: 0 <= i < |pool.retired| ==> pool.retired[i].since < pc.l.since)
  }

  ghost predicate Inv(s: State) {
    && SameSizes(s) && HistoryOK(s)
    && (forall t :: 0 <= t < |s.threads| ==> ActiveOK(s, t))
    && (forall t :: 0 <= t < |s.threads| ==> PcOK(s, t))
    && (forall t :: 0 <= t < |s.threads| ==> PoolOK(s, t))
    && (forall t :: 0 <= t < |s.threads| ==> Conserved(s, t))
  }

  // ---------------------------------------------------------------- steps

  /** What a step of t leaves alone. */
  lemma Effect(s: State, t: nat, c: Choice, update: bool)
    requires SameSizes(s) && t < |s.threads| && PcOK(s, t)
    ensures var s' := Step(s, t, c, update);
            && SameSizes(s') && |s'.threads| == |s.threads| && s'.epochs == s.epochs + [s.currentEpoch]
            && s'.announcements == s.announcements[t := s'.announcements[t]]
            && s'.threads == s.threads[t := s'.threads[t]]
            && s'.pools == s.pools[t := s'.pools[t]]
            && s'.currentEpoch == (if s.threads[t].pc.UpdateCas? && s.threads[t].pc.e == s.currentEpoch
                                   then s.currentEpoch + 1 else s.currentEpoch)
  {
  }

  lemma HistoryStep(s: State, t: nat, c: Choice, update: bool)
    requires SameSizes(s) && t < |s.threads| && PcOK(s, t) && HistoryOK(s)
    ensures HistoryOK(Step(s, t, c, update))
  {
    Effect(s, t, c, update);
  }

  /** The global epoch advances only past threads that the scan has found to be up to date. */
  lemma ActiveStep(s: State, t: nat, c: Choice, update: bool, u: nat)
    requires SameSizes(s) && t < |s.threads| && u < |s.threads| && PcOK(s, t) && ActiveOK(s, u)
    ensures SameSizes(Step(s, t, c, update)) && ActiveOK(Step(s, t, c, update), u)
  {
    Effect(s, t, c, update);
  }

  /** A scanned thread stays up to date as long as the global epoch does not move. */
  lemma ScannedStep(s: State, t: nat, c: Choice, update: bool, e: nat, i: nat)
    requires SameSizes(s) && t < |s.threads| && PcOK(s, t) && ActiveOK(s, t) && Scanned(s, e, i) && e <= s.currentEpoch
    ensures SameSizes(Step(s, t, c, update)) && Scanned(Step(s, t, c, update), e, i)
  {
    Effect(s, t, c, update);
  }

  lemma PcOther(s: State, t: nat, c: Choice, update: bool, u: nat)
    requires SameSizes(s) && t < |s.threads| && u < |s.threads| && u != t && PcOK(s, t) && PcOK(s, u) && ActiveOK(s, t)
    ensures SameSizes(Step(s, t, c, update)) && PcOK(Step(s, t, c, update), u)
  {
    Effect(s, t, c, update);
    var pc := s.threads[u].pc;
    if pc.ScanFirst? || pc.ScanSecond? { ScannedStep(s, t, c, update, pc.e, pc.i); }
    if pc.UpdateCas? { ScannedStep(s, t, c, update, pc.e, |s.threads|); }
  }

  /** The scan passes a slot only when its thread is outside or up to date. */
  lemma ScanStep(s: State, t: nat, c: Choice, update: bool)
    requires SameSizes(s) && t < |s.threads| && PcOK(s, t)
    requires s.threads[t].pc.ScanFirst? || s.threads[t].pc.ScanSecond?
    requires forall v :: 0 <= v < |s.threads| ==> ActiveOK(s, v)
    ensures SameSizes(Step(s, t, c, update)) && PcOK(Step(s, t, c, update), t)
  {
    var s' := Step(s, t, c, update);
    var pc, pc' := s.threads[t].pc, s'.threads[t].pc;
    assert s' == WithPc(s, t, pc').(epochs := s.epochs + [s.currentEpoch]);
    if pc.i < |s.threads| { assert ActiveOK(s, pc.i); }
    assert pc'.ScanFirst? || pc'.ScanSecond? ==> Scanned(s', pc'.e, pc'.i);
    assert pc'.UpdateCas? ==> Scanned(s', pc'.e, |s.threads|);
  }

  lemma PcAnnounce(s: State, t: nat, c: Choice, update: bool)
    requires SameSizes(s) && t < |s.threads| && PcOK(s, t) && Announcing(s.threads[t].pc)
    ensures SameSizes(Step(s, t, c, update)) && PcOK(Step(s, t, c, update), t)
  {
  }

  lemma PcSelf(s: State, t: nat, c: Choice, update: bool)
    requires SameSizes(s) && t < |s.threads| && PcOK(s, t)
    requires !s.threads[t].pc.ScanFirst? && !s.threads[t].pc.ScanSecond?
    ensures SameSizes(Step(s, t, c, update)) && PcOK(Step(s, t, c, update), t)
  {
    if Announcing(s.threads[t].pc) {
      PcAnnounce(s, t, c, update);
    } else {
      var pc' := Step(s, t, c, update).threads[t].pc;
      assert !pc'.AnnounceStore? && !pc'.AnnounceCheck? && !pc'.ScanSecond? && !pc'.UpdateCas?;
    }
  }

  lemma RetiredKept(s: State, s': State, ls: seq<Link>, e: int, e': int)
    requires AllRetiredBy(s, ls, e) && e <= e' && s.epochs <= s'.epochs
    ensures AllRetiredBy(s', ls, e')
  {
    forall i | 0 <= i < |ls| ensures RetiredBy(s', ls[i], e') {
      assert RetiredBy(s, ls[i], e);
    }
  }

  lemma PoolOther(s: State, t: nat, c: Choice, update: bool, u: nat)
    requires SameSizes(s) && t < |s.threads| && u < |s.threads| && u != t && PcOK(s, t) && PoolOK(s, u)
             && Conserved(s, u)
    ensures SameSizes(Step(s, t, c, update)) && PoolOK(Step(s, t, c, update), u) && Conserved(Step(s, t, c, update), u)
  {
    var s' := Step(s, t, c, update);
    Effect(s, t, c, update);
    RetiredKept(s, s', s.pools[u].current, s.pools[u].epoch + 1, s.pools[u].epoch + 1);
    var e := if s.threads[u].pc.AdvanceSet? then s.pools[u].epoch + 1 else s.pools[u].epoch - 1;
    RetiredKept(s, s', s.pools[u].previous, e, e);
  }

  /** The pool is touched only by clearing, by setting its epoch and by adding a link. */
  lemma PoolUnchanged(s: State, t: nat, c: Choice, update: bool)
    requires SameSizes(s) && t < |s.threads|
    requires var pc := s.threads[t].pc; !pc.Clearing? && !pc.AdvanceSet? && !pc.AddLink?
    ensures SameSizes(Step(s, t, c, update)) && Step(s, t, c, update).pools[t] == s.pools[t]
  {
  }

  lemma PoolSelf(s: State, t: nat, c: Choice, update: bool)
    requires SameSizes(s) && t < |s.threads| && PcOK(s, t) && PoolOK(s, t) && HistoryOK(s) && Conserved(s, t)
    requires var pc := s.threads[t].pc; !pc.Clearing? && !pc.AdvanceSet? && !pc.AddLink?
    ensures SameSizes(Step(s, t, c, update))
    ensures PoolOK(Step(s, t, c, update), t) && Conserved(Step(s, t, c, update), t)
  {
    var s' := Step(s, t, c, update);
    Effect(s, t, c, update);
    PoolUnchanged(s, t, c, update);
    var pool := s.pools[t];
    RetiredKept(s, s', pool.current, pool.epoch + 1, pool.epoch + 1);
    RetiredKept(s, s', pool.previous, pool.epoch - 1, pool.epoch - 1);
  }

  lemma ClearStep(s: State, t: nat, c: Choice, update: bool)
    requires SameSizes(s) && t < |s.threads| && PoolOK(s, t) && Conserved(s, t) && s.threads[t].pc.Clearing?
    ensures SameSizes(Step(s, t, c, update))
    ensures PoolOK(Step(s, t, c, update), t) && Conserved(Step(s, t, c, update), t)
  {
    var s' := Step(s, t, c, update);
    var pool := s.pools[t];
    RetiredKept(s, s', pool.current, pool.epoch + 1, pool.epoch + 1);
    if pool.previous != [] {
      assert pool.previous == [pool.previous[0]] + pool.previous[1..];
      RetiredKept(s, s', pool.previous[1..], pool.epoch - 1, pool.epoch - 1);
    }
  }

  lemma SetStep(s: State, t: nat, c: Choice, update: bool)
    requires SameSizes(s) && t < |s.threads| && PoolOK(s, t) && Conserved(s, t) && s.threads[t].pc.AdvanceSet?
    requires HistoryOK(s)
    ensures SameSizes(Step(s, t, c, update))
    ensures PoolOK(Step(s, t, c, update), t) && Conserved(Step(s, t, c, update), t)
  {
    var s' := Step(s, t, c, update);
    var pool := s.pools[t];
    RetiredKept(s, s', pool.current, pool.epoch + 1, s.currentEpoch + 1);
    RetiredKept(s, s', pool.previous, pool.epoch + 1, s.currentEpoch - 1);
  }

  lemma AddStep(s: State, t: nat, c: Choice, update: bool)
    requires SameSizes(s) && t < |s.threads| && PoolOK(s, t) && Conserved(s, t) && s.threads[t].pc.AddLink?
    ensures SameSizes(Step(s, t, c, update))
    ensures PoolOK(Step(s, t, c, update), t) && Conserved(Step(s, t, c, update), t)
  {
    var s' := Step(s, t, c, update);
    var pool, l := s.pools[t], s.threads[t].pc.l;
    assert AllRetiredBy(s, [l] + pool.current, pool.epoch + 1);
    RetiredKept(s, s', [l] + pool.current, pool.epoch + 1, pool.epoch + 1);
    RetiredKept(s, s', pool.previous, pool.epoch - 1, pool.epoch - 1);
  }

  lemma StepInv(s: State, t: nat, c: Choice, update: bool)
    requires Inv(s)
    ensures Inv(Step(s, t, c, update)) && |Step(s, t, c, update).threads| == |s.threads|
  {
    if t < |s.threads| {
      var s' := Step(s, t, c, update);
      Effect(s, t, c, update);
      HistoryStep(s, t, c, update);
      var pc := s.threads[t].pc;
      if pc.Clearing? { ClearStep(s, t, c, update); }
      else if pc.AdvanceSet? { SetStep(s, t, c, update); }
      else if pc.AddLink? { AddStep(s, t, c, update); }
      else { PoolSelf(s, t, c, update); }
      forall u | 0 <= u < |s.threads| ensures ActiveOK(s', u) && PcOK(s', u) && PoolOK(s', u) && Conserved(s', u) {
        ActiveStep(s, t, c, update, u);
        if u == t {
          if pc.ScanFirst? || pc.ScanSecond? { ScanStep(s, t, c, update); } else { PcSelf(s, t, c, update); }
        } else {
          PcOther(s, t, c, update, u);
          PoolOther(s, t, c, update, u);
        }
      }
    }
  }

  lemma {:induction false} Reachable(s: State, sched: seq<(nat, Choice, bool)>)
    requires Init(s)
    ensures Inv(Exec(s, sched)) && |Exec(s, sched).threads| == |s.threads|
    decreases |sched|
  {
    if sched != [] {
      var n := |sched| - 1;
      Reachable(s, sched[..n]);
      StepInv(Exec(s, sched[..n]), sched[n].0, sched[n].1, sched[n].2);
    }
  }

  // ---------------------------------------------------------------- the calls of the schedule

  /** Entry n of the schedule calls retire(p) on thread t. */
  predicate Retires(s: State, sched: seq<(nat, Choice, bool)>, n: nat, t: nat, p: nat) {
    && n < |sched| && sched[n].0 == t && sched[n].1 == Retire(p)
    && var r := Exec(s, sched[..n]); t < |r.threads| && r.threads[t].pc.Ready?
  }

  /** What thread t has been asked to retire, in order, each with the moment of its call. */
  function Retirements(s: State, sched: seq<(nat, Choice, bool)>, t: nat): seq<Link>
    decreases |sched|
  {
    if sched == [] then []
    else
      var n := |sched| - 1;
      var r, (u, c, _) := Exec(s, sched[..n]), sched[n];
      Retirements(s, sched[..n], t) +
      if u == t && t < |r.threads| && r.threads[t].pc.Ready? && c.Retire? then [Link(c.p, Now(r))] else []
  }

  /** The link of a call of retire that has not yet added it to the list. */
  function InFlight(pc: PC): seq<Link> {
    if pc.Ready? || Announcing(pc) then [] else [pc.l]
  }

  lemma StillInFlight(s: State, t: nat, c: Choice, update: bool)
    requires SameSizes(s) && t < |s.threads|
    requires var pc := s.threads[t].pc; !pc.Ready? && !Announcing(pc) && !pc.AddLink?
    ensures var s' := Act(s, t, c, update);
            && |s'.threads| == |s.threads| && !s'.threads[t].pc.Ready? && !Announcing(s'.threads[t].pc)
            && s'.threads[t].pc.l == s.threads[t].pc.l
            && |s'.pools| == |s.pools| && s'.pools[t].retired == s.pools[t].retired
  {
  }

  lemma RetireStep(s: State, t: nat, c: Choice, update: bool)
    requires SameSizes(s) && t < |s.threads|
    ensures var s' := Act(s, t, c, update);
            && |s'.pools| == |s.pools| && |s'.threads| == |s.threads|
            && s'.pools[t].retired + InFlight(s'.threads[t].pc) ==
                 s.pools[t].retired + InFlight(s.threads[t].pc) +
                 if s.threads[t].pc.Ready? && c.Retire? then [Link(c.p, Now(s))] else []
  {
    var pc := s.threads[t].pc;
    if !pc.Ready? && !Announcing(pc) && !pc.AddLink? { StillInFlight(s, t, c, update); }
  }

  lemma NextRetired(s: State, t: nat, c: Choice, update: bool, u: nat)
    requires SameSizes(s) && u < |s.threads| && (t < |s.threads| ==> PcOK(s, t))
    ensures var s' := Step(s, t, c, update);
            && SameSizes(s') && u < |s'.threads|
            && s'.pools[u].retired + InFlight(s'.threads[u].pc) ==
                 s.pools[u].retired + InFlight(s.threads[u].pc) +
                 if t == u && s.threads[t].pc.Ready? && c.Retire? then [Link(c.p, Now(s))] else []
  {
    if t < |s.threads| {
      Effect(s, t, c, update);
      if t == u { RetireStep(s, t, c, update); }
    }
  }

  lemma PcsOK(s: State, sched: seq<(nat, Choice, bool)>, t: nat)
    requires Init(s)
    ensures SameSizes(Exec(s, sched)) && |Exec(s, sched).threads| == |s.threads|
    ensures t < |s.threads| ==> PcOK(Exec(s, sched), t)
  {
    Reachable(s, sched);
  }

  lemma {:induction false} RetiredIsAsked(s: State, sched: seq<(nat, Choice, bool)>, t: nat)
    requires Init(s) && t < |s.threads|
    ensures var r := Exec(s, sched);
            && SameSizes(r) && t < |r.threads|
            && r.pools[t].retired + InFlight(r.threads[t].pc) == Retirements(s, sched, t)
    decreases |sched|
  {
    if sched != [] {
      var n := |sched| - 1;
      RetiredIsAsked(s, sched[..n], t);
      PcsOK(s, sched[..n], sched[n].0);
      NextRetired(Exec(s, sched[..n]), sched[n].0, sched[n].1, sched[n].2, t);
    }
  }

  lemma {:induction false} AskedByACall(s: State, sched: seq<(nat, Choice, bool)>, t: nat, l: Link) returns (n: nat)
    requires l in Retirements(s, sched, t)
    ensures Retires(s, sched, n, t, l.value) && Now(Exec(s, sched[..n])) == l.since
    decreases |sched|
  {
    n := |sched| - 1;
    if l in Retirements(s, sched[..n], t) {
      var last := n;
      n := AskedByACall(s, sched[..last], t, l);
      assert sched[..last][..n] == sched[..n];
    }
  }

  /** The entry of the schedule that last brought thread t inside with_epoch. */
  function EntryOf(s: State, sched: seq<(nat, Choice, bool)>, t: nat): nat
    decreases |sched|
  {
    if sched == [] then 0
    else
      var n := |sched| - 1;
      if !Active(Exec(s, sched[..n]), t) && Active(Exec(s, sched), t) then n else EntryOf(s, sched[..n], t)
  }

  lemma EnterStep(s: State, t: nat, c: Choice, update: bool, u: nat)
    requires SameSizes(s) && (t < |s.threads| ==> PcOK(s, t)) && Active(Step(s, t, c, update), u)
    ensures Step(s, t, c, update).threads[u].entered ==
              if Active(s, u) then s.threads[u].entered else Some(Now(s))
  {
  }

  /** Its re-check is the one that succeeded at the moment recorded for the thread. */
  lemma {:induction false} EnteredAt(s: State, sched: seq<(nat, Choice, bool)>, t: nat)
    requires Init(s) && Active(Exec(s, sched), t)
    ensures EntryOf(s, sched, t) < |sched|
    ensures Exec(s, sched).threads[t].entered == Some(Now(Exec(s, sched[..EntryOf(s, sched, t)])))
    decreases |sched|
  {
    var n := |sched| - 1;
    var r := Exec(s, sched[..n]);
    PcsOK(s, sched[..n], sched[n].0);
    EnterStep(r, sched[n].0, sched[n].1, sched[n].2, t);
    if Active(r, t) {
      EnteredAt(s, sched[..n], t);
      assert sched[..n][..EntryOf(s, sched, t)] == sched[..EntryOf(s, sched, t)];
    }
  }

  lemma {:induction false} TimePasses(s: State, sched: seq<(nat, Choice, bool)>, n: nat)
    requires n <= |sched|
    ensures Now(Exec(s, sched[..n])) < Now(Exec(s, sched)) || Exec(s, sched[..n]) == Exec(s, sched)
    decreases |sched|
  {
    if n == |sched| {
      assert sched[..n] == sched;
    } else {
      var last := |sched| - 1;
      TimePasses(s, sched[..last], n);
      assert sched[..last][..n] == sched[..n];
    }
  }

  // ---------------------------------------------------------------- what reclamation guarantees

  /** Every thread past its re-check holds an epoch at least current minus one, and it is the epoch
      that was current when the re-check succeeded. */
  lemma ActiveNearCurrent(s: State, sched: seq<(nat, Choice, bool)>, t: nat)
    requires Init(s) && Active(Exec(s, sched), t)
    ensures var r, e := Exec(s, sched), EntryOf(s, sched, t);
            && SameSizes(r) && e < |sched|
            && r.currentEpoch - 1 <= r.announcements[t] == Exec(s, sched[..e]).currentEpoch
  {
    Reachable(s, sched);
    assert ActiveOK(Exec(s, sched), t);
    EnteredAt(s, sched, t);
    EpochOf(s, sched, EntryOf(s, sched, t));
  }

  /** The history of epochs is that of the run. */
  lemma {:induction false} EpochOf(s: State, sched: seq<(nat, Choice, bool)>, n: nat)
    requires Init(s) && n <= |sched| && Now(Exec(s, sched[..n])) < Now(Exec(s, sched))
    ensures EpochAt(Exec(s, sched), Now(Exec(s, sched[..n]))) == Exec(s, sched[..n]).currentEpoch
    decreases |sched|
  {
    assert sched[..|sched|] == sched;
    var last := |sched| - 1;
    assert sched[..last][..n] == sched[..n];
    TimePasses(s, sched[..last], n);
    if Now(Exec(s, sched[..n])) < Now(Exec(s, sched[..last])) { EpochOf(s, sched[..last], n); }
  }

  /** Whatever a thread was asked to retire is on its way into the list, waits in one of its two lists or
      has been destructed, once for each call, and nothing else is. */
  lemma Accounted(s: State, sched: seq<(nat, Choice, bool)>, t: nat)
    requires Init(s) && t < |s.threads|
    ensures var r := Exec(s, sched);
            && SameSizes(r) && t < |r.threads|
            && var pool := r.pools[t];
               multiset(Retirements(s, sched, t)) ==
                 multiset(pool.destructed) + multiset(pool.previous) + multiset(pool.current) +
                 multiset(InFlight(r.threads[t].pc))
  {
    Reachable(s, sched);
    RetiredIsAsked(s, sched, t);
    assert Conserved(Exec(s, sched), t);
  }

  /** An object about to be destructed was retired before any thread now active has entered. */
  lemma RetiredBefore(s: State, sched: seq<(nat, Choice, bool)>, t: nat, u: nat)
    requires Init(s)
    requires var r := Exec(s, sched);
             SameSizes(r) && t < |r.threads| && r.threads[t].pc.Clearing? && r.pools[t].previous != [] && Active(r, u)
    ensures var r := Exec(s, sched);
            r.pools[t].previous[0].since < r.threads[u].entered.value
  {
    var r := Exec(s, sched);
    Reachable(s, sched);
    assert PoolOK(r, t) && ActiveOK(r, u);
    assert RetiredBy(r, r.pools[t].previous[0], r.pools[t].epoch - 1);
  }

  /** Safe reclamation: when a thread is about to destruct an object, it was asked to retire that object
      by an entry of the schedule before the one at which any thread now active has entered. */
  lemma SafeReclamation(s: State, sched: seq<(nat, Choice, bool)>, t: nat, u: nat) returns (n: nat)
    requires Init(s)
    requires var r := Exec(s, sched);
             SameSizes(r) && t < |r.threads| && r.threads[t].pc.Clearing? && r.pools[t].previous != [] && Active(r, u)
    ensures n < EntryOf(s, sched, u)
    ensures Retires(s, sched, n, t, Exec(s, sched).pools[t].previous[0].value)
    ensures Now(Exec(s, sched[..n])) == Exec(s, sched).pools[t].previous[0].since
  {
    var l, e := Exec(s, sched).pools[t].previous[0], EntryOf(s, sched, u);
    RetiredBefore(s, sched, t, u);
    PcsOK(s, sched, t);
    Accounted(s, sched, t);
    assert l in multiset(Exec(s, sched).pools[t].previous);
    assert l in multiset(Retirements(s, sched, t));
    n := AskedByACall(s, sched, t, l);
    EnteredAt(s, sched, u);
    if e <= n {
      assert sched[..n][..e] == sched[..e];
      TimePasses(s, sched[..n], e);
    }
  }

  /** No two calls are confused: each retirement is in exactly one place, once. */
  lemma DestructedOnce(s: State, sched: seq<(nat, Choice, bool)>, t: nat, l: Link)
    requires Init(s) && t < |s.threads|
    ensures var r := Exec(s, sched);
            && SameSizes(r) && t < |r.threads|
            && var pool := r.pools[t];
               (multiset(pool.destructed) + multiset(pool.previous) + multiset(pool.current) +
                multiset(InFlight(r.threads[t].pc)))[l] == if l in Retirements(s, sched, t) then 1 else 0
  {
    var r := Exec(s, sched);
    Reachable(s, sched);
    RetiredIsAsked(s, sched, t);
    Accounted(s, sched, t);
    assert Conserved(r, t);
    OccursOnce(Retirements(s, sched, t), l);
  }

  lemma {:induction false} OccursOnce(ls: seq<Link>, l: Link)
    requires forall i, j :: 0 <= i < j < |ls| ==> ls[i].since < ls[j].since
    ensures multiset(ls)[l] == if l in ls then 1 else 0
    decreases |ls|
  {
    if ls != [] {
      var n := |ls| - 1;
      assert ls == ls[..n] + [ls[n]];
      OccursOnce(ls[..n], l);
    }
  }

  // ---------------------------------------------------------------- every call returns, and the epoch moves on

  /** The steps that a call of retire has left, with n threads and waiting links in its older list. */
  function PcLeft(pc: PC, waiting: nat, n: nat): nat {
    match pc
    case AddLink(_) => 1
    case UpdateCas(_, _) => 2
    case ScanFirst(_, _, i) => if i < n then 2 * (n - i) + 3 else 3
    case ScanSecond(_, _, i) => if i < n then 2 * (n - i) + 2 else 4
    case UpdateRead(_) => 2 * n + 4
    case MayUpdate(_) => 2 * n + 5
    case AdvanceSet(_) => 2 * n + 6
    case Clearing(_) => waiting + 2 * n + 7
    case AdvanceCheck(_) => waiting + 2 * n + 8
    case _ => 0
  }

  function RetireLeft(s: State, t: nat): nat
    requires SameSizes(s) && t < |s.threads|
  {
    PcLeft(s.threads[t].pc, |s.pools[t].previous|, |s.threads|)
  }

  lemma ClearNearer(s: State, t: nat, c: Choice, update: bool)
    requires SameSizes(s) && t < |s.threads| && s.threads[t].pc.Clearing?
    ensures var s' := Act(s, t, c, update);
            && SameSizes(s') && |s'.threads| == |s.threads|
            && PcLeft(s'.threads[t].pc, |s'.pools[t].previous|, |s.threads|) < RetireLeft(s, t)
  {
  }

  lemma ActNearer(s: State, t: nat, c: Choice, update: bool)
    requires SameSizes(s) && t < |s.threads| && RetireLeft(s, t) > 0 && !s.threads[t].pc.Clearing?
    ensures var s' := Act(s, t, c, update);
            && SameSizes(s') && |s'.threads| == |s.threads|
            && PcLeft(s'.threads[t].pc, |s.pools[t].previous|, |s.threads|) < RetireLeft(s, t)
            && s'.pools[t].previous == s.pools[t].previous
  {
    assert Act(s, t, c, update).pools[t].previous == s.pools[t].previous;
  }

  lemma RetireNearer(s: State, t: nat, c: Choice, update: bool)
    requires SameSizes(s) && t < |s.threads| && RetireLeft(s, t) > 0
    ensures var s' := Step(s, t, c, update);
            SameSizes(s') && t < |s'.threads| && RetireLeft(s', t) < RetireLeft(s, t)
  {
    if s.threads[t].pc.Clearing? { ClearNearer(s, t, c, update); } else { ActNearer(s, t, c, update); }
  }

  function RetireLeftAfter(s: State, sched: seq<(nat, Choice, bool)>, t: nat): nat {
    var r := Exec(s, sched);
    if SameSizes(r) && t < |r.threads| then RetireLeft(r, t) else 0
  }

  lemma RetireNearerAfter(s: State, sched: seq<(nat, Choice, bool)>, t: nat, next: (nat, Choice, bool))
    requires Init(s) && RetireLeftAfter(s, sched, t) > 0
    ensures RetireLeftAfter(s, sched + [next], t) <= RetireLeftAfter(s, sched, t) - if next.0 == t then 1 else 0
  {
    var r := Exec(s, sched);
    assert (sched + [next])[..|sched|] == sched;
    PcsOK(s, sched, next.0);
    if next.0 == t {
      RetireNearer(r, t, next.1, next.2);
    } else if next.0 < |r.threads| {
      Effect(r, next.0, next.1, next.2);
    }
  }

  /** retire is wait-free: it returns when its thread has taken a number of steps bounded by the length of
      the older list and the number of threads, whatever the other threads do. */
  lemma RetireWaitFree(s: State, sched: seq<(nat, Choice, bool)>, more: seq<(nat, Choice, bool)>, t: nat)
    requires Init(s) && Own((x: (nat, Choice, bool)) => x.0 == t, more) >= RetireLeftAfter(s, sched, t)
    ensures exists k :: 0 <= k <= |more| && RetireLeftAfter(s, sched + more[..k], t) == 0
  {
    var left := (ms: seq<(nat, Choice, bool)>) => RetireLeftAfter(s, ms, t);
    var mine := (x: (nat, Choice, bool)) => x.0 == t;
    forall ms, m | left(ms) > 0 ensures left(ms + [m]) <= left(ms) - if mine(m) then 1 else 0 {
      RetireNearerAfter(s, ms, t, m);
    }
    Returns(left, mine, sched, more);
    var k :| 0 <= k <= |more| && left(sched + more[..k]) == 0;
    assert RetireLeftAfter(s, sched + more[..k], t) == 0;
  }

  /** At most n steps of thread t with nobody else moving, until it is Ready, trying an update in retire. */
  function Alone(s: State, t: nat, n: nat): State
    decreases n
  {
    if n == 0 || t >= |s.threads| || s.threads[t].pc.Ready? then s else Alone(Step(s, t, Enter, true), t, n - 1)
  }

  /** Neither inside with_epoch nor on the way in. */
  predicate Outside(s: State, t: nat) {
    t < |s.threads| && s.threads[t].entered.None? && !Announcing(s.threads[t].pc)
  }

  lemma SilentStep(s: State, t: nat, c: Choice, update: bool, u: nat)
    requires SameSizes(s) && t < |s.threads| && PcOK(s, t) && u < |s.threads|
    requires Outside(s, u) ==> s.announcements[u] == NONE
    ensures var s' := Step(s, t, c, update);
            SameSizes(s') && (Outside(s', u) ==> s'.announcements[u] == NONE)
  {
    Effect(s, t, c, update);
  }

  /** A thread that is outside has left its slot empty. */
  lemma {:induction false} OutsideSilent(s: State, sched: seq<(nat, Choice, bool)>, t: nat)
    requires Init(s) && Outside(Exec(s, sched), t)
    ensures SameSizes(Exec(s, sched)) && Exec(s, sched).announcements[t] == NONE
    decreases |sched|
  {
    PcsOK(s, sched, t);
    if sched != [] {
      var n := |sched| - 1;
      PcsOK(s, sched[..n], sched[n].0);
      if Outside(Exec(s, sched[..n]), t) { OutsideSilent(s, sched[..n], t); }
      if sched[n].0 < |s.threads| { SilentStep(Exec(s, sched[..n]), sched[n].0, sched[n].1, sched[n].2, t); }
    }
  }

  /** No thread announces an epoch before e. */
  ghost predicate UpToDate(s: State, e: nat) {
    forall u :: 0 <= u < |s.announcements| ==> s.announcements[u] == NONE || s.announcements[u] >= e
  }

  /** On its way from the start of retire to having moved the epoch on from e. */
  ghost predicate Advancing(s: State, t: nat, e: nat)
    requires t < |s.threads|
  {
    var pc := s.threads[t].pc;
    && UpToDate(s, e) && !pc.Ready? && !Announcing(pc)
    && (pc.ScanFirst? || pc.ScanSecond? || pc.UpdateCas? ==> pc.e == e)
    && (pc.ScanSecond? && pc.i < |s.announcements| ==> s.announcements[pc.i] != NONE)
    && s.currentEpoch == if pc.AddLink? then e + 1 else e
  }

  lemma AdvancingStep(s: State, t: nat, e: nat)
    requires SameSizes(s) && t < |s.threads| && Advancing(s, t, e)
    ensures var s' := Step(s, t, Enter, true);
            && SameSizes(s') && |s'.threads| == |s.threads|
            && (if s.threads[t].pc.AddLink? then s'.threads[t].pc.Ready? && s'.currentEpoch == e + 1
                else Advancing(s', t, e))
  {
  }

  lemma {:induction false} AdvanceAlone(s: State, t: nat, e: nat, n: nat)
    requires SameSizes(s) && t < |s.threads| && Advancing(s, t, e) && n >= RetireLeft(s, t)
    ensures var r := Alone(s, t, n);
            t < |r.threads| && r.threads[t].pc.Ready? && r.currentEpoch == e + 1
    decreases n
  {
    var s' := Step(s, t, Enter, true);
    AdvancingStep(s, t, e);
    RetireNearer(s, t, Enter, true);
    if s.threads[t].pc.AddLink? {
      assert Alone(s', t, n - 1) == s';
    } else {
      AdvanceAlone(s', t, e, n - 1);
    }
  }

  lemma NobodyBehind(s: State, sched: seq<(nat, Choice, bool)>)
    requires Init(s) && SameSizes(Exec(s, sched))
    requires var r := Exec(s, sched);
             forall u :: 0 <= u < |r.threads| ==> Outside(r, u) || r.announcements[u] == r.currentEpoch
    ensures UpToDate(Exec(s, sched), Exec(s, sched).currentEpoch)
  {
    var r := Exec(s, sched);
    forall u | 0 <= u < |r.announcements| ensures r.announcements[u] == NONE || r.announcements[u] >= r.currentEpoch {
      if Outside(r, u) { OutsideSilent(s, sched, u); }
    }
  }

  /** The epoch is not held up by threads that have left: when every other thread is outside, or active in
      the current epoch, a retire that tries an update moves the epoch on, if left alone. */
  lemma EpochAdvances(s: State, sched: seq<(nat, Choice, bool)>, t: nat)
    requires Init(s)
    requires var r := Exec(s, sched);
             && SameSizes(r) && t < |r.threads| && r.threads[t].pc.AdvanceCheck?
             && forall u :: 0 <= u < |r.threads| ==> Outside(r, u) || r.announcements[u] == r.currentEpoch
    ensures var r := Exec(s, sched);
            var r' := Alone(r, t, |r.pools[t].previous| + 2 * |r.threads| + 8);
            t < |r'.threads| && r'.threads[t].pc.Ready? && r'.currentEpoch == r.currentEpoch + 1
  {
    var r := Exec(s, sched);
    NobodyBehind(s, sched);
    AdvanceAlone(r, t, r.currentEpoch, |r.pools[t].previous| + 2 * |r.threads| + 8);
  }

  // ---------------------------------------------------------------- what a call does when left alone

  /** The lists of a thread once the call of retire that is at pc has returned, cur being the epoch now. */
  function After(pool: OldCurrent, pc: PC, cur: nat): OldCurrent
    requires !pc.Ready? && !Announcing(pc)
  {
    var moved := pc.Clearing? || (pc.AdvanceCheck? && pool.epoch + 1 < cur);
    if moved then OldCurrent(pool.current, [pc.l], cur, pool.retired + [pc.l], pool.destructed + pool.previous)
    else pool.(current := [pc.l] + pool.current, retired := pool.retired + [pc.l],
               epoch := if pc.AdvanceSet? then cur else pool.epoch)
  }

  lemma ClearAfter(s: State, t: nat)
    requires SameSizes(s) && t < |s.threads| && s.threads[t].pc.Clearing?
    ensures var pc, s' := s.threads[t].pc, Act(s, t, Enter, true);
            var pc' := s'.threads[t].pc;
            && !pc'.Ready? && !Announcing(pc')
            && After(s'.pools[t], pc', s'.currentEpoch) == After(s.pools[t], pc, s.currentEpoch)
  {
    var pool := s.pools[t];
    if pool.previous != [] {
      assert pool.destructed + [pool.previous[0]] + pool.previous[1..] == pool.destructed + pool.previous;
    } else {
      assert pool.destructed + [] == pool.destructed;
    }
  }

  lemma ActAfter(s: State, t: nat)
    requires SameSizes(s) && t < |s.threads| && !s.threads[t].pc.Ready? && !Announcing(s.threads[t].pc)
    ensures var pc, s' := s.threads[t].pc, Act(s, t, Enter, true);
            var pc' := s'.threads[t].pc;
            if pc.AddLink? then pc'.Ready? && s'.pools[t] == After(s.pools[t], pc, s.currentEpoch)
            else && !pc'.Ready? && !Announcing(pc')
                 && After(s'.pools[t], pc', s'.currentEpoch) == After(s.pools[t], pc, s.currentEpoch)
  {
    if s.threads[t].pc.Clearing? { ClearAfter(s, t); }
  }

  /** A retire that is left alone returns with the new link in front of the younger list; if the epoch has
      moved on by more than one since the thread's last look, it first destructs all of the older list and
      makes the younger one the older. */
  lemma {:induction false} RetireAlone(s: State, t: nat, n: nat)
    requires SameSizes(s) && t < |s.threads| && !s.threads[t].pc.Ready? && !Announcing(s.threads[t].pc)
    requires n >= RetireLeft(s, t)
    ensures var r := Alone(s, t, n);
            && SameSizes(r) && t < |r.threads| && r.threads[t].pc.Ready?
            && r.pools[t] == After(s.pools[t], s.threads[t].pc, s.currentEpoch)
    decreases n
  {
    var s' := Step(s, t, Enter, true);
    RetireNearer(s, t, Enter, true);
    ActAfter(s, t);
    if s.threads[t].pc.AddLink? {
      assert Alone(s', t, n - 1) == s';
    } else {
      RetireAlone(s', t, n - 1);
    }
  }

  /** The steps that an announcement needs when nobody moves the epoch meanwhile. */
  function AnnounceLeft(pc: PC, cur: nat): nat {
    match pc
    case AnnounceRead => 3
    case AnnounceStore(e) => if e == cur then 2 else 5
    case AnnounceCheck(e) => if e == cur then 1 else 4
    case _ => 0
  }

  lemma AnnounceStep(s: State, t: nat)
    requires SameSizes(s) && t < |s.threads| && PcOK(s, t) && Announcing(s.threads[t].pc)
    ensures var s' := Step(s, t, Enter, true);
            && SameSizes(s') && |s'.threads| == |s.threads| && PcOK(s', t) && s'.currentEpoch == s.currentEpoch
            && AnnounceLeft(s'.threads[t].pc, s.currentEpoch) < AnnounceLeft(s.threads[t].pc, s.currentEpoch)
            && s'.announcements[t := s.currentEpoch] == s.announcements[t := s.currentEpoch]
            && (Announcing(s'.threads[t].pc) ||
                (s'.threads[t].pc.Ready? && Active(s', t) && s'.announcements[t] == s'.currentEpoch))
  {
    PcAnnounce(s, t, Enter, true);
  }

  lemma {:induction false} AnnounceAlone(s: State, t: nat, n: nat)
    requires SameSizes(s) && t < |s.threads| && PcOK(s, t) && Announcing(s.threads[t].pc)
    requires n >= AnnounceLeft(s.threads[t].pc, s.currentEpoch)
    ensures var r := Alone(s, t, n);
            && SameSizes(r) && Active(r, t) && r.threads[t].pc.Ready? && r.currentEpoch == s.currentEpoch
            && r.announcements == s.announcements[t := s.currentEpoch]
    decreases n
  {
    var s' := Step(s, t, Enter, true);
    AnnounceStep(s, t);
    if s'.threads[t].pc.Ready? {
      assert Alone(s', t, n - 1) == s';
    } else {
      AnnounceAlone(s', t, n - 1);
    }
  }

  /** A thread that starts to enter with_epoch and is left alone is inside after four steps, with the
      current epoch announced in its slot; when it leaves, all slots are as they were before. */
  lemma VisitAlone(s: State, sched: seq<(nat, Choice, bool)>, t: nat)
    requires Init(s)
    requires var r := Exec(s, sched); Outside(r, t) && r.threads[t].pc.Ready?
    ensures var r := Exec(s, sched);
            var r' := Alone(Step(r, t, Enter, true), t, 3);
            && SameSizes(r') && Active(r', t) && r'.threads[t].pc.Ready? && r'.announcements[t] == r'.currentEpoch
            && var r'' := Step(r', t, Leave, true);
               Outside(r'', t) && r''.announcements == r.announcements
  {
    PcsOK(s, sched, t);
    OutsideSilent(s, sched, t);
    var r := Exec(s, sched);
    PcSelf(r, t, Enter, true);
    AnnounceAlone(Step(r, t, Enter, true), t, 3);
  }
}
