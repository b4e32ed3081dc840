/** A call on the sorted list that begins while no lock is held, and is left alone, comes to its end. */
module ListProgress {
  import opened Options
  import opened SortedList

  predicate NoLocks(s: State) {
    forall a :: 0 <= a < |s.heap| ==> s.heap[a].lock.None?
  }

  /** Node p is the only one that is locked. */
  predicate OnlyLock(s: State, p: nat, t: nat) {
    p < |s.heap| && forall a :: 0 <= a < |s.heap| ==> s.heap[a].lock == if a == p then Some(t) else None
  }

  /** loc is where the key belongs: at index i, right behind a node below the key. */
  ghost predicate Spot(s: State, c: Call, loc: nat, i: nat) {
    && 0 < i < |Cur(s)| && Cur(s)[i] == loc && Cur(s)[i - 1] < |s.heap|
    && (Cur(s)[i - 1] == ROOT || s.heap[Cur(s)[i - 1]].key < c.key)
  }

  /** A thread that has seen nothing but the list as it is. */
  ghost predicate UpToDate(s: State, t: nat)
    requires t < |s.pcs|
  {
    var pc := s.pcs[t];
    && (Finding(pc) ==> NoLocks(s))
    && (pc.Find? ==> pc.seen.version + 1 == |s.versions| && Spot(s, pc.c, pc.nxt, pc.seen.index))
    && (pc.ReadPrev? ==> exists i: nat :: Spot(s, pc.c, pc.loc, i))
    && (pc.TryPrev? ==> exists i: nat :: Spot(s, pc.c, pc.loc, i) && pc.p == Cur(s)[i - 1])
    && (pc.CheckRemoved? || pc.CheckNext? ==>
          OnlyLock(s, pc.p, t) && !s.heap[pc.p].removed && s.heap[pc.p].next == Some(pc.loc) && pc.p != pc.loc)
    && (pc.TryLoc? ==> OnlyLock(s, pc.p, t) && pc.p != pc.loc)
    && (pc.Unlock? ==> pc.ok)
  }

  /** The steps that the call has left, the walk over the rest of the list included. */
  function StepsLeft(s: State, pc: PC): nat {
    match pc
    case Start(_) => |Cur(s)| + 12
    case Find(_, _, seen) => 11 + if seen.index < |Cur(s)| then |Cur(s)| - seen.index else 0
    case ReadPrev(_, _) => 11
    case TryPrev(_, _, _) => 10
    case CheckRemoved(_, _, _) => 9
    case CheckNext(_, _, _) => 8
    case InsLink(_, _, _) => 3
    case InsBack(_, _, _, _) => 2
    case TryLoc(_, _, _) => 7
    case RemNext(_, _, _) => 6
    case RemMark(_, _, _, _) => 5
    case RemUnlink(_, _, _, _) => 4
    case RemBack(_, _, _, _) => 3
    case UnlockLoc(_, _, _) => 2
    case Unlock(_, _, _) => 1
    case _ => 0
  }

  ghost predicate Nearer(s: State, s': State, t: nat)
    requires t < |s.pcs|
  {
    t < |s'.pcs| && UpToDate(s', t) && StepsLeft(s', s'.pcs[t]) < StepsLeft(s, s.pcs[t])
  }

  lemma StartNearer(s: State, t: nat)
    requires ListOK(s) && t < |s.pcs| && s.pcs[t].Start? && UpToDate(s, t)
    ensures Nearer(s, FindStep(s, t), t)
  {
    assert VersionAt(s, |s.versions| - 1) && ChainAt(s, 0) && NodeAt(s, ROOT);
    Place1(s, ROOT);
  }

  lemma IndexIs(s: State, i: nat)
    requires ListOK(s) && i < |Cur(s)|
    ensures Cur(s)[i] < |s.heap| && Linked(s, Cur(s)[i]) && IndexOf(Cur(s), Cur(s)[i]) == i
  {
    assert VersionAt(s, |s.versions| - 1) && ChainAt(s, i);
  }

  lemma FindEnds(s: State, t: nat)
    requires ListOK(s) && t < |s.pcs| && s.pcs[t].Find? && UpToDate(s, t) && s.pcs[t].nxt < |s.heap|
    requires Stops(s.heap[s.pcs[t].nxt], s.pcs[t].c.key)
    ensures Nearer(s, FindStep(s, t), t)
  {
    assert Spot(FindStep(s, t), s.pcs[t].c, s.pcs[t].nxt, s.pcs[t].seen.index);
  }

  lemma FindGoesOn(s: State, t: nat)
    requires ListOK(s) && t < |s.pcs| && s.pcs[t].Find? && UpToDate(s, t) && s.pcs[t].nxt < |s.heap|
    requires !Stops(s.heap[s.pcs[t].nxt], s.pcs[t].c.key)
    ensures Nearer(s, FindStep(s, t), t)
  {
    var pc := s.pcs[t];
    var i := pc.seen.index;
    IndexIs(s, i);
    assert NodeAt(s, pc.nxt);
    Place1(s, pc.nxt);
    IndexIs(s, i + 1);
    assert FindStep(s, t) == Goto(s, t, Find(pc.c, Cur(s)[i + 1], Place(|s.versions| - 1, i + 1)));
  }

  lemma FindNearer(s: State, t: nat)
    requires ListOK(s) && t < |s.pcs| && s.pcs[t].Find? && UpToDate(s, t)
    ensures Nearer(s, FindStep(s, t), t)
  {
    IndexIs(s, s.pcs[t].seen.index);
    if Stops(s.heap[s.pcs[t].nxt], s.pcs[t].c.key) { FindEnds(s, t); } else { FindGoesOn(s, t); }
  }

  /** When no lock is held, back links are right and no node of the list is marked as removed. */
  lemma Settled(s: State, i: nat)
    requires Inv(s) && NoLocks(s) && 0 < i < |Cur(s)|
    ensures Cur(s)[i] < |s.heap| && Cur(s)[i - 1] < |s.heap|
    ensures s.heap[Cur(s)[i]].prev == Some(Cur(s)[i - 1]) && s.heap[Cur(s)[i - 1]].next == Some(Cur(s)[i])
    ensures !s.heap[Cur(s)[i - 1]].removed && Cur(s)[i] != Cur(s)[i - 1]
  {
    assert PrevAt(s, i - 1) && ChainAt(s, i - 1) && NodeAt(s, Cur(s)[i - 1]) && VersionAt(s, |s.versions| - 1);
  }

  lemma PrevNearer(s: State, t: nat)
    requires Inv(s) && t < |s.pcs| && (s.pcs[t].ReadPrev? || s.pcs[t].TryPrev?) && UpToDate(s, t)
    ensures Nearer(s, FindStep(s, t), t)
  {
    var pc, s' := s.pcs[t], FindStep(s, t);
    var i: nat :| Spot(s, pc.c, pc.loc, i) && (pc.TryPrev? ==> pc.p == Cur(s)[i - 1]);
    Settled(s, i);
    assert NodeAt(s, Cur(s)[i - 1]);
    assert Spot(s', pc.c, pc.loc, i);
  }

  lemma LockedNearer(s: State, t: nat)
    requires ListOK(s) && t < |s.pcs| && PcOK(s, t, s.pcs[t]) && UpToDate(s, t)
    requires var pc := s.pcs[t]; !Resting(pc) && !Finding(pc) && !Removing(pc)
    ensures Nearer(s, LockedStep(s, t), t)
  {
  }

  lemma RemoveNearer(s: State, t: nat)
    requires t < |s.pcs| && PcOK(s, t, s.pcs[t]) && UpToDate(s, t) && Removing(s.pcs[t])
    requires s.pcs[t].loc < |s.heap| ==> NodeAt(s, s.pcs[t].loc)
    ensures Nearer(s, RemoveStep(s, t), t)
  {
  }

  lemma StepNearer(s: State, t: nat, ch: Choice)
    requires Inv(s) && t < |s.pcs| && UpToDate(s, t) && !Resting(s.pcs[t])
    ensures Nearer(s, Step(s, t, ch), t)
  {
    var pc := s.pcs[t];
    assert PcOK(s, t, pc);
    if pc.Start? { StartNearer(s, t); }
    else if pc.Find? { FindNearer(s, t); }
    else if pc.ReadPrev? || pc.TryPrev? { PrevNearer(s, t); }
    else if Removing(pc) { RemoveNearer(s, t); }
    else { LockedNearer(s, t); }
  }

  /** At most n steps of thread t with nobody else moving, until it has returned. */
  function OnItsOwn(s: State, t: nat, n: nat): State
    decreases n
  {
    if n == 0 || t >= |s.pcs| || Resting(s.pcs[t]) then s else OnItsOwn(Step(s, t, Choice(Insert, 0)), t, n - 1)
  }

  lemma {:induction false} Returns(s: State, t: nat, n: nat)
    requires Inv(s) && t < |s.pcs| && UpToDate(s, t) && n >= StepsLeft(s, s.pcs[t])
    ensures t < |OnItsOwn(s, t, n).pcs| && Resting(OnItsOwn(s, t, n).pcs[t])
    decreases n
  {
    if !Resting(s.pcs[t]) {
      var ch := Choice(Insert, 0);
      StepNearer(s, t, ch);
      StepInv(s, t, ch);
      Returns(Step(s, t, ch), t, n - 1);
    }
  }

  /** An insert or a remove that begins while no lock is held, and is left alone, returns after one walk over
      the list and at most twelve more steps: its first attempt succeeds. */
  lemma FirstAttemptSucceeds(s: State, sched: seq<(nat, Choice)>, t: nat, ch: Choice)
    requires Init(s) && t < |Exec(s, sched).pcs| && Resting(Exec(s, sched).pcs[t]) && NoLocks(Exec(s, sched))
    ensures var r := Exec(s, sched);
            var r' := OnItsOwn(Step(r, t, ch), t, |Cur(r)| + 12);
            t < |r'.pcs| && Resting(r'.pcs[t])
  {
    var r := Exec(s, sched);
    Reachable(s, sched);
    StepInv(r, t, ch);
    Returns(Step(r, t, ch), t, |Cur(r)| + 12);
  }
}
