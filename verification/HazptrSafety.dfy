/** Safety of the hazard-pointer stack over every run: no node is destroyed while a validated
    announcement protects it, and the stack is a linearizable LIFO that knows its length. */
module HazptrSafety {
  import opened Options
  import opened HazptrStack

  // ---------------------------------------------------------------- the invariant

  /** The node that the thread's validated announcement protects. */
  ghost function Protects(pc: PC): Ptr {
    match pc
    case PushLink(_, h) => h
    case PushLength(_, from) => Some(from)
    case PushCas(_, h) => h
    case PopNext(p) => Some(p)
    case PopCas(p, _) => Some(p)
    case PopValue(p, _) => Some(p)
    case PopRetire(p, _) => Some(p)
    case SizeRead(p, _) => Some(p)
    case _ => None
  }

  ghost predicate Live(s: State, a: nat) {
    a < |s.nodes| && !s.nodes[a].status.Unused? && !s.nodes[a].status.Private?
  }

  ghost predicate HasStatus(s: State, a: nat, st: Status) {
    a < |s.nodes| && s.nodes[a].status == st
  }

  /** The i-th node of the stack is linked to the next one and stores how many are at and below it. */
  ghost predicate StackedAt(s: State, i: nat)
    requires i < |s.stack|
  {
    && HasStatus(s, s.stack[i], Stacked)
    && var n := s.nodes[s.stack[i]];
    && n.length == |s.stack| - i
    && n.next == (if i + 1 < |s.stack| then Some(s.stack[i + 1]) else None)
  }

  ghost predicate StackOK(s: State) {
    && s.head == (if s.stack == [] then None else Some(s.stack[0]))
    && (forall i :: 0 <= i < |s.stack| ==> StackedAt(s, i))
    && (forall a :: 0 <= a < |s.nodes| && s.nodes[a].status.Stacked? ==> a in s.stack)
  }

  /** The i-th node of t's retired list is linked to the next one. */
  ghost predicate RetiredAt(s: State, t: nat, i: nat)
    requires t < |s.locals| && i < |s.locals[t].list|
  {
    var list := s.locals[t].list;
    && HasStatus(s, list[i], Retired(t))
    && s.nodes[list[i]].next == (if i + 1 < |list| then Some(list[i + 1]) else None)
  }

  ghost predicate ListOK(s: State, t: nat)
    requires t < |s.locals|
  {
    var l := s.locals[t];
    && l.size == |l.list|
    && l.head == (if l.list == [] then None else Some(l.list[0]))
    && (forall i :: 0 <= i < |l.list| ==> RetiredAt(s, t, i))
    && (forall i, j :: 0 <= i < j < |l.list| ==> l.list[i] != l.list[j])
  }

  /** A validated announcement is in its slot, and its node is neither unallocated nor private. */
  ghost predicate ProtectOK(s: State, t: nat)
    requires t < |s.pcs| && Sized(s)
  {
    var a := Protects(s.pcs[t]);
    a.Some? ==> s.locals[t].announcement == a && Live(s, a.value)
  }

  /** Every node of t's list that a thread below i protects has been seen by the scan. */
  ghost predicate Seen(s: State, t: nat, announced: set<nat>, i: nat)
    requires t < |s.locals|
  {
    forall u ::
      0 <= u < i && u < |s.pcs| && Protects(s.pcs[u]).Some? && Protects(s.pcs[u]).value in s.locals[t].list ==>
        Protects(s.pcs[u]).value in announced
  }

  ghost predicate Knows(s: State, t: nat)
    requires t < |s.pcs| && Sized(s)
  {
    match s.pcs[t]
    case AcquireLoad(op) => op.Push? ==> HasStatus(s, op.p, Private(t))
    case AcquireStore(op, _) => op.Push? ==> HasStatus(s, op.p, Private(t))
    case AcquireCheck(op, r) =>
      s.locals[t].announcement == r && (op.Push? ==> HasStatus(s, op.p, Private(t)))
    case PushLink(p, h) => HasStatus(s, p, Private(t))
    case PushLength(p, from) => HasStatus(s, p, Private(t)) && s.nodes[p].next == Some(from)
    case PushCas(p, h) =>
      && HasStatus(s, p, Private(t)) && s.nodes[p].next == h
      && s.nodes[p].length == (if h.Some? && h.value < |s.nodes| then s.nodes[h.value].length + 1 else 1)
    case PopCas(p, next) => HasStatus(s, p, Stacked) ==> s.nodes[p].next == next
    case PopValue(p, top) => HasStatus(s, p, Popped(t)) && s.nodes[p].val == top
    case PopRetire(p, _) => HasStatus(s, p, Popped(t))
    case SizeRead(p, size) => p < |s.nodes| ==> s.nodes[p].length == size
    case Scan(_, announced, i) => i <= |s.pcs| && Seen(s, t, announced, i)
    case CleanHead(_, announced) => Seen(s, t, announced, |s.pcs|)
    case CleanRest(_, announced, prev, cur, k) =>
      && Seen(s, t, announced, |s.pcs|)
      && var list := s.locals[t].list;
      && 0 < k <= |list| && prev == list[k - 1] && cur == (if k < |list| then Some(list[k]) else None)
    case _ => true
  }

  /** Knows as one fact: the comparison keeps proofs that pass it on from being split into its cases. */
  ghost predicate PcOK(s: State, t: nat)
    requires t < |s.pcs| && Sized(s)
  {
    Knows(s, t) == true
  }

  ghost predicate TInv(s: State, t: nat)
    requires t < |s.pcs| && Sized(s)
  {
    ListOK(s, t) && ProtectOK(s, t) && PcOK(s, t)
  }

  ghost predicate Inv(s: State) {
    && Sized(s) && StackOK(s)
    && forall t :: 0 <= t < |s.pcs| ==> TInv(s, t)
  }

  // ---------------------------------------------------------------- what other threads may do

  /** A step of t on one node. */
  ghost predicate NodeStep(x: Node, y: Node, t: nat) {
    || x == y
    || (x.status.Unused? && y.status == Private(t))
    || (x.status == Private(t) && (y.status == Private(t) || y.status.Stacked?))
    || (x.status.Stacked? && y == x.(status := Popped(t)))
    || ((x.status == Popped(t) || x.status == Retired(t)) && (y.status == Retired(t) || y.status.Unused?)
        && y.val == x.val && y.length == x.length)
  }

  /** A step of t, as the other threads see it. */
  ghost predicate Guarantee(s: State, s': State, t: nat)
    requires t < |s.pcs| && Sized(s)
  {
    && Sized(s') && |s'.pcs| == |s.pcs|
    && s'.pcs == s.pcs[t := s'.pcs[t]] && s'.locals == s.locals[t := s'.locals[t]]
    && |s.nodes| <= |s'.nodes|
    && (forall a :: 0 <= a < |s.nodes| ==> NodeStep(s.nodes[a], s'.nodes[a], t))
    && (forall a :: |s.nodes| <= a < |s'.nodes| ==> s'.nodes[a].status == Private(t))
    && (forall u :: 0 <= u < |s.pcs| && u != t && Protects(s.pcs[u]).Some? && Live(s, Protects(s.pcs[u]).value) ==>
          Live(s', Protects(s.pcs[u]).value))
    && (Protects(s'.pcs[t]).Some? ==>
          Protects(s'.pcs[t]) == Protects(s.pcs[t]) || HasStatus(s, Protects(s'.pcs[t]).value, Stacked))
  }

  lemma ListStable(s: State, s': State, t: nat, u: nat)
    requires t < |s.pcs| && Sized(s) && Guarantee(s, s', t) && u < |s.pcs| && u != t && ListOK(s, u)
    ensures ListOK(s', u)
  {
    forall i | 0 <= i < |s.locals[u].list| ensures RetiredAt(s', u, i) {
      assert RetiredAt(s, u, i);
      assert NodeStep(s.nodes[s.locals[u].list[i]], s'.nodes[s.locals[u].list[i]], t);
    }
  }

  lemma SeenStable(s: State, s': State, t: nat, u: nat, announced: set<nat>, i: nat)
    requires t < |s.pcs| && Sized(s) && Guarantee(s, s', t) && u < |s.pcs| && u != t && ListOK(s, u)
    requires Seen(s, u, announced, i)
    ensures Seen(s', u, announced, i)
  {
    forall v | 0 <= v < i && v < |s'.pcs| && Protects(s'.pcs[v]).Some? && Protects(s'.pcs[v]).value in s'.locals[u].list
      ensures Protects(s'.pcs[v]).value in announced
    {
      var a := Protects(s'.pcs[v]).value;
      var j :| 0 <= j < |s.locals[u].list| && s.locals[u].list[j] == a;
      assert RetiredAt(s, u, j);
    }
  }

  lemma OtherStable(s: State, s': State, t: nat, u: nat)
    requires t < |s.pcs| && Sized(s) && Guarantee(s, s', t) && u < |s.pcs| && u != t && TInv(s, u)
    ensures TInv(s', u)
  {
    ListStable(s, s', t, u);
    var pc := s.pcs[u];
    if pc.Scan? { SeenStable(s, s', t, u, pc.announced, pc.i); }
    if pc.CleanHead? || pc.CleanRest? { SeenStable(s, s', t, u, pc.announced, |s.pcs|); }
    assert forall a :: 0 <= a < |s.nodes| ==> NodeStep(s.nodes[a], s'.nodes[a], t);
  }

  /** A step that changes neither the stack nor a stacked node. */
  lemma StackFrame(s: State, s': State)
    requires StackOK(s) && s'.head == s.head && s'.stack == s.stack && |s.nodes| <= |s'.nodes|
    requires forall a :: 0 <= a < |s.nodes| && (s.nodes[a].status.Stacked? || s'.nodes[a].status.Stacked?) ==>
               s'.nodes[a] == s.nodes[a]
    requires forall a :: |s.nodes| <= a < |s'.nodes| ==> !s'.nodes[a].status.Stacked?
    ensures StackOK(s')
  {
    forall i | 0 <= i < |s'.stack| ensures StackedAt(s', i) {
      assert StackedAt(s, i);
    }
  }

  // ---------------------------------------------------------------- steps

  ghost predicate StepOK(s: State, s': State, t: nat)
    requires t < |s.pcs| && Sized(s)
  {
    Guarantee(s, s', t) && StackOK(s') && TInv(s', t)
  }

  /** t's list does not depend on what t does to other nodes. */
  lemma OwnList(s: State, s': State, t: nat)
    requires t < |s.locals| && t < |s'.locals| && ListOK(s, t) && |s.nodes| <= |s'.nodes|
    requires s'.locals[t] == s.locals[t].(announcement := s'.locals[t].announcement)
    requires forall a :: 0 <= a < |s.nodes| && s.nodes[a].status == Retired(t) ==> s'.nodes[a] == s.nodes[a]
    ensures ListOK(s', t)
  {
    forall i | 0 <= i < |s.locals[t].list| ensures RetiredAt(s', t, i) {
      assert RetiredAt(s, t, i);
    }
  }

  lemma StartOK(s: State, t: nat, c: Choice)
    requires Inv(s) && t < |s.pcs| && s.pcs[t].Idle?
    ensures StepOK(s, StartStep(s, t, c), t)
  {
    var s' := StartStep(s, t, c);
    assert TInv(s, t);
    OwnList(s, s', t);
    StackFrame(s, s');
  }

  lemma AcquireOK(s: State, t: nat)
    requires Inv(s) && t < |s.pcs| && (s.pcs[t].AcquireLoad? || s.pcs[t].AcquireStore? || s.pcs[t].AcquireCheck?)
    ensures StepOK(s, AcquireStep(s, t), t)
  {
    var s' := AcquireStep(s, t);
    assert TInv(s, t);
    OwnList(s, s', t);
    StackFrame(s, s');
    if s.stack != [] { assert StackedAt(s, 0); }
  }

  lemma PushOK(s: State, t: nat, c: Choice)
    requires Inv(s) && t < |s.pcs| && (s.pcs[t].PushLink? || s.pcs[t].PushLength? || s.pcs[t].PushCas?)
    requires !PushSucceeds(s, t, c)
    ensures StepOK(s, PushStep(s, t, c), t)
  {
    var s' := PushStep(s, t, c);
    assert TInv(s, t);
    OwnList(s, s', t);
    StackFrame(s, s');
  }

  /** The compare-and-swap of a push succeeds. */
  ghost predicate PushSucceeds(s: State, t: nat, c: Choice)
    requires t < |s.pcs|
  {
    && s.pcs[t].PushCas? && s.pcs[t].p < |s.nodes|
    && s.head == s.nodes[s.pcs[t].p].next && !c.spurious
  }

  lemma PushedStack(s: State, t: nat, c: Choice)
    requires StackOK(s) && t < |s.pcs| && Sized(s) && PcOK(s, t) && PushSucceeds(s, t, c)
    ensures StackOK(PushStep(s, t, c))
  {
    var s' := PushStep(s, t, c);
    if s.stack != [] { assert StackedAt(s, 0); }
    forall i | 0 <= i < |s'.stack| ensures StackedAt(s', i) {
      if i > 0 { assert StackedAt(s, i - 1); }
    }
  }

  lemma PushSucceedsOK(s: State, t: nat, c: Choice)
    requires Inv(s) && t < |s.pcs| && PushSucceeds(s, t, c)
    ensures StepOK(s, PushStep(s, t, c), t)
  {
    var s' := PushStep(s, t, c);
    assert TInv(s, t);
    OwnList(s, s', t);
    if s.stack != [] { assert StackedAt(s, 0); }
    PushedStack(s, t, c);
  }

  /** The compare-and-swap of a pop succeeds. */
  ghost predicate PopSucceeds(s: State, t: nat, c: Choice)
    requires t < |s.pcs|
  {
    s.pcs[t].PopCas? && s.head == Some(s.pcs[t].p) && !c.spurious
  }

  lemma PopSucceedsOK(s: State, t: nat, c: Choice)
    requires Inv(s) && t < |s.pcs| && PopSucceeds(s, t, c)
    ensures StepOK(s, PopStep(s, t, c), t)
    ensures s.stack != [] && s.stack[0] == s.pcs[t].p
  {
    var s' := PopStep(s, t, c);
    assert TInv(s, t);
    assert StackedAt(s, 0);
    OwnList(s, s', t);
    forall i | 0 <= i < |s'.stack| ensures StackedAt(s', i) {
      assert StackedAt(s, i + 1);
    }
    forall a | 0 <= a < |s'.nodes| && s'.nodes[a].status.Stacked? ensures a in s'.stack {
      assert a in s.stack && s.stack == [s.stack[0]] + s'.stack;
    }
  }

  lemma PopOK(s: State, t: nat, c: Choice)
    requires Inv(s) && t < |s.pcs| && !PopSucceeds(s, t, c)
    requires var pc := s.pcs[t]; pc.PopNext? || pc.PopCas? || pc.PopValue? || pc.SizeRead? || pc.Release?
    ensures StepOK(s, PopStep(s, t, c), t)
  {
    var s' := PopStep(s, t, c);
    assert TInv(s, t);
    OwnList(s, s', t);
    StackFrame(s, s');
  }

  lemma RetireList(s: State, t: nat, c: Choice)
    requires Sized(s) && t < |s.pcs| && s.pcs[t].PopRetire? && TInv(s, t)
    ensures var s' := PopStep(s, t, c); t < |s'.locals| && ListOK(s', t)
  {
    var s', list := PopStep(s, t, c), s.locals[t].list;
    forall i | 0 <= i < |list| ensures list[i] != s.pcs[t].p { assert RetiredAt(s, t, i); }
    forall i | 0 <= i < |s'.locals[t].list| ensures RetiredAt(s', t, i) {
      if i > 0 { assert RetiredAt(s, t, i - 1); }
    }
  }

  lemma RetireOK(s: State, t: nat, c: Choice)
    requires Inv(s) && t < |s.pcs| && s.pcs[t].PopRetire?
    ensures StepOK(s, PopStep(s, t, c), t)
  {
    assert TInv(s, t);
    StackFrame(s, PopStep(s, t, c));
    RetireList(s, t, c);
  }

  lemma ScanOK(s: State, t: nat)
    requires Inv(s) && t < |s.pcs| && s.pcs[t].Scan?
    ensures StepOK(s, EjectStep(s, t), t)
  {
    var s', pc := EjectStep(s, t), s.pcs[t];
    assert TInv(s, t);
    OwnList(s, s', t);
    StackFrame(s, s');
    if pc.i < |s.pcs| { assert TInv(s, pc.i); }
  }

  /** Whether the next step of cleaning up destroys a node. */
  ghost predicate Destroys(s: State, t: nat)
    requires t < |s.pcs| && Sized(s)
  {
    match s.pcs[t]
    case CleanHead(_, announced) => s.locals[t].head.Some? && s.locals[t].head.value !in announced
    case CleanRest(_, announced, _, cur, _) => cur.Some? && cur.value !in announced
    case _ => false
  }

  lemma CleanHeadOK(s: State, t: nat)
    requires Inv(s) && t < |s.pcs| && s.pcs[t].CleanHead? && !Destroys(s, t)
    ensures StepOK(s, EjectStep(s, t), t)
  {
    var s' := EjectStep(s, t);
    assert TInv(s, t);
    if s.locals[t].head.Some? { assert RetiredAt(s, t, 0); }
    OwnList(s, s', t);
    StackFrame(s, s');
  }

  lemma BeheadList(s: State, t: nat)
    requires Sized(s) && t < |s.pcs| && s.pcs[t].CleanHead? && Destroys(s, t) && ListOK(s, t)
    ensures var s' := EjectStep(s, t); t < |s'.locals| && ListOK(s', t)
  {
    var s' := EjectStep(s, t);
    assert RetiredAt(s, t, 0);
    forall i | 0 <= i < |s'.locals[t].list| ensures RetiredAt(s', t, i) {
      assert RetiredAt(s, t, i + 1);
    }
  }

  lemma BeheadOK(s: State, t: nat)
    requires Inv(s) && t < |s.pcs| && s.pcs[t].CleanHead? && Destroys(s, t)
    ensures StepOK(s, EjectStep(s, t), t)
  {
    var s', pc := EjectStep(s, t), s.pcs[t];
    assert TInv(s, t);
    assert RetiredAt(s, t, 0);
    BeheadList(s, t);
    StackFrame(s, s');
    assert forall a :: a in s'.locals[t].list ==> a in s.locals[t].list;
  }

  /** Unlinking the k-th node of the retired list leaves a well-linked list. */
  lemma UnlinkList(s: State, t: nat)
    requires Sized(s) && t < |s.pcs| && s.pcs[t].CleanRest? && Destroys(s, t) && TInv(s, t)
    ensures var s' := EjectStep(s, t); t < |s'.locals| && ListOK(s', t)
    ensures var s' := EjectStep(s, t);
            s'.pcs[t].cur == (if s.pcs[t].k < |s'.locals[t].list| then Some(s'.locals[t].list[s.pcs[t].k]) else None)
  {
    var s', l, pc := EjectStep(s, t), s.locals[t], s.pcs[t];
    assert RetiredAt(s, t, pc.k) && RetiredAt(s, t, pc.k - 1);
    forall i | 0 <= i < |s'.locals[t].list| ensures RetiredAt(s', t, i) {
      assert RetiredAt(s, t, if i < pc.k then i else i + 1);
    }
  }

  lemma UnlinkOK(s: State, t: nat)
    requires Inv(s) && t < |s.pcs| && s.pcs[t].CleanRest? && Destroys(s, t)
    ensures StepOK(s, EjectStep(s, t), t)
  {
    var s', pc := EjectStep(s, t), s.pcs[t];
    assert TInv(s, t);
    assert RetiredAt(s, t, pc.k) && RetiredAt(s, t, pc.k - 1);
    UnlinkList(s, t);
    StackFrame(s, s');
    assert forall a :: a in s'.locals[t].list ==> a in s.locals[t].list;
    assert PcOK(s', t);
  }

  lemma CleanRestOK(s: State, t: nat)
    requires Inv(s) && t < |s.pcs| && s.pcs[t].CleanRest? && !Destroys(s, t)
    ensures StepOK(s, EjectStep(s, t), t)
  {
    var s', pc := EjectStep(s, t), s.pcs[t];
    assert TInv(s, t);
    if pc.cur.Some? { assert RetiredAt(s, t, pc.k) && RetiredAt(s, t, pc.k - 1); }
    OwnList(s, s', t);
    StackFrame(s, s');
  }

  lemma ThreadOK(s: State, t: nat, c: Choice)
    requires Inv(s) && t < |s.pcs|
    ensures StepOK(s, Step(s, t, c), t)
  {
    var pc := s.pcs[t];
    if pc.Idle? { StartOK(s, t, c); }
    else if pc.AcquireLoad? || pc.AcquireStore? || pc.AcquireCheck? { AcquireOK(s, t); }
    else if pc.PushLink? || pc.PushLength? || pc.PushCas? {
      if PushSucceeds(s, t, c) { PushSucceedsOK(s, t, c); } else { PushOK(s, t, c); }
    }
    else if pc.Scan? { ScanOK(s, t); }
    else if pc.CleanHead? {
      if Destroys(s, t) { BeheadOK(s, t); } else { CleanHeadOK(s, t); }
    }
    else if pc.CleanRest? {
      if Destroys(s, t) { UnlinkOK(s, t); } else { CleanRestOK(s, t); }
    }
    else if pc.PopRetire? { RetireOK(s, t, c); }
    else if PopSucceeds(s, t, c) { PopSucceedsOK(s, t, c); }
    else { PopOK(s, t, c); }
  }

  lemma StepInv(s: State, t: nat, c: Choice)
    requires Inv(s)
    ensures Inv(Step(s, t, c))
  {
    if t < |s.pcs| {
      ThreadOK(s, t, c);
      forall u | 0 <= u < |s.pcs| && u != t ensures TInv(Step(s, t, c), u) {
        assert TInv(s, u);
        OtherStable(s, Step(s, t, c), t, u);
      }
    }
  }

  lemma {:induction false} Reachable(s: State, sched: seq<(nat, Choice)>)
    requires Init(s)
    ensures Inv(Exec(s, sched))
    decreases |sched|
  {
    if sched != [] {
      var n := |sched| - 1;
      Reachable(s, sched[..n]);
      StepInv(Exec(s, sched[..n]), sched[n].0, sched[n].1);
    }
  }

  // ---------------------------------------------------------------- what the stack guarantees

  /** t's next step reads or writes node a. */
  ghost predicate Touches(s: State, t: nat, a: nat)
    requires t < |s.pcs| && Sized(s)
  {
    match s.pcs[t]
    case PushLink(p, _) => a == p
    case PushLength(p, from) => a == p || a == from
    case PushCas(p, _) => a == p
    case PopNext(p) => a == p
    case PopValue(p, _) => a == p
    case PopRetire(p, _) => a == p
    case SizeRead(p, _) => a == p
    case CleanHead(_, _) => s.locals[t].head == Some(a)
    case CleanRest(_, _, prev, cur, _) => cur == Some(a) || (Destroys(s, t) && a == prev)
    case _ => false
  }

  /** No step reads or writes a node that has been destroyed, or destroyed and allocated again: a node that
      t touches is t's own new node, or waits in t's own retired list, or is one that t's validated
      announcement protects and that has been live ever since. */
  lemma NoUseAfterDestroy(s: State, sched: seq<(nat, Choice)>, t: nat, a: nat)
    requires Init(s)
    requires var r := Exec(s, sched); t < |r.pcs| && Sized(r) && Touches(r, t, a)
    ensures var r := Exec(s, sched);
            || HasStatus(r, a, Private(t))
            || (HasStatus(r, a, Retired(t)) && a in r.locals[t].list)
            || (Protects(r.pcs[t]) == Some(a) && r.locals[t].announcement == Some(a) && Live(r, a))
  {
    var r := Exec(s, sched);
    Reachable(s, sched);
    assert TInv(r, t);
    if r.pcs[t].CleanHead? { assert RetiredAt(r, t, 0); }
    if r.pcs[t].CleanRest? {
      assert RetiredAt(r, t, r.pcs[t].k - 1);
      if r.pcs[t].cur.Some? { assert RetiredAt(r, t, r.pcs[t].k); }
    }
  }

  /** A step destroys a node only if no validated announcement protects it. */
  lemma DestroyedUnprotected(s: State, sched: seq<(nat, Choice)>, t: nat, c: Choice, a: nat, u: nat)
    requires Init(s)
    requires var r := Exec(s, sched);
             var r' := Step(r, t, c);
             && a < |r.nodes| && !r.nodes[a].status.Unused? && a < |r'.nodes| && r'.nodes[a].status.Unused?
             && u < |r.pcs|
    ensures Protects(Exec(s, sched).pcs[u]) != Some(a)
  {
    var r := Exec(s, sched);
    Reachable(s, sched);
    assert TInv(r, u) && TInv(r, t);
    StepInv(r, t, c);
    ThreadOK(r, t, c);
  }

  /** The values on the stack, top first. */
  ghost function Contents(s: State): seq<int>
    requires forall i :: 0 <= i < |s.stack| ==> s.stack[i] < |s.nodes|
  {
    seq(|s.stack|, i requires 0 <= i < |s.stack| => s.nodes[s.stack[i]].val)
  }

  lemma StackInRange(s: State)
    requires StackOK(s)
    ensures forall i :: 0 <= i < |s.stack| ==> s.stack[i] < |s.nodes|
  {
    forall i | 0 <= i < |s.stack| ensures s.stack[i] < |s.nodes| {
      assert StackedAt(s, i);
    }
  }

  ghost predicate InRange(s: State) {
    forall i :: 0 <= i < |s.stack| ==> s.stack[i] < |s.nodes|
  }

  /** A step of t changes the contents as its linearization point demands, and not otherwise. */
  ghost predicate Atomic(s: State, s': State, t: nat, c: Choice)
    requires t < |s.pcs| && t < |s'.pcs|
  {
    && InRange(s) && InRange(s')
    && if PushSucceeds(s, t, c) then Contents(s') == [s.nodes[s.pcs[t].p].val] + Contents(s)
       else if PopSucceeds(s, t, c) then
         && s'.pcs[t].PopValue? && s'.pcs[t].p == s.pcs[t].p
         && Contents(s) == [s'.pcs[t].top] + Contents(s')
       else Contents(s') == Contents(s)
  }

  lemma AllValuesKept(s: State, s': State, t: nat)
    requires t < |s.pcs| && Sized(s) && Guarantee(s, s', t) && StackOK(s) && StackOK(s')
    ensures InRange(s) && InRange(s')
    ensures forall i :: 0 <= i < |s.stack| ==>
              s.stack[i] < |s'.nodes| && s'.nodes[s.stack[i]].val == s.nodes[s.stack[i]].val
  {
    StackInRange(s);
    StackInRange(s');
    forall i | 0 <= i < |s.stack| ensures s'.nodes[s.stack[i]].val == s.nodes[s.stack[i]].val {
      assert StackedAt(s, i);
      assert NodeStep(s.nodes[s.stack[i]], s'.nodes[s.stack[i]], t);
    }
  }

  /** The values of the nodes that stay on the stack do not change. */
  ghost predicate KeepsValues(s: State, s': State) {
    && InRange(s) && InRange(s')
    && forall i :: 0 <= i < |s.stack| ==> s.stack[i] < |s'.nodes| && s'.nodes[s.stack[i]].val == s.nodes[s.stack[i]].val
  }

  lemma PushAtomic(s: State, t: nat, c: Choice)
    requires Sized(s) && t < |s.pcs| && PushSucceeds(s, t, c) && KeepsValues(s, Step(s, t, c))
    ensures Atomic(s, Step(s, t, c), t, c)
  {
    assert Contents(Step(s, t, c)) == [s.nodes[s.pcs[t].p].val] + Contents(s);
  }

  lemma PopAtomic(s: State, t: nat, c: Choice)
    requires Inv(s) && t < |s.pcs| && PopSucceeds(s, t, c) && KeepsValues(s, Step(s, t, c))
    ensures Atomic(s, Step(s, t, c), t, c)
  {
    PopSucceedsOK(s, t, c);
    assert TInv(s, t);
    assert Contents(s) == [Step(s, t, c).pcs[t].top] + Contents(Step(s, t, c));
  }

  lemma QuietAtomic(s: State, t: nat, c: Choice)
    requires Inv(s) && t < |s.pcs| && !PushSucceeds(s, t, c) && !PopSucceeds(s, t, c) && KeepsValues(s, Step(s, t, c))
    requires t < |Step(s, t, c).pcs|
    ensures Atomic(s, Step(s, t, c), t, c)
  {
    assert TInv(s, t);
    assert Contents(Step(s, t, c)) == Contents(s);
  }

  /** Linearizability: every step leaves the stack alone, except the compare-and-swap of a push, which
      puts its value on top, and that of a pop, which takes the top value off. */
  lemma StepsAreAtomic(s: State, sched: seq<(nat, Choice)>, t: nat, c: Choice)
    requires Init(s) && t < |Exec(s, sched).pcs|
    ensures var r := Exec(s, sched);
            t < |Step(r, t, c).pcs| && Atomic(r, Step(r, t, c), t, c)
  {
    var r := Exec(s, sched);
    var r' := Step(r, t, c);
    Reachable(s, sched);
    StepInv(r, t, c);
    ThreadOK(r, t, c);
    AllValuesKept(r, r', t);
    if PushSucceeds(r, t, c) { PushAtomic(r, t, c); }
    else if PopSucceeds(r, t, c) { PopAtomic(r, t, c); }
    else { QuietAtomic(r, t, c); }
  }

  /** The result is that of a call that changes the stack. */
  ghost predicate Changes(res: Result) {
    res.Pushed? || res.Value?
  }

  /** The call has taken effect on the stack. */
  ghost predicate TookEffect(pc: PC) {
    match pc
    case PopValue(_, _) => true
    case PopRetire(_, res) => Changes(res)
    case Scan(res, _, _) => Changes(res)
    case CleanHead(res, _) => Changes(res)
    case CleanRest(res, _, _, _, _) => Changes(res)
    case Release(res) => Changes(res)
    case _ => false
  }

  /** How a step of t changes whether its call has taken effect. */
  ghost predicate EffectStep(s: State, pc: PC, pc': PC, succeeds: bool) {
    && (pc.Idle? ==> !TookEffect(pc'))
    && (succeeds ==> !TookEffect(pc) && TookEffect(pc'))
    && (!succeeds && !pc'.Idle? ==> TookEffect(pc') == TookEffect(pc))
    && (pc'.Idle? ==> pc.Release? || (pc.AcquireCheck? && pc.op.Pop? && s.head.None?))
  }

  lemma EffectOfPush(s: State, t: nat, c: Choice)
    requires t < |s.pcs| && (s.pcs[t].PushLink? || s.pcs[t].PushLength? || s.pcs[t].PushCas?)
    ensures t < |PushStep(s, t, c).pcs| && EffectStep(s, s.pcs[t], PushStep(s, t, c).pcs[t], PushSucceeds(s, t, c))
  {
  }

  lemma EffectOfRest(s: State, t: nat, c: Choice)
    requires t < |s.pcs| && Sized(s)
    requires var pc := s.pcs[t];
             || pc.Idle? || pc.AcquireLoad? || pc.AcquireStore? || pc.AcquireCheck?
             || pc.Scan? || pc.CleanHead? || pc.CleanRest?
    ensures t < |Step(s, t, c).pcs| && EffectStep(s, s.pcs[t], Step(s, t, c).pcs[t], false)
  {
  }

  /** A call takes effect in one step: one that returns from a push, or returns a value, has made exactly
      one successful compare-and-swap of the head since it began, and any other has made none. */
  lemma CallsTakeEffectOnce(s: State, sched: seq<(nat, Choice)>, t: nat, c: Choice)
    requires Init(s) && t < |Exec(s, sched).pcs|
    ensures var r := Exec(s, sched);
            && t < |Step(r, t, c).pcs|
            && EffectStep(r, r.pcs[t], Step(r, t, c).pcs[t], PushSucceeds(r, t, c) || PopSucceeds(r, t, c))
  {
    var r := Exec(s, sched);
    var pc := r.pcs[t];
    Reachable(s, sched);
    if PopSucceeds(r, t, c) { PopSucceedsOK(r, t, c); }
    if pc.PushLink? || pc.PushLength? || pc.PushCas? { EffectOfPush(r, t, c); }
    else if pc.PopNext? || pc.PopCas? || pc.PopValue? || pc.PopRetire? || pc.SizeRead? || pc.Release? {
      if PopSucceeds(r, t, c) { assert StackedAt(r, 0); }
    }
    else { EffectOfRest(r, t, c); }
  }

  /** A pop returns the value that its compare-and-swap took off the top, although the node may have
      been linked into a retired list or its address announced by others in between. */
  lemma PopReturnsTop(s: State, sched: seq<(nat, Choice)>, t: nat, c: Choice)
    requires Init(s)
    requires var r := Exec(s, sched); t < |r.pcs| && r.pcs[t].PopValue?
    ensures var r := Exec(s, sched);
            var pc := Step(r, t, c).pcs[t];
            pc.PopRetire? && pc.res == Value(r.pcs[t].top)
  {
    Reachable(s, sched);
    assert TInv(Exec(s, sched), t);
  }

  /** size returns the number of nodes on the stack at the moment its announcement was validated: that
      number is recorded when SizeRead is entered and is what the step from SizeRead returns. */
  lemma SizeIsExact(s: State, sched: seq<(nat, Choice)>, t: nat, c: Choice)
    requires Init(s) && t < |Exec(s, sched).pcs|
    ensures var r := Exec(s, sched);
            var pc, pc' := r.pcs[t], Step(r, t, c).pcs[t];
            && (pc.AcquireCheck? && pc'.SizeRead? ==> pc'.size == |r.stack|)
            && (pc.AcquireCheck? && pc.op.Size? && pc'.Release? ==> pc'.res == Length(|r.stack|))
            && (pc.SizeRead? ==> pc' == Release(Length(pc.size)))
  {
    Reachable(s, sched);
    assert TInv(Exec(s, sched), t);
  }

  /** The length stored in the head is the length of the stack. */
  lemma HeadKnowsLength(s: State, sched: seq<(nat, Choice)>)
    requires Init(s) && Exec(s, sched).head.Some?
    ensures var r := Exec(s, sched);
            r.head.value < |r.nodes| && r.nodes[r.head.value].length == |r.stack|
  {
    Reachable(s, sched);
    assert StackedAt(Exec(s, sched), 0);
  }

  // ---------------------------------------------------------------- no node is lost

  ghost predicate Pushing(pc: PC, a: nat) {
    || ((pc.AcquireLoad? || pc.AcquireStore? || pc.AcquireCheck?) && pc.op == Push(a))
    || ((pc.PushLink? || pc.PushLength? || pc.PushCas?) && pc.p == a)
  }

  /** A node that is not unused is in the hands of one thread, on the stack, or in a retired list. */
  ghost predicate Accounted(s: State, a: nat)
    requires a < |s.nodes|
  {
    match s.nodes[a].status
    case Unused => true
    case Private(u) => u < |s.pcs| && Pushing(s.pcs[u], a)
    case Stacked => a in s.stack
    case Popped(u) => u < |s.pcs| && (s.pcs[u].PopValue? || s.pcs[u].PopRetire?) && s.pcs[u].p == a
    case Retired(u) => u < |s.locals| && a in s.locals[u].list
  }

  ghost predicate NoLeak(s: State) {
    forall a :: 0 <= a < |s.nodes| ==> Accounted(s, a)
  }

  /** A step of t keeps account of every node that is not t's. */
  lemma AccountedOther(s: State, t: nat, c: Choice, a: nat)
    requires Inv(s) && t < |s.pcs| && StepOK(s, Step(s, t, c), t) && a < |s.nodes| && Accounted(s, a)
    requires var st := s.nodes[a].status; !st.Stacked? && st != Private(t) && st != Popped(t) && st != Retired(t)
    ensures a < |Step(s, t, c).nodes| && Accounted(Step(s, t, c), a)
  {
    var s' := Step(s, t, c);
    assert NodeStep(s.nodes[a], s'.nodes[a], t);
    if s.nodes[a].status.Unused? && s'.nodes[a] != s.nodes[a] { StartUses(s, t, c, a); }
  }

  /** Cleaning up changes only nodes of t's own retired list. */
  lemma CleanTouches(s: State, t: nat, c: Choice)
    requires Sized(s) && t < |s.pcs| && TInv(s, t) && (s.pcs[t].CleanHead? || s.pcs[t].CleanRest?)
    ensures var s' := Step(s, t, c);
            && |s'.nodes| == |s.nodes|
            && forall a :: 0 <= a < |s.nodes| && s'.nodes[a] != s.nodes[a] ==> s.nodes[a].status == Retired(t)
  {
    if s.pcs[t].CleanHead? && s.locals[t].head.Some? { assert RetiredAt(s, t, 0); }
    if s.pcs[t].CleanRest? && s.pcs[t].cur.Some? {
      assert RetiredAt(s, t, s.pcs[t].k) && RetiredAt(s, t, s.pcs[t].k - 1);
    }
  }

  /** Only the start of a push turns an unused node into something else. */
  lemma StartUses(s: State, t: nat, c: Choice, a: nat)
    requires Inv(s) && t < |s.pcs| && a < |s.nodes| && s.nodes[a].status.Unused?
    requires var s' := Step(s, t, c); a < |s'.nodes| && s'.nodes[a] != s.nodes[a]
    ensures Pushing(Step(s, t, c).pcs[t], a)
  {
    assert TInv(s, t);
    if s.pcs[t].CleanHead? || s.pcs[t].CleanRest? {
      CleanTouches(s, t, c);
    } else if !s.pcs[t].Idle? {
      OwnTouched(s, t, c, a);
    }
  }

  lemma OwnTouched(s: State, t: nat, c: Choice, a: nat)
    requires Sized(s) && t < |s.pcs| && TInv(s, t) && a < |s.nodes| && s.nodes[a].status.Unused?
    requires !s.pcs[t].Idle? && !s.pcs[t].CleanHead? && !s.pcs[t].CleanRest?
    ensures a < |Step(s, t, c).nodes| && Step(s, t, c).nodes[a] == s.nodes[a]
  {
  }

  lemma AccountedOwn(s: State, t: nat, c: Choice, a: nat)
    requires Inv(s) && t < |s.pcs| && a < |s.nodes| && Accounted(s, a)
    requires var st := s.nodes[a].status; st == Private(t) || st == Popped(t)
    ensures a < |Step(s, t, c).nodes| && Accounted(Step(s, t, c), a)
  {
    assert TInv(s, t);
  }

  lemma RestKeeps(s: State, t: nat, i: nat)
    requires Sized(s) && t < |s.pcs| && TInv(s, t) && s.pcs[t].CleanRest? && Destroys(s, t)
    requires i < |s.locals[t].list| && i != s.pcs[t].k
    ensures t < |EjectStep(s, t).locals| && s.locals[t].list[i] in EjectStep(s, t).locals[t].list
  {
    var s', k := EjectStep(s, t), s.pcs[t].k;
    assert RetiredAt(s, t, k) && RetiredAt(s, t, k - 1);
    assert s'.locals[t].list[if i < k then i else i - 1] == s.locals[t].list[i];
  }

  lemma HeadKeeps(s: State, t: nat, i: nat)
    requires Sized(s) && t < |s.pcs| && TInv(s, t) && s.pcs[t].CleanHead? && Destroys(s, t)
             && 0 < i < |s.locals[t].list|
    ensures t < |EjectStep(s, t).locals| && s.locals[t].list[i] in EjectStep(s, t).locals[t].list
  {
    assert RetiredAt(s, t, 0);
    assert EjectStep(s, t).locals[t].list[i - 1] == s.locals[t].list[i];
  }

  lemma RetireKeeps(s: State, t: nat, c: Choice, a: nat, i: nat)
    requires Sized(s) && t < |s.pcs| && TInv(s, t) && s.pcs[t].PopRetire?
    requires i < |s.locals[t].list| && s.locals[t].list[i] == a && a < |s.nodes|
    ensures var s' := Step(s, t, c); a < |s'.nodes| && t < |s'.locals| && a in s'.locals[t].list
  {
    assert Step(s, t, c).locals[t].list[i + 1] == a;
  }

  /** A step that does not destroy a retired node keeps it in the list. */
  lemma ListKeeps(s: State, t: nat, c: Choice, a: nat, i: nat)
    requires Sized(s) && t < |s.pcs| && TInv(s, t) && i < |s.locals[t].list| && s.locals[t].list[i] == a
    requires a < |s.nodes| && s.nodes[a].status == Retired(t)
    ensures var s' := Step(s, t, c);
            a < |s'.nodes| && t < |s'.locals| && (s'.nodes[a].status.Unused? || a in s'.locals[t].list)
  {
    var pc := s.pcs[t];
    if pc.PopRetire? {
      RetireKeeps(s, t, c, a, i);
    } else if pc.CleanHead? && Destroys(s, t) {
      if i > 0 { HeadKeeps(s, t, i); }
    } else if pc.CleanRest? && Destroys(s, t) {
      if i != pc.k { RestKeeps(s, t, i); }
    }
  }

  lemma AccountedRetired(s: State, t: nat, c: Choice, a: nat)
    requires Inv(s) && t < |s.pcs| && StepOK(s, Step(s, t, c), t) && a < |s.nodes| && Accounted(s, a)
             && s.nodes[a].status == Retired(t)
    ensures a < |Step(s, t, c).nodes| && Accounted(Step(s, t, c), a)
  {
    assert TInv(s, t) && NodeStep(s.nodes[a], Step(s, t, c).nodes[a], t);
    var i :| 0 <= i < |s.locals[t].list| && s.locals[t].list[i] == a;
    ListKeeps(s, t, c, a, i);
  }

  lemma AccountedNew(s: State, t: nat, c: Choice)
    requires Sized(s) && t < |s.pcs|
    ensures var s' := Step(s, t, c);
            forall a :: |s.nodes| <= a < |s'.nodes| ==> Accounted(s', a)
  {
  }

  lemma AccountedStacked(s: State, t: nat, c: Choice, a: nat)
    requires Inv(s) && t < |s.pcs| && StepOK(s, Step(s, t, c), t) && a < |s.nodes| && s.nodes[a].status.Stacked?
    ensures a < |Step(s, t, c).nodes| && Accounted(Step(s, t, c), a)
  {
    var s' := Step(s, t, c);
    assert TInv(s, t) && NodeStep(s.nodes[a], s'.nodes[a], t);
    if s'.nodes[a].status.Popped? { PopsTop(s, t, c, a); }
  }

  lemma PopsTop(s: State, t: nat, c: Choice, a: nat)
    requires Inv(s) && t < |s.pcs| && a < |s.nodes| && s.nodes[a].status.Stacked?
    requires var s' := Step(s, t, c); a < |s'.nodes| && !s'.nodes[a].status.Stacked?
    ensures Step(s, t, c).pcs[t].PopValue? && Step(s, t, c).pcs[t].p == a
  {
    assert TInv(s, t);
    if s.pcs[t].CleanHead? || s.pcs[t].CleanRest? { CleanTouches(s, t, c); }
  }

  lemma NoLeakStep(s: State, t: nat, c: Choice)
    requires Inv(s) && NoLeak(s)
    ensures NoLeak(Step(s, t, c))
  {
    if t < |s.pcs| {
      var s' := Step(s, t, c);
      ThreadOK(s, t, c);
      AccountedNew(s, t, c);
      forall a | 0 <= a < |s'.nodes| ensures Accounted(s', a) {
        if a < |s.nodes| {
          assert Accounted(s, a);
          var st := s.nodes[a].status;
          if st == Private(t) || st == Popped(t) { AccountedOwn(s, t, c, a); }
          else if st == Retired(t) { AccountedRetired(s, t, c, a); }
          else if st.Stacked? { AccountedStacked(s, t, c, a); }
          else { AccountedOther(s, t, c, a); }
        }
      }
    }
  }

  lemma {:induction false} NoLeakEver(s: State, sched: seq<(nat, Choice)>)
    requires Init(s)
    ensures NoLeak(Exec(s, sched))
    decreases |sched|
  {
    if sched != [] {
      var n := |sched| - 1;
      Reachable(s, sched[..n]);
      NoLeakEver(s, sched[..n]);
      NoLeakStep(Exec(s, sched[..n]), sched[n].0, sched[n].1);
    }
  }

  /** In every reachable state each allocated node is being pushed, on the stack, being popped, or in
      exactly the retired list of the thread that popped it, whose links go through it: nothing is lost. */
  lemma EveryNodeAccounted(s: State, sched: seq<(nat, Choice)>)
    requires Init(s)
    ensures var r := Exec(s, sched);
            && NoLeak(r)
            && (forall t :: 0 <= t < |r.locals| ==> ListOK(r, t))
            && (forall t, u, a :: 0 <= t < u < |r.locals| && a in r.locals[t].list ==> a !in r.locals[u].list)
  {
    var r := Exec(s, sched);
    Reachable(s, sched);
    NoLeakEver(s, sched);
    forall t | 0 <= t < |r.locals| ensures ListOK(r, t) { assert TInv(r, t); }
    forall t, u, a | 0 <= t < u < |r.locals| && a in r.locals[t].list ensures a !in r.locals[u].list {
      OneList(r, t, u, a);
    }
  }

  lemma OneList(s: State, t: nat, u: nat, a: nat)
    requires t < |s.locals| && u < |s.locals| && t != u && ListOK(s, t) && ListOK(s, u) && a in s.locals[t].list
    ensures a !in s.locals[u].list
  {
    var i :| 0 <= i < |s.locals[t].list| && s.locals[t].list[i] == a;
    assert RetiredAt(s, t, i);
    forall j | 0 <= j < |s.locals[u].list| ensures s.locals[u].list[j] != a {
      assert RetiredAt(s, u, j);
    }
  }
}
