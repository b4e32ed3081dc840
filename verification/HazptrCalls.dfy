/** What a call of the hazard-pointer stack does and returns, in terms of the entry of the schedule that
    began it; and that it returns. */
module HazptrCalls {
  import opened Options
  import opened HazptrStack
  import opened HazptrSafety

  /** A call: the choice with which the schedule began it, how often it has changed the stack and the value
      it has taken off, the length of the stack at its last validation, the addresses it has found in the
      slots, and what it has returned. */
  datatype Call = Call(choice: Choice, changes: nat, taken: Option<int>, length: Option<nat>, slots: set<nat>,
                       result: Option<Result>)

  /** The latest call of thread t: it begins with the entry that finds the thread idle. */
  function CallOf(s: State, sched: seq<(nat, Choice)>, t: nat): Option<Call>
    decreases |sched|
  {
    if sched == [] then None
    else
      var n := |sched| - 1;
      NextCall(CallOf(s, sched[..n], t), Exec(s, sched[..n]), sched[n].0, sched[n].1, t)
  }

  function NextCall(call: Option<Call>, r: State, u: nat, c: Choice, t: nat): Option<Call> {
    if u != t || t >= |r.pcs| then call
    else if r.pcs[t].Idle? then Some(Call(c, 0, None, None, {}, None))
    else if call.Some? then Some(After(call.value, r, t, Step(r, t, c)))
    else None
  }

  function TopValue(s: State): Option<int> {
    if s.stack != [] && s.stack[0] < |s.nodes| then Some(s.nodes[s.stack[0]].val) else None
  }

  /** The call after a step of t from s to s'. */
  function After(call: Call, s: State, t: nat, s': State): Call
    requires t < |s.pcs|
  {
    var pc := s.pcs[t];
    var changed := if s'.stack == s.stack then call
                   else call.(changes := call.changes + 1, taken := if call.choice.push then None else TopValue(s));
    if pc.AcquireCheck? then changed.(length := Some(|s.stack|))
    else if pc.Release? then changed.(result := Some(pc.res))
    else if pc.Scan? && pc.i < |s.locals| && s.locals[pc.i].announcement.Some? then
      changed.(slots := call.slots + {s.locals[pc.i].announcement.value})
    else changed
  }

  predicate Acquiring(pc: PC) {
    pc.AcquireLoad? || pc.AcquireStore? || pc.AcquireCheck?
  }

  predicate InPush(pc: PC) {
    (Acquiring(pc) && pc.op.Push?) || pc.PushLink? || pc.PushLength? || pc.PushCas?
  }

  predicate InPop(pc: PC) {
    (Acquiring(pc) && pc.op.Pop?) || pc.PopNext? || pc.PopCas?
  }

  predicate InSize(pc: PC) {
    (Acquiring(pc) && pc.op.Size?) || pc.SizeRead?
  }

  function NodeOf(pc: PC): nat
    requires InPush(pc)
  {
    if Acquiring(pc) then pc.op.p else pc.p
  }

  /** The result is the one that the call should give. */
  predicate Right(call: Call, res: Result) {
    if call.choice.push then res == Pushed && call.changes == 1
    else if call.choice.pop then call.changes == 1 && call.taken.Some? && res == Value(call.taken.value)
    else call.changes == 0 && call.length.Some? && res == Length(call.length.value)
  }

  ghost predicate InCall(s: State, pc: PC, call: Call) {
    if InPush(pc) then
      && call.choice.push && call.changes == 0
      && NodeOf(pc) < |s.nodes| && s.nodes[NodeOf(pc)].val == call.choice.val
    else if InPop(pc) then !call.choice.push && call.choice.pop && call.changes == 0
    else if InSize(pc) then
      && !call.choice.push && !call.choice.pop && call.changes == 0
      && (pc.SizeRead? ==> call.length == Some(pc.size))
    else if pc.PopValue? then
      !call.choice.push && call.choice.pop && call.changes == 1 && call.taken == Some(pc.top)
    else !pc.Idle? && Right(call, pc.res)
  }

  /** A call that has returned: with its result, or from a pop that gave none and has changed nothing. */
  predicate Ended(call: Call) {
    if call.result.Some? then Right(call, call.result.value)
    else !call.choice.push && call.choice.pop && call.changes == 0
  }

  /** What t has left in its retired list so far was found in the slots. */
  ghost predicate Cleaned(s: State, t: nat, call: Call)
    requires t < |s.pcs| && t < |s.locals|
  {
    var pc := s.pcs[t];
    && (pc.Scan? || pc.CleanHead? || pc.CleanRest? ==> pc.announced == call.slots)
    && (pc.CleanRest? ==> forall j :: 0 <= j < pc.k && j < |s.locals[t].list| ==> s.locals[t].list[j] in call.slots)
  }

  ghost predicate Serves(s: State, t: nat, call: Call)
    requires t < |s.pcs| && t < |s.locals|
  {
    && (if s.pcs[t].Idle? then Ended(call) else InCall(s, s.pcs[t], call) && call.result.None?)
    && Cleaned(s, t, call)
    && (!s.pcs[t].Scan? && !s.pcs[t].CleanHead? && !s.pcs[t].CleanRest? && !s.pcs[t].Release? && !s.pcs[t].Idle? ==>
          call.slots == {})
  }

  lemma ServesOther(s: State, s': State, t: nat, u: nat, call: Call)
    requires t < |s.pcs| && Sized(s) && Guarantee(s, s', t) && u < |s.pcs| && u != t && TInv(s, u) && Serves(s, u, call)
    ensures Serves(s', u, call)
  {
    if InPush(s.pcs[u]) { assert NodeStep(s.nodes[NodeOf(s.pcs[u])], s'.nodes[NodeOf(s.pcs[u])], t); }
  }

  lemma ServesStart(s: State, t: nat, c: Choice)
    requires Sized(s) && t < |s.pcs| && s.pcs[t].Idle?
    ensures var s' := Step(s, t, c);
            t < |s'.pcs| && t < |s'.locals| && Serves(s', t, Call(c, 0, None, None, {}, None))
  {
  }

  lemma ServesAcquire(s: State, t: nat, c: Choice, call: Call)
    requires Sized(s) && t < |s.pcs| && TInv(s, t) && StackOK(s) && Acquiring(s.pcs[t]) && Serves(s, t, call)
    ensures var s' := Step(s, t, c);
            t < |s'.pcs| && t < |s'.locals| && Serves(s', t, After(call, s, t, s'))
  {
  }

  lemma ServesPush(s: State, t: nat, c: Choice, call: Call)
    requires Sized(s) && t < |s.pcs| && TInv(s, t) && Serves(s, t, call)
    requires s.pcs[t].PushLink? || s.pcs[t].PushLength? || s.pcs[t].PushCas?
    ensures var s' := Step(s, t, c);
            t < |s'.pcs| && t < |s'.locals| && Serves(s', t, After(call, s, t, s'))
  {
  }

  lemma ServesScan(s: State, t: nat, c: Choice, call: Call)
    requires Sized(s) && t < |s.pcs| && Serves(s, t, call) && s.pcs[t].Scan?
    ensures var s' := Step(s, t, c);
            t < |s'.pcs| && t < |s'.locals| && Serves(s', t, After(call, s, t, s'))
  {
  }

  lemma ServesHead(s: State, t: nat, c: Choice, call: Call)
    requires Sized(s) && t < |s.pcs| && TInv(s, t) && Serves(s, t, call) && s.pcs[t].CleanHead?
    ensures var s' := Step(s, t, c);
            t < |s'.pcs| && t < |s'.locals| && Serves(s', t, After(call, s, t, s'))
  {
  }

  lemma ServesRest(s: State, t: nat, c: Choice, call: Call)
    requires Sized(s) && t < |s.pcs| && TInv(s, t) && Serves(s, t, call) && s.pcs[t].CleanRest?
    ensures var s' := Step(s, t, c);
            t < |s'.pcs| && t < |s'.locals| && Serves(s', t, After(call, s, t, s'))
  {
  }

  lemma ServesSwap(s: State, t: nat, c: Choice, call: Call)
    requires Sized(s) && t < |s.pcs| && TInv(s, t) && StackOK(s) && Serves(s, t, call) && s.pcs[t].PopCas?
    ensures var s' := Step(s, t, c);
            t < |s'.pcs| && t < |s'.locals| && Serves(s', t, After(call, s, t, s'))
  {
    if PopSucceeds(s, t, c) { assert StackedAt(s, 0); }
  }

  lemma ServesPop(s: State, t: nat, c: Choice, call: Call)
    requires Sized(s) && t < |s.pcs| && TInv(s, t) && Serves(s, t, call)
    requires s.pcs[t].PopNext? || s.pcs[t].PopValue? || s.pcs[t].PopRetire? || s.pcs[t].SizeRead? || s.pcs[t].Release?
    ensures var s' := Step(s, t, c);
            t < |s'.pcs| && t < |s'.locals| && Serves(s', t, After(call, s, t, s'))
  {
    assert Step(s, t, c).stack == s.stack;
  }

  lemma ServesOwn(s: State, t: nat, c: Choice, call: Call)
    requires Sized(s) && t < |s.pcs| && TInv(s, t) && StackOK(s) && !s.pcs[t].Idle? && Serves(s, t, call)
    ensures var s' := Step(s, t, c);
            t < |s'.pcs| && t < |s'.locals| && Serves(s', t, After(call, s, t, s'))
  {
    var pc := s.pcs[t];
    if Acquiring(pc) { ServesAcquire(s, t, c, call); }
    else if pc.PushLink? || pc.PushLength? || pc.PushCas? { ServesPush(s, t, c, call); }
    else if pc.Scan? { ServesScan(s, t, c, call); }
    else if pc.CleanHead? { ServesHead(s, t, c, call); }
    else if pc.CleanRest? { ServesRest(s, t, c, call); }
    else if pc.PopCas? { ServesSwap(s, t, c, call); }
    else { ServesPop(s, t, c, call); }
  }

  lemma ServesStep(s: State, u: nat, c: Choice, t: nat, call: Call)
    requires Inv(s) && t < |s.pcs| && Serves(s, t, call)
    ensures var s', next := Step(s, u, c), NextCall(Some(call), s, u, c, t);
            t < |s'.pcs| && t < |s'.locals| && next.Some? && Serves(s', t, next.value)
  {
    if u < |s.pcs| {
      assert TInv(s, t);
      if u != t {
        ThreadOK(s, u, c);
        ServesOther(s, Step(s, u, c), u, t, call);
      }
      else if s.pcs[t].Idle? { ServesStart(s, t, c); }
      else { ServesOwn(s, t, c, call); }
    }
  }

  lemma OtherPc(s: State, u: nat, c: Choice, t: nat)
    requires Inv(s) && u != t
    ensures var s' := Step(s, u, c);
            Sized(s') && |s'.pcs| == |s.pcs| && (t < |s.pcs| ==> s'.pcs[t] == s.pcs[t])
  {
    if u < |s.pcs| { ThreadOK(s, u, c); }
  }

  /** A thread that has been given a call carries it out, through all its retries: a push puts the call's value
      on top in its one change of the stack, a pop returns the value that it took off in its one change or
      nothing and changes nothing, and size returns the length that it saw at its validation. */
  lemma {:induction false} CallServed(s: State, sched: seq<(nat, Choice)>, t: nat)
    requires Init(s) && t < |Exec(s, sched).pcs|
    ensures var r, call := Exec(s, sched), CallOf(s, sched, t);
            t < |r.locals| && if call.Some? then Serves(r, t, call.value) else r.pcs[t].Idle?
    decreases |sched|
  {
    if sched != [] {
      var n := |sched| - 1;
      var r, call := Exec(s, sched[..n]), CallOf(s, sched[..n], t);
      var (u, c) := sched[n];
      Reachable(s, sched[..n]);
      if u != t { OtherPc(r, u, c, t); }
      if t < |r.pcs| {
        CallServed(s, sched[..n], t);
        if call.Some? { ServesStep(r, u, c, t, call.value); }
        else if u == t { ServesStart(r, t, c); }
      }
    }
  }

  /** Each step leaves the contents alone or is the one change of the call that the schedule began on its
      thread: a push puts the call's value on top, a pop takes the top value off. */
  lemma StepsAreCalls(s: State, sched: seq<(nat, Choice)>, t: nat, c: Choice)
    requires Init(s) && t < |Exec(s, sched).pcs|
    ensures var r, r', call := Exec(s, sched), Step(Exec(s, sched), t, c), CallOf(s, sched, t);
            && InRange(r) && InRange(r')
            && (Contents(r') == Contents(r) ||
                (call.Some? && var choice := call.value.choice;
                 if choice.push then Contents(r') == [choice.val] + Contents(r)
                 else choice.pop && Contents(r) != [] && Contents(r') == Contents(r)[1..]
                      && CallOf(s, sched + [(t, c)], t).Some?
                      && CallOf(s, sched + [(t, c)], t).value.taken == Some(Contents(r)[0])))
  {
    var r, call := Exec(s, sched), CallOf(s, sched, t);
    StepsAreAtomic(s, sched, t, c);
    CallServed(s, sched, t);
    assert (sched + [(t, c)])[..|sched|] == sched;
    if PopSucceeds(r, t, c) {
      Reachable(s, sched);
      PopSucceedsOK(r, t, c);
    }
  }

  /** The step with which a pop returns nothing is taken while the stack is empty. */
  lemma EmptyPopIsEmpty(s: State, sched: seq<(nat, Choice)>, t: nat, c: Choice)
    requires Init(s) && t < |Exec(s, sched).pcs|
    requires var r', call := Exec(s, sched + [(t, c)]), CallOf(s, sched + [(t, c)], t);
             t < |r'.pcs| && r'.pcs[t].Idle? && call.Some? && call.value.result.None?
    ensures Exec(s, sched).stack == []
  {
    var r := Exec(s, sched);
    assert (sched + [(t, c)])[..|sched|] == sched;
    Reachable(s, sched);
    CallServed(s, sched, t);
    EmptySeen(r, t, c, CallOf(s, sched, t));
  }

  lemma EmptySeen(s: State, t: nat, c: Choice, call: Option<Call>)
    requires Sized(s) && StackOK(s) && t < |s.pcs|
    requires if call.Some? then Serves(s, t, call.value) else s.pcs[t].Idle?
    requires t < |Step(s, t, c).pcs| && Step(s, t, c).pcs[t].Idle?
    requires var next := NextCall(call, s, t, c, t); next.Some? && next.value.result.None?
    ensures s.stack == []
  {
  }

  /** Cleaning up keeps only what was found in some slot during the scan of the same call: every other node
      of the thread's retired list is destroyed. */
  lemma CleansTheRest(s: State, sched: seq<(nat, Choice)>, t: nat, c: Choice)
    requires Init(s) && t < |Exec(s, sched).pcs|
    requires var r, r' := Exec(s, sched), Step(Exec(s, sched), t, c);
             (r.pcs[t].CleanHead? || r.pcs[t].CleanRest?) && t < |r'.pcs| && r'.pcs[t].Release?
    ensures var r', call := Step(Exec(s, sched), t, c), CallOf(s, sched, t);
            && t < |r'.locals| && call.Some?
            && forall a :: a in r'.locals[t].list ==> a in call.value.slots
  {
    var r := Exec(s, sched);
    Reachable(s, sched);
    CallServed(s, sched, t);
    assert TInv(r, t);
    CleanEnds(r, t, c, CallOf(s, sched, t).value);
  }

  lemma CleanEnds(s: State, t: nat, c: Choice, call: Call)
    requires Sized(s) && t < |s.pcs| && TInv(s, t) && Serves(s, t, call)
    requires (s.pcs[t].CleanHead? || s.pcs[t].CleanRest?) && Step(s, t, c).pcs[t].Release?
    ensures forall a :: a in Step(s, t, c).locals[t].list ==> a in call.slots
  {
  }

  // ---------------------------------------------------------------- a thread left alone

  /** At most n steps of thread t with nobody else moving and no spurious failure, until it is idle, scanning
      whenever it can. */
  function Alone(s: State, t: nat, n: nat): State
    decreases n
  {
    if n == 0 || t >= |s.pcs| || s.pcs[t].Idle? then s else Alone(Step(s, t, SOLO), t, n - 1)
  }

  const SOLO: Choice := Choice(false, false, 0, 0, false, true)

  /** A whole call of a thread with l nodes in its retired list, among n threads. */
  function CallSteps(n: nat, l: nat): nat {
    n + l + 14
  }

  /** The steps that a call has left when the head does not change: a call that has read something out of
      date finds out and starts over. */
  function StepsLeft(s: State, t: nat): nat
    requires t < |s.pcs| && t < |s.locals|
  {
    var n, l, pc := |s.locals|, |s.locals[t].list|, s.pcs[t];
    var all := CallSteps(n, l);
    match pc
    case Idle => 0
    case AcquireLoad(_) => all
    case AcquireStore(_, r) => if r == s.head then all - 1 else all + 2
    case AcquireCheck(_, r) => if r == s.head then all - 2 else all + 1
    case PushLink(_, h) => if h == s.head then 4 else all + 3
    case PushLength(_, h) => if Some(h) == s.head then 3 else all + 2
    case PushCas(_, h) => if h == s.head then 2 else all + 1
    case PopNext(p) => if Some(p) == s.head then all - 3 else all + 2
    case PopCas(p, _) => if Some(p) == s.head then all - 4 else all + 1
    case PopValue(_, _) => all - 5
    case PopRetire(_, _) => all - 6
    case Scan(_, _, i) => if i < n then n - i + 5 + l else 5 + l
    case CleanHead(_, _) => 4 + l
    case CleanRest(_, _, _, _, k) => if k < l then 3 + l - k else 2
    case SizeRead(_, _) => 2
    case Release(_) => 1
  }

  lemma AcquireNearer(s: State, t: nat)
    requires Sized(s) && t < |s.pcs| && TInv(s, t) && Acquiring(s.pcs[t])
    ensures var s' := Step(s, t, SOLO);
            t < |s'.pcs| && t < |s'.locals| && StepsLeft(s', t) < StepsLeft(s, t)
  {
  }

  lemma PushNearer(s: State, t: nat)
    requires Sized(s) && t < |s.pcs| && TInv(s, t)
    requires s.pcs[t].PushLink? || s.pcs[t].PushLength? || s.pcs[t].PushCas?
    ensures var s' := Step(s, t, SOLO);
            t < |s'.pcs| && t < |s'.locals| && StepsLeft(s', t) < StepsLeft(s, t)
  {
  }

  lemma CleanNearer(s: State, t: nat)
    requires Sized(s) && t < |s.pcs| && TInv(s, t)
    requires s.pcs[t].Scan? || s.pcs[t].CleanHead? || s.pcs[t].CleanRest?
    ensures var s' := Step(s, t, SOLO);
            t < |s'.pcs| && t < |s'.locals| && StepsLeft(s', t) < StepsLeft(s, t)
  {
    if s.pcs[t].CleanHead? && s.locals[t].list != [] { assert RetiredAt(s, t, 0); }
    if s.pcs[t].CleanRest? && s.pcs[t].k < |s.locals[t].list| {
      assert RetiredAt(s, t, s.pcs[t].k) && RetiredAt(s, t, s.pcs[t].k - 1);
    }
  }

  lemma PopNearer(s: State, t: nat)
    requires Sized(s) && t < |s.pcs| && TInv(s, t) && StackOK(s)
    requires s.pcs[t].PopNext? || s.pcs[t].PopCas? || s.pcs[t].PopValue? || s.pcs[t].PopRetire? || s.pcs[t].SizeRead?
             || s.pcs[t].Release?
    ensures var s' := Step(s, t, SOLO);
            t < |s'.pcs| && t < |s'.locals| && StepsLeft(s', t) < StepsLeft(s, t)
  {
  }

  lemma Nearer(s: State, t: nat)
    requires Sized(s) && t < |s.pcs| && TInv(s, t) && StackOK(s) && !s.pcs[t].Idle?
    ensures var s' := Step(s, t, SOLO);
            t < |s'.pcs| && t < |s'.locals| && StepsLeft(s', t) < StepsLeft(s, t)
  {
    var pc := s.pcs[t];
    if Acquiring(pc) { AcquireNearer(s, t); }
    else if pc.PushLink? || pc.PushLength? || pc.PushCas? { PushNearer(s, t); }
    else if pc.Scan? || pc.CleanHead? || pc.CleanRest? { CleanNearer(s, t); }
    else { PopNearer(s, t); }
  }

  lemma {:induction false} RunsOut(s: State, t: nat, n: nat)
    requires Inv(s) && t < |s.pcs| && n >= StepsLeft(s, t)
    ensures t < |Alone(s, t, n).pcs| && Alone(s, t, n).pcs[t].Idle?
    decreases n
  {
    if !s.pcs[t].Idle? {
      assert TInv(s, t);
      Nearer(s, t);
      StepInv(s, t, SOLO);
      RunsOut(Step(s, t, SOLO), t, n - 1);
    }
  }

  lemma LeftBound(s: State, t: nat)
    requires t < |s.pcs| && t < |s.locals|
    ensures StepsLeft(s, t) <= CallSteps(|s.locals|, |s.locals[t].list|) + 3
  {
  }

  /** Obstruction freedom: from any moment of a run, a thread that is left alone comes to the end of its
      call, clean-up included, within a number of steps bounded by the number of threads and the length of
      its retired list. */
  lemma AloneReturns(s: State, sched: seq<(nat, Choice)>, t: nat)
    requires Init(s) && t < |Exec(s, sched).pcs| && t < |Exec(s, sched).locals|
    ensures var r := Exec(s, sched);
            var r' := Alone(r, t, CallSteps(|r.pcs|, |r.locals[t].list|) + 3);
            t < |r'.pcs| && r'.pcs[t].Idle?
  {
    var r := Exec(s, sched);
    var enough: nat :| enough == CallSteps(|r.pcs|, |r.locals[t].list|) + 3;
    Reachable(s, sched);
    LeftBound(r, t);
    RunsOut(r, t, enough);
  }
}
