/** The work-stealing deque of Arora, Blumofe and Plaxton as parlay runs it: one owner pushes and pops
    at the bottom, any number of thieves pop at the top.  Every load, store or compare-and-swap of
    bot, age or a slot is one step. */
module WorkStealingDeque {
  import opened Options
  import opened Progress

  const Q_SIZE: nat := 1000

  type Job = nat

  datatype Age = Age(tag: nat, top: nat)

  datatype OwnerPC =
    | Free
    | PushStore(job: Job, localBot: nat)
    | PushBot(job: Job, localBot: nat)
    | Aborted(job: Job)
    | PopDecrement(localBot: nat)
    | PopLoad(localBot: nat)
    | PopAge(localBot: nat, job: Job)
    | PopReset(localBot: nat, job: Job, oldAge: Age)
    | PopCas(localBot: nat, job: Job, oldAge: Age)
    | PopStoreAge(oldAge: Age)

  datatype ThiefPC =
    | Away
    | StealBot(oldAge: Age)
    | StealLoad(oldAge: Age, localBot: nat)
    | StealCas(oldAge: Age, localBot: nat, job: Job)

  /** pushed and returned are history: the jobs of completed pushes and the jobs handed out. */
  datatype State = State(bot: nat, age: Age, deq: seq<Job>, owner: OwnerPC, thieves: seq<ThiefPC>,
                         pushed: seq<Job>, returned: seq<Job>)

  datatype Move = Push(job: Job) | Pop | Steal(t: nat)

  /** One step of the owner; when it is free, it starts a push or a pop. */
  function OwnerStep(s: State, m: Move): State {
    match s.owner
    case Free =>
      if m.Push? then s.(owner := PushStore(m.job, s.bot))
      else if s.bot != 0 then s.(owner := PopDecrement(s.bot - 1)) else s
    case PushStore(job, b) =>
      if b < |s.deq| then s.(deq := s.deq[b := job], owner := PushBot(job, b)) else s
    case PushBot(job, b) =>
      if b + 1 == Q_SIZE then s.(owner := Aborted(job))
      else s.(bot := b + 1, owner := Free, pushed := s.pushed + [job])
    case Aborted(_) => s
    case PopDecrement(b) => s.(bot := b, owner := PopLoad(b))
    case PopLoad(b) => if b < |s.deq| then s.(owner := PopAge(b, s.deq[b])) else s
    case PopAge(b, job) =>
      if b > s.age.top then s.(owner := Free, returned := s.returned + [job])
      else s.(owner := PopReset(b, job, s.age))
    case PopReset(b, job, a) =>
      s.(bot := 0, owner := if b == a.top then PopCas(b, job, a) else PopStoreAge(a))
    case PopCas(b, job, a) =>
      if s.age == a then s.(age := Age(a.tag + 1, 0), owner := Free, returned := s.returned + [job])
      else s.(owner := PopStoreAge(a))
    case PopStoreAge(a) => s.(age := Age(a.tag + 1, 0), owner := Free)
  }

  function WithThief(s: State, t: nat, pc: ThiefPC): State
    requires t < |s.thieves|
  {
    s.(thieves := s.thieves[t := pc])
  }

  /** One step of thief t. */
  function ThiefStep(s: State, t: nat): State
    requires t < |s.thieves|
  {
    match s.thieves[t]
    case Away => WithThief(s, t, StealBot(s.age))
    case StealBot(a) => WithThief(s, t, if s.bot > a.top then StealLoad(a, s.bot) else Away)
    case StealLoad(a, b) => if a.top < |s.deq| then WithThief(s, t, StealCas(a, b, s.deq[a.top])) else s
    case StealCas(a, b, job) =>
      if s.age == a then WithThief(s, t, Away).(age := Age(a.tag, a.top + 1), returned := s.returned + [job])
      else WithThief(s, t, Away)
  }

  function Step(s: State, m: Move): State {
    match m
    case Steal(t) => if t < |s.thieves| then ThiefStep(s, t) else s
    case _ => OwnerStep(s, m)
  }

  function Exec(s: State, moves: seq<Move>): State
    decreases |moves|
  {
    if moves == [] then s else Step(Exec(s, moves[..|moves| - 1]), moves[|moves| - 1])
  }

  lemma ExecMore(s: State, moves: seq<Move>, m: Move)
    ensures Exec(s, moves + [m]) == Step(Exec(s, moves), m)
  {
    assert (moves + [m])[..|moves|] == moves;
  }

  predicate Init(s: State) {
    && s.bot == 0 && s.age == Age(0, 0) && |s.deq| == Q_SIZE && s.owner == Free
    && s.pushed == [] && s.returned == []
    && forall t :: 0 <= t < |s.thieves| ==> s.thieves[t] == Away
  }

  // ---------------------------------------------------------------- the invariant

  /** One past the last index in use: while the owner decides about the slot it has claimed by
      lowering bot, that slot is still part of the deque. */
  function Bottom(s: State): nat {
    match s.owner
    case PopLoad(b) => b + 1
    case PopAge(b, _) => b + 1
    case PopReset(b, _, _) => b + 1
    case PopCas(b, _, _) => b + 1
    case PopStoreAge(_) => s.age.top
    case _ => s.bot
  }

  /** The jobs in the deque, oldest first. */
  function Contents(s: State): seq<Job>
    requires s.age.top <= Bottom(s) <= |s.deq|
  {
    s.deq[s.age.top..Bottom(s)]
  }

  /** a is the current age or an earlier one. */
  predicate NotAfter(a: Age, b: Age) {
    a.tag < b.tag || (a.tag == b.tag && a.top <= b.top)
  }

  predicate SlotIs(s: State, i: nat, job: Job) {
    i < |s.deq| && s.deq[i] == job
  }

  ghost predicate OwnerOK(s: State) {
    match s.owner
    case Free => true
    case Aborted(_) => true
    case PushStore(_, b) => b == s.bot
    case PushBot(job, b) => b == s.bot && SlotIs(s, b, job)
    case PopDecrement(b) => s.bot == b + 1
    case PopLoad(b) => s.bot == b
    case PopAge(b, job) => s.bot == b && SlotIs(s, b, job)
    case PopReset(b, job, a) =>
      s.bot == b && SlotIs(s, b, job) && a.tag == s.age.tag && b <= a.top <= s.age.top
    case PopCas(b, job, a) =>
      s.bot == 0 && SlotIs(s, b, job) && a.tag == s.age.tag && b == a.top <= s.age.top
    case PopStoreAge(a) => s.bot == 0 && a.tag == s.age.tag
  }

  /** A thief whose age is still current has claimed a slot of the deque and knows its job. */
  ghost predicate ThiefOK(s: State, pc: ThiefPC) {
    match pc
    case Away => true
    case StealBot(a) => NotAfter(a, s.age)
    case StealLoad(a, b) => NotAfter(a, s.age) && a.top < b < Q_SIZE && (a == s.age ==> a.top < Bottom(s))
    case StealCas(a, b, job) =>
      NotAfter(a, s.age) && a.top < b < Q_SIZE && (a == s.age ==> a.top < Bottom(s) && SlotIs(s, a.top, job))
  }

  ghost predicate Inv(s: State) {
    && |s.deq| == Q_SIZE && s.bot < Q_SIZE
    && s.age.top <= Bottom(s) < Q_SIZE
    && OwnerOK(s)
    && (forall t :: 0 <= t < |s.thieves| ==> ThiefOK(s, s.thieves[t]))
    && multiset(s.pushed) == multiset(s.returned) + multiset(Contents(s))
  }

  /** What one step may do to the abstract deque: nothing, or push or pop at the bottom by the owner,
      or pop at the top by a thief; what is popped is handed out. */
  ghost predicate Refines(s: State, s': State, m: Move)
    requires s.age.top <= Bottom(s) <= |s.deq| && s'.age.top <= Bottom(s') <= |s'.deq|
  {
    var c, c' := Contents(s), Contents(s');
    || (c' == c && s'.returned == s.returned && s'.pushed == s.pushed)
    || (!m.Steal? && s.owner.PushBot? && c' == c + [s.owner.job]
        && s'.returned == s.returned && s'.pushed == s.pushed + [s.owner.job])
    || (!m.Steal? && c != [] && c' == c[..|c| - 1] && s'.returned == s.returned + [c[|c| - 1]] && s'.pushed == s.pushed)
    || (m.Steal? && c != [] && c' == c[1..] && s'.returned == s.returned + [c[0]] && s'.pushed == s.pushed)
  }

  lemma OwnerKeepsThieves(s: State, m: Move, t: nat)
    requires Inv(s) && t < |s.thieves| && !m.Steal?
    ensures ThiefOK(OwnerStep(s, m), s.thieves[t])
  {
    assert ThiefOK(s, s.thieves[t]);
  }

  lemma PushInv(s: State, m: Move)
    requires Inv(s) && !m.Steal? && (s.owner.PushStore? || s.owner.PushBot?)
    ensures Inv(OwnerStep(s, m)) && Refines(s, OwnerStep(s, m), m)
  {
    var s' := OwnerStep(s, m);
    forall t | 0 <= t < |s.thieves| ensures ThiefOK(s', s'.thieves[t]) {
      OwnerKeepsThieves(s, m, t);
    }
    if s.owner.PushStore? {
      assert Contents(s') == Contents(s);
    } else if s.owner.localBot + 1 != Q_SIZE {
      assert Contents(s') == Contents(s) + [s.owner.job];
    }
  }

  /** The owner keeps the job of a slot that no thief can claim any more. */
  lemma PopTakes(s: State, m: Move)
    requires Inv(s) && !m.Steal? && s.owner.PopAge? && s.owner.localBot > s.age.top
    ensures Inv(OwnerStep(s, m)) && Refines(s, OwnerStep(s, m), m)
  {
    var s' := OwnerStep(s, m);
    forall t | 0 <= t < |s.thieves| ensures ThiefOK(s', s'.thieves[t]) {
      OwnerKeepsThieves(s, m, t);
    }
    assert Contents(s) == Contents(s') + [s.owner.job];
  }

  /** The owner wins the race for the last job. */
  lemma PopWins(s: State, m: Move)
    requires Inv(s) && !m.Steal? && s.owner.PopCas? && s.age == s.owner.oldAge
    ensures Inv(OwnerStep(s, m)) && Refines(s, OwnerStep(s, m), m)
  {
    var s' := OwnerStep(s, m);
    forall t | 0 <= t < |s.thieves| ensures ThiefOK(s', s'.thieves[t]) {
      OwnerKeepsThieves(s, m, t);
    }
    var c := Contents(s);
    assert c == [s.deq[s.owner.localBot]];
    assert c[..|c| - 1] == [] && Contents(s') == [];
  }

  ghost predicate OwnerTakes(s: State) {
    || (s.owner.PopAge? && s.owner.localBot > s.age.top)
    || (s.owner.PopCas? && s.age == s.owner.oldAge)
  }

  lemma OwnerLooks(s: State, m: Move)
    requires OwnerOK(s) && |s.deq| == Q_SIZE && s.bot < Q_SIZE && s.age.top <= Bottom(s) < Q_SIZE && !m.Steal?
    requires !s.owner.PushStore? && !s.owner.PushBot? && !OwnerTakes(s)
    ensures var s' := OwnerStep(s, m);
            && OwnerOK(s') && s'.deq == s.deq && s'.bot < Q_SIZE && s'.age.top <= Bottom(s') < Q_SIZE
            && Contents(s') == Contents(s) && s'.pushed == s.pushed && s'.returned == s.returned
            && s'.thieves == s.thieves
  {
  }

  lemma OwnerQuiet(s: State, m: Move)
    requires Inv(s) && !m.Steal? && !s.owner.PushStore? && !s.owner.PushBot? && !OwnerTakes(s)
    ensures Inv(OwnerStep(s, m)) && Refines(s, OwnerStep(s, m), m)
  {
    var s' := OwnerStep(s, m);
    OwnerLooks(s, m);
    forall t | 0 <= t < |s.thieves| ensures ThiefOK(s', s'.thieves[t]) {
      OwnerKeepsThieves(s, m, t);
    }
  }

  lemma OwnerInv(s: State, m: Move)
    requires Inv(s) && !m.Steal?
    ensures Inv(OwnerStep(s, m)) && Refines(s, OwnerStep(s, m), m)
  {
    if s.owner.PushStore? || s.owner.PushBot? {
      PushInv(s, m);
    } else if OwnerTakes(s) {
      if s.owner.PopAge? { PopTakes(s, m); } else { PopWins(s, m); }
    } else {
      OwnerQuiet(s, m);
    }
  }

  /** A thief takes the oldest job. */
  lemma StealTakes(s: State, t: nat)
    requires s.age.top <= Bottom(s) <= |s.deq| && t < |s.thieves|
    requires s.thieves[t].StealCas? && s.age == s.thieves[t].oldAge
    requires ThiefOK(s, s.thieves[t])
    ensures var s' := ThiefStep(s, t);
            && s'.age.top <= Bottom(s') <= |s'.deq| && s'.returned == s.returned + [s.thieves[t].job]
            && Contents(s) == [s.thieves[t].job] + Contents(s')
            && multiset(Contents(s)) == multiset{s.thieves[t].job} + multiset(Contents(s'))
  {
    assert Contents(s) == [s.thieves[t].job] + Contents(ThiefStep(s, t));
  }

  lemma StealInv(s: State, t: nat)
    requires Inv(s) && t < |s.thieves| && s.thieves[t].StealCas? && s.age == s.thieves[t].oldAge
    ensures Inv(ThiefStep(s, t)) && Refines(s, ThiefStep(s, t), Steal(t))
  {
    var s' := ThiefStep(s, t);
    assert ThiefOK(s, s.thieves[t]);
    StealTakes(s, t);
    forall u | 0 <= u < |s.thieves| ensures ThiefOK(s', s'.thieves[u]) {
      assert ThiefOK(s, s.thieves[u]);
    }
  }

  lemma ThiefLooks(s: State, t: nat)
    requires t < |s.thieves| && ThiefOK(s, s.thieves[t]) && |s.deq| == Q_SIZE
    requires OwnerOK(s) && s.bot < Q_SIZE && s.age.top <= Bottom(s) < Q_SIZE
    requires !(s.thieves[t].StealCas? && s.age == s.thieves[t].oldAge)
    ensures var s' := ThiefStep(s, t);
            && |s'.thieves| == |s.thieves| && s' == WithThief(s, t, s'.thieves[t]) && ThiefOK(s', s'.thieves[t])
  {
  }

  lemma ThiefInv(s: State, t: nat)
    requires Inv(s) && t < |s.thieves|
    ensures Inv(ThiefStep(s, t)) && Refines(s, ThiefStep(s, t), Steal(t))
  {
    if s.thieves[t].StealCas? && s.age == s.thieves[t].oldAge {
      StealInv(s, t);
    } else {
      ThiefLooks(s, t);
      var s' := ThiefStep(s, t);
      assert Bottom(s') == Bottom(s) && Contents(s') == Contents(s);
      forall u | 0 <= u < |s.thieves| ensures ThiefOK(s', s'.thieves[u]) {
        assert ThiefOK(s, s.thieves[u]);
      }
    }
  }

  lemma StepInv(s: State, m: Move)
    requires Inv(s)
    ensures Inv(Step(s, m)) && Refines(s, Step(s, m), m)
  {
    if m.Steal? {
      if m.t < |s.thieves| { ThiefInv(s, m.t); }
    } else {
      OwnerInv(s, m);
    }
  }

  lemma {:induction false} Reachable(s: State, moves: seq<Move>)
    requires Init(s)
    ensures Inv(Exec(s, moves))
    decreases |moves|
  {
    if moves != [] {
      Reachable(s, moves[..|moves| - 1]);
      StepInv(Exec(s, moves[..|moves| - 1]), moves[|moves| - 1]);
    }
  }

  // ---------------------------------------------------------------- what the deque guarantees

  /** The jobs that the moves have handed to push_bottom: those of the pushes that find the owner free. */
  function Offered(s: State, moves: seq<Move>): seq<Job>
    decreases |moves|
  {
    if moves == [] then []
    else
      var n := |moves| - 1;
      Offered(s, moves[..n]) + if moves[n].Push? && Exec(s, moves[..n]).owner.Free? then [moves[n].job] else []
  }

  /** The job of a push that has not reached its store of bot, or has overflowed there. */
  function InHand(s: State): seq<Job> {
    if s.owner.PushStore? || s.owner.PushBot? || s.owner.Aborted? then [s.owner.job] else []
  }

  lemma HandStep(s: State, m: Move)
    ensures var s' := Step(s, m);
            s'.pushed + InHand(s') == s.pushed + InHand(s) + if m.Push? && s.owner.Free? then [m.job] else []
  {
  }

  lemma {:induction false} PushedIsOffered(s: State, moves: seq<Move>)
    requires Init(s)
    ensures Offered(s, moves) == Exec(s, moves).pushed + InHand(Exec(s, moves))
    decreases |moves|
  {
    if moves != [] {
      var n := |moves| - 1;
      PushedIsOffered(s, moves[..n]);
      HandStep(Exec(s, moves[..n]), moves[n]);
    }
  }

  /** Conservation: in every run each job handed to push_bottom has been handed out, is still in the
      deque or in the hand of its push, as often as it was handed in. */
  lemma JobsConserved(s: State, moves: seq<Move>)
    requires Init(s)
    ensures var r := Exec(s, moves);
            && r.age.top <= Bottom(r) <= |r.deq|
            && multiset(Offered(s, moves)) == multiset(r.returned) + multiset(Contents(r)) + multiset(InHand(r))
  {
    Reachable(s, moves);
    PushedIsOffered(s, moves);
  }

  /** Each step of a run leaves the deque alone, pushes at the bottom, pops the newest job for the
      owner, or pops the oldest for a thief. */
  lemma StepsAreAtomic(s: State, moves: seq<Move>, m: Move)
    requires Init(s)
    ensures var r := Exec(s, moves);
            var r' := Step(r, m);
            && r.age.top <= Bottom(r) <= |r.deq| && r'.age.top <= Bottom(r') <= |r'.deq|
            && Refines(r, r', m)
  {
    Reachable(s, moves);
    StepInv(Exec(s, moves), m);
  }

  /** pop_bottom comes back empty-handed only from an empty deque: at its first load, when a pop leaves
      the owner free, or when an operation under way ends without a push or a job. */
  lemma EmptyPopIsEmpty(s: State, moves: seq<Move>, m: Move)
    requires Init(s) && !m.Steal?
    requires var r, r' := Exec(s, moves), Step(Exec(s, moves), m);
             && r'.owner.Free? && r'.returned == r.returned && r'.pushed == r.pushed
             && (r.owner.Free? ==> m.Pop?)
    ensures var r := Exec(s, moves);
            r.age.top <= Bottom(r) <= |r.deq| && Contents(r) == []
  {
    Reachable(s, moves);
  }

  /** The age that was current when thief t last began to steal. */
  function AgeAtStart(s: State, moves: seq<Move>, t: nat): Age
    decreases |moves|
  {
    if moves == [] then s.age
    else
      var n := |moves| - 1;
      var r := Exec(s, moves[..n]);
      if moves[n] == Steal(t) && t < |r.thieves| && r.thieves[t].Away? then r.age else AgeAtStart(s, moves[..n], t)
  }

  lemma OldAgeStep(s: State, m: Move, t: nat)
    requires t < |Step(s, m).thieves| && !Step(s, m).thieves[t].Away?
    ensures t < |s.thieves|
    ensures Step(s, m).thieves[t].oldAge ==
              if s.thieves[t].Away? then s.age else s.thieves[t].oldAge
    ensures s.thieves[t].Away? ==> m == Steal(t)
  {
  }

  lemma {:induction false} OldAgeIsTheCalls(s: State, moves: seq<Move>, t: nat)
    requires Init(s) && t < |Exec(s, moves).thieves| && !Exec(s, moves).thieves[t].Away?
    ensures Exec(s, moves).thieves[t].oldAge == AgeAtStart(s, moves, t)
    decreases |moves|
  {
    if moves != [] {
      var n := |moves| - 1;
      OldAgeStep(Exec(s, moves[..n]), moves[n], t);
      if !Exec(s, moves[..n]).thieves[t].Away? { OldAgeIsTheCalls(s, moves[..n], t); }
    }
  }

  /** pop_top comes back empty-handed only if the age has changed since the call began, which is when
      another thief or the owner has taken a job, or if the deque is empty but for the job that the
      owner is popping. */
  lemma EmptyStealNearlyEmpty(s: State, moves: seq<Move>, t: nat)
    requires Init(s)
    requires var r, r' := Exec(s, moves), Step(Exec(s, moves), Steal(t));
             && t < |r.thieves| && t < |r'.thieves| && r'.thieves[t].Away? && r'.returned == r.returned
    ensures var r := Exec(s, moves);
            && r.age.top <= Bottom(r) <= |r.deq|
            && (r.age == AgeAtStart(s, moves, t) ==>
                  && |Contents(r)| <= 1
                  && (Contents(r) != [] ==>
                        r.owner.PopLoad? || r.owner.PopAge? || r.owner.PopReset? || r.owner.PopCas?))
  {
    Reachable(s, moves);
    if !Exec(s, moves).thieves[t].Away? { OldAgeIsTheCalls(s, moves, t); }
  }

  /** push_bottom reports bot == 1.  When it reports true the deque was empty before. */
  lemma ReportedEmptyWasEmpty(s: State, moves: seq<Move>)
    requires Init(s) && Exec(s, moves).owner.PushBot? && Exec(s, moves).owner.localBot + 1 == 1
    ensures var r := Exec(s, moves);
            r.age.top <= Bottom(r) <= |r.deq| && Contents(r) == []
  {
    Reachable(s, moves);
    assert OwnerOK(Exec(s, moves));
  }

  /** The report is right, in both directions, if and only if the thieves have not caught up with bot since
      it was last reset: top is zero or below bot. */
  lemma ReportIsRightWhen(s: State, moves: seq<Move>)
    requires Init(s) && Exec(s, moves).owner.PushBot?
    ensures var r := Exec(s, moves);
            && r.age.top <= Bottom(r) <= |r.deq|
            && ((r.owner.localBot + 1 == 1 <==> Contents(r) == []) <==> (r.age.top == 0 || r.age.top < r.bot))
  {
    var r := Exec(s, moves);
    Reachable(s, moves);
    assert OwnerOK(r);
    assert Contents(r) == [] <==> r.age.top == r.bot;
  }

  /** The condition can fail: after one push and a theft, a second push finds the deque empty but does not
      report it. */
  lemma EmptyNotReported(job: Job) returns (s: State, moves: seq<Move>)
    ensures Init(s)
    ensures var r := Exec(s, moves);
            && r.owner.PushBot? && r.owner.localBot + 1 != 1
            && r.age.top <= Bottom(r) <= |r.deq| && Contents(r) == []
  {
    s := State(0, Age(0, 0), seq(Q_SIZE, _ => 0), Free, [Away], [], []);
    moves := [];
    var todo := [Push(job), Push(job), Push(job), Steal(0), Steal(0), Steal(0), Steal(0), Push(job), Push(job)];
    var pushed := s.(deq := s.deq[0 := job], bot := 1, pushed := [job]);
    var stolen := pushed.(age := Age(0, 1), returned := [job]);
    var expected := [
      s.(owner := PushStore(job, 0)),
      s.(deq := pushed.deq, owner := PushBot(job, 0)),
      pushed,
      pushed.(thieves := [StealBot(Age(0, 0))]),
      pushed.(thieves := [StealLoad(Age(0, 0), 1)]),
      pushed.(thieves := [StealCas(Age(0, 0), 1, job)]),
      stolen,
      stolen.(owner := PushStore(job, 1)),
      stolen.(deq := stolen.deq[1 := job], owner := PushBot(job, 1))
    ];
    var i := 0;
    while i < |todo|
      invariant 0 <= i <= |todo|
      invariant Exec(s, moves) == if i == 0 then s else expected[i - 1]
    {
      ExecMore(s, moves, todo[i]);
      moves := moves + [todo[i]];
      i := i + 1;
    }
  }

  // ---------------------------------------------------------------- every operation returns

  /** The steps the owner still has to take in the operation it is in. */
  function OwnerLeft(pc: OwnerPC): nat {
    match pc
    case Free => 0
    case Aborted(_) => 0
    case PushStore(_, _) => 2
    case PushBot(_, _) => 1
    case PopDecrement(_) => 6
    case PopLoad(_) => 5
    case PopAge(_, _) => 4
    case PopReset(_, _, _) => 3
    case PopCas(_, _, _) => 2
    case PopStoreAge(_) => 1
  }

  function ThiefLeft(pc: ThiefPC): nat {
    match pc
    case Away => 0
    case StealBot(_) => 3
    case StealLoad(_, _) => 2
    case StealCas(_, _, _) => 1
  }

  /** In a reachable state each of its own steps brings an operation nearer to its end, and no other step
      puts the end off. */
  lemma OwnerNearer(s: State, moves: seq<Move>, m: Move)
    requires Init(s) && OwnerLeft(Exec(s, moves).owner) > 0
    ensures OwnerLeft(Exec(s, moves + [m]).owner) <= OwnerLeft(Exec(s, moves).owner) - if m.Steal? then 0 else 1
  {
    ExecMore(s, moves, m);
    Reachable(s, moves);
    assert OwnerOK(Exec(s, moves));
  }

  lemma ThiefStepNearer(s: State, t: nat)
    requires |s.deq| == Q_SIZE && t < |s.thieves| && ThiefOK(s, s.thieves[t]) && s.age.top < Q_SIZE
    requires !s.thieves[t].Away?
    ensures var s' := ThiefStep(s, t);
            t < |s'.thieves| && ThiefLeft(s'.thieves[t]) < ThiefLeft(s.thieves[t])
  {
  }

  lemma OtherThief(s: State, m: Move, t: nat)
    requires t < |s.thieves| && m != Steal(t)
    ensures |Step(s, m).thieves| == |s.thieves| && Step(s, m).thieves[t] == s.thieves[t]
  {
  }

  lemma ThiefNearer(s: State, moves: seq<Move>, m: Move, t: nat)
    requires Init(s) && t < |Exec(s, moves).thieves| && !Exec(s, moves).thieves[t].Away?
    ensures t < |Exec(s, moves + [m]).thieves|
    ensures ThiefLeft(Exec(s, moves + [m]).thieves[t]) <=
              ThiefLeft(Exec(s, moves).thieves[t]) - if m == Steal(t) then 1 else 0
  {
    var r := Exec(s, moves);
    ExecMore(s, moves, m);
    if m == Steal(t) {
      Reachable(s, moves);
      assert ThiefOK(r, r.thieves[t]);
      ThiefStepNearer(r, t);
    } else {
      OtherThief(r, m, t);
    }
  }

  /** The steps that the operation of the owner, or of thief t, has left after some moves. */
  function OwnerLeftAfter(s: State, moves: seq<Move>): (left: nat)
    ensures left <= 6
  {
    OwnerLeft(Exec(s, moves).owner)
  }

  function ThiefLeftAfter(s: State, moves: seq<Move>, t: nat): (left: nat)
    ensures left <= 3
  {
    var r := Exec(s, moves);
    if t < |r.thieves| then ThiefLeft(r.thieves[t]) else 0
  }

  /** push_bottom and pop_bottom are wait-free: whatever the thieves do, an operation is over, or has
      overflowed, by the time the owner has taken six steps in it. */
  lemma OwnerWaitFree(s: State, moves: seq<Move>, more: seq<Move>)
    requires Init(s) && Own((m: Move) => !m.Steal?, more) >= 6
    ensures exists k :: 0 <= k <= |more| && OwnerLeftAfter(s, moves + more[..k]) == 0
  {
    var left, mine := (ms: seq<Move>) => OwnerLeftAfter(s, ms), (m: Move) => !m.Steal?;
    forall ms, m | left(ms) > 0 ensures left(ms + [m]) <= left(ms) - if mine(m) then 1 else 0 {
      OwnerNearer(s, ms, m);
    }
    Returns(left, mine, moves, more);
    var k :| 0 <= k <= |more| && left(moves + more[..k]) == 0;
    assert OwnerLeftAfter(s, moves + more[..k]) == 0;
  }

  /** So is pop_top, in three steps of its thief. */
  lemma ThiefWaitFree(s: State, moves: seq<Move>, more: seq<Move>, t: nat)
    requires Init(s) && Own((m: Move) => m == Steal(t), more) >= 3
    ensures exists k :: 0 <= k <= |more| && ThiefLeftAfter(s, moves + more[..k], t) == 0
  {
    var left, mine := (ms: seq<Move>) => ThiefLeftAfter(s, ms, t), (m: Move) => m == Steal(t);
    forall ms, m | left(ms) > 0 ensures left(ms + [m]) <= left(ms) - if mine(m) then 1 else 0 {
      ThiefNearer(s, ms, m, t);
    }
    Returns(left, mine, moves, more);
    var k :| 0 <= k <= |more| && left(moves + more[..k]) == 0;
    assert ThiefLeftAfter(s, moves + more[..k], t) == 0;
  }
}
