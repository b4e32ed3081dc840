/** The Snark variant of a deque on multi-word compare-and-swap.  push_front and pop_front are the
    Left instances, push_back and pop_back the Right ones, of the same program.  Every load and every
    multi-word compare-and-swap is one step; a multi-word compare-and-swap may fail spuriously. */
module McasDeque {
  import opened Options

  datatype Side = Left | Right

  /** owner is history: the thread that has yet to link the node in. */
  datatype Node = Node(data: int, L: nat, R: nat, owner: Option<nat>)

  const DUMMY: nat := 0

  datatype PC =
    | Idle
    | PushHat(side: Side, n: nat)
    | PushOuter(side: Side, n: nat, h: nat)
    | PushOther(side: Side, n: nat, h: nat)
    | PushBoth(side: Side, n: nat, h: nat, other: nat)
    | PushEnd(side: Side, n: nat, h: nat, outer: nat)
    | PopHat(side: Side)
    | PopL(side: Side, h: nat)
    | PopR(side: Side, h: nat, l: nat)
    | PopCheck(side: Side, h: nat)
    | PopEnd(side: Side, h: nat, l: nat, r: nat)
    | PopData(h: nat, taken: int)       // taken is history: the value taken off the abstract deque
    | Done(result: Option<int>)

  /** items is history: the nodes of the deque, left to right. */
  datatype State = State(heap: seq<Node>, leftHat: nat, rightHat: nat, pcs: seq<PC>, items: seq<nat>)

  datatype Choice = Choice(push: bool, side: Side, data: int, spurious: bool)

  function Other(side: Side): Side {
    if side.Left? then Right else Left
  }

  function Hat(s: State, side: Side): nat {
    if side.Left? then s.leftHat else s.rightHat
  }

  function SetHat(s: State, side: Side, a: nat): State {
    if side.Left? then s.(leftHat := a) else s.(rightHat := a)
  }

  function Outer(n: Node, side: Side): nat {
    if side.Left? then n.L else n.R
  }

  function Inner(n: Node, side: Side): nat {
    Outer(n, Other(side))
  }

  function WithOuter(n: Node, side: Side, a: nat): Node {
    if side.Left? then n.(L := a) else n.(R := a)
  }

  function WithInner(n: Node, side: Side, a: nat): Node {
    WithOuter(n, Other(side), a)
  }

  function SetNode(s: State, a: nat, n: Node): State
    requires a < |s.heap|
  {
    s.(heap := s.heap[a := n])
  }

  function Goto(s: State, t: nat, pc: PC): State
    requires t < |s.pcs|
  {
    s.(pcs := s.pcs[t := pc])
  }

  function Disown(s: State, a: nat): State
    requires a < |s.heap|
  {
    SetNode(s, a, s.heap[a].(owner := None))
  }

  /** The node at one end of the deque, and the rest; and adding a node at one end. */
  function EndIndex(items: seq<nat>, side: Side): nat
    requires items != []
  {
    if side.Left? then 0 else |items| - 1
  }

  function Rest<T>(items: seq<T>, side: Side): seq<T> {
    if items == [] then [] else if side.Left? then items[1..] else items[..|items| - 1]
  }

  function Add<T>(items: seq<T>, side: Side, a: T): seq<T> {
    if side.Left? then [a] + items else items + [a]
  }

  /** The value at one end of the deque. */
  function EndData(s: State, side: Side): int {
    if s.items != [] && s.items[EndIndex(s.items, side)] < |s.heap| then s.heap[s.items[EndIndex(s.items, side)]].data
    else 0
  }

  function PushStep(s: State, t: nat, c: Choice): State
    requires t < |s.pcs|
  {
    match s.pcs[t]
    case PushHat(side, n) => Goto(s, t, PushOuter(side, n, Hat(s, side)))
    case PushOuter(side, n, h) =>
      if h >= |s.heap| || n >= |s.heap| then s
      else if Outer(s.heap[h], side) == h then
        Goto(SetNode(s, n, WithInner(s.heap[n], side, DUMMY)), t, PushOther(side, n, h))
      else
        Goto(SetNode(s, n, WithInner(s.heap[n], side, h)), t, PushEnd(side, n, h, Outer(s.heap[h], side)))
    case PushOther(side, n, h) => Goto(s, t, PushBoth(side, n, h, Hat(s, Other(side))))
    case PushBoth(side, n, h, other) =>
      if n < |s.heap| && Hat(s, side) == h && Hat(s, Other(side)) == other && !c.spurious then
        Goto(Disown(s, n), t, Done(None)).(leftHat := n, rightHat := n, items := Add(s.items, side, n))
      else Goto(s, t, PushHat(side, n))
    case PushEnd(side, n, h, outer) =>
      if n < |s.heap| && h < |s.heap| && Hat(s, side) == h && Outer(s.heap[h], side) == outer && !c.spurious then
        Goto(SetHat(Disown(SetNode(s, h, WithOuter(s.heap[h], side, n)), n), side, n), t, Done(None))
        .(items := Add(s.items, side, n))
      else Goto(s, t, PushHat(side, n))
    case _ => s
  }

  function PopStep(s: State, t: nat, c: Choice): State
    requires t < |s.pcs|
  {
    match s.pcs[t]
    case PopHat(side) => Goto(s, t, PopL(side, Hat(s, side)))
    case PopL(side, h) => if h >= |s.heap| then s else Goto(s, t, PopR(side, h, s.heap[h].L))
    case PopR(side, h, l) =>
      if h >= |s.heap| then s
      else
        var r := s.heap[h].R;
        Goto(s, t, if (if side.Left? then l else r) == h then PopCheck(side, h) else PopEnd(side, h, l, r))
    case PopCheck(side, h) => Goto(s, t, if Hat(s, side) == h then Done(None) else PopHat(side))
    case PopEnd(side, h, l, r) =>
      if h < |s.heap| && Hat(s, side) == h && s.heap[h].L == l && s.heap[h].R == r && !c.spurious then
        Goto(SetHat(SetNode(s, h, s.heap[h].(L := h, R := h)), side, if side.Left? then r else l), t,
             PopData(h, EndData(s, side)))
        .(items := Rest(s.items, side))
      else Goto(s, t, PopHat(side))
    case PopData(h, _) => if h >= |s.heap| then s else Goto(s, t, Done(Some(s.heap[h].data)))
    case _ => s
  }

  predicate Resting(pc: PC) {
    pc.Idle? || pc.Done?
  }

  predicate InPush(pc: PC) {
    pc.PushHat? || pc.PushOuter? || pc.PushOther? || pc.PushBoth? || pc.PushEnd?
  }

  function Step(s: State, t: nat, c: Choice): State {
    if t >= |s.pcs| then s
    else
      var pc := s.pcs[t];
      if Resting(pc) then
        if c.push then
          Goto(s.(heap := s.heap + [Node(c.data, DUMMY, DUMMY, Some(t))]), t, PushHat(c.side, |s.heap|))
        else Goto(s, t, PopHat(c.side))
      else if InPush(pc) then PushStep(s, t, c)
      else PopStep(s, t, c)
  }

  function Exec(s: State, sched: seq<(nat, Choice)>): State
    decreases |sched|
  {
    if sched == [] then s
    else
      var last := sched[|sched| - 1];
      Step(Exec(s, sched[..|sched| - 1]), last.0, last.1)
  }

  predicate Init(s: State) {
    && s.heap == [Node(0, DUMMY, DUMMY, None)] && s.leftHat == DUMMY && s.rightHat == DUMMY && s.items == []
    && forall t :: 0 <= t < |s.pcs| ==> s.pcs[t] == Idle
  }

  // ---------------------------------------------------------------- the invariant

  predicate Owned(s: State, a: nat, o: Option<nat>) {
    a < |s.heap| && s.heap[a].owner == o
  }

  /** A node that has left the deque: it is linked to itself on both sides. */
  predicate Dead(s: State, a: nat) {
    Owned(s, a, None) && s.heap[a].L == a && s.heap[a].R == a
  }

  /** The i-th item is linked to its neighbours, and outwards to a dead node. */
  ghost predicate ItemAt(s: State, i: nat)
    requires i < |s.items|
  {
    && Owned(s, s.items[i], None) && !Dead(s, s.items[i])
    && var n := s.heap[s.items[i]];
    && (if i > 0 then n.L == s.items[i - 1] else Dead(s, n.L))
    && (if i + 1 < |s.items| then n.R == s.items[i + 1] else Dead(s, n.R))
  }

  ghost predicate InRange(s: State) {
    forall i :: 0 <= i < |s.items| ==> s.items[i] < |s.heap|
  }

  ghost predicate HatsOK(s: State) {
    if s.items == [] then Dead(s, s.leftHat) && Dead(s, s.rightHat)
    else s.leftHat == s.items[0] && s.rightHat == s.items[|s.items| - 1]
  }

  ghost predicate DequeOK(s: State) {
    && Dead(s, DUMMY)
    && HatsOK(s)
    && (forall i :: 0 <= i < |s.items| ==> ItemAt(s, i))
    && Distinct(s.items)
    && (forall a :: 0 <= a < |s.heap| && s.heap[a].owner.None? && !Dead(s, a) ==> a in s.items)
  }

  ghost predicate Knows(s: State, t: nat)
    requires t < |s.pcs|
  {
    match s.pcs[t]
    case Idle => true
    case Done(_) => true
    case PushHat(side, n) => Owned(s, n, Some(t)) && Outer(s.heap[n], side) == DUMMY
    case PushOuter(side, n, h) => Owned(s, n, Some(t)) && Outer(s.heap[n], side) == DUMMY && Owned(s, h, None)
    case PushOther(side, n, h) =>
      Owned(s, n, Some(t)) && Outer(s.heap[n], side) == DUMMY && Inner(s.heap[n], side) == DUMMY && Dead(s, h)
    case PushBoth(side, n, h, _) =>
      Owned(s, n, Some(t)) && Outer(s.heap[n], side) == DUMMY && Inner(s.heap[n], side) == DUMMY && Dead(s, h)
    case PushEnd(side, n, h, outer) =>
      && Owned(s, n, Some(t)) && Outer(s.heap[n], side) == DUMMY && Inner(s.heap[n], side) == h
      && Owned(s, h, None) && outer != h
    case PopHat(_) => true
    case PopL(_, h) => Owned(s, h, None)
    case PopR(side, h, l) => Owned(s, h, None) && (l == h ==> Dead(s, h))
    case PopCheck(_, h) => Dead(s, h)
    case PopEnd(side, h, l, r) => Owned(s, h, None) && (if side.Left? then l else r) != h
    case PopData(h, taken) => Owned(s, h, None) && s.heap[h].data == taken
  }

  /** Knows as one fact: the comparison keeps proofs that pass it on from being split into its cases. */
  ghost predicate PcOK(s: State, t: nat)
    requires t < |s.pcs|
  {
    Knows(s, t) == true
  }

  ghost predicate Inv(s: State) {
    DequeOK(s) && forall t :: 0 <= t < |s.pcs| ==> PcOK(s, t)
  }

  /** A node of the deque is not linked to itself on either side. */
  lemma SelfLinkIsDead(s: State, a: nat)
    requires DequeOK(s) && Owned(s, a, None) && (s.heap[a].L == a || s.heap[a].R == a)
    ensures Dead(s, a)
  {
    ItemsAlive(s);
  }

  lemma ItemsAlive(s: State)
    requires DequeOK(s)
    ensures InRange(s)
    ensures forall i :: 0 <= i < |s.items| ==>
              && Owned(s, s.items[i], None) && !Dead(s, s.items[i])
              && s.heap[s.items[i]].L != s.items[i] && s.heap[s.items[i]].R != s.items[i]
  {
    forall i | 0 <= i < |s.items|
      ensures Owned(s, s.items[i], None) && !Dead(s, s.items[i])
      ensures s.heap[s.items[i]].L != s.items[i] && s.heap[s.items[i]].R != s.items[i]
    {
      assert ItemAt(s, i);
    }
  }

  /** If the hat of one side is not dead, it is the node at that end. */
  lemma LiveHatIsEnd(s: State, side: Side)
    requires DequeOK(s) && Owned(s, Hat(s, side), None) && Outer(s.heap[Hat(s, side)], side) != Hat(s, side)
    ensures s.items != [] && Hat(s, side) == s.items[EndIndex(s.items, side)]
    ensures ItemAt(s, EndIndex(s.items, side))
  {
  }

  /** If the hat of one side is dead, the deque is empty and both hats are dead. */
  lemma DeadHatIsEmpty(s: State, side: Side)
    requires DequeOK(s) && Dead(s, Hat(s, side))
    ensures s.items == [] && Dead(s, s.leftHat) && Dead(s, s.rightHat)
  {
    ItemsAlive(s);
  }

  ghost predicate Distinct(items: seq<nat>) {
    forall i, j :: 0 <= i < j < |items| ==> items[i] != items[j]
  }

  lemma AddFacts(items: seq<nat>, side: Side, n: nat)
    requires Distinct(items) && n !in items
    ensures Distinct(Add(items, side, n))
    ensures forall a :: a in Add(items, side, n) <==> a == n || a in items
  {
  }

  // ---------------------------------------------------------------- what other threads may do

  /** A step of t: it changes its own new nodes at will, and lets others die or be linked in. */
  ghost predicate Guarantee(s: State, s': State, t: nat)
    requires t < |s.pcs|
  {
    && |s'.pcs| == |s.pcs| && s'.pcs == s.pcs[t := s'.pcs[t]]
    && |s.heap| <= |s'.heap|
    && (forall a :: 0 <= a < |s.heap| ==>
          && s'.heap[a].data == s.heap[a].data
          && (s.heap[a].owner.None? ==> s'.heap[a].owner.None?)
          && (s.heap[a].owner.Some? && s.heap[a].owner != Some(t) ==> s'.heap[a] == s.heap[a])
          && (Dead(s, a) ==> s'.heap[a] == s.heap[a]))
  }

  lemma OtherStable(s: State, s': State, t: nat, u: nat)
    requires t < |s.pcs| && Guarantee(s, s', t) && u < |s.pcs| && u != t && PcOK(s, u)
    ensures PcOK(s', u)
  {
  }

  ghost predicate StepOK(s: State, s': State, t: nat)
    requires t < |s.pcs|
  {
    Guarantee(s, s', t) && DequeOK(s') && PcOK(s', t)
  }

  /** A step that leaves every linked node, the hats and the items alone. */
  lemma QuietDeque(s: State, s': State)
    requires DequeOK(s) && s'.items == s.items && s'.leftHat == s.leftHat && s'.rightHat == s.rightHat
    requires |s.heap| <= |s'.heap|
    requires forall a :: 0 <= a < |s.heap| && s.heap[a].owner.None? ==> s'.heap[a] == s.heap[a]
    requires forall a :: 0 <= a < |s'.heap| && s'.heap[a].owner.None? ==> a < |s.heap| && s.heap[a].owner.None?
    ensures DequeOK(s')
  {
    forall i | 0 <= i < |s'.items| ensures ItemAt(s', i) {
      assert ItemAt(s, i);
    }
  }

  ghost predicate PushBothSucceeds(s: State, t: nat, c: Choice)
    requires t < |s.pcs|
  {
    var pc := s.pcs[t];
    pc.PushBoth? && Hat(s, pc.side) == pc.h && Hat(s, Other(pc.side)) == pc.other && !c.spurious
  }

  ghost predicate PushEndSucceeds(s: State, t: nat, c: Choice)
    requires t < |s.pcs|
  {
    var pc := s.pcs[t];
    pc.PushEnd? && pc.h < |s.heap| && Hat(s, pc.side) == pc.h && Outer(s.heap[pc.h], pc.side) == pc.outer && !c.spurious
  }

  ghost predicate PopSucceeds(s: State, t: nat, c: Choice)
    requires t < |s.pcs|
  {
    var pc := s.pcs[t];
    && pc.PopEnd? && pc.h < |s.heap| && Hat(s, pc.side) == pc.h
    && s.heap[pc.h].L == pc.l && s.heap[pc.h].R == pc.r && !c.spurious
  }

  lemma PushBothOK(s: State, t: nat, c: Choice)
    requires Inv(s) && t < |s.pcs| && PushBothSucceeds(s, t, c)
    ensures StepOK(s, PushStep(s, t, c), t)
  {
    assert PcOK(s, t);
    DeadHatIsEmpty(s, s.pcs[t].side);
    assert ItemAt(PushStep(s, t, c), 0);
  }

  /** What a successful double compare-and-swap at a non-empty end writes. */
  ghost predicate Linked(s: State, s': State, side: Side, n: nat, h: nat) {
    && n < |s.heap| && h < |s.heap| && n != h && |s'.heap| == |s.heap|
    && s'.heap[n] == s.heap[n].(owner := None) && s'.heap[h] == WithOuter(s.heap[h], side, n)
    && (forall a :: 0 <= a < |s.heap| && a != n && a != h ==> s'.heap[a] == s.heap[a])
    && Hat(s', side) == n && Hat(s', Other(side)) == Hat(s, Other(side)) && s'.items == Add(s.items, side, n)
  }

  lemma LinkedItem(s: State, s': State, side: Side, n: nat, h: nat, i: nat)
    requires Linked(s, s', side, n, h) && Distinct(s.items) && Dead(s, DUMMY) && s.heap[n].owner.Some?
    requires s.items != [] && s.items[EndIndex(s.items, side)] == h
    requires Outer(s.heap[n], side) == DUMMY && Inner(s.heap[n], side) == h
    requires forall j :: 0 <= j < |s.items| ==> ItemAt(s, j)
    requires i < |s'.items|
    ensures ItemAt(s', i)
  {
    var j := if side.Left? then i - 1 else i;
    if 0 <= j < |s.items| { assert ItemAt(s, j); }
    assert ItemAt(s, EndIndex(s.items, side));
  }

  lemma PushEndEffect(s: State, t: nat, c: Choice)
    requires DequeOK(s) && t < |s.pcs| && PcOK(s, t) && PushEndSucceeds(s, t, c)
    ensures var s', pc := PushStep(s, t, c), s.pcs[t];
            && Linked(s, s', pc.side, pc.n, pc.h) && s'.pcs == s.pcs[t := Done(None)] && !Dead(s, pc.h)
            && s.items != [] && s.items[EndIndex(s.items, pc.side)] == pc.h && pc.n !in s.items
  {
    LiveHatIsEnd(s, s.pcs[t].side);
    ItemsAlive(s);
  }

  lemma PushEndOK(s: State, t: nat, c: Choice)
    requires Inv(s) && t < |s.pcs| && PushEndSucceeds(s, t, c)
    ensures StepOK(s, PushStep(s, t, c), t)
  {
    var s', pc := PushStep(s, t, c), s.pcs[t];
    assert PcOK(s, t);
    PushEndEffect(s, t, c);
    AddFacts(s.items, pc.side, pc.n);
    forall i | 0 <= i < |s'.items| ensures ItemAt(s', i) {
      LinkedItem(s, s', pc.side, pc.n, pc.h, i);
    }
  }

  lemma PopEndItem(s: State, t: nat, c: Choice, i: nat)
    requires DequeOK(s) && t < |s.pcs| && PcOK(s, t) && PopSucceeds(s, t, c)
    requires i < |PopStep(s, t, c).items|
    ensures ItemAt(PopStep(s, t, c), i)
  {
    var pc := s.pcs[t];
    LiveHatIsEnd(s, pc.side);
    var j := if pc.side.Left? then i + 1 else i;
    assert ItemAt(s, j) && (j > 0 ==> ItemAt(s, j - 1)) && (j + 1 < |s.items| ==> ItemAt(s, j + 1));
  }

  lemma PopEndEffect(s: State, t: nat, c: Choice)
    requires DequeOK(s) && t < |s.pcs| && PcOK(s, t) && PopSucceeds(s, t, c)
    ensures var s' := PopStep(s, t, c);
            && Guarantee(s, s', t) && PcOK(s', t)
            && s.items != [] && s.items[EndIndex(s.items, s.pcs[t].side)] == s.pcs[t].h
            && s'.items == Rest(s.items, s.pcs[t].side) && HatsOK(s') && Dead(s', s.pcs[t].h) && Dead(s', DUMMY)
            && (forall a :: 0 <= a < |s'.heap| && s'.heap[a].owner.None? && !Dead(s', a) ==>
                  a != s.pcs[t].h && s.heap[a].owner.None? && !Dead(s, a))
  {
    LiveHatIsEnd(s, s.pcs[t].side);
  }

  lemma PopEndOK(s: State, t: nat, c: Choice)
    requires Inv(s) && t < |s.pcs| && PopSucceeds(s, t, c)
    ensures StepOK(s, PopStep(s, t, c), t) && s.items != [] && s.items[EndIndex(s.items, s.pcs[t].side)] == s.pcs[t].h
  {
    var s', pc := PopStep(s, t, c), s.pcs[t];
    assert PcOK(s, t);
    PopEndEffect(s, t, c);
    forall i | 0 <= i < |s'.items| ensures ItemAt(s', i) {
      PopEndItem(s, t, c, i);
    }
  }

  /** A push that goes on looking writes at most its own new node. */
  lemma PushLooks(s: State, t: nat, c: Choice)
    requires DequeOK(s) && t < |s.pcs| && PcOK(s, t) && !PushBothSucceeds(s, t, c) && !PushEndSucceeds(s, t, c)
    requires InPush(s.pcs[t])
    ensures t < |PushStep(s, t, c).pcs| && PcOK(PushStep(s, t, c), t)
  {
    var pc := s.pcs[t];
    if s.items != [] { assert ItemAt(s, 0) && ItemAt(s, |s.items| - 1); }
    if pc.PushOuter? && Outer(s.heap[pc.h], pc.side) == pc.h { SelfLinkIsDead(s, pc.h); }
  }

  lemma PushQuietOK(s: State, t: nat, c: Choice)
    requires Inv(s) && t < |s.pcs| && !PushBothSucceeds(s, t, c) && !PushEndSucceeds(s, t, c)
    requires InPush(s.pcs[t])
    ensures StepOK(s, PushStep(s, t, c), t) && PushStep(s, t, c).items == s.items
  {
    assert PcOK(s, t);
    PushLooks(s, t, c);
    QuietDeque(s, PushStep(s, t, c));
  }

  /** A pop that goes on looking changes nothing but its own registers. */
  lemma PopLooks(s: State, t: nat, c: Choice)
    requires DequeOK(s) && t < |s.pcs| && PcOK(s, t) && !PopSucceeds(s, t, c)
    requires var pc := s.pcs[t]; pc.PopHat? || pc.PopL? || pc.PopR? || pc.PopCheck? || pc.PopEnd? || pc.PopData?
    ensures var s' := PopStep(s, t, c); t < |s'.pcs| && s' == Goto(s, t, s'.pcs[t]) && PcOK(s', t)
  {
    var pc := s.pcs[t];
    if s.items != [] { assert ItemAt(s, 0) && ItemAt(s, |s.items| - 1); }
    if pc.PopL? && s.heap[pc.h].L == pc.h { SelfLinkIsDead(s, pc.h); }
    if pc.PopR? && s.heap[pc.h].R == pc.h { SelfLinkIsDead(s, pc.h); }
  }

  lemma StartOK(s: State, t: nat, c: Choice)
    requires Inv(s) && t < |s.pcs| && Resting(s.pcs[t])
    ensures StepOK(s, Step(s, t, c), t) && Step(s, t, c).items == s.items
  {
    QuietDeque(s, Step(s, t, c));
  }

  ghost predicate Changes(s: State, t: nat, c: Choice)
    requires t < |s.pcs|
  {
    PushBothSucceeds(s, t, c) || PushEndSucceeds(s, t, c) || PopSucceeds(s, t, c)
  }

  lemma ThreadOK(s: State, t: nat, c: Choice)
    requires Inv(s) && t < |s.pcs|
    ensures StepOK(s, Step(s, t, c), t)
    ensures !Changes(s, t, c) ==> Step(s, t, c).items == s.items
  {
    var pc := s.pcs[t];
    if Resting(pc) { StartOK(s, t, c); }
    else if PushBothSucceeds(s, t, c) { PushBothOK(s, t, c); }
    else if PushEndSucceeds(s, t, c) { PushEndOK(s, t, c); }
    else if PopSucceeds(s, t, c) { PopEndOK(s, t, c); }
    else if InPush(pc) { PushQuietOK(s, t, c); }
    else {
      PopLooks(s, t, c);
      QuietDeque(s, PopStep(s, t, c));
    }
  }

  lemma StepInv(s: State, t: nat, c: Choice)
    requires Inv(s)
    ensures Inv(Step(s, t, c))
  {
    if t < |s.pcs| {
      ThreadOK(s, t, c);
      forall u | 0 <= u < |s.pcs| && u != t ensures PcOK(Step(s, t, c), u) {
        OtherStable(s, Step(s, t, c), t, u);
      }
    }
  }

  lemma {:induction false} Reachable(s: State, sched: seq<(nat, Choice)>)
    requires Init(s)
    ensures Inv(Exec(s, sched))
    decreases |sched|
  {
    if sched != [] {
      var n := |sched| - 1;
      Reachable(s, sched[..n]);
      StepInv(Exec(s, sched[..n]), sched[n].0, sched[n].1);
    }
  }

  // ---------------------------------------------------------------- linearizability

  /** The values in the deque, left to right. */
  ghost function Contents(s: State): seq<int>
    requires InRange(s)
  {
    seq(|s.items|, i requires 0 <= i < |s.items| => s.heap[s.items[i]].data)
  }

  /** The step changes the contents as its linearization point demands, and not otherwise. */
  ghost predicate Atomic(s: State, s': State, t: nat, c: Choice)
    requires t < |s.pcs| && t < |s'.pcs|
  {
    var pc := s.pcs[t];
    && InRange(s) && InRange(s')
    && if PushBothSucceeds(s, t, c) || PushEndSucceeds(s, t, c) then
         pc.n < |s.heap| && Contents(s') == Add(Contents(s), pc.side, s.heap[pc.n].data)
       else if PopSucceeds(s, t, c) then
         && Contents(s) != [] && Contents(s') == Rest(Contents(s), pc.side)
         && s'.pcs[t] == PopData(pc.h, Contents(s)[EndIndex(s.items, pc.side)])
       else Contents(s') == Contents(s)
  }

  lemma PushAtomic(s: State, t: nat, c: Choice)
    requires t < |s.pcs| && InRange(s) && InRange(Step(s, t, c)) && PcOK(s, t)
    requires PushBothSucceeds(s, t, c) || PushEndSucceeds(s, t, c)
    ensures t < |Step(s, t, c).pcs| && Atomic(s, Step(s, t, c), t, c)
  {
    var pc := s.pcs[t];
    assert Contents(Step(s, t, c)) == Add(Contents(s), pc.side, s.heap[pc.n].data);
  }

  lemma PopAtomic(s: State, t: nat, c: Choice)
    requires t < |s.pcs| && InRange(s) && InRange(Step(s, t, c)) && PcOK(s, t)
    requires PopSucceeds(s, t, c) && s.items != [] && s.items[EndIndex(s.items, s.pcs[t].side)] == s.pcs[t].h
    ensures t < |Step(s, t, c).pcs| && Atomic(s, Step(s, t, c), t, c)
  {
    assert Contents(Step(s, t, c)) == Rest(Contents(s), s.pcs[t].side);
  }

  /** Every step leaves the contents alone, except a successful multi-word compare-and-swap. */
  lemma SwapsAreAtomic(s: State, sched: seq<(nat, Choice)>, t: nat, c: Choice)
    requires Init(s) && t < |Exec(s, sched).pcs|
    ensures var r := Exec(s, sched);
            var r' := Step(r, t, c);
            t < |r'.pcs| && Atomic(r, r', t, c)
  {
    var r := Exec(s, sched);
    var r' := Step(r, t, c);
    Reachable(s, sched);
    StepInv(r, t, c);
    ThreadOK(r, t, c);
    ItemsAlive(r);
    ItemsAlive(r');
    assert PcOK(r, t);
    if PushBothSucceeds(r, t, c) || PushEndSucceeds(r, t, c) {
      PushAtomic(r, t, c);
    } else if PopSucceeds(r, t, c) {
      PopEndOK(r, t, c);
      PopAtomic(r, t, c);
    } else {
      QuietAtomic(r, r', t);
    }
  }

  lemma QuietAtomic(s: State, s': State, t: nat)
    requires t < |s.pcs| && Guarantee(s, s', t) && InRange(s) && InRange(s') && s'.items == s.items
    ensures Contents(s') == Contents(s)
  {
  }

  // ---------------------------------------------------------------- the calls of the schedule

  /** A call: the choice with which the schedule began it, how often it has changed the deque, and the
      value it has taken off. */
  datatype Call = Call(choice: Choice, changes: nat, taken: Option<int>)

  function Changed(call: Call, s: State, s': State): Call {
    if s'.items == s.items then call
    else Call(call.choice, call.changes + 1, if call.choice.push then None else Some(EndData(s, call.choice.side)))
  }

  /** The latest call of thread t: it begins with the entry that finds the thread resting. */
  function CallOf(s: State, sched: seq<(nat, Choice)>, t: nat): Option<Call>
    decreases |sched|
  {
    if sched == [] then None
    else
      var n := |sched| - 1;
      var r, before := Exec(s, sched[..n]), CallOf(s, sched[..n], t);
      if sched[n].0 != t || t >= |r.pcs| then before
      else if Resting(r.pcs[t]) then Some(Call(sched[n].1, 0, None))
      else if before.Some? then Some(Changed(before.value, r, Exec(s, sched)))
      else None
  }

  /** A thread at pc is carrying out the call: it has the call's side and value, it has not changed the
      deque before its time, and it returns what the call has taken. */
  ghost predicate Serves(s: State, pc: PC, call: Call) {
    var push := call.choice.push;
    if InPush(pc) then
      && push && pc.side == call.choice.side && call.changes == 0
      && pc.n < |s.heap| && s.heap[pc.n].data == call.choice.data
    else if pc.PopData? then !push && call.changes == 1 && call.taken == Some(pc.taken)
    else if pc.Done? && pc.result.Some? then !push && call.changes == 1 && call.taken == pc.result
    else if pc.Done? then call.changes == if push then 1 else 0
    else !pc.Idle? && !push && pc.side == call.choice.side && call.changes == 0
  }

  lemma ServesOther(s: State, s': State, t: nat, u: nat, call: Call)
    requires t < |s.pcs| && Guarantee(s, s', t) && u < |s.pcs| && Serves(s, s.pcs[u], call)
    ensures Serves(s', s.pcs[u], call)
  {
  }

  lemma ServesSwap(s: State, t: nat, c: Choice, call: Call)
    requires Inv(s) && t < |s.pcs| && Changes(s, t, c) && Serves(s, s.pcs[t], call)
    ensures var s' := Step(s, t, c); t < |s'.pcs| && Serves(s', s'.pcs[t], Changed(call, s, s'))
  {
    assert PcOK(s, t);
    if PopSucceeds(s, t, c) { PopEndOK(s, t, c); }
  }

  lemma ServesPush(s: State, t: nat, c: Choice, call: Call)
    requires t < |s.pcs| && InPush(s.pcs[t]) && !Changes(s, t, c) && PcOK(s, t) && Serves(s, s.pcs[t], call)
    ensures var s' := Step(s, t, c); t < |s'.pcs| && Serves(s', s'.pcs[t], call)
  {
  }

  lemma ServesPop(s: State, t: nat, c: Choice, call: Call)
    requires t < |s.pcs| && !Resting(s.pcs[t]) && !InPush(s.pcs[t]) && !Changes(s, t, c)
    requires PcOK(s, t) && Serves(s, s.pcs[t], call)
    ensures var s' := Step(s, t, c); t < |s'.pcs| && Serves(s', s'.pcs[t], call)
  {
  }

  lemma ServesOwn(s: State, t: nat, c: Choice, call: Call)
    requires Inv(s) && t < |s.pcs| && !Resting(s.pcs[t]) && Serves(s, s.pcs[t], call)
    ensures var s' := Step(s, t, c); t < |s'.pcs| && Serves(s', s'.pcs[t], Changed(call, s, s'))
  {
    ThreadOK(s, t, c);
    if Changes(s, t, c) { ServesSwap(s, t, c, call); }
    else if InPush(s.pcs[t]) { ServesPush(s, t, c, call); }
    else { ServesPop(s, t, c, call); }
  }

  lemma NextCall(s: State, sched: seq<(nat, Choice)>, u: nat, c: Choice, t: nat)
    ensures Exec(s, sched + [(u, c)]) == Step(Exec(s, sched), u, c)
    ensures var r, before := Exec(s, sched), CallOf(s, sched, t);
            CallOf(s, sched + [(u, c)], t) ==
              if u != t || t >= |r.pcs| then before
              else if Resting(r.pcs[t]) then Some(Call(c, 0, None))
              else if before.Some? then Some(Changed(before.value, r, Step(r, u, c)))
              else None
  {
    assert (sched + [(u, c)])[..|sched|] == sched;
  }

  /** A thread that has been given a call carries it out, through all its retries: on its side, with its
      value.  When it has returned, a push has changed the deque once, and a pop once if it returns a value,
      which is the one it took off, and never if it returns none.  A thread without a call is idle. */
  lemma {:induction false} CallsTakeEffectOnce(s: State, sched: seq<(nat, Choice)>, t: nat)
    requires Init(s) && t < |Exec(s, sched).pcs|
    ensures var r, call := Exec(s, sched), CallOf(s, sched, t);
            if call.Some? then Serves(r, r.pcs[t], call.value) else r.pcs[t].Idle?
    decreases |sched|
  {
    if sched != [] {
      var n := |sched| - 1;
      var r := Exec(s, sched[..n]);
      var (u, c) := sched[n];
      assert sched == sched[..n] + [(u, c)];
      NextCall(s, sched[..n], u, c, t);
      Reachable(s, sched[..n]);
      if u >= |r.pcs| {
        CallsTakeEffectOnce(s, sched[..n], t);
      } else {
        ThreadOK(r, u, c);
        CallsTakeEffectOnce(s, sched[..n], t);
        var call := CallOf(s, sched[..n], t);
        if u != t {
          if call.Some? { ServesOther(r, Step(r, u, c), u, t, call.value); }
        } else if !Resting(r.pcs[t]) {
          ServesOwn(r, t, c, call.value);
        }
      }
    }
  }

  /** Each step leaves the contents alone or is the one change of the call that the schedule began on its
      thread: a push adds the call's value at the call's side and returns; a pop takes the value at the
      call's side off. */
  lemma StepsAreAtomic(s: State, sched: seq<(nat, Choice)>, t: nat, c: Choice)
    requires Init(s) && t < |Exec(s, sched).pcs|
    ensures var r, r', call := Exec(s, sched), Step(Exec(s, sched), t, c), CallOf(s, sched, t);
            && InRange(r) && InRange(r') && t < |r'.pcs|
            && (Contents(r') == Contents(r) ||
                (call.Some? && var choice := call.value.choice;
                 if choice.push then
                   Contents(r') == Add(Contents(r), choice.side, choice.data) && r'.pcs[t] == Done(None)
                 else
                   && Contents(r) != [] && Contents(r') == Rest(Contents(r), choice.side)
                   && r'.pcs[t].PopData? && r'.pcs[t].taken == Contents(r)[EndIndex(r.items, choice.side)]))
  {
    SwapsAreAtomic(s, sched, t, c);
    if Changes(Exec(s, sched), t, c) { CallsTakeEffectOnce(s, sched, t); }
  }

  lemma EmptySeen(s: State, t: nat, c: Choice, call: Call)
    requires t < |s.pcs| && PcOK(s, t) && t < |Step(s, t, c).pcs| && Step(s, t, c).pcs[t] == Done(None)
    requires !Resting(s.pcs[t]) ==> Serves(s, s.pcs[t], call) && !call.choice.push
    ensures s.pcs[t].PopCheck? && Dead(s, Hat(s, s.pcs[t].side))
  {
  }

  /** The step with which a pop reports an empty deque is taken while the deque is empty. */
  lemma EmptyPopIsEmpty(s: State, sched: seq<(nat, Choice)>, t: nat, c: Choice)
    requires Init(s) && t < |Exec(s, sched).pcs|
    requires var r', call := Exec(s, sched + [(t, c)]), CallOf(s, sched + [(t, c)], t);
             t < |r'.pcs| && r'.pcs[t] == Done(None) && call.Some? && !call.value.choice.push
    ensures Exec(s, sched).items == []
  {
    var r, call := Exec(s, sched), CallOf(s, sched, t);
    Reachable(s, sched);
    NextCall(s, sched, t, c, t);
    CallsTakeEffectOnce(s, sched, t);
    EmptySeen(r, t, c, if call.Some? then call.value else Call(c, 0, None));
    DeadHatIsEmpty(r, r.pcs[t].side);
  }

  /** Both hats are dead together, exactly when the deque is empty, and a dead node stays dead. */
  lemma HatsDieTogether(s: State, sched: seq<(nat, Choice)>, t: nat, c: Choice, a: nat)
    requires Init(s)
    ensures var r := Exec(s, sched);
            && (Dead(r, r.leftHat) <==> r.items == [])
            && (Dead(r, r.rightHat) <==> r.items == [])
            && (Dead(r, a) ==> Dead(Step(r, t, c), a))
  {
    var r := Exec(s, sched);
    Reachable(s, sched);
    if Dead(r, r.leftHat) { DeadHatIsEmpty(r, Left); }
    if Dead(r, r.rightHat) { DeadHatIsEmpty(r, Right); }
    if t < |r.pcs| { ThreadOK(r, t, c); }
  }

  // ---------------------------------------------------------------- a thread left alone

  /** At most n steps of thread t with nobody else moving and no spurious failure, until it has returned. */
  function Alone(s: State, t: nat, n: nat): State
    decreases n
  {
    if n == 0 || t >= |s.pcs| || Resting(s.pcs[t]) then s
    else Alone(Step(s, t, Choice(true, Left, 0, false)), t, n - 1)
  }

  function LeftOf(s: State, a: nat): nat {
    if a < |s.heap| then s.heap[a].L else DUMMY
  }

  function OuterOf(s: State, a: nat, side: Side): nat {
    if a < |s.heap| then Outer(s.heap[a], side) else DUMMY
  }

  /** The steps that a call has left when nothing it has not yet seen changes: a call that has read
      something out of date finds out and starts over. */
  function StepsLeft(s: State, pc: PC): nat {
    match pc
    case PushHat(_, _) => 4
    case PushOuter(side, _, h) => if h == Hat(s, side) then 3 else 7
    case PushOther(side, _, h) => if h == Hat(s, side) then 2 else 6
    case PushBoth(side, _, h, other) => if h == Hat(s, side) && other == Hat(s, Other(side)) then 1 else 5
    case PushEnd(side, _, h, outer) => if h == Hat(s, side) && outer == OuterOf(s, h, side) then 1 else 5
    case PopHat(_) => 5
    case PopL(side, h) => if h == Hat(s, side) then 4 else 9
    case PopR(side, h, l) => if h == Hat(s, side) && l == LeftOf(s, h) then 3 else 8
    case PopEnd(side, h, l, r) =>
      if h == Hat(s, side) && l == LeftOf(s, h) && h < |s.heap| && r == s.heap[h].R then 2 else 7
    case PopCheck(side, h) => if h == Hat(s, side) then 1 else 6
    case PopData(_, _) => 1
    case _ => 0
  }

  lemma PushNearer(s: State, t: nat, c: Choice)
    requires t < |s.pcs| && InPush(s.pcs[t]) && PcOK(s, t) && !c.spurious
    ensures var s' := Step(s, t, c); t < |s'.pcs| && StepsLeft(s', s'.pcs[t]) < StepsLeft(s, s.pcs[t])
  {
  }

  lemma PopNearer(s: State, t: nat, c: Choice)
    requires t < |s.pcs| && !InPush(s.pcs[t]) && !Resting(s.pcs[t]) && PcOK(s, t) && !c.spurious
    ensures var s' := Step(s, t, c); t < |s'.pcs| && StepsLeft(s', s'.pcs[t]) < StepsLeft(s, s.pcs[t])
  {
  }

  lemma {:induction false} Returns(s: State, t: nat, n: nat)
    requires Inv(s) && t < |s.pcs| && n >= StepsLeft(s, s.pcs[t])
    ensures t < |Alone(s, t, n).pcs| && Resting(Alone(s, t, n).pcs[t])
    decreases n
  {
    if !Resting(s.pcs[t]) {
      var c := Choice(true, Left, 0, false);
      assert PcOK(s, t);
      if InPush(s.pcs[t]) { PushNearer(s, t, c); } else { PopNearer(s, t, c); }
      StepInv(s, t, c);
      Returns(Step(s, t, c), t, n - 1);
    }
  }

  lemma LeftBound(s: State, pc: PC)
    ensures StepsLeft(s, pc) <= 9
  {
  }

  /** Obstruction freedom: from any moment of a run, a thread that is left alone returns from its call
      within nine steps, wherever the others have stopped. */
  lemma AloneReturns(s: State, sched: seq<(nat, Choice)>, t: nat)
    requires Init(s) && t < |Exec(s, sched).pcs|
    ensures var r := Alone(Exec(s, sched), t, 9);
            t < |r.pcs| && Resting(r.pcs[t])
  {
    var enough: nat :| enough == 9;
    Reachable(s, sched);
    LeftBound(Exec(s, sched), Exec(s, sched).pcs[t]);
    Returns(Exec(s, sched), t, enough);
  }
}
