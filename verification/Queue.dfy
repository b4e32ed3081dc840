/** The lock-free queue of lockfree/Queue.h.  Every load and compare-and-swap of a shared word is one
    step, and nodes are never freed.  An item enters the queue when the tail swings onto its node,
    whichever thread swings it. */
module Queue {
  import opened Options

  /** pos is history: the position of the node in the chain, once it is linked in. */
  datatype Node = Node(value: int, next: Option<nat>, pos: Option<nat>)

  datatype PC =
    | Idle
    | PushTail(n: nat)
    | PushNext(n: nat, last: nat)
    | PushCheck(n: nat, last: nat, next: Option<nat>)
    | PushLink(n: nat, last: nat)
    | PushSwing(n: nat, last: nat)
    | PushHelp(n: nat, last: nat, next: Option<nat>)
    | Pushed(n: nat)
    | PopHead
    | PopTail(first: nat)
    | PopNext(first: nat, last: nat, wasEmpty: bool)    // wasEmpty is history: was the queue empty at the tail read
    | PopCheck(first: nat, last: nat, next: Option<nat>, wasEmpty: bool)
    | PopSentinel(last: nat, next: Option<nat>, wasEmpty: bool)
    | PopSwing(last: nat, next: Option<nat>)
    | PopValue(first: nat, next: Option<nat>)
    | PopCas(first: nat, next: Option<nat>, value: int)
    | Popped(value: int)
    | PoppedEmpty(wasEmpty: bool)

  /** order (the chain of linked nodes), headPos, tailPos, returned and inserted are history. */
  datatype State = State(heap: seq<Node>, head: nat, tail: nat, pcs: seq<PC>,
                         order: seq<nat>, headPos: nat, tailPos: nat, returned: seq<int>, inserted: seq<int>)

  const EMPTY: int := -1

  datatype Choice = Choice(push: bool, value: int)

  function Goto(s: State, t: nat, pc: PC): State
    requires t < |s.pcs|
  {
    s.(pcs := s.pcs[t := pc])
  }

  function ValueOf(s: State, a: nat): int {
    if a < |s.heap| then s.heap[a].value else EMPTY
  }

  /** Compare-and-swap of the tail. */
  function SwingTail(s: State, last: nat, to: nat): State {
    if s.tail == last then
      s.(tail := to, tailPos := s.tailPos + 1, inserted := s.inserted + [ValueOf(s, to)])
    else s
  }

  /** Compare-and-swap of last->next from null to n. */
  function Link(s: State, last: nat, n: nat): State
    requires last < |s.heap| && n < |s.heap|
  {
    var linked := s.heap[last := s.heap[last].(next := Some(n))];
    s.(heap := linked[n := linked[n].(pos := Some(|s.order|))], order := s.order + [n])
  }

  function PushStep(s: State, t: nat): State
    requires t < |s.pcs|
  {
    match s.pcs[t]
    case PushTail(n) => Goto(s, t, PushNext(n, s.tail))
    case PushNext(n, last) => if last >= |s.heap| then s else Goto(s, t, PushCheck(n, last, s.heap[last].next))
    case PushCheck(n, last, next) =>
      Goto(s, t, if last != s.tail then PushTail(n)
                 else if next.None? then PushLink(n, last)
                 else PushHelp(n, last, next))
    case PushLink(n, last) =>
      if last >= |s.heap| || n >= |s.heap| then s
      else if s.heap[last].next.None? then Goto(Link(s, last, n), t, PushSwing(n, last))
      else Goto(s, t, PushTail(n))
    case PushSwing(n, last) => Goto(SwingTail(s, last, n), t, Pushed(n))
    case PushHelp(n, last, next) => if next.None? then s else Goto(SwingTail(s, last, next.value), t, PushTail(n))
    case _ => s
  }

  function PopStep(s: State, t: nat): State
    requires t < |s.pcs|
  {
    match s.pcs[t]
    case PopHead => Goto(s, t, PopTail(s.head))
    case PopTail(first) => Goto(s, t, PopNext(first, s.tail, s.headPos == s.tailPos))
    case PopNext(first, last, e) =>
      if first >= |s.heap| then s else Goto(s, t, PopCheck(first, last, s.heap[first].next, e))
    case PopCheck(first, last, next, e) =>
      Goto(s, t, if first != s.head then PopHead
                 else if first != last then PopValue(first, next)
                 else if next.None? then PoppedEmpty(e)
                 else PopSentinel(last, next, e))
    case PopSentinel(last, next, e) =>
      Goto(s, t, if ValueOf(s, s.head) == EMPTY then PoppedEmpty(e) else PopSwing(last, next))
    case PopSwing(last, next) => if next.None? then s else Goto(SwingTail(s, last, next.value), t, PopHead)
    case PopValue(first, next) =>
      if next.None? then s else Goto(s, t, PopCas(first, next, ValueOf(s, next.value)))
    case PopCas(first, next, value) =>
      if next.None? || s.head != first then Goto(s, t, PopHead)
      else Goto(s.(head := next.value, headPos := s.headPos + 1, returned := s.returned + [value]), t, Popped(value))
    case _ => s
  }

  predicate Resting(pc: PC) {
    pc.Idle? || pc.Pushed? || pc.Popped? || pc.PoppedEmpty?
  }

  predicate Pushing(pc: PC) {
    pc.PushTail? || pc.PushNext? || pc.PushCheck? || pc.PushLink? || pc.PushSwing? || pc.PushHelp?
  }

  function Step(s: State, t: nat, c: Choice): State {
    if t >= |s.pcs| then s
    else if Resting(s.pcs[t]) then
      if c.push then Goto(s.(heap := s.heap + [Node(c.value, None, None)]), t, PushTail(|s.heap|))
      else Goto(s, t, PopHead)
    else if Pushing(s.pcs[t]) then PushStep(s, t)
    else PopStep(s, t)
  }

  function Exec(s: State, sched: seq<(nat, Choice)>): State
    decreases |sched|
  {
    if sched == [] then s
    else
      var last := sched[|sched| - 1];
      Step(Exec(s, sched[..|sched| - 1]), last.0, last.1)
  }

  predicate Init(s: State) {
    && s.heap == [Node(EMPTY, None, Some(0))] && s.order == [0] && s.head == 0 && s.tail == 0
    && s.headPos == 0 && s.tailPos == 0 && s.returned == [] && s.inserted == []
    && forall t :: 0 <= t < |s.pcs| ==> s.pcs[t] == Idle
  }

  // ---------------------------------------------------------------- the invariant

  /** Node a is linked in at position p. */
  predicate At(s: State, a: nat, p: nat) {
    a < |s.heap| && s.heap[a].pos == Some(p) && p < |s.order| && s.order[p] == a
  }

  predicate Linked(s: State, a: nat) {
    a < |s.heap| && s.heap[a].pos.Some? && At(s, a, s.heap[a].pos.value)
  }

  function Pos(s: State, a: nat): nat
    requires Linked(s, a)
  {
    s.heap[a].pos.value
  }

  ghost predicate ChainAt(s: State, p: nat)
    requires p < |s.order|
  {
    && At(s, s.order[p], p)
    && s.heap[s.order[p]].next == (if p + 1 < |s.order| then Some(s.order[p + 1]) else None)
  }

  /** The head never passes the tail, and the tail lags the last node by at most one. */
  ghost predicate EndsOK(s: State) {
    && s.headPos <= s.tailPos < |s.order| <= s.tailPos + 2
    && s.head == s.order[s.headPos] && s.tail == s.order[s.tailPos]
  }

  ghost predicate ValueAt(s: State, p: nat) {
    p < |s.inserted| && p + 1 < |s.order| && s.inserted[p] == ValueOf(s, s.order[p + 1])
  }

  ghost predicate HistoryOK(s: State) {
    && |s.inserted| == s.tailPos && |s.returned| == s.headPos && s.returned <= s.inserted
    && (forall p: nat :: p < |s.inserted| ==> ValueAt(s, p))
  }

  ghost predicate Inv(s: State) {
    && (forall p: nat :: p < |s.order| ==> ChainAt(s, p)) && EndsOK(s) && HistoryOK(s)
    && (forall t: nat :: t < |s.pcs| ==> PcOK(s, s.pcs[t]))
    && (forall t: nat, u: nat :: t < |s.pcs| && u < |s.pcs| && t != u ==> Apart(s.pcs[t], s.pcs[u]))
  }

  /** Two threads never have the same node to link in. */
  predicate Apart(p: PC, q: PC) {
    Unlinked(p) && Unlinked(q) ==> p.n != q.n
  }

  predicate Unlinked(pc: PC) {
    Pushing(pc) && !pc.PushSwing?
  }

  ghost predicate Fresh(s: State, n: nat) {
    n < |s.heap| && s.heap[n].pos.None? && s.heap[n].next.None?
  }

  /** A node that has been the tail. */
  ghost predicate WasTail(s: State, a: nat) {
    Linked(s, a) && Pos(s, a) <= s.tailPos
  }

  ghost predicate WasHead(s: State, a: nat) {
    Linked(s, a) && Pos(s, a) <= s.headPos
  }

  ghost predicate Follows(s: State, a: nat, next: Option<nat>) {
    next.Some? ==> Linked(s, a) && Linked(s, next.value) && Pos(s, next.value) == Pos(s, a) + 1
  }

  ghost predicate Knows(s: State, pc: PC) {
    match pc
    case Idle => true
    case PushTail(n) => Fresh(s, n)
    case PushNext(n, last) => Fresh(s, n) && WasTail(s, last)
    case PushCheck(n, last, next) => Fresh(s, n) && WasTail(s, last) && Follows(s, last, next)
    case PushLink(n, last) => Fresh(s, n) && WasTail(s, last)
    case PushSwing(n, last) => WasTail(s, last) && Linked(s, n) && Pos(s, n) == Pos(s, last) + 1
    case PushHelp(n, last, next) => Fresh(s, n) && WasTail(s, last) && next.Some? && Follows(s, last, next)
    case Pushed(n) => WasTail(s, n)
    case PopHead => true
    case PopTail(first) => WasHead(s, first)
    case PopNext(first, last, e) => PopPair(s, first, last, e)
    case PopCheck(first, last, next, e) =>
      PopPair(s, first, last, e) && Follows(s, first, next) && (first != last ==> next.Some?)
    case PopSentinel(last, next, e) => WasTail(s, last) && next.Some? && Follows(s, last, next) && e
    case PopSwing(last, next) => WasTail(s, last) && next.Some? && Follows(s, last, next)
    case PopValue(first, next) => Ahead(s, first, next)
    case PopCas(first, next, value) => Ahead(s, first, next) && value == ValueOf(s, next.value)
    case Popped(_) => true
    case PoppedEmpty(e) => e
  }

  /** Knows as one fact: the comparison keeps proofs that pass it on from being split into its cases. */
  ghost predicate PcOK(s: State, pc: PC) {
    Knows(s, pc) == true
  }

  ghost predicate PopPair(s: State, first: nat, last: nat, e: bool) {
    WasHead(s, first) && WasTail(s, last) && Pos(s, first) <= Pos(s, last) && (first == last ==> e)
  }

  /** next follows first and has been the tail. */
  ghost predicate Ahead(s: State, first: nat, next: Option<nat>) {
    next.Some? && WasHead(s, first) && WasTail(s, next.value) && Follows(s, first, next)
  }

  // ---------------------------------------------------------------- preservation

  /** What a step of thread t leaves alone for the others. */
  ghost predicate Guarantee(s: State, s': State, t: nat)
    requires t < |s.pcs|
  {
    && |s'.pcs| == |s.pcs| && s'.pcs == s.pcs[t := s'.pcs[t]]
    && |s.heap| <= |s'.heap| && s.order <= s'.order && s.headPos <= s'.headPos && s.tailPos <= s'.tailPos
    && (forall a: nat :: a < |s.heap| ==>
          && s'.heap[a].value == s.heap[a].value
          && (Linked(s, a) ==> s'.heap[a].pos == s.heap[a].pos)
          && (s.heap[a].pos.None? && !(Unlinked(s.pcs[t]) && s.pcs[t].n == a) ==> s'.heap[a] == s.heap[a]))
  }

  lemma OtherStable(s: State, s': State, t: nat, u: nat)
    requires t < |s.pcs| && Guarantee(s, s', t) && u < |s.pcs| && u != t && PcOK(s, s.pcs[u])
             && Apart(s.pcs[u], s.pcs[t])
    ensures PcOK(s', s.pcs[u])
  {
    forall a: nat | Linked(s, a) ensures Linked(s', a) && Pos(s', a) == Pos(s, a) {
      assert At(s, a, Pos(s, a));
    }
  }

  ghost predicate StepOK(s: State, s': State, t: nat)
    requires t < |s.pcs|
  {
    && Guarantee(s, s', t) && PcOK(s', s'.pcs[t]) && EndsOK(s') && HistoryOK(s')
    && (forall p: nat :: p < |s'.order| ==> ChainAt(s', p))
    && (Unlinked(s'.pcs[t]) ==> (Unlinked(s.pcs[t]) && s'.pcs[t].n == s.pcs[t].n) || |s.heap| <= s'.pcs[t].n)
  }

  /** A step that touches neither the heap nor the ends. */
  lemma QuietOK(s: State, t: nat, pc: PC)
    requires Inv(s) && t < |s.pcs| && PcOK(s, pc)
    requires Unlinked(pc) ==> Unlinked(s.pcs[t]) && pc.n == s.pcs[t].n
    ensures StepOK(s, Goto(s, t, pc), t)
  {
    var s' := Goto(s, t, pc);
    forall p: nat | p < |s'.order| ensures ChainAt(s', p) { assert ChainAt(s, p); }
    forall p: nat | p < |s'.inserted| ensures ValueAt(s', p) { assert ValueAt(s, p); }
  }

  /** Swinging the tail from a node to its successor keeps the chain, its ends and the history. */
  lemma SwingShared(s: State, last: nat, next: nat)
    requires Inv(s) && WasTail(s, last) && Follows(s, last, Some(next))
    ensures var s' := SwingTail(s, last, next);
            EndsOK(s') && HistoryOK(s') && forall p: nat :: p < |s'.order| ==> ChainAt(s', p)
  {
    var s' := SwingTail(s, last, next);
    assert ChainAt(s, s.tailPos);
    assert At(s, next, Pos(s, next)) && At(s, last, Pos(s, last));
    forall p: nat | p < |s'.order| ensures ChainAt(s', p) { assert ChainAt(s, p); }
    forall p: nat | p < |s'.inserted| ensures ValueAt(s', p) { if p < |s.inserted| { assert ValueAt(s, p); } }
  }

  /** What a thread knows does not depend on the registers of others. */
  lemma SamePc(s: State, s': State, pc: PC)
    requires PcOK(s, pc) && s' == s.(pcs := s'.pcs)
    ensures PcOK(s', pc)
  {
  }

  /** The step of a thread that swings the tail and goes on at pc. */
  lemma SwingOK(s: State, t: nat, last: nat, next: nat, pc: PC)
    requires Inv(s) && t < |s.pcs| && WasTail(s, last) && Follows(s, last, Some(next))
    requires PcOK(SwingTail(s, last, next), pc)
    requires Unlinked(pc) ==> Unlinked(s.pcs[t]) && pc.n == s.pcs[t].n
    ensures StepOK(s, Goto(SwingTail(s, last, next), t, pc), t)
  {
    SwingShared(s, last, next);
    var swung := SwingTail(s, last, next);
    var s' := Goto(swung, t, pc);
    SamePc(swung, s', pc);
    forall p: nat | p < |s'.order| ensures ChainAt(s', p) { assert ChainAt(swung, p); }
    forall p: nat | p < |s'.inserted| ensures ValueAt(s', p) { assert ValueAt(swung, p); }
  }

  lemma LinkOK(s: State, t: nat)
    requires Inv(s) && t < |s.pcs| && s.pcs[t].PushLink?
    ensures StepOK(s, PushStep(s, t), t)
  {
    var s', n, last := PushStep(s, t), s.pcs[t].n, s.pcs[t].last;
    assert PcOK(s, s.pcs[t]);
    if s.heap[last].next.Some? {
      QuietOK(s, t, PushTail(n));
    } else {
      assert ChainAt(s, Pos(s, last));
      assert forall p: nat :: p < |s.order| ==> ChainAt(s, p);
      assert s'.order[|s.order|] == n && n != last;
      forall p: nat | p < |s'.order| ensures ChainAt(s', p) {
        if p < |s.order| { assert ChainAt(s, p); if p + 1 < |s.order| { assert ChainAt(s, p + 1); } }
      }
      forall p: nat | p < |s'.inserted| ensures ValueAt(s', p) { assert ValueAt(s, p); assert ChainAt(s, p + 1); }
      assert ChainAt(s', |s.order|) && ChainAt(s', |s.order| - 1);
    }
  }

  /** Reading the successor of a linked node. */
  lemma ReadNext(s: State, a: nat)
    requires Inv(s) && Linked(s, a)
    ensures Follows(s, a, s.heap[a].next)
    ensures Pos(s, a) < |s.order| && (s.heap[a].next.None? ==> Pos(s, a) == |s.order| - 1)
  {
    assert ChainAt(s, Pos(s, a));
    if s.heap[a].next.Some? { assert ChainAt(s, Pos(s, a) + 1); }
  }

  /** What a thread knows after reading the head or the tail. */
  lemma ReadEnds(s: State)
    requires Inv(s)
    ensures WasHead(s, s.head) && WasTail(s, s.tail) && Pos(s, s.head) == s.headPos && Pos(s, s.tail) == s.tailPos
  {
    assert ChainAt(s, s.headPos) && ChainAt(s, s.tailPos);
  }

  lemma PushReadOK(s: State, t: nat)
    requires Inv(s) && t < |s.pcs|
    requires s.pcs[t].PushTail? || s.pcs[t].PushNext? || s.pcs[t].PushCheck?
    ensures StepOK(s, PushStep(s, t), t)
  {
    assert PcOK(s, s.pcs[t]);
    ReadEnds(s);
    if s.pcs[t].PushNext? { ReadNext(s, s.pcs[t].last); }
    QuietOK(s, t, PushStep(s, t).pcs[t]);
  }

  lemma PushSwingOK(s: State, t: nat)
    requires Inv(s) && t < |s.pcs| && (s.pcs[t].PushSwing? || s.pcs[t].PushHelp?)
    ensures StepOK(s, PushStep(s, t), t)
  {
    assert PcOK(s, s.pcs[t]);
    match s.pcs[t]
    case PushSwing(n, last) =>
      SwingOK(s, t, last, n, Pushed(n));
    case PushHelp(n, last, next) => SwingOK(s, t, last, next.value, PushTail(n));
  }

  lemma PushOK(s: State, t: nat)
    requires Inv(s) && t < |s.pcs| && Pushing(s.pcs[t])
    ensures StepOK(s, PushStep(s, t), t)
  {
    if s.pcs[t].PushLink? { LinkOK(s, t); }
    else if s.pcs[t].PushSwing? || s.pcs[t].PushHelp? { PushSwingOK(s, t); }
    else { PushReadOK(s, t); }
  }

  lemma PopCasOK(s: State, t: nat)
    requires Inv(s) && t < |s.pcs| && s.pcs[t].PopCas? && s.head == s.pcs[t].first
    ensures StepOK(s, PopStep(s, t), t)
    ensures s.headPos < s.tailPos && s.pcs[t].value == s.inserted[s.headPos]
  {
    assert PcOK(s, s.pcs[t]);
    var s', first, next := PopStep(s, t), s.pcs[t].first, s.pcs[t].next.value;
    assert ChainAt(s, s.headPos) && At(s, first, Pos(s, first)) && At(s, next, Pos(s, next));
    assert ValueAt(s, s.headPos);
    forall p: nat | p < |s'.order| ensures ChainAt(s', p) { assert ChainAt(s, p); }
    forall p: nat | p < |s'.inserted| ensures ValueAt(s', p) { assert ValueAt(s, p); }
  }

  lemma PopReadOK(s: State, t: nat)
    requires Inv(s) && t < |s.pcs| && (s.pcs[t].PopHead? || s.pcs[t].PopTail? || s.pcs[t].PopNext?)
    ensures StepOK(s, PopStep(s, t), t)
  {
    assert PcOK(s, s.pcs[t]);
    ReadEnds(s);
    if s.pcs[t].PopNext? {
      ReadNext(s, s.pcs[t].first);
      assert At(s, s.pcs[t].first, Pos(s, s.pcs[t].first)) && At(s, s.pcs[t].last, Pos(s, s.pcs[t].last));
    }
    QuietOK(s, t, PopStep(s, t).pcs[t]);
  }

  lemma PopTestOK(s: State, t: nat)
    requires Inv(s) && t < |s.pcs| && (s.pcs[t].PopCheck? || s.pcs[t].PopSentinel? || s.pcs[t].PopValue?)
    ensures StepOK(s, PopStep(s, t), t)
  {
    assert PcOK(s, s.pcs[t]);
    if s.pcs[t].PopCheck? {
      assert At(s, s.pcs[t].first, Pos(s, s.pcs[t].first)) && At(s, s.pcs[t].last, Pos(s, s.pcs[t].last));
    }
    QuietOK(s, t, PopStep(s, t).pcs[t]);
  }

  lemma PopOK(s: State, t: nat)
    requires Inv(s) && t < |s.pcs| && !Pushing(s.pcs[t]) && !Resting(s.pcs[t])
    ensures StepOK(s, PopStep(s, t), t)
  {
    assert PcOK(s, s.pcs[t]);
    match s.pcs[t]
    case PopSwing(last, next) => SwingOK(s, t, last, next.value, PopHead);
    case PopCas(first, next, value) =>
      if s.head == first { PopCasOK(s, t); } else { QuietOK(s, t, PopHead); }
    case PopCheck(_, _, _, _) => PopTestOK(s, t);
    case PopSentinel(_, _, _) => PopTestOK(s, t);
    case PopValue(_, _) => PopTestOK(s, t);
    case _ => PopReadOK(s, t);
  }

  lemma StartOK(s: State, t: nat, c: Choice)
    requires Inv(s) && t < |s.pcs| && Resting(s.pcs[t])
    ensures StepOK(s, Step(s, t, c), t)
  {
    var s' := Step(s, t, c);
    forall p: nat | p < |s'.order| ensures ChainAt(s', p) { assert ChainAt(s, p); }
    forall p: nat | p < |s'.inserted| ensures ValueAt(s', p) { assert ValueAt(s, p) && ChainAt(s, p + 1); }
  }

  lemma ThreadOK(s: State, t: nat, c: Choice)
    requires Inv(s) && t < |s.pcs|
    ensures StepOK(s, Step(s, t, c), t)
  {
    if Resting(s.pcs[t]) { StartOK(s, t, c); }
    else if Pushing(s.pcs[t]) { PushOK(s, t); }
    else { PopOK(s, t); }
  }

  lemma StepInv(s: State, t: nat, c: Choice)
    requires Inv(s)
    ensures Inv(Step(s, t, c))
  {
    if t < |s.pcs| {
      ThreadOK(s, t, c);
      var s' := Step(s, t, c);
      forall u: nat | u < |s.pcs| && u != t
        ensures PcOK(s', s'.pcs[u]) && Apart(s'.pcs[t], s'.pcs[u]) && Apart(s'.pcs[u], s'.pcs[t])
      {
        assert PcOK(s, s.pcs[u]) && Apart(s.pcs[u], s.pcs[t]);
        OtherStable(s, s', t, u);
      }
    }
  }

  lemma {:induction false} Reachable(s: State, sched: seq<(nat, Choice)>)
    requires Init(s)
    ensures Inv(Exec(s, sched))
    decreases |sched|
  {
    if sched != [] {
      var n := |sched| - 1;
      Reachable(s, sched[..n]);
      StepInv(Exec(s, sched[..n]), sched[n].0, sched[n].1);
    }
  }

  // ---------------------------------------------------------------- linearizability

  /** The values in the queue, oldest first: those of the nodes after the head, up to the tail. */
  ghost function Contents(s: State): seq<int> {
    if s.headPos <= s.tailPos < |s.order| then
      seq(s.tailPos - s.headPos, i requires 0 <= i < s.tailPos - s.headPos => ValueOf(s, s.order[s.headPos + 1 + i]))
    else []
  }

  /** The tail swings in this step. */
  ghost predicate Swings(s: State, t: nat)
    requires t < |s.pcs|
  {
    var pc := s.pcs[t];
    (pc.PushSwing? || pc.PushHelp? || pc.PopSwing?) && pc.last == s.tail
  }

  ghost predicate Removes(s: State, t: nat)
    requires t < |s.pcs|
  {
    s.pcs[t].PopCas? && s.pcs[t].first == s.head
  }

  lemma ContentsAre(s: State)
    requires Inv(s)
    ensures Contents(s) == s.inserted[s.headPos..]
  {
    forall i | 0 <= i < |Contents(s)| ensures Contents(s)[i] == s.inserted[s.headPos + i] {
      assert ValueAt(s, s.headPos + i);
    }
  }

  /** The step changes the contents as its linearization point demands, and not otherwise. */
  ghost predicate Atomic(s: State, s': State, t: nat)
    requires t < |s.pcs| && t < |s'.pcs|
  {
    if Swings(s, t) then
      && s.tailPos + 1 < |s.order| && s'.tailPos == s.tailPos + 1
      && Contents(s') == Contents(s) + [ValueOf(s, s.order[s.tailPos + 1])]
    else if Removes(s, t) then
      Contents(s) != [] && Contents(s') == Contents(s)[1..] && s'.pcs[t] == Popped(Contents(s)[0])
    else Contents(s') == Contents(s) && s'.tailPos == s.tailPos
  }

  lemma SwingHistory(s: State, t: nat, c: Choice)
    requires Inv(s) && t < |s.pcs| && Swings(s, t)
    ensures var s' := Step(s, t, c);
            && t < |s'.pcs| && s'.headPos == s.headPos && s'.tailPos == s.tailPos + 1 && s'.order == s.order
            && s.inserted <= s'.inserted && |s'.inserted| == |s.inserted| + 1
  {
    assert PcOK(s, s.pcs[t]);
  }

  lemma SwingAtomic(s: State, t: nat, c: Choice)
    requires Inv(s) && Inv(Step(s, t, c)) && t < |s.pcs| && Swings(s, t)
    ensures t < |Step(s, t, c).pcs| && Atomic(s, Step(s, t, c), t)
  {
    var s' := Step(s, t, c);
    SwingHistory(s, t, c);
    ThreadOK(s, t, c);
    ContentsAre(s);
    ContentsAre(s');
    assert ValueAt(s', s.tailPos) && ChainAt(s, s.tailPos + 1);
    assert s'.inserted[s.headPos..] == s.inserted[s.headPos..] + [s'.inserted[s.tailPos]];
  }

  lemma RemoveAtomic(s: State, t: nat, c: Choice)
    requires Inv(s) && Inv(Step(s, t, c)) && t < |s.pcs| && Removes(s, t)
    ensures t < |Step(s, t, c).pcs| && Atomic(s, Step(s, t, c), t)
  {
    PopCasOK(s, t);
    ContentsAre(s);
    ContentsAre(Step(s, t, c));
  }

  lemma QuietHistory(s: State, t: nat, c: Choice)
    requires t < |s.pcs| && !Swings(s, t) && !Removes(s, t)
    ensures var s' := Step(s, t, c);
            t < |s'.pcs| && s'.inserted == s.inserted && s'.headPos == s.headPos && s'.tailPos == s.tailPos
  {
  }

  /** Swinging the tail puts the value of exactly one linked node at the back; a successful swap of the
      head takes the front value off, and the pop returns that value; no other step changes the queue. */
  lemma StepsAreAtomic(s: State, sched: seq<(nat, Choice)>, t: nat, c: Choice)
    requires Init(s) && t < |Exec(s, sched).pcs|
    ensures var r := Exec(s, sched);
            t < |Step(r, t, c).pcs| && Atomic(r, Step(r, t, c), t)
  {
    var r := Exec(s, sched);
    var r' := Step(r, t, c);
    Reachable(s, sched);
    StepInv(r, t, c);
    if Swings(r, t) { SwingAtomic(r, t, c); }
    else if Removes(r, t) { RemoveAtomic(r, t, c); }
    else {
      QuietHistory(r, t, c);
      ContentsAre(r);
      ContentsAre(r');
    }
  }

  /** A push that has returned has its node behind the tail, and one that has yet to link its node does
      not: so each push puts its value in exactly once, between its call and its return. */
  lemma PushTakesEffectInside(s: State, sched: seq<(nat, Choice)>, t: nat)
    requires Init(s) && t < |Exec(s, sched).pcs|
    ensures var r := Exec(s, sched);
            var pc := r.pcs[t];
            && (pc.Pushed? ==> exists p: nat :: p <= r.tailPos && At(r, pc.n, p))
            && (Unlinked(pc) ==> pc.n !in r.order)
            && (forall i, j :: 0 <= i < j < |r.order| ==> r.order[i] != r.order[j])
  {
    var r := Exec(s, sched);
    Reachable(s, sched);
    assert PcOK(r, r.pcs[t]);
    if r.pcs[t].Pushed? { assert At(r, r.pcs[t].n, Pos(r, r.pcs[t].n)); }
    forall p | 0 <= p < |r.order| ensures Linked(r, r.order[p]) {
      assert ChainAt(r, p);
    }
    forall i, j | 0 <= i < j < |r.order| ensures r.order[i] != r.order[j] {
      assert ChainAt(r, i) && ChainAt(r, j);
    }
  }

  /** Values leave in the order in which they came: what the pops have returned, followed by what is in
      the queue, is what the pushes have put in. */
  lemma FirstInFirstOut(s: State, sched: seq<(nat, Choice)>)
    requires Init(s)
    ensures var r := Exec(s, sched);
            && r.returned + Contents(r) == r.inserted
            && |r.returned| == r.headPos <= r.tailPos == |r.inserted| < |r.order| <= r.tailPos + 2
            && r.head == r.order[r.headPos] && r.tail == r.order[r.tailPos]
  {
    Reachable(s, sched);
    ContentsAre(Exec(s, sched));
  }

  /** A pop that reports an empty queue did read the tail at a moment at which the queue was empty, even
      if a node was linked behind the tail and the test on the head's value cut the helping short. */
  lemma ReportedEmptyWasEmpty(s: State, sched: seq<(nat, Choice)>, t: nat)
    requires Init(s) && t < |Exec(s, sched).pcs| && Exec(s, sched).pcs[t].PoppedEmpty?
    ensures Exec(s, sched).pcs[t].wasEmpty
  {
    Reachable(s, sched);
    KnowsEmpty(Exec(s, sched), Exec(s, sched).pcs[t]);
  }

  lemma KnowsEmpty(s: State, pc: PC)
    requires PcOK(s, pc) && pc.PoppedEmpty?
    ensures pc.wasEmpty
  {
  }

  /** What wasEmpty records. */
  lemma EmptyIsRecorded(s: State, sched: seq<(nat, Choice)>, t: nat, c: Choice)
    requires Init(s) && t < |Exec(s, sched).pcs| && Exec(s, sched).pcs[t].PopTail?
    ensures var r := Exec(s, sched);
            var pc := Step(r, t, c).pcs[t];
            pc.PopNext? && (pc.wasEmpty <==> Contents(r) == [])
  {
    Reachable(s, sched);
  }

  // ---------------------------------------------------------------- the calls of the schedule

  /** A call: the choice with which the schedule began it, the node that it allocated if it is a push, and
      the values that it has taken off the front. */
  datatype Call = Call(choice: Choice, node: nat, taken: seq<int>)

  /** The latest call of thread t: it begins with the entry that finds the thread resting. */
  ghost function CallOf(s: State, sched: seq<(nat, Choice)>, t: nat): Option<Call>
    decreases |sched|
  {
    if sched == [] then None
    else
      var n := |sched| - 1;
      NextCall(CallOf(s, sched[..n], t), Exec(s, sched[..n]), sched[n].0, sched[n].1, t)
  }

  ghost function NextCall(call: Option<Call>, r: State, u: nat, c: Choice, t: nat): Option<Call> {
    if u != t || t >= |r.pcs| then call
    else if Resting(r.pcs[t]) then Some(Call(c, |r.heap|, []))
    else if call.Some? then Some(Took(call.value, r, Step(r, t, c)))
    else None
  }

  ghost function Took(call: Call, s: State, s': State): Call {
    if s'.headPos == s.headPos then call
    else call.(taken := call.taken + [if Contents(s) == [] then EMPTY else Contents(s)[0]])
  }

  ghost predicate NodeOf(s: State, call: Call, n: nat) {
    call.choice.push && n == call.node < |s.heap| && s.heap[n].value == call.choice.value
  }

  /** A thread at pc is carrying out the call or has returned from it: a push is about its own node, which
      holds the value it was called with, and a pop returns the one value that it has taken off. */
  ghost predicate Serves(s: State, pc: PC, call: Call) {
    if Pushing(pc) || pc.Pushed? then NodeOf(s, call, pc.n) && call.taken == []
    else !pc.Idle? && !call.choice.push && call.taken == if pc.Popped? then [pc.value] else []
  }

  lemma ServesOther(s: State, s': State, t: nat, u: nat, call: Call)
    requires t < |s.pcs| && Guarantee(s, s', t) && u < |s.pcs| && Serves(s, s.pcs[u], call)
    ensures Serves(s', s.pcs[u], call)
  {
  }

  lemma ServesQuiet(s: State, t: nat, c: Choice, call: Call)
    requires t < |s.pcs| && !Resting(s.pcs[t]) && PcOK(s, s.pcs[t]) && Serves(s, s.pcs[t], call) && !Removes(s, t)
    ensures var s' := Step(s, t, c); t < |s'.pcs| && s'.headPos == s.headPos && Serves(s', s'.pcs[t], call)
  {
  }

  lemma ServesOwn(s: State, t: nat, c: Choice, call: Call)
    requires Inv(s) && t < |s.pcs| && !Resting(s.pcs[t]) && Serves(s, s.pcs[t], call)
    ensures var s' := Step(s, t, c); t < |s'.pcs| && Serves(s', s'.pcs[t], Took(call, s, s'))
  {
    assert PcOK(s, s.pcs[t]);
    if Removes(s, t) {
      StepInv(s, t, c);
      RemoveAtomic(s, t, c);
    } else {
      ServesQuiet(s, t, c, call);
    }
  }

  lemma ServesStart(s: State, t: nat, c: Choice)
    requires t < |s.pcs| && Resting(s.pcs[t])
    ensures t < |Step(s, t, c).pcs| && Serves(Step(s, t, c), Step(s, t, c).pcs[t], Call(c, |s.heap|, []))
  {
  }

  lemma ServesStep(s: State, u: nat, c: Choice, t: nat, call: Call)
    requires Inv(s) && t < |s.pcs| && Serves(s, s.pcs[t], call)
    ensures var s' := Step(s, u, c);
            t < |s'.pcs| && Serves(s', s'.pcs[t], NextCall(Some(call), s, u, c, t).value)
  {
    if u < |s.pcs| {
      ThreadOK(s, u, c);
      if u != t { ServesOther(s, Step(s, u, c), u, t, call); }
      else if Resting(s.pcs[t]) { ServesStart(s, t, c); }
      else { ServesOwn(s, t, c, call); }
    }
  }

  lemma OtherPc(s: State, u: nat, c: Choice, t: nat)
    requires Inv(s) && u != t
    ensures |Step(s, u, c).pcs| == |s.pcs| && (t < |s.pcs| ==> Step(s, u, c).pcs[t] == s.pcs[t])
  {
    if u < |s.pcs| { ThreadOK(s, u, c); }
  }

  /** A thread serves the call that it has been given, or has been given none and is idle. */
  ghost predicate Served(s: State, t: nat, call: Option<Call>)
    requires t < |s.pcs|
  {
    if call.Some? then Serves(s, s.pcs[t], call.value) else s.pcs[t].Idle?
  }

  lemma ServedStep(s: State, u: nat, c: Choice, t: nat, call: Option<Call>)
    requires Inv(s) && t < |s.pcs| && Served(s, t, call)
    ensures t < |Step(s, u, c).pcs| && Served(Step(s, u, c), t, NextCall(call, s, u, c, t))
  {
    if call.Some? { ServesStep(s, u, c, t, call.value); }
    else if u == t { ServesStart(s, t, c); }
    else { OtherPc(s, u, c, t); }
  }

  /** A thread that has been given a call carries it out and returns accordingly; one without is idle. */
  lemma {:induction false} CallServed(s: State, sched: seq<(nat, Choice)>, t: nat)
    requires Init(s) && t < |s.pcs|
    ensures t < |Exec(s, sched).pcs| && Served(Exec(s, sched), t, CallOf(s, sched, t))
    decreases |sched|
  {
    if sched != [] {
      var n := |sched| - 1;
      Reachable(s, sched[..n]);
      CallServed(s, sched[..n], t);
      ServedStep(Exec(s, sched[..n]), sched[n].0, sched[n].1, t, CallOf(s, sched[..n], t));
    }
  }

  /** The values with which the schedule has called push, in the order of the calls. */
  function Offered(s: State, sched: seq<(nat, Choice)>): seq<int>
    decreases |sched|
  {
    if sched == [] then []
    else
      var n := |sched| - 1;
      var r, (t, c) := Exec(s, sched[..n]), sched[n];
      Offered(s, sched[..n]) + if t < |r.pcs| && Resting(r.pcs[t]) && c.push then [c.value] else []
  }

  lemma HeapStep(s: State, t: nat, c: Choice)
    ensures var s' := Step(s, t, c);
            && |s'.heap| == |s.heap| + (if t < |s.pcs| && Resting(s.pcs[t]) && c.push then 1 else 0)
            && (forall a :: 0 <= a < |s.heap| ==> s'.heap[a].value == s.heap[a].value)
            && (|s'.heap| > |s.heap| ==> s'.heap[|s.heap|].value == c.value)
  {
  }

  /** There is one node for each call of push, with its value, behind the first sentinel. */
  lemma {:induction false} NodesAreCalls(s: State, sched: seq<(nat, Choice)>)
    requires Init(s)
    ensures var heap := Exec(s, sched).heap;
            && |heap| == |Offered(s, sched)| + 1
            && forall a :: 0 < a < |heap| ==> heap[a].value == Offered(s, sched)[a - 1]
    decreases |sched|
  {
    if sched != [] {
      var n := |sched| - 1;
      NodesAreCalls(s, sched[..n]);
      HeapStep(Exec(s, sched[..n]), sched[n].0, sched[n].1);
    }
  }

  lemma {:induction false} SentinelFirst(s: State, sched: seq<(nat, Choice)>)
    requires Init(s)
    ensures Exec(s, sched).order != [] && Exec(s, sched).order[0] == 0
    decreases |sched|
  {
    if sched != [] {
      var n := |sched| - 1;
      SentinelFirst(s, sched[..n]);
      Reachable(s, sched[..n]);
      if sched[n].0 < |Exec(s, sched[..n]).pcs| { ThreadOK(Exec(s, sched[..n]), sched[n].0, sched[n].1); }
    }
  }

  /** What went through the queue are values of different calls of push: the i-th value put in is that of
      call number calls[i], and no call is there twice. */
  lemma InsertedAreCalls(s: State, sched: seq<(nat, Choice)>) returns (calls: seq<nat>)
    requires Init(s)
    ensures var r := Exec(s, sched);
            && |calls| == |r.inserted|
            && (forall i :: 0 <= i < |calls| ==>
                  calls[i] < |Offered(s, sched)| && r.inserted[i] == Offered(s, sched)[calls[i]])
            && (forall i, j :: 0 <= i < j < |calls| ==> calls[i] != calls[j])
  {
    var r := Exec(s, sched);
    Reachable(s, sched);
    NodesAreCalls(s, sched);
    SentinelFirst(s, sched);
    calls := seq(|r.inserted|, i requires 0 <= i < |r.inserted| => CallAt(r, i));
    forall i: nat | i < |calls|
      ensures calls[i] < |Offered(s, sched)| && r.inserted[i] == Offered(s, sched)[calls[i]]
    {
      InsertedAt(r, i);
      assert r.heap[calls[i] + 1].value == Offered(s, sched)[calls[i]];
    }
    forall i: nat, j: nat | i < j < |calls| ensures calls[i] != calls[j] { CallsDiffer(r, i, j); }
  }

  lemma CallsDiffer(s: State, i: nat, j: nat)
    requires Inv(s) && i < j < |s.inserted| && s.order[0] == 0
    ensures CallAt(s, i) != CallAt(s, j)
  {
    InsertedAt(s, i);
    InsertedAt(s, j);
  }

  /** The call of push whose node is the i-th to be put in. */
  function CallAt(s: State, i: nat): nat {
    if i + 1 < |s.order| && s.order[i + 1] > 0 then s.order[i + 1] - 1 else 0
  }

  lemma InsertedAt(s: State, i: nat)
    requires Inv(s) && i < |s.inserted| && s.order[0] == 0
    ensures i + 1 < |s.order| && 0 < s.order[i + 1] < |s.heap| && s.inserted[i] == s.heap[s.order[i + 1]].value
    ensures s.heap[s.order[i + 1]].pos == Some(i + 1)
  {
    assert ValueAt(s, i) && ChainAt(s, 0) && ChainAt(s, i + 1);
  }

  // ---------------------------------------------------------------- a thread left alone

  /** At most n steps of thread t with nobody else moving, until it has returned. */
  function Alone(s: State, t: nat, n: nat): State
    decreases n
  {
    if n == 0 || t >= |s.pcs| || Resting(s.pcs[t]) then s else Alone(Step(s, t, Choice(false, 0)), t, n - 1)
  }

  function NextOf(s: State, a: nat): Option<nat> {
    if a < |s.heap| then s.heap[a].next else None
  }

  /** The steps of a push from its read of the tail: one round more if the tail lags behind the last node. */
  function PushLeft(s: State): nat {
    if s.tailPos + 1 < |s.order| then 9 else 5
  }

  function PopLeft(s: State): nat {
    if s.tailPos + 1 < |s.order| then 12 else 6
  }

  /** The steps that a call has left when nothing it has not yet seen changes. */
  function StepsLeft(s: State, pc: PC): nat {
    var push, pop := PushLeft(s), PopLeft(s);
    match pc
    case PushTail(_) => push
    case PushNext(_, last) => if last == s.tail then push - 1 else push + 3
    case PushCheck(_, last, next) => if last == s.tail && next == NextOf(s, last) then push - 2 else push + 2
    case PushLink(_, last) => if last == s.tail && NextOf(s, last).None? then push - 3 else push + 1
    case PushHelp(_, last, _) => if last == s.tail then push - 3 else push + 1
    case PushSwing(_, _) => 1
    case PopHead => pop
    case PopTail(first) => if first == s.head then pop - 1 else pop + 5
    case PopNext(first, last, _) => if first == s.head && last == s.tail then pop - 2 else pop + 4
    case PopCheck(first, last, _, _) => if first == s.head && last == s.tail then pop - 3 else pop + 3
    case PopSentinel(last, _, _) => if last == s.tail then pop - 4 else pop + 2
    case PopSwing(last, _) => if last == s.tail then pop - 5 else pop + 1
    case PopValue(first, _) => if first == s.head then 2 else pop + 2
    case PopCas(first, _, _) => if first == s.head then 1 else pop + 1
    case _ => 0
  }

  lemma PushNearer(s: State, t: nat)
    requires Inv(s) && t < |s.pcs| && Pushing(s.pcs[t])
    ensures var s' := PushStep(s, t); t < |s'.pcs| && StepsLeft(s', s'.pcs[t]) < StepsLeft(s, s.pcs[t])
  {
    assert PcOK(s, s.pcs[t]);
    ReadEnds(s);
    ReadNext(s, s.tail);
  }

  lemma PopNearer(s: State, t: nat)
    requires Inv(s) && t < |s.pcs| && InPop(s.pcs[t])
    ensures var s' := PopStep(s, t); t < |s'.pcs| && StepsLeft(s', s'.pcs[t]) < StepsLeft(s, s.pcs[t])
  {
    assert PcOK(s, s.pcs[t]);
    ReadEnds(s);
    ReadNext(s, s.tail);
  }

  predicate InPop(pc: PC) {
    !Pushing(pc) && !Resting(pc)
  }

  lemma {:induction false} Returns(s: State, t: nat, n: nat)
    requires Inv(s) && t < |s.pcs| && n >= StepsLeft(s, s.pcs[t])
    ensures t < |Alone(s, t, n).pcs| && Resting(Alone(s, t, n).pcs[t])
    decreases n
  {
    if !Resting(s.pcs[t]) {
      if Pushing(s.pcs[t]) { PushNearer(s, t); } else { PopNearer(s, t); }
      StepInv(s, t, Choice(false, 0));
      Returns(Step(s, t, Choice(false, 0)), t, n - 1);
    }
  }

  /** Obstruction freedom: from any moment of a run, a thread that is left alone returns from its call
      within 17 steps, wherever the others have stopped. */
  lemma AloneReturns(s: State, sched: seq<(nat, Choice)>, t: nat)
    requires Init(s) && t < |Exec(s, sched).pcs|
    ensures var r := Alone(Exec(s, sched), t, 17);
            t < |r.pcs| && Resting(r.pcs[t])
  {
    var enough: nat :| enough == 17;
    Reachable(s, sched);
    Returns(Exec(s, sched), t, enough);
  }
}
