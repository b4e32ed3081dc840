/** The lock-free stack whose nodes are reclaimed with hazard pointers.  Addresses are reused once a
    node is destroyed, and a node's next field becomes the link of the retired list.  Every access to
    the head, to an announcement slot or to a node that other threads can reach is one step. */
module HazptrStack {
  import opened Options

  type Ptr = Option<nat>

  /** Unused: not allocated.  Private: being pushed by t.  Popped, Retired: taken off the stack by t. */
  datatype Status = Unused | Private(t: nat) | Stacked | Popped(t: nat) | Retired(t: nat)

  datatype Node = Node(val: int, next: Ptr, length: nat, status: Status)

  /** A thread's announcement and its intrusive list of retired nodes; list is history: its nodes. */
  datatype Local = Local(announcement: Ptr, head: Ptr, size: nat, list: seq<nat>)

  datatype Op = Push(p: nat) | Pop | Size

  datatype Result = Pushed | Empty | Value(v: int) | Length(n: nat)

  datatype PC =
    | Idle
    | AcquireLoad(op: Op)
    | AcquireStore(op: Op, r: Ptr)
    | AcquireCheck(op: Op, r: Ptr)
    | PushLink(p: nat, h: Ptr)
    | PushLength(p: nat, from: nat)
    | PushCas(p: nat, h: Ptr)
    | PopNext(p: nat)
    | PopCas(p: nat, next: Ptr)
    | PopValue(p: nat, top: int)                // top is history: the value on top when p was popped
    | PopRetire(p: nat, res: Result)
    | Scan(res: Result, announced: set<nat>, i: nat)
    | CleanHead(res: Result, announced: set<nat>)
    | CleanRest(res: Result, announced: set<nat>, prev: nat, cur: Ptr, k: nat)   // k is history: cur's index
    | SizeRead(p: nat, size: nat)               // size is history: the stack's size at the validation
    | Release(res: Result)

  /** stack is history: the nodes on the stack, top first. */
  datatype State = State(head: Ptr, nodes: seq<Node>, locals: seq<Local>, pcs: seq<PC>, stack: seq<nat>)

  /** What the schedule decides: the operation an idle thread starts, the address and value of a new
      node, whether a weak compare-and-swap fails spuriously, whether it is time to scan. */
  datatype Choice = Choice(push: bool, pop: bool, addr: nat, val: int, spurious: bool, eject: bool)

  function SetPc(s: State, t: nat, pc: PC): State
    requires t < |s.pcs|
  {
    s.(pcs := s.pcs[t := pc])
  }

  function SetNode(s: State, a: nat, n: Node): State
    requires a < |s.nodes|
  {
    s.(nodes := s.nodes[a := n])
  }

  function SetLocal(s: State, t: nat, l: Local): State
    requires t < |s.locals|
  {
    s.(locals := s.locals[t := l])
  }

  predicate Sized(s: State) {
    |s.locals| == |s.pcs|
  }

  /** new Node(val): any unused address, or a new one. */
  function Allocate(s: State, t: nat, c: Choice): (State, nat) {
    var n := Node(c.val, None, 1, Private(t));
    if c.addr < |s.nodes| && s.nodes[c.addr].status.Unused? then (SetNode(s, c.addr, n), c.addr)
    else (s.(nodes := s.nodes + [n]), |s.nodes|)
  }

  function StartStep(s: State, t: nat, c: Choice): State
    requires t < |s.pcs|
  {
    if c.push then
      var (s', p) := Allocate(s, t, c);
      SetPc(s', t, AcquireLoad(Push(p)))
    else SetPc(s, t, AcquireLoad(if c.pop then Pop else Size))
  }

  /** acquire(head): announce what head points to until head has not changed. */
  function AcquireStep(s: State, t: nat): State
    requires t < |s.pcs| && Sized(s)
  {
    match s.pcs[t]
    case AcquireLoad(op) => SetPc(s, t, AcquireStore(op, s.head))
    case AcquireStore(op, r) =>
      SetPc(SetLocal(s, t, s.locals[t].(announcement := r)), t, AcquireCheck(op, r))
    case AcquireCheck(op, r) =>
      SetPc(s, t,
            if s.head != r then AcquireLoad(op)
            else match op
              case Push(p) => PushLink(p, r)
              case Pop => if r.None? then Idle else PopNext(r.value)
              case Size => if r.None? then Release(Length(0)) else SizeRead(r.value, |s.stack|))
    case _ => s
  }

  function PushStep(s: State, t: nat, c: Choice): State
    requires t < |s.pcs|
  {
    match s.pcs[t]
    case PushLink(p, h) =>
      if p >= |s.nodes| then s
      else SetPc(SetNode(s, p, s.nodes[p].(next := h, length := 1)), t,
                 if h.Some? then PushLength(p, h.value) else PushCas(p, h))
    case PushLength(p, h) =>
      if p >= |s.nodes| || h >= |s.nodes| then s
      else SetPc(SetNode(s, p, s.nodes[p].(length := s.nodes[h].length + 1)), t, PushCas(p, Some(h)))
    case PushCas(p, h) =>
      if p >= |s.nodes| then s
      else if s.head == s.nodes[p].next && !c.spurious then
        SetPc(SetNode(s, p, s.nodes[p].(status := Stacked)), t, Release(Pushed))
        .(head := Some(p), stack := [p] + s.stack)
      else SetPc(SetNode(s, p, s.nodes[p].(next := s.head)), t, AcquireLoad(Push(p)))
    case _ => s
  }

  function PopStep(s: State, t: nat, c: Choice): State
    requires t < |s.pcs| && Sized(s)
  {
    match s.pcs[t]
    case PopNext(p) => if p >= |s.nodes| then s else SetPc(s, t, PopCas(p, s.nodes[p].next))
    case PopCas(p, next) =>
      if p < |s.nodes| && s.stack != [] && s.head == Some(p) && !c.spurious then
        SetPc(SetNode(s, p, s.nodes[p].(status := Popped(t))), t,
              PopValue(p, if s.stack[0] < |s.nodes| then s.nodes[s.stack[0]].val else 0))
        .(head := next, stack := s.stack[1..])
      else SetPc(s, t, AcquireLoad(Pop))
    case PopValue(p, _) => if p >= |s.nodes| then s else SetPc(s, t, PopRetire(p, Value(s.nodes[p].val)))
    case PopRetire(p, res) =>
      if p >= |s.nodes| then s
      else
        var l := s.locals[t];
        SetPc(SetLocal(SetNode(s, p, s.nodes[p].(next := l.head, status := Retired(t))), t,
                       l.(head := Some(p), size := l.size + 1, list := [p] + l.list)), t,
              if c.eject then Scan(res, {}, 0) else Release(res))
    case SizeRead(p, _) => if p >= |s.nodes| then s else SetPc(s, t, Release(Length(s.nodes[p].length)))
    case Release(_) => SetPc(SetLocal(s, t, s.locals[t].(announcement := None)), t, Idle)
    case _ => s
  }

  /** scan_slots, one slot at a time, and RetiredList::cleanup, one node at a time. */
  function EjectStep(s: State, t: nat): State
    requires t < |s.pcs| && Sized(s)
  {
    var l := s.locals[t];
    match s.pcs[t]
    case Scan(res, announced, i) =>
      SetPc(s, t,
            if i >= |s.locals| then CleanHead(res, announced)
            else match s.locals[i].announcement
              case Some(a) => Scan(res, announced + {a}, i + 1)
              case None => Scan(res, announced, i + 1))
    case CleanHead(res, announced) =>
      if l.head.None? then SetPc(s, t, Release(res))
      else if l.head.value >= |s.nodes| || l.list == [] || l.size == 0 then s
      else if l.head.value in announced then
        SetPc(s, t, CleanRest(res, announced, l.head.value, s.nodes[l.head.value].next, 1))
      else
        SetLocal(SetNode(s, l.head.value, s.nodes[l.head.value].(status := Unused)), t,
                 l.(head := s.nodes[l.head.value].next, size := l.size - 1, list := l.list[1..]))
    case CleanRest(res, announced, prev, cur, k) =>
      if cur.None? then SetPc(s, t, Release(res))
      else if cur.value >= |s.nodes| || prev >= |s.nodes| || k >= |l.list| || l.size == 0 then s
      else if cur.value in announced then
        SetPc(s, t, CleanRest(res, announced, cur.value, s.nodes[cur.value].next, k + 1))
      else
        var next := s.nodes[cur.value].next;
        var s1 := SetNode(s, prev, s.nodes[prev].(next := next));
        var s2 := SetNode(s1, cur.value, s1.nodes[cur.value].(status := Unused));
        SetPc(SetLocal(s2, t, l.(size := l.size - 1, list := l.list[..k] + l.list[k + 1..])), t,
              CleanRest(res, announced, prev, next, k))
    case _ => s
  }

  function Step(s: State, t: nat, c: Choice): State {
    if t >= |s.pcs| || !Sized(s) then s
    else
      var pc := s.pcs[t];
      if pc.Idle? then StartStep(s, t, c)
      else if pc.AcquireLoad? || pc.AcquireStore? || pc.AcquireCheck? then AcquireStep(s, t)
      else if pc.PushLink? || pc.PushLength? || pc.PushCas? then PushStep(s, t, c)
      else if pc.Scan? || pc.CleanHead? || pc.CleanRest? then EjectStep(s, t)
      else PopStep(s, t, c)
  }

  function Exec(s: State, sched: seq<(nat, Choice)>): State
    decreases |sched|
  {
    if sched == [] then s
    else
      var last := sched[|sched| - 1];
      Step(Exec(s, sched[..|sched| - 1]), last.0, last.1)
  }

  predicate Init(s: State) {
    && s.head == None && s.nodes == [] && s.stack == [] && Sized(s)
    && forall t :: 0 <= t < |s.pcs| ==> s.pcs[t] == Idle && s.locals[t] == Local(None, None, 0, [])
  }
}
