/** The concurrent sorted doubly linked list of lockfree-flock/SortedList.h, over locks taken as plain
    mutual exclusion.  Every load, store and lock operation on a shared word is one step; threads
    traverse the list without locks. */
module SortedList {
  import opened Options

  const ROOT: nat := 0
  const TAIL: nat := 1

  /** A position in one of the versions of the list. */
  datatype Place = Place(version: nat, index: nat)

  /** gone is history: where the node was in the last version of the list that has it. */
  datatype Node = Node(isEnd: bool, key: int, next: Option<nat>, prev: Option<nat>, removed: bool,
                       lock: Option<nat>, gone: Option<Place>)

  datatype Op = Insert | Remove

  /** since and made are history: the number of the version current when the call began, and how many
      versions the call has made. */
  datatype Call = Call(op: Op, key: int, since: nat, made: nat)

  datatype PC =
    | Idle
    | Start(c: Call)
    | Find(c: Call, nxt: nat, seen: Place)       // seen is history: where nxt was when it was reached
    | ReadPrev(c: Call, loc: nat)
    | TryPrev(c: Call, loc: nat, p: nat)
    | CheckRemoved(c: Call, loc: nat, p: nat)
    | CheckNext(c: Call, loc: nat, p: nat)
    | InsLink(c: Call, loc: nat, p: nat)
    | InsBack(c: Call, loc: nat, p: nat, n: nat)
    | TryLoc(c: Call, loc: nat, p: nat)
    | RemNext(c: Call, loc: nat, p: nat)
    | RemMark(c: Call, loc: nat, p: nat, next: nat)
    | RemUnlink(c: Call, loc: nat, p: nat, next: nat)
    | RemBack(c: Call, loc: nat, p: nat, next: nat)
    | UnlockLoc(c: Call, loc: nat, p: nat)
    | Unlock(c: Call, p: nat, ok: bool)
    | Done(c: Call)
    | Missed(c: Call, seen: Place)

  /** versions is history: the nodes of the list, root and tail included, after every change to it. */
  datatype State = State(heap: seq<Node>, pcs: seq<PC>, versions: seq<seq<nat>>)

  datatype Choice = Choice(op: Op, key: int)

  function Cur(s: State): seq<nat> {
    if s.versions == [] then [] else s.versions[|s.versions| - 1]
  }

  function IndexFrom(o: seq<nat>, a: nat, k: nat): (i: nat)
    ensures (exists j :: k <= j < |o| && o[j] == a) ==> i < |o| && o[i] == a
    decreases |o| - k
  {
    if k >= |o| || o[k] == a then k else IndexFrom(o, a, k + 1)
  }

  function IndexOf(o: seq<nat>, a: nat): (i: nat)
    ensures a in o ==> i < |o| && o[i] == a
  {
    IndexFrom(o, a, 0)
  }

  function PutAfter(o: seq<nat>, i: nat, n: nat): seq<nat>
    requires i < |o|
  {
    seq(|o| + 1, j requires 0 <= j <= |o| => if j <= i then o[j] else if j == i + 1 then n else o[j - 1])
  }

  function InsertAfter(o: seq<nat>, a: nat, n: nat): seq<nat> {
    if a in o then PutAfter(o, IndexOf(o, a), n) else o
  }

  function RemoveAt(o: seq<nat>, i: nat): seq<nat>
    requires i < |o|
  {
    seq(|o| - 1, j requires 0 <= j < |o| - 1 => if j < i then o[j] else o[j + 1])
  }

  function Without(o: seq<nat>, a: nat): seq<nat> {
    if a in o then RemoveAt(o, IndexOf(o, a)) else o
  }

  function Goto(s: State, t: nat, pc: PC): State
    requires t < |s.pcs|
  {
    s.(pcs := s.pcs[t := pc])
  }

  function Set(s: State, a: nat, n: Node): State
    requires a < |s.heap|
  {
    s.(heap := s.heap[a := n])
  }

  /** Where the successor of a node is, or was when the node left the list. */
  function NextPlace(s: State, a: nat): Place
    requires a < |s.heap|
  {
    match s.heap[a].gone
    case Some(g) => Place(g.version, g.index + 1)
    case None => Place(if |s.versions| > 0 then |s.versions| - 1 else 0, IndexOf(Cur(s), a) + 1)
  }

  /** The key test of find_location. */
  predicate Stops(n: Node, key: int) {
    n.isEnd || n.key >= key
  }

  function FindStep(s: State, t: nat): State
    requires t < |s.pcs|
  {
    match s.pcs[t]
    case Start(c) =>
      if ROOT >= |s.heap| || s.heap[ROOT].next.None? then s
      else Goto(s, t, Find(c, s.heap[ROOT].next.value, NextPlace(s, ROOT)))
    case Find(c, nxt, seen) =>
      if nxt >= |s.heap| then s
      else if Stops(s.heap[nxt], c.key) then
        if c.op.Remove? && (s.heap[nxt].isEnd || s.heap[nxt].key != c.key) then Goto(s, t, Missed(c, seen))
        else Goto(s, t, ReadPrev(c, nxt))
      else if s.heap[nxt].next.None? then s
      else Goto(s, t, Find(c, s.heap[nxt].next.value, NextPlace(s, nxt)))
    case ReadPrev(c, loc) =>
      if loc >= |s.heap| || s.heap[loc].prev.None? then s else Goto(s, t, TryPrev(c, loc, s.heap[loc].prev.value))
    case TryPrev(c, loc, p) =>
      if p >= |s.heap| then s
      else if (c.op.Insert? && !s.heap[p].isEnd && s.heap[p].key >= c.key) || s.heap[p].lock.Some? then
        Goto(s, t, Start(c))
      else Goto(Set(s, p, s.heap[p].(lock := Some(t))), t, CheckRemoved(c, loc, p))
    case _ => s
  }

  function LockedStep(s: State, t: nat): State
    requires t < |s.pcs|
  {
    match s.pcs[t]
    case CheckRemoved(c, loc, p) =>
      if p >= |s.heap| then s
      else Goto(s, t, if s.heap[p].removed then Unlock(c, p, false) else CheckNext(c, loc, p))
    case CheckNext(c, loc, p) =>
      if p >= |s.heap| then s
      else Goto(s, t, if s.heap[p].next != Some(loc) then Unlock(c, p, false)
                      else if c.op.Insert? then InsLink(c, loc, p)
                      else TryLoc(c, loc, p))
    case InsLink(c, loc, p) =>
      if p >= |s.heap| then s
      else
        var n := |s.heap|;
        var grown := s.heap + [Node(false, c.key, Some(loc), Some(p), false, None, None)];
        Goto(s.(heap := grown[p := s.heap[p].(next := Some(n))], versions := s.versions + [InsertAfter(Cur(s), p, n)]),
             t, InsBack(c.(made := c.made + 1), loc, p, n))
    case InsBack(c, loc, p, n) =>
      if loc >= |s.heap| then s
      else Goto(Set(s, loc, s.heap[loc].(prev := Some(n))), t, Unlock(c, p, true))
    case TryLoc(c, loc, p) =>
      if loc >= |s.heap| then s
      else if s.heap[loc].lock.Some? then Goto(s, t, Unlock(c, p, false))
      else Goto(Set(s, loc, s.heap[loc].(lock := Some(t))), t, RemNext(c, loc, p))
    case UnlockLoc(c, loc, p) =>
      if loc >= |s.heap| then s else Goto(Set(s, loc, s.heap[loc].(lock := None)), t, Unlock(c, p, true))
    case Unlock(c, p, ok) =>
      if p >= |s.heap| then s
      else Goto(Set(s, p, s.heap[p].(lock := None)), t, if ok then Done(c) else Start(c))
    case _ => s
  }

  function RemoveStep(s: State, t: nat): State
    requires t < |s.pcs|
  {
    match s.pcs[t]
    case RemNext(c, loc, p) =>
      if loc >= |s.heap| || s.heap[loc].next.None? then s
      else Goto(s, t, RemMark(c, loc, p, s.heap[loc].next.value))
    case RemMark(c, loc, p, next) =>
      if loc >= |s.heap| then s
      else Goto(Set(s, loc, s.heap[loc].(removed := true)), t, RemUnlink(c, loc, p, next))
    case RemUnlink(c, loc, p, next) =>
      if p >= |s.heap| || loc >= |s.heap| || p == loc then s
      else
        var here := Place(if |s.versions| > 0 then |s.versions| - 1 else 0, IndexOf(Cur(s), loc));
        Goto(s.(heap := s.heap[p := s.heap[p].(next := Some(next))][loc := s.heap[loc].(gone := Some(here))],
                versions := s.versions + [Without(Cur(s), loc)]),
             t, RemBack(c.(made := c.made + 1), loc, p, next))
    case RemBack(c, loc, p, next) =>
      if next >= |s.heap| then s
      else Goto(Set(s, next, s.heap[next].(prev := Some(p))), t, UnlockLoc(c, loc, p))
    case _ => s
  }

  predicate Resting(pc: PC) {
    pc.Idle? || pc.Done? || pc.Missed?
  }

  predicate Finding(pc: PC) {
    pc.Start? || pc.Find? || pc.ReadPrev? || pc.TryPrev?
  }

  predicate Removing(pc: PC) {
    pc.RemNext? || pc.RemMark? || pc.RemUnlink? || pc.RemBack?
  }

  function Step(s: State, t: nat, ch: Choice): State {
    if t >= |s.pcs| then s
    else if Resting(s.pcs[t]) then
      Goto(s, t, Start(Call(ch.op, ch.key, if |s.versions| > 0 then |s.versions| - 1 else 0, 0)))
    else if Finding(s.pcs[t]) then FindStep(s, t)
    else if Removing(s.pcs[t]) then RemoveStep(s, t)
    else LockedStep(s, t)
  }

  function Exec(s: State, sched: seq<(nat, Choice)>): State
    decreases |sched|
  {
    if sched == [] then s
    else
      var last := sched[|sched| - 1];
      Step(Exec(s, sched[..|sched| - 1]), last.0, last.1)
  }

  predicate Init(s: State) {
    && s.heap == [Node(true, 0, Some(TAIL), None, false, None, None),
                  Node(true, 0, None, Some(ROOT), false, None, None)]
    && s.versions == [[ROOT, TAIL]]
    && forall t :: 0 <= t < |s.pcs| ==> s.pcs[t] == Idle
  }

  // ---------------------------------------------------------------- the invariant

  predicate Linked(s: State, a: nat) {
    a < |s.heap| && s.heap[a].gone.None?
  }

  predicate HeldBy(s: State, a: nat, t: nat) {
    a < |s.heap| && s.heap[a].lock == Some(t)
  }

  /** A list of nodes from the root to the tail, in key order. */
  ghost predicate VersionOK(s: State, o: seq<nat>) {
    && |o| >= 2 && o[0] == ROOT && o[|o| - 1] == TAIL
    && (forall i :: 0 < i < |o| - 1 ==> TAIL < o[i] < |s.heap|)
    && Distinct(o) && Sorted(s, o)
  }

  ghost predicate Distinct(o: seq<nat>) {
    forall i, j :: 0 <= i < j < |o| ==> o[i] != o[j]
  }

  ghost predicate Sorted(s: State, o: seq<nat>)
    requires forall i :: 0 < i < |o| - 1 ==> o[i] < |s.heap|
  {
    forall i, j :: 0 < i < j < |o| - 1 ==> s.heap[o[i]].key <= s.heap[o[j]].key
  }

  ghost predicate VersionAt(s: State, v: nat) {
    v < |s.versions| && VersionOK(s, s.versions[v])
  }

  ghost predicate ChainAt(s: State, i: nat) {
    && i < |Cur(s)| && Linked(s, Cur(s)[i])
    && (i + 1 < |Cur(s)| ==> s.heap[Cur(s)[i]].next == Some(Cur(s)[i + 1]))
  }

  /** A node in version v is still linked, or left the list later. */
  ghost predicate PresentAt(s: State, v: nat, i: nat) {
    && v < |s.versions| && i < |s.versions[v]|
    && var a := s.versions[v][i];
       a < |s.heap| && (s.heap[a].gone.None? || s.heap[a].gone.value.version >= v)
  }

  ghost predicate NodeAt(s: State, a: nat) {
    && a < |s.heap|
    && var n := s.heap[a];
    && (n.isEnd <==> a <= TAIL)
    && (a != TAIL <==> n.next.Some?) && (n.next.Some? ==> n.next.value < |s.heap| && n.next.value != ROOT)
    && (a != ROOT <==> n.prev.Some?) && (n.prev.Some? ==> n.prev.value < |s.heap| && n.prev.value != TAIL)
    && (n.gone.None? ==> a in Cur(s))
    && (n.gone.Some? ==> n.removed && TAIL < a && Frozen(s, a))
    && (n.removed && n.gone.None? ==> Leaving(s, a))
  }

  /** A node that has left the list keeps the successor it had when it left. */
  ghost predicate Frozen(s: State, a: nat)
    requires a < |s.heap| && s.heap[a].gone.Some?
  {
    var g := s.heap[a].gone.value;
    && g.version < |s.versions| - 1 && g.index + 1 < |s.versions[g.version]|
    && s.versions[g.version][g.index] == a && s.heap[a].next == Some(s.versions[g.version][g.index + 1])
  }

  /** A node marked as removed whose unlinking is the next step of the thread that has it locked. */
  predicate Leaving(s: State, a: nat) {
    && a < |s.heap| && s.heap[a].lock.Some? && s.heap[a].lock.value < |s.pcs|
    && var pc := s.pcs[s.heap[a].lock.value];
       pc.RemUnlink? && pc.loc == a
  }

  /** prev inverts next, unless a thread is between its two writes. */
  ghost predicate PrevAt(s: State, i: nat) {
    && i + 1 < |Cur(s)| && Cur(s)[i + 1] < |s.heap|
    && (s.heap[Cur(s)[i + 1]].prev == Some(Cur(s)[i]) || Mending(s, Cur(s)[i], Cur(s)[i + 1]))
  }

  /** A thread has linked b behind a, and has yet to write the prev field of b. */
  predicate Mending(s: State, a: nat, b: nat) {
    && b < |s.heap| && s.heap[b].prev.Some?
    && var q := s.heap[b].prev.value;
    && q < |s.heap| && s.heap[q].lock.Some? && s.heap[q].lock.value < |s.pcs|
    && var pc := s.pcs[s.heap[q].lock.value];
       || (pc.InsBack? && pc.loc == b && pc.n == a && pc.p == q)
       || (pc.RemBack? && pc.next == b && pc.p == a && pc.loc == q)
  }

  ghost predicate ListOK(s: State) {
    && s.versions != []
    && (forall v: nat :: v < |s.versions| ==> VersionAt(s, v))
    && (forall i: nat :: i < |Cur(s)| ==> ChainAt(s, i))
    && (forall v: nat, i: nat :: v < |s.versions| && i < |s.versions[v]| ==> PresentAt(s, v, i))
    && (forall a: nat :: a < |s.heap| ==> NodeAt(s, a))
  }

  ghost predicate Inv(s: State) {
    && ListOK(s)
    && (forall i: nat :: i + 1 < |Cur(s)| ==> PrevAt(s, i))
    && (forall t: nat :: t < |s.pcs| ==> PcOK(s, t, s.pcs[t]))
    && (forall t: nat, u: nat :: t < |s.pcs| && u < |s.pcs| && t != u ==> Apart(s.pcs[t], s.pcs[u]))
  }

  predicate HasP(pc: PC) {
    pc.TryPrev? || pc.CheckRemoved? || pc.CheckNext? || pc.InsLink? || pc.InsBack? || pc.TryLoc?
    || pc.RemNext? || pc.RemMark? || pc.RemUnlink? || pc.RemBack? || pc.UnlockLoc? || pc.Unlock?
  }

  /** Nobody has a new node as a predecessor before its successor points back at it. */
  predicate Apart(pc: PC, other: PC) {
    pc.InsBack? ==> (HasP(other) ==> other.p != pc.n) && (other.InsBack? ==> other.n != pc.n)
  }

  /** What find_location promises about the node it returns. */
  predicate LocOK(s: State, c: Call, loc: nat) {
    && loc < |s.heap| && loc != ROOT && Stops(s.heap[loc], c.key)
    && (c.op.Remove? ==> !s.heap[loc].isEnd && s.heap[loc].key == c.key)
  }

  predicate BelowOK(s: State, c: Call, p: nat) {
    p < |s.heap| && p != TAIL && (c.op.Insert? ==> s.heap[p].isEnd || s.heap[p].key < c.key)
  }

  /** Thread t holds the linked node p, whose successor is b. */
  predicate Holding(s: State, t: nat, p: nat, b: nat) {
    HeldBy(s, p, t) && Linked(s, p) && !s.heap[p].removed && s.heap[p].next == Some(b)
  }

  /** Since the call began there was a version with nxt in it, right behind a node below the key. */
  ghost predicate Seen(s: State, c: Call, nxt: nat, seen: Place) {
    && c.since <= seen.version < |s.versions| && 0 < seen.index < |s.versions[seen.version]|
    && s.versions[seen.version][seen.index] == nxt
    && var below := s.versions[seen.version][seen.index - 1];
       below < |s.heap| && (below == ROOT || s.heap[below].key < c.key)
  }

  /** A new node that is linked in but that no prev field points at. */
  ghost predicate Sealed(s: State, n: nat, loc: nat) {
    && TAIL < n < |s.heap| && Linked(s, n) && s.heap[n].lock.None? && s.heap[n].next == Some(loc)
    && forall a :: 0 <= a < |s.heap| ==> s.heap[a].prev != Some(n)
  }

  /** What a thread knows at each point of its call. */
  ghost predicate PlaceOK(s: State, t: nat, pc: PC) {
    match pc
    case Idle => true
    case Done(_) => true
    case Start(_) => true
    case Find(c, nxt, seen) => Seen(s, c, nxt, seen)
    case Missed(c, seen) =>
      && c.since <= seen.version < |s.versions| && 0 < seen.index < |s.versions[seen.version]|
      && Seen(s, c, s.versions[seen.version][seen.index], seen) && c.op.Remove?
      && var a := s.versions[seen.version][seen.index];
         a < |s.heap| && (s.heap[a].isEnd || s.heap[a].key > c.key)
    case ReadPrev(c, loc) => LocOK(s, c, loc)
    case TryPrev(c, loc, p) => LocOK(s, c, loc) && p < |s.heap| && p != TAIL
    case CheckRemoved(c, loc, p) => LocOK(s, c, loc) && BelowOK(s, c, p) && HeldBy(s, p, t)
    case CheckNext(c, loc, p) =>
      && LocOK(s, c, loc) && BelowOK(s, c, p) && HeldBy(s, p, t) && Linked(s, p) && !s.heap[p].removed
    case InsLink(c, loc, p) => LocOK(s, c, loc) && BelowOK(s, c, p) && Holding(s, t, p, loc) && c.op.Insert?
    case InsBack(c, loc, p, n) => loc < |s.heap| && loc != ROOT && Holding(s, t, p, n) && Sealed(s, n, loc)
    case TryLoc(c, loc, p) => LocOK(s, c, loc) && Holding(s, t, p, loc) && c.op.Remove?
    case RemNext(c, loc, p) =>
      LocOK(s, c, loc) && c.op.Remove? && Holding(s, t, p, loc) && HeldBy(s, loc, t) && !s.heap[loc].removed
    case RemMark(c, loc, p, next) =>
      LocOK(s, c, loc) && c.op.Remove? && Holding(s, t, p, loc) && Holding(s, t, loc, next)
    case RemUnlink(c, loc, p, next) =>
      && LocOK(s, c, loc) && c.op.Remove? && Holding(s, t, p, loc) && HeldBy(s, loc, t)
      && s.heap[loc].gone.None? && s.heap[loc].removed && s.heap[loc].next == Some(next)
    case RemBack(c, loc, p, next) =>
      next < |s.heap| && next != ROOT && p != TAIL && Holding(s, t, p, next) && HeldBy(s, loc, t) && loc != p
    case UnlockLoc(c, loc, p) => HeldBy(s, p, t) && HeldBy(s, loc, t) && loc != p
    case Unlock(c, p, ok) => HeldBy(s, p, t)
  }

  /** A call makes its version when it links or unlinks its node. */
  predicate CallOK(s: State, pc: PC)
    requires !pc.Idle?
  {
    && pc.c.since < |s.versions|
    && pc.c.made == if pc.InsBack? || pc.RemBack? || pc.UnlockLoc? || (pc.Unlock? && pc.ok) || pc.Done? then 1 else 0
  }

  /** As one fact: the comparison keeps proofs that pass it on from being split into the cases of PlaceOK. */
  ghost predicate PcOK(s: State, t: nat, pc: PC) {
    ((!pc.Idle? ==> CallOK(s, pc)) && PlaceOK(s, t, pc)) == true
  }

  // ---------------------------------------------------------------- facts about the list

  lemma Place1(s: State, a: nat)
    requires ListOK(s) && Linked(s, a)
    ensures IndexOf(Cur(s), a) < |Cur(s)| && Cur(s)[IndexOf(Cur(s), a)] == a
    ensures a != TAIL ==> IndexOf(Cur(s), a) + 1 < |Cur(s)| && s.heap[a].next == Some(Cur(s)[IndexOf(Cur(s), a) + 1])
    ensures a == TAIL ==> IndexOf(Cur(s), a) == |Cur(s)| - 1
    ensures a == ROOT <==> IndexOf(Cur(s), a) == 0
  {
    assert NodeAt(s, a);
    assert VersionAt(s, |s.versions| - 1);
    assert ChainAt(s, IndexOf(Cur(s), a));
  }

  /** Two linked nodes with the same successor are the same node, and the successor is linked. */
  lemma OneBefore(s: State, a: nat, b: nat, c: nat)
    requires ListOK(s) && Linked(s, a) && Linked(s, b) && s.heap[a].next == Some(c) && s.heap[b].next == Some(c)
    requires a != TAIL && b != TAIL
    ensures a == b && Linked(s, c)
  {
    Place1(s, a);
    Place1(s, b);
    assert VersionAt(s, |s.versions| - 1);
    assert ChainAt(s, IndexOf(Cur(s), a) + 1);
  }

  lemma SuccLinked(s: State, a: nat)
    requires ListOK(s) && Linked(s, a) && a != TAIL
    ensures s.heap[a].next.Some? && Linked(s, s.heap[a].next.value) && s.heap[a].next.value != ROOT
  {
    Place1(s, a);
    assert ChainAt(s, IndexOf(Cur(s), a) + 1);
    assert NodeAt(s, a);
  }

  /** The successor of a node that thread t holds, has just been read as a place in the list. */
  lemma NextSeen(s: State, c: Call, a: nat)
    requires ListOK(s) && a < |s.heap| && a != TAIL && s.heap[a].next.Some? && c.since < |s.versions|
    requires s.heap[a].gone.None? || s.heap[a].gone.value.version >= c.since
    requires a == ROOT || s.heap[a].key < c.key
    ensures Seen(s, c, s.heap[a].next.value, NextPlace(s, a))
  {
    assert NodeAt(s, a);
    if s.heap[a].gone.None? { Place1(s, a); }
  }

  // ---------------------------------------------------------------- what other threads may do

  predicate MayLock(pc: PC, a: nat) {
    (pc.TryPrev? && pc.p == a) || (pc.TryLoc? && pc.loc == a)
  }

  predicate MayPoint(pc: PC, a: nat, prev: Option<nat>) {
    (pc.InsBack? && pc.loc == a && prev == Some(pc.n)) || (pc.RemBack? && pc.next == a && prev == Some(pc.p))
  }

  /** What a step of thread t may do to a node: it writes next, removed and gone only under its lock. */
  ghost predicate NodeKept(s: State, s': State, t: nat, a: nat)
    requires t < |s.pcs| && a < |s.heap| <= |s'.heap|
  {
    var n, n' := s.heap[a], s'.heap[a];
    && n'.isEnd == n.isEnd && n'.key == n.key
    && (n.gone.Some? ==> n'.gone == n.gone && n'.next == n.next)
    && (n.lock != Some(t) ==> n'.next == n.next && n'.removed == n.removed && n'.gone == n.gone)
    && (n.lock.Some? && n.lock != Some(t) ==> n'.lock == n.lock)
    && (n'.lock == n.lock || (n.lock.None? && MayLock(s.pcs[t], a)) || n.lock == Some(t))
    && (n'.prev == n.prev || MayPoint(s.pcs[t], a, n'.prev))
  }

  ghost predicate Guarantee(s: State, s': State, t: nat)
    requires t < |s.pcs|
  {
    && |s'.pcs| == |s.pcs| && s'.pcs == s.pcs[t := s'.pcs[t]]
    && |s.heap| <= |s'.heap| && s.versions <= s'.versions
    && (forall a: nat :: a < |s.heap| ==> NodeKept(s, s', t, a))
    && (forall a: nat :: |s.heap| <= a < |s'.heap| ==> s.pcs[t].InsLink? && s'.heap[a].prev == Some(s.pcs[t].p))
  }

  lemma SealedStable(s: State, s': State, t: nat, u: nat)
    requires t < |s.pcs| && Guarantee(s, s', t) && u < |s.pcs| && u != t && s.pcs[u].InsBack?
    requires ListOK(s) && PcOK(s, u, s.pcs[u]) && PcOK(s, t, s.pcs[t]) && Apart(s.pcs[u], s.pcs[t])
    ensures Sealed(s', s.pcs[u].n, s.pcs[u].loc)
  {
    var pc := s.pcs[u];
    assert NodeKept(s, s', t, pc.n);
    if s.pcs[t].TryLoc? && s.pcs[t].loc == pc.n {
      assert NodeAt(s, pc.p) && NodeAt(s, s.pcs[t].p);
      OneBefore(s, pc.p, s.pcs[t].p, pc.n);
    }
    forall a | 0 <= a < |s'.heap| ensures s'.heap[a].prev != Some(pc.n) {
      if a < |s.heap| { assert NodeKept(s, s', t, a); }
    }
  }

  lemma FindingStable(s: State, s': State, t: nat, u: nat)
    requires t < |s.pcs| && Guarantee(s, s', t) && u < |s.pcs| && u != t && PcOK(s, u, s.pcs[u])
    requires var pc := s.pcs[u]; Finding(pc) || Resting(pc)
    ensures PcOK(s', u, s.pcs[u])
  {
    var pc := s.pcs[u];
    if pc.Find? || pc.Missed? {
      var o := s.versions[pc.seen.version];
      assert NodeKept(s, s', t, o[pc.seen.index - 1]);
      if pc.Missed? { assert NodeKept(s, s', t, o[pc.seen.index]); }
    }
    if pc.ReadPrev? || pc.TryPrev? { assert NodeKept(s, s', t, pc.loc); }
  }

  lemma LockedStable(s: State, s': State, t: nat, u: nat)
    requires t < |s.pcs| && Guarantee(s, s', t) && u < |s.pcs| && u != t && PcOK(s, u, s.pcs[u])
    requires var pc := s.pcs[u];
             pc.CheckRemoved? || pc.CheckNext? || pc.InsLink? || pc.TryLoc? || pc.UnlockLoc? || pc.Unlock?
    ensures PcOK(s', u, s.pcs[u])
  {
    var pc := s.pcs[u];
    assert NodeKept(s, s', t, pc.p);
    if !pc.Unlock? { assert NodeKept(s, s', t, pc.loc); }
  }

  lemma OtherStable(s: State, s': State, t: nat, u: nat)
    requires t < |s.pcs| && Guarantee(s, s', t) && u < |s.pcs| && u != t
    requires ListOK(s) && PcOK(s, u, s.pcs[u]) && PcOK(s, t, s.pcs[t]) && Apart(s.pcs[u], s.pcs[t])
    ensures PcOK(s', u, s.pcs[u])
  {
    var pc := s.pcs[u];
    if Finding(pc) || Resting(pc) { FindingStable(s, s', t, u); }
    else if Removing(pc) {
      assert NodeKept(s, s', t, s.pcs[u].p) && NodeKept(s, s', t, s.pcs[u].loc);
    }
    else if pc.InsBack? {
      SealedStable(s, s', t, u);
      assert NodeKept(s, s', t, pc.p);
    }
    else { LockedStable(s, s', t, u); }
  }

  // ---------------------------------------------------------------- steps that keep the list

  ghost predicate StepOK(s: State, s': State, t: nat)
    requires t < |s.pcs|
  {
    && Guarantee(s, s', t) && ListOK(s') && PcOK(s', t, s'.pcs[t])
    && (forall i: nat :: i + 1 < |Cur(s')| ==> PrevAt(s', i))
  }

  /** The step writes neither next nor the versions. */
  ghost predicate SameList(s: State, s': State) {
    && s'.versions == s.versions && |s'.heap| == |s.heap|
    && forall a: nat :: a < |s.heap| ==>
         && s'.heap[a].isEnd == s.heap[a].isEnd && s'.heap[a].key == s.heap[a].key
         && s'.heap[a].next == s.heap[a].next && s'.heap[a].gone == s.heap[a].gone
  }

  lemma SameListOK(s: State, s': State)
    requires ListOK(s) && SameList(s, s')
    requires forall a: nat :: a < |s.heap| ==>
               && (s.heap[a].removed ==> s'.heap[a].removed)
               && (s'.heap[a].removed && s'.heap[a].gone.None? ==> Leaving(s', a))
               && (s'.heap[a].prev == s.heap[a].prev
                   || (&& a != ROOT && s'.heap[a].prev.Some?
                       && s'.heap[a].prev.value < |s.heap| && s'.heap[a].prev.value != TAIL))
    ensures ListOK(s')
  {
    forall v: nat | v < |s'.versions| ensures VersionAt(s', v) { assert VersionAt(s, v); }
    forall i: nat | i < |Cur(s')| ensures ChainAt(s', i) { assert ChainAt(s, i); }
    forall v: nat, i: nat | v < |s'.versions| && i < |s'.versions[v]| ensures PresentAt(s', v, i) {
      assert PresentAt(s, v, i);
    }
    forall a: nat | a < |s'.heap| ensures NodeAt(s', a) { assert NodeAt(s, a); }
  }

  /** A step that writes no field but a lock. */
  lemma LockOnlyOK(s: State, s': State, t: nat)
    requires Inv(s) && t < |s.pcs| && SameList(s, s') && Guarantee(s, s', t)
    requires !s.pcs[t].RemUnlink? && !s.pcs[t].InsBack? && !s.pcs[t].RemBack?
    requires forall a: nat :: a < |s.heap| ==>
               s'.heap[a].removed == s.heap[a].removed && s'.heap[a].prev == s.heap[a].prev
    ensures ListOK(s') && (forall i: nat :: i + 1 < |Cur(s')| ==> PrevAt(s', i))
  {
    forall a: nat | a < |s.heap| && s'.heap[a].removed && s'.heap[a].gone.None? ensures Leaving(s', a) {
      assert NodeAt(s, a) && NodeKept(s, s', t, a);
    }
    SameListOK(s, s');
    forall i: nat | i + 1 < |Cur(s')| ensures PrevAt(s', i) {
      assert PrevAt(s, i);
      var b := Cur(s)[i + 1];
      if s.heap[b].prev != Some(Cur(s)[i]) { assert NodeKept(s, s', t, s.heap[b].prev.value); }
    }
  }

  /** What a thread knows is about the heap and the versions. */
  lemma SamePc(s: State, s': State, t: nat, pc: PC)
    requires PcOK(s, t, pc) && s'.heap == s.heap && s'.versions == s.versions
    ensures PcOK(s', t, pc)
  {
  }

  /** A step that writes nothing but the thread's own registers. */
  lemma QuietOK(s: State, t: nat, pc: PC)
    requires Inv(s) && t < |s.pcs| && PcOK(s, t, pc)
    requires !s.pcs[t].RemUnlink? && !s.pcs[t].InsBack? && !s.pcs[t].RemBack?
    ensures StepOK(s, Goto(s, t, pc), t)
  {
    SamePc(s, Goto(s, t, pc), t, pc);
    LockOnlyOK(s, Goto(s, t, pc), t);
  }

  /** A step that takes a free lock or releases the thread's own. */
  lemma LockStepOK(s: State, t: nat, a: nat, lock: Option<nat>, pc: PC)
    requires Inv(s) && t < |s.pcs| && a < |s.heap|
    requires !s.pcs[t].RemUnlink? && !s.pcs[t].InsBack? && !s.pcs[t].RemBack?
    requires (s.heap[a].lock.None? && MayLock(s.pcs[t], a)) || s.heap[a].lock == Some(t)
    requires PcOK(Set(s, a, s.heap[a].(lock := lock)), t, pc)
    ensures StepOK(s, Goto(Set(s, a, s.heap[a].(lock := lock)), t, pc), t)
  {
    var s' := Set(s, a, s.heap[a].(lock := lock));
    SamePc(s', Goto(s', t, pc), t, pc);
    LockOnlyOK(s, Goto(s', t, pc), t);
  }

  lemma StartFindOK(s: State, t: nat)
    requires Inv(s) && t < |s.pcs| && s.pcs[t].Start?
    ensures StepOK(s, FindStep(s, t), t)
  {
    assert PcOK(s, t, s.pcs[t]);
    assert VersionAt(s, |s.versions| - 1) && ChainAt(s, 0) && NodeAt(s, ROOT);
    NextSeen(s, s.pcs[t].c, ROOT);
    QuietOK(s, t, FindStep(s, t).pcs[t]);
  }

  /** The walk goes on, or ends at a node that fits. */
  lemma FindPc(s: State, t: nat)
    requires ListOK(s) && t < |s.pcs| && s.pcs[t].Find? && PcOK(s, t, s.pcs[t])
    ensures var s' := FindStep(s, t);
            t < |s'.pcs| && s' == Goto(s, t, s'.pcs[t]) && PcOK(s, t, s'.pcs[t])
  {
    var c, nxt, seen := s.pcs[t].c, s.pcs[t].nxt, s.pcs[t].seen;
    assert VersionAt(s, seen.version) && PresentAt(s, seen.version, seen.index);
    assert NodeAt(s, nxt);
    if !Stops(s.heap[nxt], c.key) { NextSeen(s, c, nxt); }
  }

  lemma FindOK(s: State, t: nat)
    requires Inv(s) && t < |s.pcs| && s.pcs[t].Find?
    ensures StepOK(s, FindStep(s, t), t)
  {
    assert PcOK(s, t, s.pcs[t]);
    FindPc(s, t);
    QuietOK(s, t, FindStep(s, t).pcs[t]);
  }

  lemma TryPrevOK(s: State, t: nat)
    requires Inv(s) && t < |s.pcs| && (s.pcs[t].ReadPrev? || s.pcs[t].TryPrev?)
    ensures StepOK(s, FindStep(s, t), t)
  {
    assert PcOK(s, t, s.pcs[t]);
    assert NodeAt(s, s.pcs[t].loc);
    var pc := FindStep(s, t).pcs[t];
    if pc.CheckRemoved? {
      assert NodeAt(s, pc.p);
      LockStepOK(s, t, pc.p, Some(t), pc);
    } else {
      QuietOK(s, t, pc);
    }
  }

  lemma CheckOK(s: State, t: nat)
    requires Inv(s) && t < |s.pcs| && (s.pcs[t].CheckRemoved? || s.pcs[t].CheckNext?)
    ensures StepOK(s, LockedStep(s, t), t)
  {
    assert PcOK(s, t, s.pcs[t]);
    assert NodeAt(s, s.pcs[t].p);
    QuietOK(s, t, LockedStep(s, t).pcs[t]);
  }

  lemma TryLocOK(s: State, t: nat)
    requires Inv(s) && t < |s.pcs| && s.pcs[t].TryLoc?
    ensures StepOK(s, LockedStep(s, t), t)
  {
    assert PcOK(s, t, s.pcs[t]);
    assert NodeAt(s, s.pcs[t].p) && NodeAt(s, s.pcs[t].loc);
    SuccLinked(s, s.pcs[t].p);
    var pc := LockedStep(s, t).pcs[t];
    if pc.Unlock? { QuietOK(s, t, pc); } else { LockStepOK(s, t, pc.loc, Some(t), pc); }
  }

  // ---------------------------------------------------------------- writing the back links

  function Pointed(s: State, t: nat, a: nat, b: nat, pc: PC): State
    requires t < |s.pcs| && b < |s.heap|
  {
    Goto(Set(s, b, s.heap[b].(prev := Some(a))), t, pc)
  }

  lemma BackListOK(s: State, t: nat, a: nat, b: nat, pc: PC)
    requires ListOK(s) && t < |s.pcs| && b < |s.heap| && b != ROOT && a != TAIL && a < |s.heap| && !s.pcs[t].RemUnlink?
    ensures ListOK(Pointed(s, t, a, b, pc))
  {
    var s' := Pointed(s, t, a, b, pc);
    forall x: nat | x < |s.heap| && s'.heap[x].removed && s'.heap[x].gone.None? ensures Leaving(s', x) {
      assert NodeAt(s, x);
    }
    SameListOK(s, s');
  }

  /** The pair of neighbours whose back link is written. */
  lemma BackThis(s: State, t: nat, a: nat, b: nat, pc: PC, i: nat)
    requires ListOK(s) && t < |s.pcs| && b < |s.heap| && a != TAIL && Linked(s, a) && s.heap[a].next == Some(b)
    requires i + 1 < |Cur(s)| && Cur(s)[i + 1] == b
    ensures PrevAt(Pointed(s, t, a, b, pc), i)
  {
    assert ChainAt(s, i) && VersionAt(s, |s.versions| - 1);
    OneBefore(s, a, Cur(s)[i], b);
  }

  lemma BackPrevOK(s: State, t: nat, a: nat, b: nat, pc: PC, i: nat)
    requires ListOK(s) && t < |s.pcs| && b < |s.heap| && a != TAIL && Linked(s, a) && s.heap[a].next == Some(b)
    requires MayPoint(s.pcs[t], b, Some(a)) && i + 1 < |Cur(s)| && PrevAt(s, i)
    ensures PrevAt(Pointed(s, t, a, b, pc), i)
  {
    if Cur(s)[i + 1] == b { BackThis(s, t, a, b, pc, i); }
  }

  lemma BackGuarantee(s: State, t: nat, a: nat, b: nat, pc: PC)
    requires t < |s.pcs| && b < |s.heap| && MayPoint(s.pcs[t], b, Some(a))
    ensures Guarantee(s, Pointed(s, t, a, b, pc), t)
  {
  }

  /** The back link of b, the successor of a, is made to point at a. */
  lemma BackOK(s: State, t: nat, a: nat, b: nat, pc: PC)
    requires Inv(s) && t < |s.pcs| && b < |s.heap| && b != ROOT && a != TAIL && Linked(s, a)
             && s.heap[a].next == Some(b)
    requires MayPoint(s.pcs[t], b, Some(a))
    requires PcOK(Set(s, b, s.heap[b].(prev := Some(a))), t, pc)
    ensures StepOK(s, Pointed(s, t, a, b, pc), t)
  {
    BackListOK(s, t, a, b, pc);
    BackGuarantee(s, t, a, b, pc);
    SamePc(Set(s, b, s.heap[b].(prev := Some(a))), Pointed(s, t, a, b, pc), t, pc);
    forall i: nat | i + 1 < |Cur(s)| ensures PrevAt(Pointed(s, t, a, b, pc), i) {
      BackPrevOK(s, t, a, b, pc, i);
    }
  }

  lemma RemBackOK(s: State, t: nat)
    requires Inv(s) && t < |s.pcs| && s.pcs[t].RemBack?
    ensures StepOK(s, RemoveStep(s, t), t)
  {
    assert PcOK(s, t, s.pcs[t]);
    BackOK(s, t, s.pcs[t].p, s.pcs[t].next, RemoveStep(s, t).pcs[t]);
  }

  lemma RemNextOK(s: State, t: nat)
    requires Inv(s) && t < |s.pcs| && s.pcs[t].RemNext?
    ensures StepOK(s, RemoveStep(s, t), t)
  {
    assert PcOK(s, t, s.pcs[t]);
    assert NodeAt(s, s.pcs[t].p) && NodeAt(s, s.pcs[t].loc);
    SuccLinked(s, s.pcs[t].p);
    QuietOK(s, t, RemoveStep(s, t).pcs[t]);
  }

  lemma MarkListOK(s: State, t: nat)
    requires Inv(s) && t < |s.pcs| && s.pcs[t].RemMark?
    ensures var s' := RemoveStep(s, t); ListOK(s') && (forall i: nat :: i + 1 < |Cur(s')| ==> PrevAt(s', i))
  {
    assert PcOK(s, t, s.pcs[t]);
    var s' := RemoveStep(s, t);
    forall x: nat | x < |s.heap| && s'.heap[x].removed && s'.heap[x].gone.None? ensures Leaving(s', x) {
      assert NodeAt(s, x);
    }
    SameListOK(s, s');
    forall i: nat | i + 1 < |Cur(s')| ensures PrevAt(s', i) { assert PrevAt(s, i); }
  }

  lemma RemMarkOK(s: State, t: nat)
    requires Inv(s) && t < |s.pcs| && s.pcs[t].RemMark?
    ensures StepOK(s, RemoveStep(s, t), t)
  {
    assert PcOK(s, t, s.pcs[t]);
    assert s.pcs[t].p != s.pcs[t].loc by {
      assert NodeAt(s, s.pcs[t].p);
      Place1(s, s.pcs[t].p);
      assert VersionAt(s, |s.versions| - 1);
    }
    MarkListOK(s, t);
  }

  // ---------------------------------------------------------------- changing the list

  lemma PutThere(o: seq<nat>, m: nat, n: nat)
    requires m < |o|
    ensures var q := PutAfter(o, m, n);
            && |q| == |o| + 1 && q[m + 1] == n
            && (forall j :: 0 <= j <= m ==> q[j] == o[j])
            && (forall j :: m + 2 <= j < |q| ==> q[j] == o[j - 1])
            && (forall x :: x in o || x == n <==> x in q)
  {
    var q := PutAfter(o, m, n);
    assert q[m + 1] == n;
    forall x | x in o ensures x in q {
      var j :| 0 <= j < |o| && o[j] == x;
      assert x == q[if j <= m then j else j + 1];
    }
  }

  lemma InsertedAt(o: seq<nat>, a: nat, n: nat)
    requires a in o && n !in o
    ensures var q, i := InsertAfter(o, a, n), IndexOf(o, a);
            && |q| == |o| + 1 && q[i + 1] == n
            && (forall j :: 0 <= j <= i ==> q[j] == o[j])
            && (forall j :: i + 2 <= j < |q| ==> q[j] == o[j - 1])
            && (forall x :: x in o || x == n <==> x in q)
  {
    PutThere(o, IndexOf(o, a), n);
  }

  lemma WithoutAt(o: seq<nat>, a: nat)
    requires a in o && Distinct(o)
    ensures var q, i := Without(o, a), IndexOf(o, a);
            && |q| == |o| - 1
            && (forall j :: 0 <= j < i ==> q[j] == o[j])
            && (forall j :: i <= j < |q| ==> q[j] == o[j + 1])
  {
  }

  lemma WithoutIn(o: seq<nat>, a: nat, x: nat)
    requires a in o && Distinct(o)
    ensures x in Without(o, a) <==> x in o && x != a
  {
    var q, i := Without(o, a), IndexOf(o, a);
    WithoutAt(o, a);
    if x in q {
      var j :| 0 <= j < |q| && q[j] == x;
      assert x == o[if j < i then j else j + 1];
    }
    if x in o && x != a {
      var j :| 0 <= j < |o| && o[j] == x;
      assert x == q[if j < i then j else j - 1];
    }
  }

  ghost predicate Interior(o: seq<nat>, n: nat) {
    forall i :: 0 < i < |o| - 1 ==> TAIL < o[i] < n
  }

  /** The new node's key is between those of its neighbours. */
  lemma InsertedKeys(s: State, s': State, o: seq<nat>, m: nat, n: nat, i: nat, j: nat)
    requires Interior(o, |s.heap|) && Sorted(s, o) && m + 1 < |o| && n < |s'.heap|
    requires |s.heap| <= |s'.heap| && forall x :: 0 <= x < |s.heap| ==> s'.heap[x].key == s.heap[x].key
    requires m > 0 ==> s.heap[o[m]].key <= s'.heap[n].key
    requires m + 2 < |o| ==> s'.heap[n].key <= s.heap[o[m + 1]].key
    requires 0 < i < j < |o|
    ensures var a, b := if i <= m then o[i] else if i == m + 1 then n else o[i - 1],
                        if j <= m then o[j] else if j == m + 1 then n else o[j - 1];
            a < |s'.heap| && b < |s'.heap| && s'.heap[a].key <= s'.heap[b].key
  {
    if j == m + 1 {
      assert i < m ==> s.heap[o[i]].key <= s.heap[o[m]].key;
    } else if i == m + 1 {
      assert m + 1 < j - 1 ==> s.heap[o[m + 1]].key <= s.heap[o[j - 1]].key;
    }
  }

  lemma InsertedInside(o: seq<nat>, a: nat, n: nat, bound: nat)
    requires Interior(o, bound) && a in o && IndexOf(o, a) + 1 < |o| && TAIL < n < bound
    ensures Interior(InsertAfter(o, a, n), bound)
  {
  }

  /** The key of node n may go behind node a in this list. */
  ghost predicate KeyFits(s: State, s': State, o: seq<nat>, a: nat, n: nat) {
    && Interior(o, |s.heap|) && Sorted(s, o) && a in o && IndexOf(o, a) + 1 < |o| && TAIL < n < |s'.heap|
    && |s.heap| <= |s'.heap| && (forall x :: 0 <= x < |s.heap| ==> s'.heap[x].key == s.heap[x].key)
    && var i := IndexOf(o, a);
       && (i > 0 ==> s.heap[o[i]].key <= s'.heap[n].key)
       && (i + 2 < |o| ==> s'.heap[n].key <= s.heap[o[i + 1]].key)
  }

  /** A list stays sorted when a node is put between its neighbours in key order. */
  lemma InsertedSorted(s: State, s': State, o: seq<nat>, a: nat, n: nat)
    requires KeyFits(s, s', o, a, n) && Interior(InsertAfter(o, a, n), |s'.heap|)
    ensures Sorted(s', InsertAfter(o, a, n))
  {
    var q := InsertAfter(o, a, n);
    forall i, j | 0 < i < j < |q| - 1 ensures s'.heap[q[i]].key <= s'.heap[q[j]].key {
      InsertedKeys(s, s', o, IndexOf(o, a), n, i, j);
    }
  }

  lemma InsertedVersion(s: State, s': State, a: nat, n: nat)
    requires VersionOK(s, Cur(s)) && a in Cur(s) && a != TAIL && n !in Cur(s)
    requires Interior(InsertAfter(Cur(s), a, n), |s'.heap|) && Sorted(s', InsertAfter(Cur(s), a, n))
    ensures VersionOK(s', InsertAfter(Cur(s), a, n))
  {
    InsertedAt(Cur(s), a, n);
  }

  lemma WithoutSorted(s: State, s': State, a: nat)
    requires VersionOK(s, Cur(s)) && a in Cur(s) && TAIL < a
    requires |s.heap| == |s'.heap| && forall x :: 0 <= x < |s.heap| ==> s'.heap[x].key == s.heap[x].key
    ensures VersionOK(s', Without(Cur(s), a))
  {
    WithoutAt(Cur(s), a);
  }

  // ---------------------------------------------------------------- linking a node in

  /** Thread t is to link a node in between p, which it holds, and loc; s' is the state after that. */
  ghost predicate Links(s: State, s': State, t: nat) {
    && t < |s.pcs| && s.pcs[t].InsLink? && ListOK(s)
    && var c, p, loc, n := s.pcs[t].c, s.pcs[t].p, s.pcs[t].loc, |s.heap|;
    && Holding(s, t, p, loc) && BelowOK(s, c, p) && LocOK(s, c, loc)
    && |s'.heap| == n + 1 && s'.heap[n] == Node(false, c.key, Some(loc), Some(p), false, None, None)
    && s'.heap[p] == s.heap[p].(next := Some(n))
    && (forall a: nat :: a < n && a != p ==> s'.heap[a] == s.heap[a])
    && s'.versions == s.versions + [InsertAfter(Cur(s), p, n)] && Cur(s') == InsertAfter(Cur(s), p, n)
    && s'.pcs == s.pcs[t := InsBack(c.(made := c.made + 1), loc, p, n)]
  }

  /** The predecessor is in the list, right before the node found. */
  lemma LinkPlace(s: State, s': State, t: nat)
    requires Links(s, s', t)
    ensures var p, loc, i := s.pcs[t].p, s.pcs[t].loc, IndexOf(Cur(s), s.pcs[t].p);
            && p in Cur(s) && |s.heap| !in Cur(s) && |s.heap| > TAIL
            && i + 1 < |Cur(s)| && Cur(s)[i] == p && Cur(s)[i + 1] == loc && (p == ROOT <==> i == 0)
            && Distinct(Cur(s)) && |Cur(s')| == |Cur(s)| + 1
  {
    Place1(s, s.pcs[t].p);
    assert VersionAt(s, |s.versions| - 1);
  }

  lemma LinkedVersion(s: State, s': State, t: nat)
    requires Links(s, s', t) && s.pcs[t].c.op.Insert?
    ensures VersionOK(s', InsertAfter(Cur(s), s.pcs[t].p, |s.heap|))
  {
    LinkPlace(s, s', t);
    assert VersionAt(s, |s.versions| - 1) && NodeAt(s, s.pcs[t].p) && NodeAt(s, s.pcs[t].loc);
    InsertedInside(Cur(s), s.pcs[t].p, |s.heap|, |s'.heap|);
    InsertedSorted(s, s', Cur(s), s.pcs[t].p, |s.heap|);
    InsertedVersion(s, s', s.pcs[t].p, |s.heap|);
  }

  lemma LinkVersions(s: State, s': State, t: nat, v: nat)
    requires Links(s, s', t) && s.pcs[t].c.op.Insert? && v < |s'.versions|
    ensures VersionAt(s', v)
  {
    if v < |s.versions| { assert VersionAt(s, v); } else { LinkedVersion(s, s', t); }
  }

  lemma LinkChain(s: State, s': State, t: nat, i: nat)
    requires Links(s, s', t) && i < |Cur(s')|
    ensures ChainAt(s', i)
  {
    var m := IndexOf(Cur(s), s.pcs[t].p);
    LinkPlace(s, s', t);
    if i != m + 1 { assert ChainAt(s, if i <= m then i else i - 1); }
  }

  lemma LinkPresent(s: State, s': State, t: nat, v: nat, i: nat)
    requires Links(s, s', t) && v < |s'.versions| && i < |s'.versions[v]|
    ensures PresentAt(s', v, i)
  {
    if v < |s.versions| {
      assert PresentAt(s, v, i);
    } else {
      LinkChain(s, s', t, i);
    }
  }

  lemma LinkNode(s: State, s': State, t: nat, a: nat)
    requires Links(s, s', t) && a < |s'.heap|
    ensures NodeAt(s', a)
  {
    LinkPlace(s, s', t);
    InsertedAt(Cur(s), s.pcs[t].p, |s.heap|);
    if a < |s.heap| { assert NodeAt(s, a); }
  }

  /** A pair of neighbours that the new node does not come between. */
  lemma OldBack(s: State, s': State, t: nat, i: nat, j: nat)
    requires Links(s, s', t) && i + 1 < |Cur(s')| && PrevAt(s, j)
    requires Cur(s')[i] == Cur(s)[j] && Cur(s')[i + 1] == Cur(s)[j + 1]
    ensures PrevAt(s', i)
  {
  }

  lemma LinkBack(s: State, s': State, t: nat, i: nat)
    requires Links(s, s', t) && i + 1 < |Cur(s')| && s.heap[s.pcs[t].loc].prev == Some(s.pcs[t].p)
    requires forall j: nat :: j + 1 < |Cur(s)| ==> PrevAt(s, j)
    ensures PrevAt(s', i)
  {
    var m := IndexOf(Cur(s), s.pcs[t].p);
    LinkPlace(s, s', t);
    if i < m { OldBack(s, s', t, i, i); }
    else if i > m + 1 { OldBack(s, s', t, i, i - 1); }
    else if i == m + 1 { assert Mending(s', |s.heap|, s.pcs[t].loc); }
  }

  lemma LinkThread(s: State, s': State, t: nat)
    requires Links(s, s', t) && CallOK(s, s.pcs[t])
    ensures Guarantee(s, s', t) && PcOK(s', t, s'.pcs[t])
  {
    LinkPlace(s, s', t);
    forall a | 0 <= a < |s'.heap| ensures s'.heap[a].prev != Some(|s.heap|) {
      if a < |s.heap| { assert NodeAt(s, a); }
    }
  }

  lemma LinkOK(s: State, t: nat)
    requires Inv(s) && t < |s.pcs| && s.pcs[t].InsLink?
    ensures StepOK(s, LockedStep(s, t), t)
  {
    var s' := LockedStep(s, t);
    LinkThread(s, s', t);
    forall v: nat | v < |s'.versions| ensures VersionAt(s', v) { LinkVersions(s, s', t, v); }
    forall i: nat | i < |Cur(s')| ensures ChainAt(s', i) { LinkChain(s, s', t, i); }
    forall v: nat, i: nat | v < |s'.versions| && i < |s'.versions[v]| ensures PresentAt(s', v, i) {
      LinkPresent(s, s', t, v, i);
    }
    forall a: nat | a < |s'.heap| ensures NodeAt(s', a) { LinkNode(s, s', t, a); }
    Place1(s, s.pcs[t].p);
    assert PrevAt(s, IndexOf(Cur(s), s.pcs[t].p));
    forall i: nat | i + 1 < |Cur(s')| ensures PrevAt(s', i) { LinkBack(s, s', t, i); }
  }

  // ---------------------------------------------------------------- unlinking a node

  /** Thread t is to unlink loc, which it holds together with its predecessor; s' is the state after that. */
  ghost predicate Unlinks(s: State, s': State, t: nat) {
    && t < |s.pcs| && s.pcs[t].RemUnlink? && ListOK(s)
    && var c, p, loc, next := s.pcs[t].c, s.pcs[t].p, s.pcs[t].loc, s.pcs[t].next;
    && Holding(s, t, p, loc) && HeldBy(s, loc, t) && Linked(s, loc) && s.heap[loc].next == Some(next)
    && TAIL < loc && s.heap[loc].removed && loc != p && next != ROOT && next < |s.heap|
    && |s'.heap| == |s.heap| && s'.heap[p] == s.heap[p].(next := Some(next))
    && s'.heap[loc] == s.heap[loc].(gone := Some(Place(|s.versions| - 1, IndexOf(Cur(s), loc))))
    && (forall a: nat :: a < |s.heap| && a != p && a != loc ==> s'.heap[a] == s.heap[a])
    && s'.versions == s.versions + [Without(Cur(s), loc)] && Cur(s') == Without(Cur(s), loc)
    && s'.pcs == s.pcs[t := RemBack(c.(made := c.made + 1), loc, p, next)]
  }

  lemma UnlinkUnlinks(s: State, t: nat)
    requires Inv(s) && t < |s.pcs| && s.pcs[t].RemUnlink?
    ensures Unlinks(s, RemoveStep(s, t), t) && CallOK(s, s.pcs[t])
  {
    assert PcOK(s, t, s.pcs[t]);
    assert NodeAt(s, s.pcs[t].p) && NodeAt(s, s.pcs[t].loc);
  }

  lemma UnlinkPlace(s: State, s': State, t: nat)
    requires Unlinks(s, s', t)
    ensures var p, loc, next, i := s.pcs[t].p, s.pcs[t].loc, s.pcs[t].next, IndexOf(Cur(s), s.pcs[t].loc);
            && loc in Cur(s) && p != TAIL && 0 < i && i + 1 < |Cur(s)|
            && Cur(s)[i - 1] == p && Cur(s)[i] == loc && Cur(s)[i + 1] == next
            && Distinct(Cur(s)) && |Cur(s')| == |Cur(s)| - 1
  {
    assert NodeAt(s, s.pcs[t].p);
    Place1(s, s.pcs[t].p);
    Place1(s, s.pcs[t].loc);
    assert VersionAt(s, |s.versions| - 1);
  }

  lemma UnlinkVersions(s: State, s': State, t: nat, v: nat)
    requires Unlinks(s, s', t) && v < |s'.versions|
    ensures VersionAt(s', v)
  {
    UnlinkPlace(s, s', t);
    if v < |s.versions| {
      assert VersionAt(s, v);
    } else {
      assert VersionAt(s, |s.versions| - 1);
      WithoutSorted(s, s', s.pcs[t].loc);
    }
  }

  lemma UnlinkChain(s: State, s': State, t: nat, i: nat)
    requires Unlinks(s, s', t) && i < |Cur(s')|
    ensures ChainAt(s', i)
  {
    var m := IndexOf(Cur(s), s.pcs[t].loc);
    UnlinkPlace(s, s', t);
    assert ChainAt(s, if i < m then i else i + 1);
  }

  lemma UnlinkPresent(s: State, s': State, t: nat, v: nat, i: nat)
    requires Unlinks(s, s', t) && v < |s'.versions| && i < |s'.versions[v]|
    ensures PresentAt(s', v, i)
  {
    UnlinkPlace(s, s', t);
    if v < |s.versions| {
      assert PresentAt(s, v, i);
    } else {
      UnlinkChain(s, s', t, i);
    }
  }

  lemma UnlinkNode(s: State, s': State, t: nat, a: nat)
    requires Unlinks(s, s', t) && a < |s'.heap|
    ensures NodeAt(s', a)
  {
    UnlinkPlace(s, s', t);
    WithoutIn(Cur(s), s.pcs[t].loc, a);
    assert NodeAt(s, a);
  }

  lemma UnlinkBack(s: State, s': State, t: nat, i: nat)
    requires Unlinks(s, s', t) && i + 1 < |Cur(s')| && s.heap[s.pcs[t].next].prev == Some(s.pcs[t].loc)
    requires forall j: nat :: j + 1 < |Cur(s)| ==> PrevAt(s, j)
    ensures PrevAt(s', i)
  {
    var m := IndexOf(Cur(s), s.pcs[t].loc);
    UnlinkPlace(s, s', t);
    if i + 1 < m { assert PrevAt(s, i); }
    if i + 1 > m { assert PrevAt(s, i + 1); }
  }

  lemma UnlinkOK(s: State, t: nat)
    requires Inv(s) && t < |s.pcs| && s.pcs[t].RemUnlink?
    ensures StepOK(s, RemoveStep(s, t), t)
  {
    var s' := RemoveStep(s, t);
    UnlinkUnlinks(s, t);
    UnlinkPlace(s, s', t);
    forall v: nat | v < |s'.versions| ensures VersionAt(s', v) { UnlinkVersions(s, s', t, v); }
    forall i: nat | i < |Cur(s')| ensures ChainAt(s', i) { UnlinkChain(s, s', t, i); }
    forall v: nat, i: nat | v < |s'.versions| && i < |s'.versions[v]| ensures PresentAt(s', v, i) {
      UnlinkPresent(s, s', t, v, i);
    }
    forall a: nat | a < |s'.heap| ensures NodeAt(s', a) { UnlinkNode(s, s', t, a); }
    assert PrevAt(s, IndexOf(Cur(s), s.pcs[t].loc));
    forall i: nat | i + 1 < |Cur(s')| ensures PrevAt(s', i) { UnlinkBack(s, s', t, i); }
  }

  // ---------------------------------------------------------------- every reachable state

  lemma ThreadOK(s: State, t: nat, ch: Choice)
    requires Inv(s) && t < |s.pcs|
    ensures StepOK(s, Step(s, t, ch), t)
  {
    var pc := s.pcs[t];
    if Resting(pc) { QuietOK(s, t, Step(s, t, ch).pcs[t]); }
    else if pc.Start? { StartFindOK(s, t); }
    else if pc.Find? { FindOK(s, t); }
    else if Finding(pc) { TryPrevOK(s, t); }
    else if pc.RemNext? { RemNextOK(s, t); }
    else if pc.RemMark? { RemMarkOK(s, t); }
    else if pc.RemUnlink? { UnlinkOK(s, t); }
    else if pc.RemBack? { RemBackOK(s, t); }
    else if pc.InsLink? { LinkOK(s, t); }
    else if pc.InsBack? {
      assert PcOK(s, t, s.pcs[t]);
      BackOK(s, t, s.pcs[t].n, s.pcs[t].loc, LockedStep(s, t).pcs[t]);
    }
    else if pc.TryLoc? { TryLocOK(s, t); }
    else if pc.Unlock? || pc.UnlockLoc? {
      assert PcOK(s, t, s.pcs[t]);
      LockStepOK(s, t, if s.pcs[t].Unlock? then s.pcs[t].p else s.pcs[t].loc, None, LockedStep(s, t).pcs[t]);
    }
    else { CheckOK(s, t); }
  }

  /** A thread reaches a predecessor through a back link, or makes a new node. */
  ghost predicate RegistersFrom(s: State, pc: PC, pc': PC) {
    && (pc'.InsBack? ==> pc.InsLink? && pc'.n == |s.heap|)
    && (HasP(pc') ==> (HasP(pc) && pc'.p == pc.p)
                      || (pc.ReadPrev? && pc.loc < |s.heap| && s.heap[pc.loc].prev == Some(pc'.p)))
  }

  lemma FindRegisters(s: State, t: nat)
    requires t < |s.pcs| && Finding(s.pcs[t])
    ensures t < |FindStep(s, t).pcs| && RegistersFrom(s, s.pcs[t], FindStep(s, t).pcs[t])
  {
  }

  lemma RemoveRegisters(s: State, t: nat)
    requires t < |s.pcs| && Removing(s.pcs[t])
    ensures t < |RemoveStep(s, t).pcs| && RegistersFrom(s, s.pcs[t], RemoveStep(s, t).pcs[t])
  {
  }

  lemma NewRegisters(s: State, t: nat, ch: Choice)
    requires Inv(s) && t < |s.pcs|
    ensures t < |Step(s, t, ch).pcs| && RegistersFrom(s, s.pcs[t], Step(s, t, ch).pcs[t])
  {
    if Finding(s.pcs[t]) { FindRegisters(s, t); }
    else if Removing(s.pcs[t]) { RemoveRegisters(s, t); }
    else if !Resting(s.pcs[t]) {
      assert PcOK(s, t, s.pcs[t]);
    }
  }

  /** Two threads stay apart: no back link leads to a node that is linked in without one. */
  lemma StaysApart(s: State, t: nat, u: nat, ch: Choice)
    requires Inv(s) && t < |s.pcs| && u < |s.pcs| && t != u
    ensures var pc := Step(s, t, ch).pcs; t < |pc| && Apart(pc[t], s.pcs[u]) && Apart(s.pcs[u], pc[t])
  {
    NewRegisters(s, t, ch);
    assert PcOK(s, u, s.pcs[u]);
    assert Apart(s.pcs[u], s.pcs[t]);
  }

  lemma StepInv(s: State, t: nat, ch: Choice)
    requires Inv(s)
    ensures Inv(Step(s, t, ch))
  {
    if t < |s.pcs| {
      var s' := Step(s, t, ch);
      ThreadOK(s, t, ch);
      forall u: nat | u < |s.pcs| && u != t
        ensures PcOK(s', u, s'.pcs[u]) && Apart(s'.pcs[t], s'.pcs[u]) && Apart(s'.pcs[u], s'.pcs[t])
      {
        StaysApart(s, t, u, ch);
        assert PcOK(s, t, s.pcs[t]) && PcOK(s, u, s.pcs[u]) && Apart(s.pcs[u], s.pcs[t]);
        OtherStable(s, s', t, u);
      }
      forall u: nat, v: nat | u < |s.pcs| && v < |s.pcs| && u != v ensures Apart(s'.pcs[u], s'.pcs[v]) {
        assert Apart(s.pcs[u], s.pcs[v]);
      }
    }
  }

  lemma InitInv(s: State)
    requires Init(s)
    ensures Inv(s)
  {
    assert VersionAt(s, 0) && ChainAt(s, 0) && ChainAt(s, 1) && PrevAt(s, 0);
    assert Cur(s)[0] == ROOT && Cur(s)[1] == TAIL;
    assert NodeAt(s, ROOT) && NodeAt(s, TAIL);
  }

  lemma {:induction false} Reachable(s: State, sched: seq<(nat, Choice)>)
    requires Init(s)
    ensures Inv(Exec(s, sched))
    decreases |sched|
  {
    if sched == [] {
      InitInv(s);
    } else {
      var n := |sched| - 1;
      Reachable(s, sched[..n]);
      StepInv(Exec(s, sched[..n]), sched[n].0, sched[n].1);
    }
  }

  // ---------------------------------------------------------------- the properties

  /** The keys of a version of the list, in list order. */
  ghost function KeysOf(s: State, o: seq<nat>): seq<int> {
    if |o| < 2 then []
    else seq(|o| - 2, i requires 0 <= i < |o| - 2 => if o[i + 1] < |s.heap| then s.heap[o[i + 1]].key else 0)
  }

  ghost function Keys(s: State): seq<int> {
    KeysOf(s, Cur(s))
  }

  /** The next links lead from the root through all the nodes of the list, each once and in key order,
      to the tail; and every node ever made either is in the list or has been removed. */
  lemma ListIsSorted(s: State, sched: seq<(nat, Choice)>)
    requires Init(s)
    ensures var r := Exec(s, sched);
            var o, keys := Cur(r), Keys(r);
            && |o| >= 2 && o[0] == ROOT && o[|o| - 1] == TAIL && Distinct(o)
            && (forall i :: 0 <= i < |o| - 1 ==> o[i] < |r.heap| && r.heap[o[i]].next == Some(o[i + 1]))
            && (forall i, j :: 0 <= i < j < |keys| ==> keys[i] <= keys[j])
            && (forall a: nat :: a < |r.heap| && !r.heap[a].removed ==> a in o)
  {
    var r := Exec(s, sched);
    Reachable(s, sched);
    var o := Cur(r);
    assert VersionAt(r, |r.versions| - 1);
    forall i | 0 <= i < |o| - 1 ensures o[i] < |r.heap| && r.heap[o[i]].next == Some(o[i + 1]) {
      assert ChainAt(r, i);
    }
    forall a: nat | a < |r.heap| && !r.heap[a].removed ensures a in o { assert NodeAt(r, a); }
  }

  /** A node marked as removed is still in the list only while the thread that marked it is about to
      unlink it, with the node and its predecessor locked. */
  lemma RemovedIsLeaving(s: State, sched: seq<(nat, Choice)>, i: nat)
    requires Init(s) && i < |Cur(Exec(s, sched))|
    ensures var r := Exec(s, sched);
            var a := Cur(r)[i];
            a < |r.heap| && (r.heap[a].removed ==>
                                Leaving(r, a) && i > 0 && HeldBy(r, Cur(r)[i - 1], r.heap[a].lock.value))
  {
    var r := Exec(s, sched);
    Reachable(s, sched);
    var a := Cur(r)[i];
    assert ChainAt(r, i) && NodeAt(r, a);
    if r.heap[a].removed {
      var t := r.heap[a].lock.value;
      UnlinkUnlinks(r, t);
      UnlinkPlace(r, RemoveStep(r, t), t);
      Place1(r, a);
    }
  }

  /** A thread that has yet to write a back link has not been anticipated. */
  lemma MendingDiffers(s: State, a: nat, b: nat)
    requires Mending(s, a, b)
    requires forall t: nat :: t < |s.pcs| ==> PcOK(s, t, s.pcs[t])
    ensures s.heap[b].prev != Some(a)
  {
    var t := s.heap[s.heap[b].prev.value].lock.value;
    assert PcOK(s, t, s.pcs[t]);
  }

  /** prev inverts next at a node of the list if and only if no thread has just linked its predecessor to
      it without having written the back link yet. */
  lemma PrevInvertsNext(s: State, sched: seq<(nat, Choice)>, i: nat)
    requires Init(s) && i + 1 < |Cur(Exec(s, sched))|
    ensures var r := Exec(s, sched);
            var a, b := Cur(r)[i], Cur(r)[i + 1];
            b < |r.heap| && (r.heap[b].prev == Some(a) <==> !Mending(r, a, b))
  {
    var r := Exec(s, sched);
    Reachable(s, sched);
    assert PrevAt(r, i);
    if Mending(r, Cur(r)[i], Cur(r)[i + 1]) { MendingDiffers(r, Cur(r)[i], Cur(r)[i + 1]); }
  }

  /** One thread, alone on an empty list, n steps into inserting key. */
  function Alone(key: int, n: nat): State {
    var root := Node(true, 0, Some(TAIL), None, false, None, None);
    var tail := Node(true, 0, None, Some(ROOT), false, None, None);
    if n == 0 then State([root, tail], [Idle], [[ROOT, TAIL]]) else Step(Alone(key, n - 1), 0, Choice(Insert, key))
  }

  function Moves(key: int, n: nat): (r: seq<(nat, Choice)>)
    ensures |r| == n
  {
    if n == 0 then [] else Moves(key, n - 1) + [(0, Choice(Insert, key))]
  }

  lemma {:induction false} AloneRuns(key: int, n: nat)
    ensures Exec(Alone(key, 0), Moves(key, n)) == Alone(key, n)
  {
    if n > 0 {
      AloneRuns(key, n - 1);
      assert Moves(key, n)[..n - 1] == Moves(key, n - 1);
    }
  }

  lemma AloneFinds(key: int, n: nat)
    requires n == 4
    ensures Alone(key, n) == Alone(key, 0).(pcs := [TryPrev(Call(Insert, key, 0, 0), TAIL, ROOT)])
  {
    var c, s := Call(Insert, key, 0, 0), Alone(key, 0);
    assert Alone(key, n - 3) == s.(pcs := [Start(c)]);
    assert Alone(key, n - 2) == s.(pcs := [Find(c, TAIL, NextPlace(s, ROOT))]);
    assert Alone(key, n - 1) == s.(pcs := [ReadPrev(c, TAIL)]);
  }

  lemma LocksRoot(s: State, c: Call, ch: Choice)
    requires Init(s) && |s.pcs| == 1 && c.op.Insert?
    ensures var s' := Step(Step(Step(s.(pcs := [TryPrev(c, TAIL, ROOT)]), 0, ch), 0, ch), 0, ch);
            s' == State([s.heap[ROOT].(lock := Some(0)), s.heap[TAIL]], [InsLink(c, TAIL, ROOT)], s.versions)
  {
    var held := [s.heap[ROOT].(lock := Some(0)), s.heap[TAIL]];
    var s1 := Step(s.(pcs := [TryPrev(c, TAIL, ROOT)]), 0, ch);
    assert s1 == State(held, [CheckRemoved(c, TAIL, ROOT)], s.versions);
    assert Step(s1, 0, ch) == State(held, [CheckNext(c, TAIL, ROOT)], s.versions);
  }

  lemma LinksNew(s: State, c: Call, ch: Choice)
    requires |s.heap| == 2 && s.pcs == [InsLink(c, TAIL, ROOT)] && s.heap[TAIL].prev == Some(ROOT)
    ensures var r := Step(s, 0, ch);
            && |r.heap| == 3 && r.heap[ROOT].next == Some(2) && r.heap[2].next == Some(TAIL)
            && r.heap[2].lock.None? && r.heap[TAIL].prev == Some(ROOT)
  {
  }

  lemma AloneLater(key: int, n: nat)
    ensures var ch := Choice(Insert, key);
            Alone(key, n + 4) == Step(Step(Step(Step(Alone(key, n), 0, ch), 0, ch), 0, ch), 0, ch)
  {
    assert Alone(key, n + 2) == Step(Step(Alone(key, n), 0, Choice(Insert, key)), 0, Choice(Insert, key));
  }

  /** The exception occurs, and with an unlocked predecessor: an insert into the empty list that has
      linked its node and not yet written the back link. */
  lemma BackLinkLags(key: int) returns (sched: seq<(nat, Choice)>)
    ensures Init(Alone(key, 0))
    ensures var r := Exec(Alone(key, 0), sched);
            && |r.heap| == 3 && r.heap[ROOT].next == Some(2) && r.heap[2].next == Some(TAIL)
            && r.heap[2].lock.None? && r.heap[TAIL].prev == Some(ROOT)
  {
    var n: nat :| n == 4;
    var s, c, ch := Alone(key, 0), Call(Insert, key, 0, 0), Choice(Insert, key);
    sched := Moves(key, n + 4);
    AloneRuns(key, n + 4);
    AloneLater(key, n);
    AloneFinds(key, n);
    LocksRoot(s, c, ch);
    LinksNew(State([s.heap[ROOT].(lock := Some(0)), s.heap[TAIL]], [InsLink(c, TAIL, ROOT)], s.versions), c, ch);
  }

  lemma KeysKept(s: State, s': State, t: nat)
    requires t < |s.pcs| && Guarantee(s, s', t) && Cur(s') == Cur(s)
    requires forall i :: 0 < i < |Cur(s)| - 1 ==> Cur(s)[i] < |s.heap|
    ensures Keys(s') == Keys(s)
  {
    forall i | 0 <= i < |Keys(s)| ensures Keys(s')[i] == Keys(s)[i] {
      assert NodeKept(s, s', t, Cur(s)[i + 1]);
    }
  }

  /** longer is shorter with one more occurrence of the key, at index i. */
  ghost predicate OneMore(shorter: seq<int>, longer: seq<int>, key: int, i: nat) {
    && i <= |shorter| && |longer| == |shorter| + 1 && longer[i] == key
    && (forall j :: 0 <= j < i ==> longer[j] == shorter[j])
    && (forall j :: i < j < |longer| ==> longer[j] == shorter[j - 1])
  }

  /** Keys of corresponding places are the same. */
  lemma SameKey(s: State, s': State, i: nat, j: nat)
    requires i < |Keys(s)| && j < |Keys(s')| && Cur(s)[i + 1] == Cur(s')[j + 1] < |s.heap| <= |s'.heap|
    requires s'.heap[Cur(s)[i + 1]].key == s.heap[Cur(s)[i + 1]].key
    ensures Keys(s')[j] == Keys(s)[i]
  {
  }

  lemma LinkSame(s: State, s': State, t: nat, j: nat)
    requires Links(s, s', t) && j < |Keys(s')| && j != IndexOf(Cur(s), s.pcs[t].p)
    ensures |Keys(s')| == |Keys(s)| + 1
    ensures var i := if j < IndexOf(Cur(s), s.pcs[t].p) then j else j - 1;
            0 <= i < |Keys(s)| && Keys(s')[j] == Keys(s)[i]
  {
    var i := if j < IndexOf(Cur(s), s.pcs[t].p) then j else j - 1;
    LinkPlace(s, s', t);
    InsertedAt(Cur(s), s.pcs[t].p, |s.heap|);
    assert ChainAt(s, i + 1) && Cur(s')[j + 1] == Cur(s)[i + 1];
    SameKey(s, s', i, j);
  }

  lemma LinkKeys(s: State, s': State, t: nat)
    requires Links(s, s', t)
    ensures OneMore(Keys(s), Keys(s'), s.pcs[t].c.key, IndexOf(Cur(s), s.pcs[t].p))
  {
    LinkPlace(s, s', t);
    assert Cur(s')[IndexOf(Cur(s), s.pcs[t].p) + 1] == |s.heap|;
    forall j: nat | j < |Keys(s')| && j != IndexOf(Cur(s), s.pcs[t].p)
      ensures var i := if j < IndexOf(Cur(s), s.pcs[t].p) then j else j - 1;
              0 <= i < |Keys(s)| && Keys(s')[j] == Keys(s)[i]
    {
      LinkSame(s, s', t, j);
    }
  }

  lemma UnlinkSame(s: State, s': State, t: nat, j: nat)
    requires Unlinks(s, s', t) && j < |Keys(s)| && j + 1 != IndexOf(Cur(s), s.pcs[t].loc)
    ensures |Keys(s)| == |Keys(s')| + 1
    ensures var i := if j + 1 < IndexOf(Cur(s), s.pcs[t].loc) then j else j - 1;
            0 <= i < |Keys(s')| && Keys(s)[j] == Keys(s')[i]
  {
    UnlinkPlace(s, s', t);
    assert ChainAt(s, j + 1);
    var i := if j + 1 < IndexOf(Cur(s), s.pcs[t].loc) then j else j - 1;
    assert Cur(s')[i + 1] == Cur(s)[j + 1];
    SameKey(s, s', j, i);
  }

  lemma UnlinkKeys(s: State, s': State, t: nat)
    requires Unlinks(s, s', t) && s.heap[s.pcs[t].loc].key == s.pcs[t].c.key
    ensures 0 < IndexOf(Cur(s), s.pcs[t].loc)
    ensures OneMore(Keys(s'), Keys(s), s.pcs[t].c.key, IndexOf(Cur(s), s.pcs[t].loc) - 1)
  {
    UnlinkPlace(s, s', t);
    forall j: nat | j < |Keys(s)| && j + 1 != IndexOf(Cur(s), s.pcs[t].loc)
      ensures var i := if j + 1 < IndexOf(Cur(s), s.pcs[t].loc) then j else j - 1;
              0 <= i < |Keys(s')| && Keys(s)[j] == Keys(s')[i]
    {
      UnlinkSame(s, s', t, j);
    }
  }

  ghost predicate Atomic(s: State, s': State, pc: PC) {
    if pc.InsLink? then pc.c.op.Insert? && exists i: nat :: OneMore(Keys(s), Keys(s'), pc.c.key, i)
    else if pc.RemUnlink? then pc.c.op.Remove? && exists i: nat :: OneMore(Keys(s'), Keys(s), pc.c.key, i)
    else Keys(s') == Keys(s)
  }

  lemma LinkAtomic(s: State, t: nat)
    requires Inv(s) && t < |s.pcs| && s.pcs[t].InsLink?
    ensures Atomic(s, LockedStep(s, t), s.pcs[t])
  {
    var s' := LockedStep(s, t);
    LinkKeys(s, s', t);
    assert OneMore(Keys(s), Keys(s'), s.pcs[t].c.key, IndexOf(Cur(s), s.pcs[t].p));
  }

  lemma UnlinkAtomic(s: State, t: nat)
    requires Inv(s) && t < |s.pcs| && s.pcs[t].RemUnlink?
    ensures Atomic(s, RemoveStep(s, t), s.pcs[t])
  {
    var s' := RemoveStep(s, t);
    assert PcOK(s, t, s.pcs[t]);
    UnlinkUnlinks(s, t);
    UnlinkKeys(s, s', t);
    assert OneMore(Keys(s'), Keys(s), s.pcs[t].c.key, IndexOf(Cur(s), s.pcs[t].loc) - 1);
  }

  lemma QuietAtomic(s: State, t: nat, ch: Choice)
    requires Inv(s) && t < |s.pcs| && !s.pcs[t].InsLink? && !s.pcs[t].RemUnlink?
    ensures Atomic(s, Step(s, t, ch), s.pcs[t])
  {
    ThreadOK(s, t, ch);
    assert VersionAt(s, |s.versions| - 1);
    KeysKept(s, Step(s, t, ch), t);
  }

  /** Linking the new node adds one occurrence of the key inserted, unlinking a node takes one occurrence
      of the key removed away, and no other step changes the keys of the list. */
  lemma StepsAreAtomic(s: State, sched: seq<(nat, Choice)>, t: nat, ch: Choice)
    requires Init(s) && t < |Exec(s, sched).pcs|
    ensures var r := Exec(s, sched); Atomic(r, Step(r, t, ch), r.pcs[t])
  {
    Reachable(s, sched);
    var r := Exec(s, sched);
    if r.pcs[t].InsLink? { LinkAtomic(r, t); }
    else if r.pcs[t].RemUnlink? { UnlinkAtomic(r, t); }
    else { QuietAtomic(r, t, ch); }
  }

  lemma MissedAt(r: State, t: nat)
    requires Inv(r) && t < |r.pcs| && r.pcs[t].Missed?
    ensures var pc := r.pcs[t];
            pc.c.since <= pc.seen.version < |r.versions| && pc.c.key !in KeysOf(r, r.versions[pc.seen.version])
  {
    var pc := r.pcs[t];
    assert PcOK(r, t, pc);
    var o, i := r.versions[pc.seen.version], pc.seen.index;
    assert VersionAt(r, pc.seen.version);
    assert NodeAt(r, o[i]);
  }

  /** A remove that finds nothing to remove is right, although it walks the list without a lock and may
      pass through removed nodes: there was a moment during the call at which the key was not in the list. */
  lemma MissedWasAbsent(s: State, sched: seq<(nat, Choice)>, t: nat)
    requires Init(s) && t < |Exec(s, sched).pcs| && Exec(s, sched).pcs[t].Missed?
    ensures var r := Exec(s, sched);
            var pc := r.pcs[t];
            exists v: nat :: pc.c.since <= v < |r.versions| && pc.c.key !in KeysOf(r, r.versions[v])
  {
    Reachable(s, sched);
    MissedAt(Exec(s, sched), t);
  }

  /** since is the number of the version current at the call, and stays that until it returns; made counts
      the versions that the call makes. */
  lemma SinceIsTheCall(s: State, sched: seq<(nat, Choice)>, t: nat, ch: Choice)
    requires Init(s) && t < |Exec(s, sched).pcs|
    ensures var r := Exec(s, sched);
            var pc, r' := r.pcs[t], Step(r, t, ch);
            && r.versions != [] && |r.versions| <= |r'.versions| && !r'.pcs[t].Idle?
            && (Resting(pc) ==> r'.pcs[t].c == Call(ch.op, ch.key, |r.versions| - 1, 0) && r'.versions == r.versions)
            && (!Resting(pc) ==> r'.pcs[t].c == pc.c.(made := pc.c.made + |r'.versions| - |r.versions|))
  {
    var r := Exec(s, sched);
    Reachable(s, sched);
    assert PcOK(r, t, r.pcs[t]);
    if !Resting(r.pcs[t]) { CallKept(r, t, ch); }
  }

  lemma CallKept(r: State, t: nat, ch: Choice)
    requires t < |r.pcs| && !Resting(r.pcs[t])
    ensures var pc, r' := r.pcs[t], Step(r, t, ch);
            && |r.versions| <= |r'.versions| && t < |r'.pcs| && !r'.pcs[t].Idle?
            && r'.pcs[t].c == pc.c.(made := pc.c.made + |r'.versions| - |r.versions|)
  {
  }

  /** Between its call and its return an insert or remove that succeeds makes exactly one version of the
      list, in one step, and a remove that finds nothing makes none. */
  lemma CallsMakeOneVersion(s: State, sched: seq<(nat, Choice)>, t: nat)
    requires Init(s) && t < |Exec(s, sched).pcs|
    ensures var pc := Exec(s, sched).pcs[t]; (pc.Done? ==> pc.c.made == 1) && (pc.Missed? ==> pc.c.made == 0)
  {
    Reachable(s, sched);
    assert PcOK(Exec(s, sched), t, Exec(s, sched).pcs[t]);
  }
}
