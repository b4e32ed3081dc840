/** One bucket of the versioned hash map of lockfree-flock/HashMap.h, over a lock taken as plain mutual
    exclusion.  Buckets share nothing, so that one stands for all.  Every load, store and lock operation
    on a shared word is one step; searches walk the bucket without the lock. */
module HashBucket {
  import opened Options

  /** born and gone are history: the first and the last version of the bucket that have the node. */
  datatype Node = Node(key: int, next: Option<nat>, born: nat, gone: Option<nat>)

  datatype Op = Insert | Remove | Lookup

  /** since and made are history: the number of the version current when the call began, and how many
      versions the call has made. */
  datatype Call = Call(op: Op, key: int, since: nat, made: nat)

  /** One search of the bucket: the version number read before it and, as history, the number of the
      version of the bucket current at that read. */
  datatype Search = Search(c: Call, vn: nat, at: nat)

  /** pred is the node whose next field, or None for the bucket whose head field, was read to reach nxt.
      seen is history: a version in which nxt follows pred. */
  datatype PC =
    | Idle
    | Start(c: Call)
    | Find(q: Search, pred: Option<nat>, seen: nat)
    | TryLock(q: Search, pred: Option<nat>, nxt: Option<nat>, seen: nat)
    | Check(q: Search, pred: Option<nat>, nxt: Option<nat>, seen: nat)
    | InsLink(q: Search, pred: Option<nat>)
    | RemRead(q: Search, pred: Option<nat>, victim: nat)
    | RemLink(q: Search, pred: Option<nat>, victim: nat, after: Option<nat>)
    | Bump(q: Search)
    | Unlock(c: Call, ok: bool)
    | Done(c: Call)
    | Hit(c: Call, seen: nat)
    | Missed(c: Call, seen: nat)

  /** versions is history: the nodes of the bucket, in order, after every change to it. */
  datatype State = State(heap: seq<Node>, head: Option<nat>, num: nat, lock: Option<nat>, pcs: seq<PC>,
                         versions: seq<seq<nat>>)

  datatype Choice = Choice(op: Op, key: int)

  function Now(s: State): nat {
    if s.versions == [] then 0 else |s.versions| - 1
  }

  function Cur(s: State): seq<nat> {
    if s.versions == [] then [] else s.versions[|s.versions| - 1]
  }

  function IndexFrom(o: seq<nat>, a: nat, k: nat): (i: nat)
    ensures (exists j :: k <= j < |o| && o[j] == a) ==> i < |o| && o[i] == a
    decreases |o| - k
  {
    if k >= |o| || o[k] == a then k else IndexFrom(o, a, k + 1)
  }

  function IndexOf(o: seq<nat>, a: nat): (i: nat)
    ensures a in o ==> i < |o| && o[i] == a
  {
    IndexFrom(o, a, 0)
  }

  function RemoveAt(o: seq<nat>, i: nat): seq<nat>
    requires i < |o|
  {
    seq(|o| - 1, j requires 0 <= j < |o| - 1 => if j < i then o[j] else o[j + 1])
  }

  function Without(o: seq<nat>, a: nat): seq<nat> {
    if a in o then RemoveAt(o, IndexOf(o, a)) else o
  }

  function Goto(s: State, t: nat, pc: PC): State
    requires t < |s.pcs|
  {
    s.(pcs := s.pcs[t := pc])
  }

  /** Reading and writing the field that a search reached its node through. */
  function Read(s: State, pred: Option<nat>): Option<nat> {
    match pred
    case None => s.head
    case Some(a) => if a < |s.heap| then s.heap[a].next else None
  }

  function Write(s: State, pred: Option<nat>, to: Option<nat>): State {
    match pred
    case None => s.(head := to)
    case Some(a) => if a < |s.heap| then s.(heap := s.heap[a := s.heap[a].(next := to)]) else s
  }

  /** The last version that has the node. */
  function Last(s: State, a: nat): nat {
    if a < |s.heap| && s.heap[a].gone.Some? then s.heap[a].gone.value else Now(s)
  }

  function LastOf(s: State, pred: Option<nat>): nat {
    if pred.None? then Now(s) else Last(s, pred.value)
  }

  predicate Matches(s: State, nxt: Option<nat>, key: int) {
    nxt.Some? && nxt.value < |s.heap| && s.heap[nxt.value].key == key
  }

  function Made(q: Search): Search {
    q.(c := q.c.(made := q.c.made + 1))
  }

  function SearchStep(s: State, t: nat): State
    requires t < |s.pcs|
  {
    match s.pcs[t]
    case Start(c) => Goto(s, t, Find(Search(c, s.num, Now(s)), None, Now(s)))
    case Find(q, pred, _) =>
      var nxt, seen := Read(s, pred), LastOf(s, pred);
      Goto(s, t, if nxt.Some? && !Matches(s, nxt, q.c.key) then Find(q, nxt, seen)
                 else if q.c.op.Lookup? && nxt.Some? then Hit(q.c, seen)
                 else if !q.c.op.Insert? && nxt.None? then Missed(q.c, seen)
                 else TryLock(q, pred, nxt, seen))
    case TryLock(q, pred, nxt, seen) =>
      if s.lock.Some? then Goto(s, t, Start(q.c)) else Goto(s.(lock := Some(t)), t, Check(q, pred, nxt, seen))
    case _ => s
  }

  function LockedStep(s: State, t: nat): State
    requires t < |s.pcs|
  {
    match s.pcs[t]
    case Check(q, pred, nxt, seen) =>
      Goto(s, t, if s.num != q.vn then Unlock(q.c, false)
                 else if nxt.None? then InsLink(q, pred)
                 else if q.c.op.Remove? then RemRead(q, pred, nxt.value)
                 else Unlock(q.c, true))          // the value of the node found is overwritten
    case InsLink(q, pred) =>
      var n := |s.heap|;
      Goto(Write(s.(heap := s.heap + [Node(q.c.key, None, Now(s) + 1, None)]), pred, Some(n))
           .(versions := s.versions + [Cur(s) + [n]]), t, Bump(Made(q)))
    case RemRead(q, pred, nxt) =>
      if nxt >= |s.heap| then s else Goto(s, t, RemLink(q, pred, nxt, s.heap[nxt].next))
    case RemLink(q, pred, nxt, after) =>
      if nxt >= |s.heap| then s
      else
        Goto(Write(s.(heap := s.heap[nxt := s.heap[nxt].(gone := Some(Now(s)))]), pred, after)
             .(versions := s.versions + [Without(Cur(s), nxt)]), t, Bump(Made(q)))
    case Bump(q) => Goto(s.(num := q.vn + 1), t, Unlock(q.c, true))
    case Unlock(c, ok) => Goto(s.(lock := None), t, if ok then Done(c) else Start(c))
    case _ => s
  }

  predicate Resting(pc: PC) {
    pc.Idle? || pc.Done? || pc.Hit? || pc.Missed?
  }

  function Step(s: State, t: nat, ch: Choice): State {
    if t >= |s.pcs| then s
    else if Resting(s.pcs[t]) then Goto(s, t, Start(Call(ch.op, ch.key, Now(s), 0)))
    else if s.pcs[t].Start? || s.pcs[t].Find? || s.pcs[t].TryLock? then SearchStep(s, t)
    else LockedStep(s, t)
  }

  function Exec(s: State, sched: seq<(nat, Choice)>): State
    decreases |sched|
  {
    if sched == [] then s
    else
      var last := sched[|sched| - 1];
      Step(Exec(s, sched[..|sched| - 1]), last.0, last.1)
  }

  predicate Init(s: State) {
    && s.heap == [] && s.head == None && s.num == 0 && s.lock == None && s.versions == [[]]
    && forall t :: 0 <= t < |s.pcs| ==> s.pcs[t] == Idle
  }

  // ---------------------------------------------------------------- the invariant

  /** A version: nodes in the order in which they were made, no two with the same key. */
  ghost predicate VersionAt(s: State, v: nat) {
    && v < |s.versions|
    && (forall i :: 0 <= i < |s.versions[v]| ==> s.versions[v][i] < |s.heap|)
    && Increasing(s.versions[v]) && Unique(s, s.versions[v])
  }

  ghost predicate Increasing(o: seq<nat>) {
    forall i, j :: 0 <= i < j < |o| ==> o[i] < o[j]
  }

  ghost predicate Unique(s: State, o: seq<nat>)
    requires forall i :: 0 <= i < |o| ==> o[i] < |s.heap|
  {
    forall i, j :: 0 <= i < j < |o| ==> s.heap[o[i]].key != s.heap[o[j]].key
  }

  /** The version has exactly the nodes born by then and not gone before. */
  ghost predicate MemberAt(s: State, v: nat, a: nat) {
    v < |s.versions| && a < |s.heap| && (a in s.versions[v] <==> s.heap[a].born <= v <= Last(s, a))
  }

  function Succ(o: seq<nat>, a: nat): Option<nat> {
    if a in o && IndexOf(o, a) + 1 < |o| then Some(o[IndexOf(o, a) + 1]) else None
  }

  /** A node points at its successor in the last version that has it. */
  ghost predicate NodeAt(s: State, a: nat) {
    && a < |s.heap| && s.heap[a].born <= Last(s, a) < |s.versions|
    && (s.heap[a].gone.Some? ==> s.heap[a].gone.value < Now(s))
    && s.heap[a].next == Succ(s.versions[Last(s, a)], a)
    && (a > 0 ==> s.heap[a - 1].born <= s.heap[a].born)
  }

  ghost predicate ListOK(s: State) {
    && s.versions != [] && s.head == (if Cur(s) == [] then None else Some(Cur(s)[0]))
    && (forall v: nat :: v < |s.versions| ==> VersionAt(s, v))
    && (forall v: nat, a: nat :: v < |s.versions| && a < |s.heap| ==> MemberAt(s, v, a))
    && (forall a: nat :: a < |s.heap| ==> NodeAt(s, a))
  }

  /** The version number counts the changes, but for one that a thread has yet to count. */
  predicate NumOK(s: State) {
    if s.lock.Some? && s.lock.value < |s.pcs| && s.pcs[s.lock.value].Bump? then s.num + 1 == Now(s) else s.num == Now(s)
  }

  ghost predicate Inv(s: State) {
    ListOK(s) && NumOK(s) && forall t: nat :: t < |s.pcs| ==> PcOK(s, t, s.pcs[t])
  }

  predicate SearchOK(s: State, q: Search, seen: nat) {
    q.c.since <= q.at <= seen <= Now(s) && q.vn <= q.at && q.c.made == 0
  }

  /** In version v no node up to a, or in an exclusive bound before a, has the key. */
  ghost predicate NoneUpTo(s: State, v: nat, a: nat, key: int) {
    v < |s.versions| && forall y :: y in s.versions[v] && y <= a ==> y < |s.heap| && s.heap[y].key != key
  }

  ghost predicate PredOK(s: State, v: nat, pred: Option<nat>, key: int) {
    pred.Some? ==> v < |s.versions| && pred.value in s.versions[v] && NoneUpTo(s, v, pred.value, key)
  }

  /** In version v the search was right: nxt is the node with the key, and pred the one before it. */
  ghost predicate FoundAt(s: State, v: nat, pred: Option<nat>, nxt: Option<nat>, key: int) {
    && v < |s.versions| && PredOK(s, v, pred, key)
    && nxt == (if pred.Some? then Succ(s.versions[v], pred.value)
               else if s.versions[v] == [] then None else Some(s.versions[v][0]))
    && (nxt.Some? ==> Matches(s, nxt, key))
  }

  predicate Locked(s: State, t: nat) {
    s.lock == Some(t)
  }

  ghost predicate Present(s: State, v: nat, key: int) {
    v < |s.versions| && exists a :: a in s.versions[v] && a < |s.heap| && s.heap[a].key == key
  }

  ghost predicate Absent(s: State, v: nat, key: int) {
    v < |s.versions| && forall a :: a in s.versions[v] ==> a < |s.heap| && s.heap[a].key != key
  }

  /** An insert that found its key in the bucket, and changed nothing. */
  ghost predicate FoundDuring(s: State, c: Call) {
    c.op.Insert? && c.made == 0 && exists v: nat :: c.since <= v <= Now(s) && Present(s, v, c.key)
  }

  ghost predicate Knows(s: State, t: nat, pc: PC) {
    match pc
    case Idle => true
    case Start(c) => c.since <= Now(s) && c.made == 0
    case Find(q, pred, seen) => SearchOK(s, q, seen) && PredOK(s, seen, pred, q.c.key)
    case TryLock(q, pred, nxt, seen) =>
      SearchOK(s, q, seen) && FoundAt(s, seen, pred, nxt, q.c.key) && (nxt.None? ==> q.c.op.Insert?) && !q.c.op.Lookup?
    case Check(q, pred, nxt, seen) =>
      && SearchOK(s, q, seen) && FoundAt(s, seen, pred, nxt, q.c.key) && (nxt.None? ==> q.c.op.Insert?)
      && !q.c.op.Lookup? && Locked(s, t)
    case InsLink(q, pred) =>
      && Locked(s, t) && q.vn == Now(s) == s.num && q.c.since <= Now(s) && q.c.op.Insert? && q.c.made == 0
      && FoundAt(s, Now(s), pred, None, q.c.key)
    case RemRead(q, pred, nxt) =>
      && Locked(s, t) && q.vn == Now(s) == s.num && q.c.since <= Now(s) && q.c.op.Remove? && q.c.made == 0
      && FoundAt(s, Now(s), pred, Some(nxt), q.c.key)
    case RemLink(q, pred, nxt, after) =>
      && Locked(s, t) && q.vn == Now(s) == s.num && q.c.since <= Now(s) && q.c.op.Remove? && q.c.made == 0
      && FoundAt(s, Now(s), pred, Some(nxt), q.c.key) && after == Succ(Cur(s), nxt)
    case Bump(q) => Locked(s, t) && q.vn == s.num && q.c.since <= Now(s) && q.vn + 1 == Now(s) && q.c.made == 1
    case Unlock(c, ok) =>
      Locked(s, t) && c.since <= Now(s) && (if ok then c.made == 1 || FoundDuring(s, c) else c.made == 0)
    case Done(c) => c.made == 1 || FoundDuring(s, c)
    case Hit(c, seen) => c.made == 0 && c.since <= seen <= Now(s) && Present(s, seen, c.key)
    case Missed(c, seen) => c.made == 0 && c.since <= seen <= Now(s) && Absent(s, seen, c.key)
  }

  /** Knows as one fact: the comparison keeps proofs that pass it on from being split into its cases. */
  ghost predicate PcOK(s: State, t: nat, pc: PC) {
    Knows(s, t, pc) == true
  }

  // ---------------------------------------------------------------- what other threads may do

  /** A step appends versions and nodes, and keeps keys and births; only the holder of the lock changes
      the bucket, the version number or the lock. */
  ghost predicate Guarantee(s: State, s': State, t: nat)
    requires t < |s.pcs|
  {
    && |s'.pcs| == |s.pcs| && s'.pcs == s.pcs[t := s'.pcs[t]]
    && |s.heap| <= |s'.heap| && s.versions <= s'.versions
    && (forall a: nat :: a < |s.heap| ==> s'.heap[a].key == s.heap[a].key)
    && (s.lock.Some? && s.lock != Some(t) ==>
          s'.lock == s.lock && s'.versions == s.versions && s'.num == s.num)
  }

  lemma PresentStays(s: State, s': State, v: nat, key: int)
    requires |s.heap| <= |s'.heap| && s.versions <= s'.versions && Present(s, v, key)
    requires forall a: nat :: a < |s.heap| ==> s'.heap[a].key == s.heap[a].key
    ensures Present(s', v, key)
  {
    var a :| a in s.versions[v] && a < |s.heap| && s.heap[a].key == key;
    assert a in s'.versions[v];
  }

  lemma FoundStays(s: State, s': State, c: Call)
    requires |s.heap| <= |s'.heap| && s.versions <= s'.versions && FoundDuring(s, c)
    requires forall a: nat :: a < |s.heap| ==> s'.heap[a].key == s.heap[a].key
    ensures FoundDuring(s', c)
  {
    var v: nat :| c.since <= v <= Now(s) && Present(s, v, c.key);
    PresentStays(s, s', v, c.key);
  }

  lemma SearchStable(s: State, s': State, t: nat, u: nat)
    requires ListOK(s) && t < |s.pcs| && Guarantee(s, s', t) && u < |s.pcs| && u != t && PcOK(s, u, s.pcs[u])
    requires var pc := s.pcs[u]; pc.Start? || pc.Find? || pc.TryLock? || Resting(pc)
    ensures PcOK(s', u, s.pcs[u])
  {
    var pc := s.pcs[u];
    if pc.Find? || pc.TryLock? || pc.Hit? || pc.Missed? {
      assert VersionAt(s, pc.seen);
      if pc.Hit? { PresentStays(s, s', pc.seen, pc.c.key); }
    }
    if pc.Done? && pc.c.made != 1 { FoundStays(s, s', pc.c); }
  }

  lemma CheckStable(s: State, s': State, t: nat, u: nat)
    requires ListOK(s) && t < |s.pcs| && Guarantee(s, s', t) && u < |s.pcs| && u != t && PcOK(s, u, s.pcs[u])
    requires s.pcs[u].Check?
    ensures PcOK(s', u, s.pcs[u])
  {
    assert VersionAt(s, s.pcs[u].seen);
  }

  /** A search stays right as long as versions and keys stay. */
  lemma FoundKept(s: State, s': State, v: nat, pred: Option<nat>, nxt: Option<nat>, key: int)
    requires s'.versions == s.versions && |s.heap| <= |s'.heap| && VersionAt(s, v) && FoundAt(s, v, pred, nxt, key)
    requires forall a: nat :: a < |s.heap| ==> s'.heap[a].key == s.heap[a].key
    ensures FoundAt(s', v, pred, nxt, key)
  {
  }

  lemma ChangeStable(s: State, s': State, t: nat, u: nat)
    requires ListOK(s) && t < |s.pcs| && Guarantee(s, s', t) && u < |s.pcs| && u != t && PcOK(s, u, s.pcs[u])
    requires s.pcs[u].InsLink? || s.pcs[u].RemRead? || s.pcs[u].RemLink?
    ensures PcOK(s', u, s.pcs[u])
  {
    var pc := s.pcs[u];
    assert VersionAt(s, Now(s)) && Now(s') == Now(s) && Cur(s') == Cur(s);
    FoundKept(s, s', Now(s), pc.pred, if pc.InsLink? then None else Some(pc.victim), pc.q.c.key);
  }

  lemma LockedStable(s: State, s': State, t: nat, u: nat)
    requires ListOK(s) && t < |s.pcs| && Guarantee(s, s', t) && u < |s.pcs| && u != t && PcOK(s, u, s.pcs[u])
    requires var pc := s.pcs[u]; !(pc.Start? || pc.Find? || pc.TryLock? || Resting(pc))
    ensures PcOK(s', u, s.pcs[u])
  {
    var pc := s.pcs[u];
    if pc.Check? { CheckStable(s, s', t, u); }
    else if pc.InsLink? || pc.RemRead? || pc.RemLink? { ChangeStable(s, s', t, u); }
    else if pc.Unlock? && pc.ok && pc.c.made != 1 { FoundStays(s, s', pc.c); }
  }

  ghost predicate StepOK(s: State, s': State, t: nat)
    requires t < |s.pcs|
  {
    Guarantee(s, s', t) && ListOK(s') && NumOK(s') && PcOK(s', t, s'.pcs[t])
  }

  /** A step that leaves the bucket alone. */
  lemma QuietList(s: State, s': State)
    requires ListOK(s) && s'.heap == s.heap && s'.head == s.head && s'.versions == s.versions
    ensures ListOK(s')
  {
    forall v: nat | v < |s'.versions| ensures VersionAt(s', v) { assert VersionAt(s, v); }
    forall v: nat, a: nat | v < |s'.versions| && a < |s'.heap| ensures MemberAt(s', v, a) { assert MemberAt(s, v, a); }
    forall a: nat | a < |s'.heap| ensures NodeAt(s', a) { assert NodeAt(s, a); }
  }

  /** What a thread knows does not depend on the registers of others. */
  lemma SamePc(s: State, s': State, t: nat, pc: PC)
    requires PcOK(s, t, pc) && s' == s.(pcs := s'.pcs)
    ensures PcOK(s', t, pc)
  {
    if (pc.Done? || (pc.Unlock? && pc.ok)) && pc.c.made != 1 { FoundStays(s, s', pc.c); }
  }

  // ---------------------------------------------------------------- the unlocked search

  lemma BornInOrder(s: State, a: nat, b: nat)
    requires ListOK(s) && a <= b < |s.heap|
    ensures s.heap[a].born <= s.heap[b].born
    decreases b - a
  {
    if a < b {
      BornInOrder(s, a, b - 1);
      assert NodeAt(s, b);
    }
  }

  /** What the search has passed stays passed: a node before pred in a later version was there before. */
  lemma StillNone(s: State, v: nat, w: nat, a: nat, key: int)
    requires ListOK(s) && v <= w < |s.versions| && a in s.versions[v] && NoneUpTo(s, v, a, key)
    ensures NoneUpTo(s, w, a, key)
  {
    assert VersionAt(s, v) && VersionAt(s, w) && MemberAt(s, v, a);
    forall y | y in s.versions[w] && y <= a ensures y < |s.heap| && s.heap[y].key != key {
      BornInOrder(s, y, a);
      assert MemberAt(s, w, y) && MemberAt(s, v, y);
    }
  }

  lemma SuccFacts(o: seq<nat>, a: nat)
    requires Increasing(o) && a in o
    ensures Succ(o, a).None? ==> forall y :: y in o ==> y <= a
    ensures Succ(o, a).Some? ==> Succ(o, a).value in o && Succ(o, a).value > a
    ensures Succ(o, a).Some? ==> forall y :: y in o && y < Succ(o, a).value ==> y <= a
  {
  }

  /** Reading on from pred: the version in which the node read follows pred, and what is before it. */
  lemma ReadOn(s: State, v: nat, pred: Option<nat>, key: int)
    requires ListOK(s) && v <= Now(s) && PredOK(s, v, pred, key)
    ensures var nxt, w := Read(s, pred), LastOf(s, pred);
            && v <= w < |s.versions| && PredOK(s, w, pred, key)
            && (nxt.None? || Matches(s, nxt, key) ==> FoundAt(s, w, pred, nxt, key))
            && (nxt.Some? && !Matches(s, nxt, key) ==> PredOK(s, w, nxt, key))
  {
    var nxt, w := Read(s, pred), LastOf(s, pred);
    if pred.Some? {
      var a := pred.value;
      assert VersionAt(s, v) && MemberAt(s, v, a) && NodeAt(s, a) && MemberAt(s, w, a) && VersionAt(s, w);
      StillNone(s, v, w, a, key);
      SuccFacts(s.versions[w], a);
    } else {
      assert VersionAt(s, w);
    }
  }

  lemma FoundMeans(s: State, v: nat, pred: Option<nat>, nxt: Option<nat>, key: int)
    requires ListOK(s) && FoundAt(s, v, pred, nxt, key)
    ensures nxt.None? ==> Absent(s, v, key)
    ensures nxt.Some? ==> Present(s, v, key) && nxt.value in s.versions[v]
  {
    assert VersionAt(s, v);
    if pred.Some? { SuccFacts(s.versions[v], pred.value); }
  }

  lemma FindOK(s: State, t: nat)
    requires Inv(s) && t < |s.pcs| && s.pcs[t].Find?
    ensures StepOK(s, SearchStep(s, t), t)
  {
    assert PcOK(s, t, s.pcs[t]);
    var q, pred, seen := s.pcs[t].q, s.pcs[t].pred, s.pcs[t].seen;
    ReadOn(s, seen, pred, q.c.key);
    var nxt, w := Read(s, pred), LastOf(s, pred);
    if nxt.None? || Matches(s, nxt, q.c.key) { FoundMeans(s, w, pred, nxt, q.c.key); }
    QuietList(s, SearchStep(s, t));
  }

  lemma StartOK(s: State, t: nat, ch: Choice)
    requires Inv(s) && t < |s.pcs| && (s.pcs[t].Start? || s.pcs[t].TryLock? || Resting(s.pcs[t]))
    ensures StepOK(s, Step(s, t, ch), t)
  {
    assert PcOK(s, t, s.pcs[t]);
    QuietList(s, Step(s, t, ch));
  }

  // ---------------------------------------------------------------- the locked section

  /** The number read before the search is still the version number: the bucket has not changed since. */
  lemma Unchanged(s: State, t: nat)
    requires Inv(s) && t < |s.pcs| && s.pcs[t].Check? && s.num == s.pcs[t].q.vn
    ensures s.pcs[t].q.at == s.pcs[t].seen == Now(s) == s.num
  {
    assert PcOK(s, t, s.pcs[t]);
  }

  lemma CheckPc(s: State, t: nat)
    requires Inv(s) && t < |s.pcs| && s.pcs[t].Check?
    ensures PcOK(s, t, LockedStep(s, t).pcs[t])
  {
    assert PcOK(s, t, s.pcs[t]);
    if s.num == s.pcs[t].q.vn {
      Unchanged(s, t);
      FoundMeans(s, Now(s), s.pcs[t].pred, s.pcs[t].nxt, s.pcs[t].q.c.key);
    }
  }

  lemma RemReadPc(s: State, t: nat)
    requires Inv(s) && t < |s.pcs| && s.pcs[t].RemRead?
    ensures PcOK(s, t, LockedStep(s, t).pcs[t])
  {
    var nxt := s.pcs[t].victim;
    assert PcOK(s, t, s.pcs[t]);
    FoundMeans(s, Now(s), s.pcs[t].pred, Some(nxt), s.pcs[t].q.c.key);
    assert NodeAt(s, nxt) && MemberAt(s, Now(s), nxt);
  }

  lemma CheckOK(s: State, t: nat)
    requires Inv(s) && t < |s.pcs| && (s.pcs[t].Check? || s.pcs[t].RemRead?)
    ensures StepOK(s, LockedStep(s, t), t)
  {
    assert PcOK(s, t, s.pcs[t]);
    if s.pcs[t].Check? { CheckPc(s, t); } else { RemReadPc(s, t); }
    SamePc(s, LockedStep(s, t), t, LockedStep(s, t).pcs[t]);
    QuietList(s, LockedStep(s, t));
  }

  /** The version number is raised, then the lock released. */
  lemma LeaveOK(s: State, t: nat)
    requires Inv(s) && t < |s.pcs| && (s.pcs[t].Bump? || s.pcs[t].Unlock?)
    ensures StepOK(s, LockedStep(s, t), t)
  {
    assert PcOK(s, t, s.pcs[t]);
    QuietList(s, LockedStep(s, t));
    var pc := s.pcs[t];
    if pc.Unlock? && pc.ok && pc.c.made != 1 { FoundStays(s, LockedStep(s, t), pc.c); }
  }

  /** s' is s with a new node at the end of the bucket. */
  ghost predicate Appends(s: State, s': State, t: nat) {
    && t < |s.pcs| && s.pcs[t].InsLink? && s.versions != []
    && var q, pred, n := s.pcs[t].q, s.pcs[t].pred, |s.heap|;
    && |s'.heap| == n + 1 && s'.heap[n] == Node(q.c.key, None, Now(s) + 1, None)
    && (forall a: nat :: a < n ==> s'.heap[a] == if pred == Some(a) then s.heap[a].(next := Some(n)) else s.heap[a])
    && s'.head == (if pred.None? then Some(n) else s.head)
    && s'.versions == s.versions + [Cur(s) + [n]] && Now(s') == Now(s) + 1 && Cur(s') == Cur(s) + [n]
    && s'.lock == s.lock && s'.num == s.num && s'.pcs == s.pcs[t := Bump(Made(q))]
  }

  /** The search that found no node with the key still holds. */
  ghost predicate MayAppend(s: State, t: nat) {
    ListOK(s) && t < |s.pcs| && s.pcs[t].InsLink? && FoundAt(s, Now(s), s.pcs[t].pred, None, s.pcs[t].q.c.key)
  }

  lemma AppendAppends(s: State, t: nat)
    requires t < |s.pcs| && s.pcs[t].InsLink? && s.versions != []
    requires s.pcs[t].pred.Some? ==> s.pcs[t].pred.value < |s.heap|
    ensures Appends(s, LockedStep(s, t), t)
  {
  }

  lemma UniqueAppended(s: State, s': State, o: seq<nat>)
    requires Increasing(o) && (forall i :: 0 <= i < |o| ==> o[i] < |s.heap|) && Unique(s, o)
    requires |s'.heap| == |s.heap| + 1 && forall a :: 0 <= a < |s.heap| ==> s'.heap[a].key == s.heap[a].key
    requires forall i :: 0 <= i < |o| ==> s.heap[o[i]].key != s'.heap[|s.heap|].key
    ensures var q := o + [|s.heap|];
            Increasing(q) && (forall i :: 0 <= i < |q| ==> q[i] < |s'.heap|) && Unique(s', q)
  {
  }

  lemma AppendVersion(s: State, s': State, t: nat, v: nat)
    requires MayAppend(s, t) && Appends(s, s', t) && v < |s'.versions|
    ensures VersionAt(s', v)
  {
    if v < |s.versions| {
      assert VersionAt(s, v);
    } else {
      assert VersionAt(s, Now(s));
      FoundMeans(s, Now(s), s.pcs[t].pred, None, s.pcs[t].q.c.key);
      UniqueAppended(s, s', Cur(s));
    }
  }

  lemma AppendMember(s: State, s': State, t: nat, v: nat, a: nat)
    requires MayAppend(s, t) && Appends(s, s', t) && v < |s'.versions| && a < |s'.heap|
    ensures MemberAt(s', v, a)
  {
    if v < |s.versions| { assert VersionAt(s, v); }
    if a < |s.heap| {
      assert NodeAt(s, a) && MemberAt(s, Now(s), a);
      if v < |s.versions| { assert MemberAt(s, v, a); }
    }
  }

  lemma SuccAppended(o: seq<nat>, n: nat, a: nat)
    requires Increasing(o) && forall i :: 0 <= i < |o| ==> o[i] < n
    ensures a in o ==> Succ(o + [n], a) == if Succ(o, a).Some? then Succ(o, a) else Some(n)
    ensures Succ(o + [n], n) == None
  {
    var q := o + [n];
    assert q[|o|] == n;
    if a in o {
      var i := IndexOf(o, a);
      assert q[i] == a;
      assert IndexOf(q, a) == i;
    }
  }

  /** The nodes that were there keep what they know; the last one gets the new node as its successor. */
  lemma AppendOld(s: State, s': State, t: nat, a: nat)
    requires MayAppend(s, t) && Appends(s, s', t) && a < |s.heap|
    ensures NodeAt(s', a)
  {
    assert VersionAt(s, Now(s)) && NodeAt(s, a) && MemberAt(s, Now(s), a);
    SuccAppended(Cur(s), |s.heap|, a);
    var pred := s.pcs[t].pred;
    if pred.Some? { SuccFacts(Cur(s), pred.value); }
    if a in Cur(s) { SuccFacts(Cur(s), a); }
  }

  lemma AppendNode(s: State, s': State, t: nat, a: nat)
    requires MayAppend(s, t) && Appends(s, s', t) && a < |s'.heap|
    ensures NodeAt(s', a)
  {
    if a < |s.heap| {
      AppendOld(s, s', t, a);
    } else {
      assert VersionAt(s, Now(s));
      SuccAppended(Cur(s), |s.heap|, a);
      if a > 0 { assert NodeAt(s, a - 1); }
    }
  }

  lemma AppendThread(s: State, s': State, t: nat)
    requires Inv(s) && Appends(s, s', t)
    ensures Guarantee(s, s', t) && NumOK(s') && PcOK(s', t, s'.pcs[t])
  {
    assert PcOK(s, t, s.pcs[t]);
  }

  lemma AppendOK(s: State, t: nat)
    requires Inv(s) && t < |s.pcs| && s.pcs[t].InsLink?
    ensures StepOK(s, LockedStep(s, t), t)
  {
    var s' := LockedStep(s, t);
    assert PcOK(s, t, s.pcs[t]) && VersionAt(s, Now(s));
    AppendAppends(s, t);
    AppendThread(s, s', t);
    forall v: nat | v < |s'.versions| ensures VersionAt(s', v) { AppendVersion(s, s', t, v); }
    forall v: nat, a: nat | v < |s'.versions| && a < |s'.heap| ensures MemberAt(s', v, a) {
      AppendMember(s, s', t, v, a);
    }
    forall a: nat | a < |s'.heap| ensures NodeAt(s', a) { AppendNode(s, s', t, a); }
  }

  /** s' is s with a node taken out of the bucket. */
  ghost predicate TakesOut(s: State, s': State, t: nat) {
    && t < |s.pcs| && s.pcs[t].RemLink? && s.versions != []
    && var q, pred, victim := s.pcs[t].q, s.pcs[t].pred, s.pcs[t].victim;
    && |s'.heap| == |s.heap|
    && (forall a: nat :: a < |s.heap| ==>
          s'.heap[a] == if a == victim then s.heap[a].(gone := Some(Now(s)))
                        else if pred == Some(a) then s.heap[a].(next := Succ(Cur(s), victim)) else s.heap[a])
    && s'.head == (if pred.None? then Succ(Cur(s), victim) else s.head)
    && s'.versions == s.versions + [Without(Cur(s), victim)] && Now(s') == Now(s) + 1
       && Cur(s') == Without(Cur(s), victim)
    && s'.lock == s.lock && s'.num == s.num && s'.pcs == s.pcs[t := Bump(Made(q))]
  }

  /** The search that found the victim still holds. */
  ghost predicate MayTake(s: State, t: nat) {
    && ListOK(s) && t < |s.pcs| && s.pcs[t].RemLink?
    && var pred, victim := s.pcs[t].pred, s.pcs[t].victim;
    && FoundAt(s, Now(s), pred, Some(victim), s.pcs[t].q.c.key) && victim in Cur(s) && pred != Some(victim)
  }

  lemma TakeTakesOut(s: State, t: nat)
    requires t < |s.pcs| && s.pcs[t].RemLink? && s.versions != [] && s.pcs[t].victim < |s.heap|
    requires s.pcs[t].pred.Some? ==> s.pcs[t].pred.value < |s.heap| && s.pcs[t].pred.value != s.pcs[t].victim
    requires s.pcs[t].after == Succ(Cur(s), s.pcs[t].victim)
    ensures TakesOut(s, LockedStep(s, t), t)
  {
  }

  lemma RemovedAt(o: seq<nat>, m: nat)
    requires m < |o| && Increasing(o)
    ensures var q := RemoveAt(o, m);
            && |q| == |o| - 1 && Increasing(q)
            && (forall j :: 0 <= j < m ==> q[j] == o[j])
            && (forall j :: m <= j < |q| ==> q[j] == o[j + 1])
  {
    var q := RemoveAt(o, m);
    forall i, j | 0 <= i < j < |q| ensures q[i] < q[j] {
      assert o[if i < m then i else i + 1] < o[if j < m then j else j + 1];
    }
  }

  lemma WithoutAt(o: seq<nat>, a: nat)
    requires a in o && Increasing(o)
    ensures var q, i := Without(o, a), IndexOf(o, a);
            && |q| == |o| - 1 && Increasing(q)
            && (forall j :: 0 <= j < i ==> q[j] == o[j])
            && (forall j :: i <= j < |q| ==> q[j] == o[j + 1])
  {
    RemovedAt(o, IndexOf(o, a));
  }

  lemma WithoutIn(o: seq<nat>, a: nat, x: nat)
    requires a in o && Increasing(o)
    ensures x in Without(o, a) <==> x in o && x != a
  {
    var q, i := Without(o, a), IndexOf(o, a);
    WithoutAt(o, a);
    if x in q {
      var j :| 0 <= j < |q| && q[j] == x;
      assert x == o[if j < i then j else j + 1];
    }
    if x in o && x != a {
      var j :| 0 <= j < |o| && o[j] == x;
      assert x == q[if j < i then j else j - 1];
    }
  }

  lemma UniqueWithout(s: State, s': State, o: seq<nat>, x: nat)
    requires x in o && Increasing(o) && (forall i :: 0 <= i < |o| ==> o[i] < |s.heap|) && Unique(s, o)
    requires |s'.heap| == |s.heap| && forall a :: 0 <= a < |s.heap| ==> s'.heap[a].key == s.heap[a].key
    ensures var q := Without(o, x);
            Increasing(q) && (forall i :: 0 <= i < |q| ==> q[i] < |s'.heap|) && Unique(s', q)
  {
    var q, m := Without(o, x), IndexOf(o, x);
    WithoutAt(o, x);
    forall i, j | 0 <= i < j < |q|
      ensures q[i] < |s'.heap| && q[j] < |s'.heap| && s'.heap[q[i]].key != s'.heap[q[j]].key
    {
      var k, l := if i < m then i else i + 1, if j < m then j else j + 1;
      assert s.heap[o[k]].key != s.heap[o[l]].key;
    }
  }

  lemma TakeVersion(s: State, s': State, t: nat, v: nat)
    requires MayTake(s, t) && TakesOut(s, s', t) && v < |s'.versions|
    ensures VersionAt(s', v)
  {
    if v < |s.versions| {
      assert VersionAt(s, v);
    } else {
      assert VersionAt(s, Now(s));
      UniqueWithout(s, s', Cur(s), s.pcs[t].victim);
    }
  }

  lemma TakeMember(s: State, s': State, t: nat, v: nat, a: nat)
    requires MayTake(s, t) && TakesOut(s, s', t) && v < |s'.versions| && a < |s'.heap|
    ensures MemberAt(s', v, a)
  {
    assert NodeAt(s, a) && MemberAt(s, Now(s), a) && VersionAt(s, Now(s));
    if v < |s.versions| { assert MemberAt(s, v, a); } else { WithoutIn(Cur(s), s.pcs[t].victim, a); }
  }

  lemma IndexUnique(o: seq<nat>, i: nat)
    requires Increasing(o) && i < |o|
    ensures IndexOf(o, o[i]) == i
  {
  }

  lemma SuccWithout(o: seq<nat>, x: nat, a: nat)
    requires Increasing(o) && x in o && a in o && a != x
    ensures Succ(Without(o, x), a) == if Succ(o, a) == Some(x) then Succ(o, x) else Succ(o, a)
  {
    var q, i, m := Without(o, x), IndexOf(o, a), IndexOf(o, x);
    WithoutAt(o, x);
    if i < m {
      assert q[i] == a;
      IndexUnique(q, i);
    } else {
      assert q[i - 1] == a;
      IndexUnique(q, i - 1);
    }
  }

  lemma TakeNode(s: State, s': State, t: nat, a: nat)
    requires MayTake(s, t) && TakesOut(s, s', t) && a < |s'.heap|
    ensures NodeAt(s', a)
  {
    assert VersionAt(s, Now(s)) && NodeAt(s, a) && MemberAt(s, Now(s), a);
    var pred, victim := s.pcs[t].pred, s.pcs[t].victim;
    if a in Cur(s) && a != victim {
      SuccWithout(Cur(s), victim, a);
      if pred.Some? {
        OnePred(Cur(s), a, pred.value, victim);
      } else {
        SuccFacts(Cur(s), a);
      }
    }
  }

  lemma OnePred(o: seq<nat>, a: nat, b: nat, x: nat)
    requires Increasing(o) && a in o && b in o && Succ(o, b) == Some(x)
    ensures Succ(o, a) == Some(x) <==> a == b
  {
  }

  lemma TakeHead(s: State, s': State, t: nat)
    requires MayTake(s, t) && TakesOut(s, s', t)
    ensures s'.head == (if Cur(s') == [] then None else Some(Cur(s')[0]))
  {
    assert VersionAt(s, Now(s));
    WithoutAt(Cur(s), s.pcs[t].victim);
    if s.pcs[t].pred.None? {
      IndexUnique(Cur(s), 0);
    } else {
      SuccFacts(Cur(s), s.pcs[t].pred.value);
    }
  }

  lemma TakeThread(s: State, s': State, t: nat)
    requires Inv(s) && TakesOut(s, s', t)
    ensures Guarantee(s, s', t) && NumOK(s') && PcOK(s', t, s'.pcs[t])
  {
    assert PcOK(s, t, s.pcs[t]);
  }

  lemma Takes(s: State, t: nat)
    requires ListOK(s) && t < |s.pcs| && s.pcs[t].RemLink? && PcOK(s, t, s.pcs[t])
    ensures MayTake(s, t) && TakesOut(s, LockedStep(s, t), t)
  {
    assert VersionAt(s, Now(s));
    TakeTakesOut(s, t);
  }

  lemma TakenOK(s: State, s': State, t: nat)
    requires Inv(s) && MayTake(s, t) && TakesOut(s, s', t)
    ensures StepOK(s, s', t)
  {
    TakeThread(s, s', t);
    TakeHead(s, s', t);
    forall v: nat | v < |s'.versions| ensures VersionAt(s', v) { TakeVersion(s, s', t, v); }
    forall v: nat, a: nat | v < |s'.versions| && a < |s'.heap| ensures MemberAt(s', v, a) {
      TakeMember(s, s', t, v, a);
    }
    forall a: nat | a < |s'.heap| ensures NodeAt(s', a) { TakeNode(s, s', t, a); }
  }

  lemma TakeOK(s: State, t: nat)
    requires Inv(s) && t < |s.pcs| && s.pcs[t].RemLink?
    ensures StepOK(s, LockedStep(s, t), t)
  {
    Takes(s, t);
    TakenOK(s, LockedStep(s, t), t);
  }

  lemma ThreadOK(s: State, t: nat, ch: Choice)
    requires Inv(s) && t < |s.pcs|
    ensures StepOK(s, Step(s, t, ch), t)
  {
    var pc := s.pcs[t];
    if pc.Find? { FindOK(s, t); }
    else if pc.Start? || pc.TryLock? || Resting(pc) { StartOK(s, t, ch); }
    else if pc.InsLink? { AppendOK(s, t); }
    else if pc.RemLink? { TakeOK(s, t); }
    else if pc.Bump? || pc.Unlock? { LeaveOK(s, t); }
    else { CheckOK(s, t); }
  }

  lemma StepInv(s: State, t: nat, ch: Choice)
    requires Inv(s)
    ensures Inv(Step(s, t, ch))
  {
    if t < |s.pcs| {
      ThreadOK(s, t, ch);
      forall u: nat | u < |s.pcs| && u != t ensures PcOK(Step(s, t, ch), u, s.pcs[u]) {
        var pc := s.pcs[u];
        if pc.Start? || pc.Find? || pc.TryLock? || Resting(pc) { SearchStable(s, Step(s, t, ch), t, u); }
        else { LockedStable(s, Step(s, t, ch), t, u); }
      }
    }
  }

  lemma {:induction false} Reachable(s: State, sched: seq<(nat, Choice)>)
    requires Init(s)
    ensures Inv(Exec(s, sched))
    decreases |sched|
  {
    if sched == [] {
      assert VersionAt(s, 0);
    } else {
      var n := |sched| - 1;
      Reachable(s, sched[..n]);
      StepInv(Exec(s, sched[..n]), sched[n].0, sched[n].1);
    }
  }

  // ---------------------------------------------------------------- the properties

  /** The keys in version v of the bucket. */
  ghost function KeysAt(s: State, v: nat): set<int> {
    if v < |s.versions| then set a | a in s.versions[v] && a < |s.heap| :: s.heap[a].key else {}
  }

  lemma KeyMeaning(s: State, v: nat, key: int)
    requires ListOK(s) && v < |s.versions|
    ensures Present(s, v, key) <==> key in KeysAt(s, v)
    ensures Absent(s, v, key) <==> key !in KeysAt(s, v)
  {
    assert VersionAt(s, v);
  }

  function At(o: seq<nat>, i: nat): Option<nat> {
    if i < |o| then Some(o[i]) else None
  }

  /** The links lead from the head field through the nodes of the bucket, and no key is there twice. */
  ghost predicate BucketOK(s: State, o: seq<nat>) {
    && (forall i :: 0 <= i < |o| ==> o[i] < |s.heap|) && Unique(s, o)
    && s.head == At(o, 0)
    && (forall i :: 0 <= i < |o| ==> s.heap[o[i]].next == At(o, i + 1))
  }

  lemma NextInBucket(s: State, i: nat)
    requires ListOK(s) && i < |Cur(s)|
    ensures Cur(s)[i] < |s.heap| && s.heap[Cur(s)[i]].next == At(Cur(s), i + 1)
  {
    var a := Cur(s)[i];
    assert VersionAt(s, Now(s)) && s.versions[Now(s)] == Cur(s);
    assert NodeAt(s, a) && MemberAt(s, Now(s), a);
    IndexUnique(Cur(s), i);
  }

  lemma NoKeyTwice(s: State, sched: seq<(nat, Choice)>)
    requires Init(s)
    ensures var r := Exec(s, sched); r.versions != [] && BucketOK(r, Cur(r))
  {
    var r := Exec(s, sched);
    Reachable(s, sched);
    assert VersionAt(r, Now(r)) && r.versions[Now(r)] == Cur(r);
    forall i | 0 <= i < |Cur(r)|
      ensures r.heap[Cur(r)[i]].next == At(Cur(r), i + 1)
    {
      NextInBucket(r, i);
    }
  }

  /** If the version number read under the lock is the one read before the search, nothing was linked
      into or out of the bucket in between, and the search is still right: it found the node with the
      key if there is one, and the field through which that node, or the end of the bucket, is reached. */
  lemma NumGuardsSearch(s: State, sched: seq<(nat, Choice)>, t: nat)
    requires Init(s)
    requires var r := Exec(s, sched); t < |r.pcs| && r.pcs[t].Check? && r.num == r.pcs[t].q.vn
    ensures var r := Exec(s, sched);
            var pc := r.pcs[t];
            && pc.q.at == Now(r) && (pc.nxt.Some? <==> pc.q.c.key in KeysAt(r, Now(r)))
            && (pc.nxt.Some? ==> pc.nxt.value in Cur(r) && Matches(r, pc.nxt, pc.q.c.key))
            && (pc.pred.Some? ==> pc.pred.value in Cur(r))
            && Read(r, pc.pred) == pc.nxt
  {
    var r := Exec(s, sched);
    Reachable(s, sched);
    Unchanged(r, t);
    var pc := r.pcs[t];
    assert PcOK(r, t, pc);
    FoundMeans(r, Now(r), pc.pred, pc.nxt, pc.q.c.key);
    KeyMeaning(r, Now(r), pc.q.c.key);
    assert VersionAt(r, Now(r)) && r.versions[Now(r)] == Cur(r);
    if pc.pred.Some? {
      var a := pc.pred.value;
      assert MemberAt(r, Now(r), a) && NodeAt(r, a);
    }
  }

  /** What is current is recorded at the read of the version number, and stays recorded until the lock. */
  lemma AtIsTheRead(s: State, sched: seq<(nat, Choice)>, t: nat, ch: Choice)
    requires Init(s) && t < |Exec(s, sched).pcs|
    ensures var r := Exec(s, sched);
            var pc, pc' := r.pcs[t], Step(r, t, ch).pcs[t];
            && (pc.Start? ==> pc'.Find? && pc'.q == Search(pc.c, r.num, Now(r)))
            && (pc.Find? && (pc'.Find? || pc'.TryLock?) ==> pc'.q == pc.q)
            && (pc.TryLock? && pc'.Check? ==> pc'.q == pc.q)
            && (Resting(pc) ==> pc' == Start(Call(ch.op, ch.key, Now(r), 0)))
  {
  }

  /** The step changes the key set as its linearization point demands, and not otherwise. */
  ghost predicate Atomic(s: State, s': State, pc: PC) {
    var keys, keys' := KeysAt(s, Now(s)), KeysAt(s', Now(s'));
    if pc.InsLink? then pc.q.c.op.Insert? && pc.q.c.key !in keys && keys' == keys + {pc.q.c.key}
    else if pc.RemLink? then pc.q.c.op.Remove? && pc.q.c.key in keys && keys' == keys - {pc.q.c.key}
    else keys' == keys
  }

  lemma AppendKeys(s: State, s': State, t: nat)
    requires Appends(s, s', t) && VersionAt(s, Now(s))
    ensures KeysAt(s', Now(s')) == KeysAt(s, Now(s)) + {s.pcs[t].q.c.key}
  {
    assert Cur(s')[|Cur(s)|] == |s.heap|;
    forall a | a in Cur(s) ensures a in Cur(s') {}
    forall a | a in Cur(s) ensures s'.heap[a].key == s.heap[a].key {}
  }

  lemma AppendAtomic(s: State, t: nat)
    requires Inv(s) && t < |s.pcs| && s.pcs[t].InsLink?
    ensures Atomic(s, LockedStep(s, t), s.pcs[t])
  {
    assert PcOK(s, t, s.pcs[t]) && VersionAt(s, Now(s));
    AppendAppends(s, t);
    AppendKeys(s, LockedStep(s, t), t);
    FoundMeans(s, Now(s), s.pcs[t].pred, None, s.pcs[t].q.c.key);
    KeyMeaning(s, Now(s), s.pcs[t].q.c.key);
  }

  lemma TakeKeys(s: State, s': State, t: nat)
    requires TakesOut(s, s', t) && VersionAt(s, Now(s)) && s.pcs[t].victim in Cur(s)
    ensures KeysAt(s', Now(s')) == KeysAt(s, Now(s)) - {s.heap[s.pcs[t].victim].key}
  {
    var victim := s.pcs[t].victim;
    forall a ensures a in Cur(s') <==> a in Cur(s) && a != victim { WithoutIn(Cur(s), victim, a); }
    forall a | a in Cur(s) && a != victim ensures s.heap[a].key != s.heap[victim].key {
      var i, j := IndexOf(Cur(s), a), IndexOf(Cur(s), victim);
      assert s.heap[Cur(s)[i]].key != s.heap[Cur(s)[j]].key;
    }
  }

  lemma TakenAtomic(s: State, s': State, t: nat)
    requires MayTake(s, t) && TakesOut(s, s', t) && s.pcs[t].q.c.op.Remove?
    ensures Atomic(s, s', s.pcs[t])
  {
    assert VersionAt(s, Now(s));
    TakeKeys(s, s', t);
  }

  lemma TakeAtomic(s: State, t: nat)
    requires Inv(s) && t < |s.pcs| && s.pcs[t].RemLink?
    ensures Atomic(s, LockedStep(s, t), s.pcs[t])
  {
    assert PcOK(s, t, s.pcs[t]);
    Takes(s, t);
    TakenAtomic(s, LockedStep(s, t), t);
  }

  lemma QuietAtomic(s: State, t: nat, ch: Choice)
    requires Inv(s) && t < |s.pcs| && !s.pcs[t].InsLink? && !s.pcs[t].RemLink?
    ensures Atomic(s, Step(s, t, ch), s.pcs[t])
  {
    assert Step(s, t, ch).versions == s.versions && Step(s, t, ch).heap == s.heap;
  }

  /** Linking a new node puts its key, which was absent, into the key set; unlinking a node takes its key,
      which was present, out; no other step changes the key set. */
  lemma StepsAreAtomic(s: State, sched: seq<(nat, Choice)>, t: nat, ch: Choice)
    requires Init(s) && t < |Exec(s, sched).pcs|
    ensures var r := Exec(s, sched); Atomic(r, Step(r, t, ch), r.pcs[t])
  {
    var r := Exec(s, sched);
    Reachable(s, sched);
    if r.pcs[t].InsLink? { AppendAtomic(r, t); }
    else if r.pcs[t].RemLink? { TakeAtomic(r, t); }
    else { QuietAtomic(r, t, ch); }
  }

  function CallOf(pc: PC): Call
    requires !pc.Idle?
  {
    if pc.Start? || pc.Unlock? || pc.Done? || pc.Hit? || pc.Missed? then pc.c else pc.q.c
  }

  /** made counts the versions that a call makes. */
  lemma MadeCounts(s: State, sched: seq<(nat, Choice)>, t: nat, ch: Choice)
    requires t < |Exec(s, sched).pcs| && !Resting(Exec(s, sched).pcs[t])
    ensures var r := Exec(s, sched);
            var c, r' := CallOf(r.pcs[t]), Step(r, t, ch);
            && |r.versions| <= |r'.versions| && !r'.pcs[t].Idle?
            && CallOf(r'.pcs[t]) == c.(made := c.made + |r'.versions| - |r.versions|)
  {
    CallKept(Exec(s, sched), t, ch);
  }

  lemma CallKept(r: State, t: nat, ch: Choice)
    requires t < |r.pcs| && !Resting(r.pcs[t])
    ensures var c, r' := CallOf(r.pcs[t]), Step(r, t, ch);
            && |r.versions| <= |r'.versions| && t < |r'.pcs| && !r'.pcs[t].Idle?
            && CallOf(r'.pcs[t]) == c.(made := c.made + |r'.versions| - |r.versions|)
  {
  }

  /** Between its call and its return an operation makes one change to the bucket or none: a remove that
      succeeds makes one; an insert makes one, or its key was there at a moment during the call; a lookup,
      and a remove that finds nothing, make none. */
  lemma CallsMakeOneChange(s: State, sched: seq<(nat, Choice)>, t: nat)
    requires Init(s) && t < |Exec(s, sched).pcs|
    ensures var r := Exec(s, sched);
            var pc := r.pcs[t];
            && (pc.Hit? || pc.Missed? ==> pc.c.made == 0)
            && (pc.Done? && pc.c.op.Remove? ==> pc.c.made == 1)
            && (pc.Done? && pc.c.made != 1 ==>
                  pc.c.made == 0 && exists v: nat :: pc.c.since <= v < |r.versions| && pc.c.key in KeysAt(r, v))
  {
    var r := Exec(s, sched);
    Reachable(s, sched);
    assert PcOK(r, t, r.pcs[t]);
    OneChange(r, t, r.pcs[t]);
  }

  lemma OneChange(s: State, t: nat, pc: PC)
    requires ListOK(s) && PcOK(s, t, pc)
    ensures (pc.Hit? || pc.Missed? ==> pc.c.made == 0) && (pc.Done? && pc.c.op.Remove? ==> pc.c.made == 1)
    ensures pc.Done? && pc.c.made != 1 ==>
              pc.c.made == 0 && exists v: nat :: pc.c.since <= v < |s.versions| && pc.c.key in KeysAt(s, v)
  {
    if pc.Done? && pc.c.made != 1 {
      var v: nat :| pc.c.since <= v <= Now(s) && Present(s, v, pc.c.key);
      KeyMeaning(s, v, pc.c.key);
    }
  }

  /** The answer of a search that takes no lock was right at a moment during the call, although the walk
      may pass through nodes that have left the bucket. */
  lemma AnswerWasRight(s: State, sched: seq<(nat, Choice)>, t: nat)
    requires Init(s) && t < |Exec(s, sched).pcs| && (Exec(s, sched).pcs[t].Hit? || Exec(s, sched).pcs[t].Missed?)
    ensures var r := Exec(s, sched);
            var pc := r.pcs[t];
            exists v: nat :: pc.c.since <= v < |r.versions| && (pc.Hit? <==> pc.c.key in KeysAt(r, v))
  {
    var r := Exec(s, sched);
    var pc := r.pcs[t];
    Reachable(s, sched);
    assert PcOK(r, t, pc);
    KeyMeaning(r, pc.seen, pc.c.key);
  }

  // ---------------------------------------------------------------- a thread left alone

  /** At most n steps of thread t with nobody else moving, until it has returned. */
  function Alone(s: State, t: nat, n: nat): State
    decreases n
  {
    if n == 0 || t >= |s.pcs| || Resting(s.pcs[t]) then s else Alone(Step(s, t, Choice(Lookup, 0)), t, n - 1)
  }

  predicate InLock(pc: PC) {
    pc.Check? || pc.InsLink? || pc.RemRead? || pc.RemLink? || pc.Bump? || pc.Unlock?
  }

  /** No other thread holds the lock. */
  predicate Free(s: State, t: nat)
    requires t < |s.pcs|
  {
    InLock(s.pcs[t]) || s.lock.None?
  }

  /** The steps of a walk from pred: the links lead to younger nodes, even through nodes that have left. */
  function WalkLeft(s: State, pred: Option<nat>): nat {
    match pred
    case None => |s.heap| + 1
    case Some(a) => if a < |s.heap| then |s.heap| - a else 0
  }

  /** The steps that a call has left; one whose version number is out of date starts over. */
  function StepsLeft(s: State, pc: PC): nat {
    var all := |s.heap| + 8;
    match pc
    case Start(_) => all
    case Find(q, pred, _) => WalkLeft(s, pred) + if q.vn == s.num then 6 else all + 3
    case TryLock(q, _, _, _) => if q.vn == s.num then 6 else all + 3
    case Check(q, _, _, _) => if q.vn == s.num then 5 else all + 2
    case InsLink(_, _) => 3
    case RemRead(_, _, _) => 4
    case RemLink(_, _, _, _) => 3
    case Bump(_) => 2
    case Unlock(_, ok) => if ok then 1 else all + 1
    case _ => 0
  }

  lemma WalksOn(s: State, v: nat, pred: Option<nat>, key: int)
    requires ListOK(s) && PredOK(s, v, pred, key)
    ensures WalkLeft(s, pred) > 0
    ensures Read(s, pred).Some? ==> WalkLeft(s, Read(s, pred)) < WalkLeft(s, pred)
  {
    if pred.Some? {
      var a := pred.value;
      assert VersionAt(s, v) && NodeAt(s, a) && VersionAt(s, Last(s, a));
    }
  }

  lemma SearchNearer(s: State, t: nat)
    requires ListOK(s) && t < |s.pcs| && PcOK(s, t, s.pcs[t]) && Free(s, t)
    requires s.pcs[t].Start? || s.pcs[t].Find? || s.pcs[t].TryLock?
    ensures var s' := SearchStep(s, t);
            t < |s'.pcs| && Free(s', t) && StepsLeft(s', s'.pcs[t]) < StepsLeft(s, s.pcs[t])
  {
    if s.pcs[t].Find? { WalksOn(s, s.pcs[t].seen, s.pcs[t].pred, s.pcs[t].q.c.key); }
  }

  lemma LockedNearer(s: State, t: nat)
    requires t < |s.pcs| && PcOK(s, t, s.pcs[t]) && InLock(s.pcs[t])
    ensures var s' := LockedStep(s, t);
            t < |s'.pcs| && Free(s', t) && StepsLeft(s', s'.pcs[t]) < StepsLeft(s, s.pcs[t])
  {
    if s.pcs[t].RemLink? { assert FoundAt(s, Now(s), s.pcs[t].pred, Some(s.pcs[t].victim), s.pcs[t].q.c.key); }
  }

  lemma {:induction false} Returns(s: State, t: nat, n: nat)
    requires Inv(s) && t < |s.pcs| && Free(s, t) && n >= StepsLeft(s, s.pcs[t])
    ensures t < |Alone(s, t, n).pcs| && Resting(Alone(s, t, n).pcs[t])
    decreases n
  {
    if !Resting(s.pcs[t]) {
      assert PcOK(s, t, s.pcs[t]);
      if InLock(s.pcs[t]) { LockedNearer(s, t); } else { SearchNearer(s, t); }
      StepInv(s, t, Choice(Lookup, 0));
      Returns(Step(s, t, Choice(Lookup, 0)), t, n - 1);
    }
  }

  /** Two walks over the nodes ever made, and twelve steps. */
  function Enough(s: State): nat {
    2 * |s.heap| + 12
  }

  lemma LeftBound(s: State, pc: PC)
    ensures StepsLeft(s, pc) <= Enough(s)
  {
  }

  /** From any moment of a run at which no other thread holds the lock, a thread that is left alone returns
      from its call. */
  lemma AloneReturns(s: State, sched: seq<(nat, Choice)>, t: nat)
    requires Init(s) && t < |Exec(s, sched).pcs| && Free(Exec(s, sched), t)
    ensures var r := Exec(s, sched);
            var r' := Alone(r, t, Enough(r));
            t < |r'.pcs| && Resting(r'.pcs[t])
  {
    var r := Exec(s, sched);
    Reachable(s, sched);
    LeftBound(r, r.pcs[t]);
    Returns(r, t, Enough(r));
  }
}
