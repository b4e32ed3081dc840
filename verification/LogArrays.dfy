/** The shared log of a thunk: linked arrays of eight entries, walked by any number of helpers.
    Every load, store or compare-and-swap of an entry or of a next link is one step. */
module LogArrays {
  import opened Options
  import opened Progress

  const LOG_LEN: nat := 8

  /** A committed value.  Null is None; the mark of skip_if_done_no_log is DONE. */
  type Value = int
  const DONE: Value := 1

  datatype LogArray = LogArray(entries: seq<Option<Value>>, next: Option<nat>, freed: bool)

  /** log and chain are history: the values in the order of their positions, and the arrays in the
      order in which they were linked. */
  datatype Shared = Shared(arrays: seq<LogArray>, log: seq<Value>, chain: seq<nat>)

  /** What a helper does next, as a function of what it has seen so far: commit a value, or run a
      piece of code once and mark it done. */
  datatype Event = CommitValue | SkipIfDone
  type Program = seq<Value> -> Event

  datatype PC =
    | Idle
    | LoadNext(v: Value)              // count == LOG_LEN: loads vals->next
    | Link(v: Value, mine: nat)      // saw null: compares-and-swaps its mine array in
    | LoadEntry(v: Value)
    | CasEntry(v: Value)              // saw null: compares-and-swaps v in
    | StoreDone                       // saw null: has run the code, stores the mark

  /** A helper: the log cursor (vals, count) and, as history, the values it has seen and how many
      next links it has followed. */
  datatype Helper = Helper(vals: nat, count: nat, seen: seq<Value>, k: nat, pc: PC)

  datatype State = State(sh: Shared, helpers: seq<Helper>)

  function EmptyArray(): LogArray {
    LogArray(seq(LOG_LEN, _ => None), None, false)
  }

  /** Position i of the log lies in the i / 8-th array of the chain. */
  predicate HasCell(sh: Shared, i: nat) {
    && i / LOG_LEN < |sh.chain|
    && sh.chain[i / LOG_LEN] < |sh.arrays|
    && |sh.arrays[sh.chain[i / LOG_LEN]].entries| == LOG_LEN
  }

  function CellAt(sh: Shared, i: nat): Option<Value>
    requires HasCell(sh, i)
  {
    sh.arrays[sh.chain[i / LOG_LEN]].entries[i % LOG_LEN]
  }

  predicate CursorInRange(sh: Shared, h: Helper) {
    h.vals < |sh.arrays| && |sh.arrays[h.vals].entries| == LOG_LEN && h.count <= LOG_LEN
  }

  function SetEntry(sh: Shared, a: nat, k: nat, v: Value): Shared
    requires a < |sh.arrays| && k < |sh.arrays[a].entries|
  {
    sh.(arrays := sh.arrays[a := sh.arrays[a].(entries := sh.arrays[a].entries[k := Some(v)])])
  }

  /** The helper has read v at its current entry. */
  function Saw(h: Helper, v: Value): Helper {
    h.(seen := h.seen + [v], pc := Idle)
  }

  /** One step of a helper that runs prog; v is the value it would like to commit when it starts. */
  function HelperStep(sh: Shared, h: Helper, prog: Program, v: Value): (Shared, Helper) {
    if !CursorInRange(sh, h) then (sh, h)
    else match h.pc
      case Idle =>
        if h.count == LOG_LEN then (sh, h.(pc := LoadNext(v)))
        else (sh, h.(count := h.count + 1, pc := LoadEntry(v)))
      case LoadNext(w) =>
        (match sh.arrays[h.vals].next
         case Some(n) => (sh, h.(vals := n, count := 1, k := h.k + 1, pc := LoadEntry(w)))
         case None => (sh.(arrays := sh.arrays + [EmptyArray()]), h.(pc := Link(w, |sh.arrays|))))
      case Link(w, mine) =>
        (match sh.arrays[h.vals].next
         case None =>
           (sh.(arrays := sh.arrays[h.vals := sh.arrays[h.vals].(next := Some(mine))], chain := sh.chain + [mine]),
            h.(vals := mine, count := 1, k := h.k + 1, pc := LoadEntry(w)))
         case Some(n) =>
           (if mine < |sh.arrays| then sh.(arrays := sh.arrays[mine := sh.arrays[mine].(freed := true)]) else sh,
            h.(vals := n, count := 1, k := h.k + 1, pc := LoadEntry(w))))
      case LoadEntry(w) =>
        if h.count == 0 then (sh, h)
        else
          (match sh.arrays[h.vals].entries[h.count - 1]
           case Some(x) => (sh, Saw(h, x))
           case None => (sh, h.(pc := if prog(h.seen).SkipIfDone? then StoreDone else CasEntry(w))))
      case CasEntry(w) =>
        if h.count == 0 then (sh, h)
        else
          (match sh.arrays[h.vals].entries[h.count - 1]
           case Some(x) => (sh, Saw(h, x))
           case None => (SetEntry(sh, h.vals, h.count - 1, w).(log := sh.log + [w]), Saw(h, w)))
      case StoreDone =>
        if h.count == 0 then (sh, h)
        else
          var sh' := SetEntry(sh, h.vals, h.count - 1, DONE);
          (if sh.arrays[h.vals].entries[h.count - 1].None? then sh'.(log := sh.log + [DONE]) else sh', Saw(h, DONE))
  }

  function Step(s: State, t: nat, prog: Program, v: Value): State {
    if t < |s.helpers| then
      var (sh, h) := HelperStep(s.sh, s.helpers[t], prog, v);
      State(sh, s.helpers[t := h])
    else s
  }

  predicate Init(s: State) {
    && s.sh == Shared([EmptyArray()], [], [0])
    && forall t :: 0 <= t < |s.helpers| ==> s.helpers[t] == Helper(0, 0, [], 0, Idle)
  }

  function Exec(s: State, prog: Program, sched: seq<(nat, Value)>): State
    decreases |sched|
  {
    if sched == [] then s
    else
      var last := sched[|sched| - 1];
      Step(Exec(s, prog, sched[..|sched| - 1]), last.0, prog, last.1)
  }

  // ---------------------------------------------------------------- the invariant

  /** The k-th array of the chain is live, linked to the next one, and holds its part of the log. */
  ghost predicate ArrayOK(sh: Shared, k: nat)
    requires k < |sh.chain|
  {
    && sh.chain[k] < |sh.arrays|
    && var x := sh.arrays[sh.chain[k]];
    && !x.freed && |x.entries| == LOG_LEN
    && (if k + 1 < |sh.chain| then x.next == Some(sh.chain[k + 1]) else x.next == None)
    && forall j :: 0 <= j < LOG_LEN ==>
         x.entries[j] == if LOG_LEN * k + j < |sh.log| then Some(sh.log[LOG_LEN * k + j]) else None
  }

  ghost predicate MarksOK(sh: Shared, prog: Program) {
    forall i :: 0 <= i < |sh.log| && prog(sh.log[..i]).SkipIfDone? ==> sh.log[i] == DONE
  }

  ghost predicate GInv(sh: Shared, prog: Program) {
    && sh.chain != [] && sh.chain[0] == 0
    && (forall a :: 0 <= a < |sh.arrays| ==> |sh.arrays[a].entries| == LOG_LEN)
    && (forall k :: 0 <= k < |sh.chain| ==> sh.chain[k] < |sh.arrays|)
    && (forall k :: 0 <= k < |sh.chain| ==> ArrayOK(sh, k))
    && (forall k, l :: 0 <= k < l < |sh.chain| ==> sh.chain[k] != sh.chain[l])
    && |sh.log| <= LOG_LEN * |sh.chain|
    && MarksOK(sh, prog)
  }

  /** h's cursor stands in the h.k-th array of the chain, at the position after what it has seen. */
  ghost predicate AtChain(sh: Shared, h: Helper) {
    && h.k < |sh.chain| && h.vals == sh.chain[h.k] && h.vals < |sh.arrays|
    && h.count <= LOG_LEN
    && |h.seen| <= |sh.log| && h.seen == sh.log[..|h.seen|]
    && var entered := if h.pc.LoadEntry? || h.pc.CasEntry? || h.pc.StoreDone? then 1 else 0;
       entered <= h.count && |h.seen| + entered == LOG_LEN * h.k + h.count
  }

  /** mine is an array that only h knows. */
  ghost predicate PrivateArray(sh: Shared, mine: nat) {
    && mine < |sh.arrays| && mine !in sh.chain
    && sh.arrays[mine] == EmptyArray()
  }

  ghost predicate HInv(sh: Shared, prog: Program, h: Helper) {
    && AtChain(sh, h)
    && (h.pc.LoadNext? ==> h.count == LOG_LEN)
    && (h.pc.Link? ==> h.count == LOG_LEN && PrivateArray(sh, h.pc.mine))
    && (h.pc.CasEntry? ==> prog(h.seen).CommitValue?)
    && (h.pc.StoreDone? ==> prog(h.seen).SkipIfDone?)
  }

  /** No two helpers offer the same array. */
  ghost predicate Inv(s: State, prog: Program) {
    && GInv(s.sh, prog)
    && (forall t :: 0 <= t < |s.helpers| ==> HInv(s.sh, prog, s.helpers[t]))
    && (forall t, u :: 0 <= t < u < |s.helpers| && s.helpers[t].pc.Link? && s.helpers[u].pc.Link? ==>
          s.helpers[t].pc.mine != s.helpers[u].pc.mine)
  }

  // ---------------------------------------------------------------- steps

  /** What helper u relies on when another helper moves. */
  ghost predicate Rely(sh: Shared, sh': Shared) {
    && sh.log <= sh'.log && sh.chain <= sh'.chain
    && |sh.arrays| <= |sh'.arrays|
  }

  lemma Stable(sh: Shared, sh': Shared, prog: Program, h: Helper)
    requires Rely(sh, sh') && HInv(sh, prog, h)
    requires h.pc.Link? ==> PrivateArray(sh', h.pc.mine)
    ensures HInv(sh', prog, h)
  {
    assert sh'.log[..|h.seen|] == sh.log[..|h.seen|];
    assert sh'.chain[h.k] == sh.chain[h.k];
    assert h.seen == sh'.log[..|h.seen|];
    assert AtChain(sh', h);
  }

  /** The helper's array is the h.k-th of the chain. */
  lemma ArrayOf(sh: Shared, prog: Program, h: Helper)
    requires GInv(sh, prog) && HInv(sh, prog, h)
    ensures ArrayOK(sh, h.k) && h.vals == sh.chain[h.k]
  {
  }

  lemma MarksAppended(sh: Shared, sh': Shared, prog: Program, v: Value)
    requires MarksOK(sh, prog) && sh'.log == sh.log + [v] && (prog(sh.log).SkipIfDone? ==> v == DONE)
    ensures MarksOK(sh', prog)
  {
    forall i | 0 <= i < |sh'.log| && prog(sh'.log[..i]).SkipIfDone? ensures sh'.log[i] == DONE {
      assert sh'.log[..i] == if i < |sh.log| then sh.log[..i] else sh.log;
    }
  }

  lemma Append(sh: Shared, prog: Program, h: Helper, v: Value)
    requires GInv(sh, prog) && HInv(sh, prog, h) && h.count > 0
    requires h.pc.CasEntry? || (h.pc.StoreDone? && v == DONE)
    requires |h.seen| == |sh.log|
    ensures GInv(SetEntry(sh, h.vals, h.count - 1, v).(log := sh.log + [v]), prog)
  {
    var sh' := SetEntry(sh, h.vals, h.count - 1, v).(log := sh.log + [v]);
    assert sh.log[..|sh.log|] == sh.log;
    MarksAppended(sh, sh', prog, v);
    ArrayOf(sh, prog, h);
    forall k | 0 <= k < |sh'.chain| ensures ArrayOK(sh', k) {
      assert ArrayOK(sh, k);
    }
  }

  lemma Extend(sh: Shared, prog: Program, h: Helper)
    requires GInv(sh, prog) && HInv(sh, prog, h) && h.pc.Link? && sh.arrays[h.vals].next.None?
    ensures var sh' := HelperStep(sh, h, prog, 0).0;
            GInv(sh', prog) && |sh'.chain| == h.k + 2
  {
    ArrayOf(sh, prog, h);
    var sh' := HelperStep(sh, h, prog, 0).0;
    forall k | 0 <= k < |sh'.chain| ensures ArrayOK(sh', k) {
      if k < |sh.chain| { assert ArrayOK(sh, k); }
    }
  }

  lemma Offer(sh: Shared, prog: Program, sh': Shared)
    requires GInv(sh, prog)
    requires |sh.arrays| <= |sh'.arrays| && sh' == sh.(arrays := sh'.arrays)
    requires forall a :: 0 <= a < |sh'.arrays| ==> |sh'.arrays[a].entries| == LOG_LEN
    requires forall a :: 0 <= a < |sh.arrays| && a in sh.chain ==> sh'.arrays[a] == sh.arrays[a]
    ensures GInv(sh', prog)
  {
    forall k | 0 <= k < |sh'.chain| ensures ArrayOK(sh', k) {
      assert ArrayOK(sh, k);
    }
  }

  /** The helper's current entry is the one at its position of the log. */
  lemma EntryValue(sh: Shared, prog: Program, h: Helper)
    requires GInv(sh, prog) && HInv(sh, prog, h) && (h.pc.LoadEntry? || h.pc.CasEntry? || h.pc.StoreDone?)
    ensures CursorInRange(sh, h) && h.count > 0
    ensures sh.arrays[h.vals].entries[h.count - 1] ==
            if |h.seen| < |sh.log| then Some(sh.log[|h.seen|]) else None
  {
    ArrayOf(sh, prog, h);
  }

  /** The entry is committed: the helper takes its value over. */
  lemma CommittedOK(sh: Shared, prog: Program, h: Helper, v: Value)
    requires GInv(sh, prog) && HInv(sh, prog, h) && (h.pc.LoadEntry? || h.pc.CasEntry? || h.pc.StoreDone?)
    requires |h.seen| < |sh.log|
    ensures HelperStep(sh, h, prog, v) == (sh, Saw(h, sh.log[|h.seen|]))
  {
    EntryValue(sh, prog, h);
    if h.pc.StoreDone? {
      assert sh.log[|h.seen|] == DONE;
      assert sh.arrays[h.vals].entries[h.count - 1 := Some(DONE)] == sh.arrays[h.vals].entries;
      assert SetEntry(sh, h.vals, h.count - 1, DONE).arrays == sh.arrays;
    }
  }

  lemma EntryOK(sh: Shared, prog: Program, h: Helper, v: Value)
    requires GInv(sh, prog) && HInv(sh, prog, h) && (h.pc.LoadEntry? || h.pc.CasEntry? || h.pc.StoreDone?)
    ensures var (sh', h') := HelperStep(sh, h, prog, v);
            && GInv(sh', prog) && HInv(sh', prog, h') && Rely(sh, sh')
  {
    if |h.seen| < |sh.log| {
      CommittedOK(sh, prog, h, v);
    } else {
      EntryValue(sh, prog, h);
      if !h.pc.LoadEntry? {
        var w := if h.pc.CasEntry? then h.pc.v else DONE;
        Append(sh, prog, h, w);
      }
    }
  }

  lemma CursorOK(sh: Shared, prog: Program, h: Helper, v: Value)
    requires GInv(sh, prog) && HInv(sh, prog, h) && (h.pc.Idle? || h.pc.LoadNext? || h.pc.Link?)
    ensures var (sh', h') := HelperStep(sh, h, prog, v);
            && GInv(sh', prog) && HInv(sh', prog, h') && Rely(sh, sh')
  {
    ArrayOf(sh, prog, h);
    var sh' := HelperStep(sh, h, prog, v).0;
    if h.pc.Link? && sh.arrays[h.vals].next.None? { Extend(sh, prog, h); } else { Offer(sh, prog, sh'); }
  }

  lemma HelperOK(sh: Shared, prog: Program, h: Helper, v: Value)
    requires GInv(sh, prog) && HInv(sh, prog, h)
    ensures var (sh', h') := HelperStep(sh, h, prog, v);
            && GInv(sh', prog) && HInv(sh', prog, h') && Rely(sh, sh')
  {
    if h.pc.Idle? || h.pc.LoadNext? || h.pc.Link? { CursorOK(sh, prog, h, v); } else { EntryOK(sh, prog, h, v); }
  }

  /** The private arrays of the other helpers stay private, and stay different from h's. */
  lemma PrivateKept(sh: Shared, prog: Program, h: Helper, v: Value, a: nat)
    requires GInv(sh, prog) && HInv(sh, prog, h) && PrivateArray(sh, a) && (h.pc.Link? ==> h.pc.mine != a)
    ensures var (sh', h') := HelperStep(sh, h, prog, v);
            PrivateArray(sh', a) && (h'.pc.Link? ==> h'.pc.mine != a)
  {
  }

  lemma StepInv(s: State, prog: Program, t: nat, v: Value)
    requires Inv(s, prog)
    ensures Inv(Step(s, t, prog, v), prog)
  {
    if t < |s.helpers| {
      HelperOK(s.sh, prog, s.helpers[t], v);
      var s' := Step(s, t, prog, v);
      forall u | 0 <= u < |s.helpers| && u != t
        ensures HInv(s'.sh, prog, s.helpers[u])
        ensures s.helpers[u].pc.Link? && s'.helpers[t].pc.Link? ==> s.helpers[u].pc.mine != s'.helpers[t].pc.mine
      {
        if s.helpers[u].pc.Link? { PrivateKept(s.sh, prog, s.helpers[t], v, s.helpers[u].pc.mine); }
        Stable(s.sh, s'.sh, prog, s.helpers[u]);
      }
    }
  }

  lemma {:induction false} Reachable(s: State, prog: Program, sched: seq<(nat, Value)>)
    requires Init(s)
    ensures Inv(Exec(s, prog, sched), prog)
    decreases |sched|
  {
    if sched != [] {
      var n := |sched| - 1;
      Reachable(s, prog, sched[..n]);
      StepInv(Exec(s, prog, sched[..n]), prog, sched[n].0, sched[n].1);
    }
  }

  // ---------------------------------------------------------------- what helpers may rely on

  /** Agreement: in every run, any two helpers have seen the same values as far as both have got,
      and a position of the log is the same cell for both. */
  lemma Agreement(s: State, prog: Program, sched: seq<(nat, Value)>, t: nat, u: nat)
    requires Init(s) && t < |Exec(s, prog, sched).helpers| && u < |Exec(s, prog, sched).helpers|
    requires |Exec(s, prog, sched).helpers[t].seen| <= |Exec(s, prog, sched).helpers[u].seen|
    ensures var (h, g) := (Exec(s, prog, sched).helpers[t], Exec(s, prog, sched).helpers[u]);
            && h.seen <= g.seen
            && (h.pc.LoadEntry? && g.pc.LoadEntry? && h.seen == g.seen ==> h.vals == g.vals && h.count == g.count)
  {
    Reachable(s, prog, sched);
    assert HInv(Exec(s, prog, sched).sh, prog, Exec(s, prog, sched).helpers[t]);
    assert HInv(Exec(s, prog, sched).sh, prog, Exec(s, prog, sched).helpers[u]);
  }

  /** The linked arrays are the abstract log: its i-th cell holds log[i] or is null beyond the end,
      linked arrays are never freed, and what helpers have seen is a prefix of the log. */
  lemma ArraysAreLog(s: State, prog: Program, sched: seq<(nat, Value)>, i: nat)
    requires Init(s)
    ensures var sh := Exec(s, prog, sched).sh;
            && |sh.log| <= LOG_LEN * |sh.chain|
            && (i < LOG_LEN * |sh.chain| ==>
                  && HasCell(sh, i) && !sh.arrays[sh.chain[i / LOG_LEN]].freed
                  && CellAt(sh, i) == if i < |sh.log| then Some(sh.log[i]) else None)
            && (forall t :: 0 <= t < |Exec(s, prog, sched).helpers| ==>
                  var h := Exec(s, prog, sched).helpers[t];
                  h.seen <= sh.log && h.vals < |sh.arrays| && !sh.arrays[h.vals].freed)
  {
    Reachable(s, prog, sched);
    var sh := Exec(s, prog, sched).sh;
    if i < LOG_LEN * |sh.chain| {
      assert i == LOG_LEN * (i / LOG_LEN) + i % LOG_LEN;
      assert ArrayOK(sh, i / LOG_LEN);
    }
    forall t | 0 <= t < |Exec(s, prog, sched).helpers|
      ensures var h := Exec(s, prog, sched).helpers[t];
              h.seen <= sh.log && h.vals < |sh.arrays| && !sh.arrays[h.vals].freed
    {
      ArrayOf(sh, prog, Exec(s, prog, sched).helpers[t]);
    }
  }

  lemma {:induction false} LogGrows(s: State, prog: Program, q: seq<(nat, Value)>)
    requires Inv(s, prog)
    ensures Inv(Exec(s, prog, q), prog)
    ensures s.sh.log <= Exec(s, prog, q).sh.log && s.sh.chain <= Exec(s, prog, q).sh.chain
    decreases |q|
  {
    if q != [] {
      var n := |q| - 1;
      LogGrows(s, prog, q[..n]);
      var r := Exec(s, prog, q[..n]);
      StepInv(r, prog, q[n].0, q[n].1);
      if q[n].0 < |r.helpers| { HelperOK(r.sh, prog, r.helpers[q[n].0], q[n].1); }
    }
  }

  lemma ExecAppend(s: State, prog: Program, p: seq<(nat, Value)>, q: seq<(nat, Value)>)
    ensures Exec(s, prog, p + q) == Exec(Exec(s, prog, p), prog, q)
    decreases |q|
  {
    if q == [] {
      assert p + q == p;
    } else {
      assert (p + q)[..|p + q| - 1] == p + q[..|q| - 1];
      ExecAppend(s, prog, p, q[..|q| - 1]);
    }
  }

  /** Each entry is committed at most once: whatever happens later, a committed log is a prefix of
      the later one, held by the same cells. */
  lemma CommittedOnce(s: State, prog: Program, p: seq<(nat, Value)>, q: seq<(nat, Value)>, i: nat)
    requires Init(s) && i < |Exec(s, prog, p).sh.log|
    ensures var (a, b) := (Exec(s, prog, p).sh, Exec(s, prog, p + q).sh);
            && HasCell(a, i) && HasCell(b, i)
            && a.chain[i / LOG_LEN] == b.chain[i / LOG_LEN] && CellAt(a, i) == CellAt(b, i)
  {
    Reachable(s, prog, p);
    ExecAppend(s, prog, p, q);
    LogGrows(Exec(s, prog, p), prog, q);
    ArraysAreLog(s, prog, p, i);
    ArraysAreLog(s, prog, p + q, i);
  }

  // ---------------------------------------------------------------- the calls of the schedule

  /** Entry n of the schedule has an idle helper, which has seen i values, commit the next one, and offers v. */
  ghost predicate Offers(s: State, prog: Program, sched: seq<(nat, Value)>, n: nat, t: nat, i: nat, v: Value) {
    && n < |sched| && sched[n] == (t, v)
    && var r := Exec(s, prog, sched[..n]);
       t < |r.helpers| && r.helpers[t].pc.Idle? && |r.helpers[t].seen| == i
  }

  lemma OffersLater(s: State, prog: Program, sched: seq<(nat, Value)>, k: nat, n: nat, t: nat, i: nat, v: Value)
    requires k <= |sched| && Offers(s, prog, sched[..k], n, t, i, v)
    ensures Offers(s, prog, sched, n, t, i, v)
  {
    assert sched[..k][..n] == sched[..n];
  }

  predicate Carries(pc: PC) {
    pc.LoadNext? || pc.Link? || pc.LoadEntry? || pc.CasEntry?
  }

  lemma CarriedOn(sh: Shared, h: Helper, prog: Program, v: Value)
    ensures var h' := HelperStep(sh, h, prog, v).1;
            Carries(h'.pc) ==> h'.seen == h.seen && h'.pc.v == if h.pc.Idle? then v else h.pc.v
    ensures var h' := HelperStep(sh, h, prog, v).1;
            Carries(h'.pc) && !h.pc.Idle? ==> Carries(h.pc)
  {
  }

  /** The value in a helper's hand is the one that the schedule offered it for this position. */
  lemma {:induction false} CarriesItsOffer(s: State, prog: Program, sched: seq<(nat, Value)>, t: nat)
    returns (n: nat)
    requires Init(s)
    requires var r := Exec(s, prog, sched); t < |r.helpers| && Carries(r.helpers[t].pc)
    ensures var h := Exec(s, prog, sched).helpers[t]; Offers(s, prog, sched, n, t, |h.seen|, h.pc.v)
    decreases |sched|
  {
    n := |sched| - 1;
    var r, h := Exec(s, prog, sched[..n]), Exec(s, prog, sched).helpers[t];
    var last := n;
    if sched[n].0 == t { CarriedOn(r.sh, r.helpers[t], prog, sched[n].1); }
    if sched[n].0 != t || !r.helpers[t].pc.Idle? {
      n := CarriesItsOffer(s, prog, sched[..last], t);
      OffersLater(s, prog, sched, last, n, t, |h.seen|, h.pc.v);
    }
  }

  /** A step commits at most one value: what its helper has in hand, or the mark. */
  lemma Commits(sh: Shared, h: Helper, prog: Program, v: Value)
    requires GInv(sh, prog) && HInv(sh, prog, h)
    ensures var sh' := HelperStep(sh, h, prog, v).0;
            || sh'.log == sh.log
            || (h.pc.CasEntry? && |h.seen| == |sh.log| && sh'.log == sh.log + [h.pc.v])
            || (h.pc.StoreDone? && h.seen == sh.log && sh'.log == sh.log + [DONE])
  {
    if h.pc.LoadEntry? || h.pc.CasEntry? || h.pc.StoreDone? {
      EntryValue(sh, prog, h);
      if |h.seen| < |sh.log| { CommittedOK(sh, prog, h, v); } else { assert sh.log[..|h.seen|] == sh.log; }
    }
  }

  /** Nothing is made up: every committed value is the mark of a piece of code that runs once, or a value
      that the schedule offered to a helper that stood at this very position. */
  lemma {:induction false} CommittedWasOffered(s: State, prog: Program, sched: seq<(nat, Value)>, i: nat)
    requires Init(s) && i < |Exec(s, prog, sched).sh.log|
    ensures var log := Exec(s, prog, sched).sh.log;
            if prog(log[..i]).SkipIfDone? then log[i] == DONE
            else exists n, t :: Offers(s, prog, sched, n, t, i, log[i])
    decreases |sched|
  {
    var last := |sched| - 1;
    var r, log := Exec(s, prog, sched[..last]), Exec(s, prog, sched).sh.log;
    Reachable(s, prog, sched);
    if !prog(log[..i]).SkipIfDone? {
      var (u, v) := sched[last];
      Reachable(s, prog, sched[..last]);
      if u < |r.helpers| { Commits(r.sh, r.helpers[u], prog, v); }
      if i < |r.sh.log| {
        CommittedWasOffered(s, prog, sched[..last], i);
        assert r.sh.log[..i] == log[..i];
        var n, t :| Offers(s, prog, sched[..last], n, t, i, log[i]);
        OffersLater(s, prog, sched, last, n, t, i, log[i]);
      } else {
        assert log[..i] == r.sh.log;
        var n := CarriesItsOffer(s, prog, sched[..last], u);
        OffersLater(s, prog, sched, last, n, u, i, log[i]);
      }
    }
  }

  /** How many commits the schedule has begun on helper t. */
  function Begun(s: State, prog: Program, sched: seq<(nat, Value)>, t: nat): nat
    decreases |sched|
  {
    if sched == [] then 0
    else
      var n := |sched| - 1;
      var r := Exec(s, prog, sched[..n]);
      Begun(s, prog, sched[..n], t) +
      if sched[n].0 == t && t < |r.helpers| && r.helpers[t].pc.Idle? then 1 else 0
  }

  lemma SeesOne(sh: Shared, h: Helper, prog: Program, v: Value)
    requires CursorInRange(sh, h)
    ensures var h' := HelperStep(sh, h, prog, v).1;
            |h'.seen| + (if h'.pc.Idle? then 0 else 1) == |h.seen| + 1
  {
  }

  /** Each commit sees one value: a helper has seen as many as it has begun commits, but for the one it is in. */
  lemma {:induction false} EachCommitSeesOne(s: State, prog: Program, sched: seq<(nat, Value)>, t: nat)
    requires Init(s) && t < |Exec(s, prog, sched).helpers|
    ensures var h := Exec(s, prog, sched).helpers[t];
            |h.seen| + (if h.pc.Idle? then 0 else 1) == Begun(s, prog, sched, t)
    decreases |sched|
  {
    if sched != [] {
      var n := |sched| - 1;
      var r := Exec(s, prog, sched[..n]);
      EachCommitSeesOne(s, prog, sched[..n], t);
      if sched[n].0 == t {
        Reachable(s, prog, sched[..n]);
        ArrayOf(r.sh, prog, r.helpers[t]);
        SeesOne(r.sh, r.helpers[t], prog, sched[n].1);
      }
    }
  }

  /** The steps that a commit has left. */
  function CommitLeft(pc: PC): nat {
    match pc
    case Idle => 0
    case LoadNext(_) => 4
    case Link(_, _) => 3
    case LoadEntry(_) => 2
    case CasEntry(_) => 1
    case StoreDone => 1
  }

  function CommitLeftAfter(s: State, prog: Program, sched: seq<(nat, Value)>, t: nat): (left: nat)
    ensures left <= 4
  {
    var r := Exec(s, prog, sched);
    if t < |r.helpers| then CommitLeft(r.helpers[t].pc) else 0
  }

  lemma CommitNearer(s: State, prog: Program, sched: seq<(nat, Value)>, x: (nat, Value), t: nat)
    requires Init(s) && CommitLeftAfter(s, prog, sched, t) > 0
    ensures CommitLeftAfter(s, prog, sched + [x], t) <= CommitLeftAfter(s, prog, sched, t) - if x.0 == t then 1 else 0
  {
    assert (sched + [x])[..|sched|] == sched;
    Reachable(s, prog, sched);
    var r := Exec(s, prog, sched);
    ArrayOf(r.sh, prog, r.helpers[t]);
  }

  /** Committing is wait-free: whatever the other helpers do, a commit is over after four more steps. */
  lemma CommitWaitFree(s: State, prog: Program, sched: seq<(nat, Value)>, more: seq<(nat, Value)>, t: nat)
    requires Init(s) && Own((x: (nat, Value)) => x.0 == t, more) >= 4
    ensures exists k :: 0 <= k <= |more| && CommitLeftAfter(s, prog, sched + more[..k], t) == 0
  {
    var left := (ms: seq<(nat, Value)>) => CommitLeftAfter(s, prog, ms, t);
    var mine := (x: (nat, Value)) => x.0 == t;
    forall ms, x | left(ms) > 0 ensures left(ms + [x]) <= left(ms) - if mine(x) then 1 else 0 {
      CommitNearer(s, prog, ms, x, t);
    }
    Returns(left, mine, sched, more);
    var k :| 0 <= k <= |more| && left(sched + more[..k]) == 0;
    assert CommitLeftAfter(s, prog, sched + more[..k], t) == 0;
  }
}
