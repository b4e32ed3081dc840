/** The pooling block allocator of include/flock-lib/parlay/internal/block_allocator.h.  A worker's local
    list is its own; what workers share is the stack of whole lists, each operation on which is one step.
    A task that is fetching a list may be resumed by another worker. */
module BlockAllocator {
  import opened Options

  datatype Local = Local(sz: nat, head: Option<nat>, mid: Option<nat>)

  /** next is the memory of all blocks ever allocated from the system, by block; pending are the lists
      that tasks have fetched and not yet installed.  used (the blocks handed out) and the contents, from
      the bottom up, of the local, the stacked and the pending lists are history. */
  datatype State = State(len: nat, next: seq<Option<nat>>, total: nat, locals: seq<Local>, stack: seq<nat>,
                         pending: seq<nat>, used: multiset<nat>,
                         mine: seq<seq<nat>>, stacked: seq<seq<nat>>, held: seq<seq<nat>>)

  datatype Action =
    | Free(w: nat, p: nat)
    | Take(w: nat)              // alloc, with a block in the local list
    | GetList(w: nat)           // alloc, up to the end of get_list
    | Finish(w: nat, i: nat)    // the rest of alloc, on whichever worker runs the task by then

  function SetLocal(s: State, w: nat, l: Local, items: seq<nat>): State
    requires w < |s.locals| && w < |s.mine|
  {
    s.(locals := s.locals[w := l], mine := s.mine[w := items])
  }

  /** free, up to the point at which the block is put on the local list. */
  function Balance(s: State, w: nat): State
    requires w < |s.locals| && w < |s.mine|
  {
    var l := s.locals[w];
    if l.sz == s.len + 1 then SetLocal(s, w, l.(mid := l.head), s.mine[w])
    else if l.sz == 2 * s.len && l.mid.Some? && l.mid.value < |s.next| && s.next[l.mid.value].Some?
        && |s.mine[w]| >= s.len then
      SetLocal(s, w, l.(sz := s.len), s.mine[w][s.len..])
      .(stack := s.stack + [s.next[l.mid.value].value], stacked := s.stacked + [s.mine[w][..s.len]],
        next := s.next[l.mid.value := None])
    else s
  }

  function PutBack(s: State, w: nat, p: nat): State
    requires w < |s.locals| && w < |s.mine| && p < |s.next|
  {
    var l := s.locals[w];
    SetLocal(s, w, l.(head := Some(p), sz := l.sz + 1), s.mine[w] + [p])
    .(next := s.next[p := l.head], used := s.used - multiset{p})
  }

  function TakeOne(s: State, w: nat): State
    requires w < |s.locals| && w < |s.mine|
  {
    var l := s.locals[w];
    if l.sz == 0 || l.head.None? || l.head.value >= |s.next| || s.mine[w] == [] then s
    else SetLocal(s, w, l.(head := s.next[l.head.value], sz := l.sz - 1), s.mine[w][..|s.mine[w]| - 1])
         .(used := s.used + multiset{l.head.value})
  }

  /** Blocks n to n + len - 1 as one list, the first of them on top. */
  function FreshLinks(n: nat, len: nat): seq<Option<nat>> {
    seq(len, i requires 0 <= i < len => if i + 1 < len then Some(n + i + 1) else None)
  }

  function FreshItems(n: nat, len: nat): seq<nat> {
    seq(len, i requires 0 <= i < len => n + len - 1 - i)
  }

  function Fetch(s: State): State {
    if s.stack != [] && s.stacked != [] then
      var k := |s.stack| - 1;
      s.(stack := s.stack[..k], pending := s.pending + [s.stack[k]],
         stacked := s.stacked[..|s.stacked| - 1], held := s.held + [s.stacked[|s.stacked| - 1]])
    else
      s.(next := s.next + FreshLinks(|s.next|, s.len), total := s.total + s.len,
         pending := s.pending + [|s.next|], held := s.held + [FreshItems(|s.next|, s.len)])
  }

  function RemoveAt<T>(q: seq<T>, i: nat): seq<T>
    requires i < |q|
  {
    q[..i] + q[i + 1..]
  }

  function Install(s: State, w: nat, i: nat): State
    requires w < |s.locals| && w < |s.mine| && i < |s.pending| && i < |s.held|
  {
    var rest := s.(pending := RemoveAt(s.pending, i), held := RemoveAt(s.held, i));
    if s.locals[w].sz == 0 then
      SetLocal(rest, w, s.locals[w].(head := Some(s.pending[i]), sz := s.len), s.held[i])
    else
      rest.(stack := s.stack + [s.pending[i]], stacked := s.stacked + [s.held[i]])
  }

  function Step(s: State, a: Action): State {
    if a.w >= |s.locals| || a.w >= |s.mine| then s
    else
      match a
      case Free(w, p) => if p in s.used && p < |s.next| then PutBack(Balance(s, w), w, p) else s
      case Take(w) => TakeOne(s, w)
      case GetList(w) => if s.locals[w].sz == 0 then Fetch(s) else s
      case Finish(w, i) => if i < |s.pending| && i < |s.held| then TakeOne(Install(s, w, i), w) else s
  }

  function Exec(s: State, run: seq<Action>): State
    decreases |run|
  {
    if run == [] then s else Step(Exec(s, run[..|run| - 1]), run[|run| - 1])
  }

  predicate Init(s: State) {
    && s.len >= 1 && s.next == [] && s.total == 0 && s.stack == [] && s.pending == [] && s.used == multiset{}
    && |s.mine| == |s.locals| && s.stacked == [] && s.held == []
    && (forall w :: 0 <= w < |s.locals| ==> s.locals[w] == Local(0, None, None) && s.mine[w] == [])
  }

  // ---------------------------------------------------------------- the invariant

  function Top(items: seq<nat>): Option<nat> {
    if items == [] then None else Some(items[|items| - 1])
  }

  /** The block under the one at height h. */
  function Below(items: seq<nat>, h: nat): Option<nat>
    requires h < |items|
  {
    if h > 0 then Some(items[h - 1]) else None
  }

  /** The next links lead from the top of the list to its bottom. */
  ghost predicate Chained(next: seq<Option<nat>>, items: seq<nat>) {
    forall h :: 0 <= h < |items| ==> items[h] < |next| && next[items[h]] == Below(items, h)
  }

  /** The length and the head are right; if lists have more than one block, a local list has at most two
      lists' worth, and from len + 2 blocks on, mid has len blocks below it. */
  ghost predicate LocalAt(s: State, w: nat) {
    && w < |s.locals| == |s.mine|
    && var l, items := s.locals[w], s.mine[w];
    && l.sz == |items| && l.head == Top(items) && Chained(s.next, items)
    && (s.len >= 2 ==> l.sz <= 2 * s.len && (l.sz >= s.len + 2 ==> l.mid == Some(items[s.len])))
  }

  ghost predicate ListAt(s: State, heads: seq<nat>, lists: seq<seq<nat>>, k: nat) {
    k < |heads| == |lists| && |lists[k]| == s.len && Top(lists[k]) == Some(heads[k]) && Chained(s.next, lists[k])
  }

  /** All blocks of a sequence of lists. */
  ghost function Sum(lists: seq<seq<nat>>): multiset<nat> {
    if lists == [] then multiset{} else Sum(lists[..|lists| - 1]) + multiset(lists[|lists| - 1])
  }

  /** The blocks 0 to n - 1, once each. */
  ghost function Blocks(n: nat): multiset<nat> {
    if n == 0 then multiset{} else Blocks(n - 1) + multiset{n - 1}
  }

  ghost predicate Shapes(s: State) {
    && s.len >= 1 && s.total == |s.next| && |s.locals| == |s.mine|
    && |s.stack| == |s.stacked| && |s.pending| == |s.held|
    && (forall w: nat :: w < |s.locals| ==> LocalAt(s, w))
    && (forall k: nat :: k < |s.stack| ==> ListAt(s, s.stack, s.stacked, k))
    && (forall k: nat :: k < |s.pending| ==> ListAt(s, s.pending, s.held, k))
  }

  /** Every block is in exactly one place: handed out, or in one of the lists. */
  ghost predicate Conserved(s: State) {
    s.used + Sum(s.mine) + Sum(s.stacked) + Sum(s.held) == Blocks(|s.next|)
  }

  /** As one fact: the comparison keeps proofs that pass the invariant on from being split into its parts. */
  ghost predicate Inv(s: State) {
    (Shapes(s) && Conserved(s)) == true
  }

  // ---------------------------------------------------------------- sums

  lemma Commute(a: multiset<nat>, b: multiset<nat>, c: multiset<nat>)
    ensures a + b + c == a + c + b
  {
  }

  lemma SumLast(lists: seq<seq<nat>>, n: nat)
    requires |lists| == n + 1
    ensures Sum(lists) == Sum(lists[..n]) + multiset(lists[n])
  {
  }

  lemma {:induction false} SumUpdate(lists: seq<seq<nat>>, i: nat, x: seq<nat>)
    requires i < |lists|
    ensures Sum(lists[i := x]) + multiset(lists[i]) == Sum(lists) + multiset(x)
  {
    var n, changed := |lists| - 1, lists[i := x];
    SumLast(lists, n);
    SumLast(changed, n);
    if i == n {
      assert changed[..n] == lists[..n];
      Commute(Sum(lists[..n]), multiset(x), multiset(lists[n]));
    } else {
      assert changed[..n] == lists[..n][i := x];
      SumUpdate(lists[..n], i, x);
      Commute(Sum(changed[..n]), multiset(lists[n]), multiset(lists[i]));
      Commute(Sum(lists[..n]), multiset(lists[n]), multiset(x));
    }
  }

  lemma {:induction false} SumRemove(lists: seq<seq<nat>>, i: nat)
    requires i < |lists|
    ensures Sum(RemoveAt(lists, i)) + multiset(lists[i]) == Sum(lists)
  {
    var n := |lists| - 1;
    SumLast(lists, n);
    if i == n {
      assert RemoveAt(lists, i) == lists[..n];
    } else {
      assert RemoveAt(lists, i)[..n - 1] == RemoveAt(lists[..n], i) && RemoveAt(lists, i)[n - 1] == lists[n];
      SumLast(RemoveAt(lists, i), n - 1);
      SumRemove(lists[..n], i);
      Commute(Sum(RemoveAt(lists[..n], i)), multiset(lists[n]), multiset(lists[i]));
    }
  }

  lemma SumAppend(lists: seq<seq<nat>>, x: seq<nat>)
    ensures Sum(lists + [x]) == Sum(lists) + multiset(x)
  {
    assert (lists + [x])[..|lists|] == lists;
  }

  lemma {:induction false} SumHas(lists: seq<seq<nat>>, i: nat, b: nat)
    requires i < |lists|
    ensures multiset(lists[i])[b] <= Sum(lists)[b]
  {
    if i < |lists| - 1 { SumHas(lists[..|lists| - 1], i, b); }
  }

  /** A block in two of the lists is counted twice. */
  lemma {:induction false} SumHasTwo(lists: seq<seq<nat>>, i: nat, j: nat, b: nat)
    requires i < j < |lists| && b in lists[i] && b in lists[j]
    ensures Sum(lists)[b] >= 2
  {
    var n := |lists| - 1;
    assert b in multiset(lists[i]) && b in multiset(lists[j]);
    if j == n { SumHas(lists[..n], i, b); } else { SumHasTwo(lists[..n], i, j, b); }
  }

  lemma {:induction false} BlocksOnce(n: nat, b: nat)
    ensures Blocks(n)[b] == if b < n then 1 else 0
  {
    if n > 0 { BlocksOnce(n - 1, b); }
  }

  /** The blocks n to n + len - 1. */
  ghost function FreshBlocks(n: nat, len: nat): multiset<nat> {
    if len == 0 then multiset{} else FreshBlocks(n, len - 1) + multiset{n + len - 1}
  }

  lemma {:induction false} FreshAre(n: nat, len: nat)
    ensures multiset(FreshItems(n, len)) == FreshBlocks(n, len)
  {
    if len > 0 {
      FreshAre(n, len - 1);
      var last: nat := n + len - 1;
      assert FreshItems(n, len) == [last] + FreshItems(n, len - 1);
    } else {
      assert FreshItems(n, len) == [];
    }
  }

  lemma {:induction false} FreshOnce(n: nat, len: nat, b: nat)
    ensures FreshBlocks(n, len)[b] == if n <= b < n + len then 1 else 0
  {
    if len > 0 { FreshOnce(n, len - 1, b); }
  }

  // ---------------------------------------------------------------- no block is in two places

  lemma Counted(s: State, b: nat)
    requires Conserved(s)
    ensures s.used[b] + Sum(s.mine)[b] + Sum(s.stacked)[b] + Sum(s.held)[b] == if b < |s.next| then 1 else 0
  {
    BlocksOnce(|s.next|, b);
    assert (s.used + Sum(s.mine) + Sum(s.stacked) + Sum(s.held))[b] == Blocks(|s.next|)[b];
  }

  ghost predicate Nowhere(lists: seq<seq<nat>>, b: nat) {
    forall k :: 0 <= k < |lists| ==> b !in lists[k]
  }

  lemma NotIn(lists: seq<seq<nat>>, b: nat)
    requires Sum(lists)[b] == 0
    ensures Nowhere(lists, b)
  {
    forall k | 0 <= k < |lists| ensures b !in lists[k] {
      SumHas(lists, k, b);
      assert b in lists[k] <==> b in multiset(lists[k]);
    }
  }

  /** A block that is handed out is in no list. */
  lemma UsedNowhere(s: State, b: nat)
    requires Conserved(s) && b in s.used
    ensures b < |s.next| && s.used[b] == 1 && Nowhere(s.mine, b) && Nowhere(s.stacked, b) && Nowhere(s.held, b)
  {
    Counted(s, b);
    NotIn(s.mine, b);
    NotIn(s.stacked, b);
    NotIn(s.held, b);
  }

  /** A block of a local list is in that list only, and once. */
  lemma OnlyThere(s: State, w: nat, b: nat)
    requires Conserved(s) && w < |s.mine| && b in s.mine[w]
    ensures b < |s.next| && b !in s.used && multiset(s.mine[w])[b] == 1 && Nowhere(s.stacked, b) && Nowhere(s.held, b)
    ensures forall v :: 0 <= v < |s.mine| && v != w ==> b !in s.mine[v]
  {
    Counted(s, b);
    SumHas(s.mine, w, b);
    assert b in multiset(s.mine[w]);
    NotIn(s.stacked, b);
    NotIn(s.held, b);
    forall v: nat | v < |s.mine| && v != w ensures b !in s.mine[v] {
      if b in s.mine[v] { SumHasTwo(s.mine, if v < w then v else w, if v < w then w else v, b); }
    }
  }

  lemma Twice(items: seq<nat>, i: nat, j: nat)
    requires i < j < |items| && items[i] == items[j]
    ensures multiset(items)[items[i]] >= 2
  {
    assert items == items[..j] + [items[j]] + items[j + 1..];
    assert items[i] in items[..j];
    assert multiset(items) == multiset(items[..j]) + multiset{items[j]} + multiset(items[j + 1..]);
  }

  lemma NoRepeats(s: State, w: nat)
    requires Conserved(s) && w < |s.mine|
    ensures forall i, j :: 0 <= i < j < |s.mine[w]| ==> s.mine[w][i] != s.mine[w][j]
  {
    forall i: nat, j: nat | i < j < |s.mine[w]| ensures s.mine[w][i] != s.mine[w][j] {
      OnlyThere(s, w, s.mine[w][i]);
      if s.mine[w][i] == s.mine[w][j] { Twice(s.mine[w], i, j); }
    }
  }

  // ---------------------------------------------------------------- every action

  /** The link of one block is all that changes in memory, and the block is in none of these lists. */
  lemma ListsKept(s: State, s': State, heads: seq<nat>, lists: seq<seq<nat>>, b: nat, k: nat)
    requires ListAt(s, heads, lists, k) && s'.len == s.len && |s'.next| == |s.next| && Nowhere(lists, b)
    requires forall c :: 0 <= c < |s.next| && c != b ==> s'.next[c] == s.next[c]
    ensures ListAt(s', heads, lists, k)
  {
  }

  /** Room for one more block, with mid where the next block makes it needed. */
  ghost predicate Ready(s: State, w: nat) {
    && LocalAt(s, w)
    && (s.len >= 2 ==>
          && s.locals[w].sz < 2 * s.len
          && (s.locals[w].sz == s.len + 1 ==> s.locals[w].mid == Some(s.mine[w][s.len])))
  }

  /** The local list is split: mid becomes the bottom of the upper half, and the lower half is a whole list. */
  ghost predicate Splits(s: State, s': State, w: nat) {
    && w < |s.locals| == |s.mine| && 0 < s.len && |s.mine[w]| == 2 * s.len && s'.len == s.len && s'.total == s.total
    && var lower, upper := s.mine[w][..s.len], s.mine[w][s.len..];
    && s'.mine == s.mine[w := upper] && s'.stacked == s.stacked + [lower] && s'.held == s.held && s'.used == s.used
    && s'.locals == s.locals[w := s.locals[w].(sz := s.len)] && s'.pending == s.pending
    && s'.stack == s.stack + [s.mine[w][s.len - 1]]
    && s.mine[w][s.len] < |s.next| && s'.next == s.next[s.mine[w][s.len] := None]
  }

  lemma SplitSplits(s: State, w: nat)
    requires Inv(s) && w < |s.locals| && s.len >= 2 && s.locals[w].sz == 2 * s.len
    ensures Splits(s, Balance(s, w), w)
  {
    assert LocalAt(s, w);
    var items := s.mine[w];
    assert s.locals[w].mid == Some(items[s.len]) && s.next[items[s.len]] == Some(items[s.len - 1]);
  }

  lemma SplitLocal(s: State, s': State, w: nat, v: nat)
    requires Inv(s) && Splits(s, s', w) && v < |s.locals|
    ensures LocalAt(s', v)
  {
    assert LocalAt(s, v);
    if v != w {
      OnlyThere(s, w, s.mine[w][s.len]);
    } else {
      SplitUpper(s, s', w);
    }
  }

  lemma SplitUpper(s: State, s': State, w: nat)
    requires Inv(s) && Splits(s, s', w)
    ensures LocalAt(s', w)
  {
    assert LocalAt(s, w);
    NoRepeats(s, w);
    var items, upper := s.mine[w], s'.mine[w];
    forall h | 0 <= h < s.len ensures upper[h] < |s'.next| && s'.next[upper[h]] == Below(upper, h) {
      assert upper[h] == items[s.len + h];
      if h > 0 { assert upper[h - 1] == items[s.len + h - 1]; }
    }
  }

  lemma SplitLower(s: State, s': State, w: nat)
    requires Inv(s) && Splits(s, s', w)
    ensures ListAt(s', s'.stack, s'.stacked, |s.stack|)
  {
    assert LocalAt(s, w);
    NoRepeats(s, w);
    var items, lower := s.mine[w], s'.stacked[|s.stack|];
    assert lower == items[..s.len];
    forall h | 0 <= h < s.len ensures lower[h] < |s'.next| && s'.next[lower[h]] == Below(lower, h) {
      assert lower[h] == items[h] && items[h] != items[s.len];
    }
  }

  lemma SplitStack(s: State, s': State, w: nat, k: nat)
    requires Inv(s) && Splits(s, s', w) && k < |s'.stack|
    ensures ListAt(s', s'.stack, s'.stacked, k)
  {
    if k < |s.stack| {
      OnlyThere(s, w, s.mine[w][s.len]);
      assert ListAt(s, s.stack, s.stacked, k);
      ListsKept(s, s', s.stack, s.stacked, s.mine[w][s.len], k);
    } else {
      SplitLower(s, s', w);
    }
  }

  lemma SplitPending(s: State, s': State, w: nat, k: nat)
    requires Inv(s) && Splits(s, s', w) && k < |s'.pending|
    ensures ListAt(s', s'.pending, s'.held, k)
  {
    OnlyThere(s, w, s.mine[w][s.len]);
    assert ListAt(s, s.pending, s.held, k);
    ListsKept(s, s', s.pending, s.held, s.mine[w][s.len], k);
  }

  /** What is missing from m' has been moved elsewhere. */
  lemma Moved(m: multiset<nat>, m': multiset<nat>, rest: multiset<nat>, x: multiset<nat>)
    requires m' + (rest + x) == m + rest
    ensures m' + x == m
  {
    forall b: nat ensures (m' + x)[b] == m[b] {
      assert (m' + (rest + x))[b] == (m + rest)[b];
    }
  }

  lemma SplitConserved(s: State, s': State, w: nat)
    requires Inv(s) && Splits(s, s', w)
    ensures Conserved(s')
  {
    var lower, upper := s.mine[w][..s.len], s.mine[w][s.len..];
    SumUpdate(s.mine, w, upper);
    SumAppend(s.stacked, lower);
    assert s.mine[w] == lower + upper;
    Moved(Sum(s.mine), Sum(s'.mine), multiset(upper), multiset(lower));
    Regrouped(s.used, Sum(s'.mine), Sum(s.stacked), Sum(s.held), multiset(lower));
  }

  lemma Regrouped(a: multiset<nat>, b: multiset<nat>, c: multiset<nat>, d: multiset<nat>, x: multiset<nat>)
    ensures a + b + (c + x) + d == a + (b + x) + c + d
    ensures (a + x) + b + c + d == a + (b + x) + c + d
  {
  }

  lemma BalanceOK(s: State, w: nat)
    requires Inv(s) && w < |s.locals|
    ensures var s' := Balance(s, w);
            Inv(s') && Ready(s', w) && s'.used == s.used && |s'.next| == |s.next| && |s'.locals| == |s.locals|
  {
    var s' := Balance(s, w);
    assert LocalAt(s, w);
    if s.len >= 2 && s.locals[w].sz == 2 * s.len {
      SplitSplits(s, w);
      SplitConserved(s, s', w);
      forall v: nat | v < |s'.locals| ensures LocalAt(s', v) { SplitLocal(s, s', w, v); }
      forall k: nat | k < |s'.stack| ensures ListAt(s', s'.stack, s'.stacked, k) { SplitStack(s, s', w, k); }
      forall k: nat | k < |s'.pending| ensures ListAt(s', s'.pending, s'.held, k) { SplitPending(s, s', w, k); }
    } else {
      MidOK(s, w);
    }
  }

  lemma MidOK(s: State, w: nat)
    requires Inv(s) && w < |s.locals| && (s.len == 1 || s.locals[w].sz != 2 * s.len)
    ensures Inv(Balance(s, w)) && Ready(Balance(s, w), w)
  {
    var s' := Balance(s, w);
    assert LocalAt(s, w) && s'.mine == s.mine;
    forall v: nat | v < |s'.locals| ensures LocalAt(s', v) { assert LocalAt(s, v); }
    forall k: nat | k < |s'.stack| ensures ListAt(s', s'.stack, s'.stacked, k) {
      assert ListAt(s, s.stack, s.stacked, k);
    }
    forall k: nat | k < |s'.pending| ensures ListAt(s', s'.pending, s'.held, k) {
      assert ListAt(s, s.pending, s.held, k);
    }
  }

  lemma PutLocal(s: State, w: nat, p: nat, v: nat)
    requires Inv(s) && w < |s.locals| && Ready(s, w) && p in s.used && p < |s.next| && v < |s.locals|
    ensures LocalAt(PutBack(s, w, p), v)
  {
    assert LocalAt(s, v) && LocalAt(s, w);
    UsedNowhere(s, p);
    var s' := PutBack(s, w, p);
    if v != w {
    } else {
      var items, more := s.mine[w], s'.mine[w];
      forall h | 0 <= h < |more| ensures more[h] < |s'.next| && s'.next[more[h]] == Below(more, h) {
        if h < |items| { assert more[h] == items[h] && Below(more, h) == Below(items, h); }
      }
    }
  }

  lemma PutConserved(s: State, w: nat, p: nat)
    requires Inv(s) && w < |s.locals| && p in s.used && p < |s.next|
    ensures Conserved(PutBack(s, w, p))
  {
    var s' := PutBack(s, w, p);
    SumUpdate(s.mine, w, s.mine[w] + [p]);
    forall b: nat ensures (s'.used + Sum(s'.mine) + Sum(s'.stacked) + Sum(s'.held))[b] == Blocks(|s'.next|)[b] {
      Counted(s, b);
      BlocksOnce(|s.next|, b);
      assert multiset(s.mine[w] + [p])[b] == multiset(s.mine[w])[b] + multiset{p}[b];
      assert (Sum(s'.mine) + multiset(s.mine[w]))[b] == (Sum(s.mine) + multiset(s.mine[w] + [p]))[b];
    }
  }

  lemma FreeShapes(s: State, w: nat, p: nat)
    requires Inv(s) && w < |s.locals| && Ready(s, w) && p in s.used && p < |s.next|
    ensures Shapes(PutBack(s, w, p))
  {
    var s' := PutBack(s, w, p);
    UsedNowhere(s, p);
    forall v: nat | v < |s'.locals| ensures LocalAt(s', v) { PutLocal(s, w, p, v); }
    forall k: nat | k < |s'.stack| ensures ListAt(s', s'.stack, s'.stacked, k) {
      assert ListAt(s, s.stack, s.stacked, k);
      ListsKept(s, s', s.stack, s.stacked, p, k);
    }
    forall k: nat | k < |s'.pending| ensures ListAt(s', s'.pending, s'.held, k) {
      assert ListAt(s, s.pending, s.held, k);
      ListsKept(s, s', s.pending, s.held, p, k);
    }
  }

  lemma FreeOK(s: State, w: nat, p: nat)
    requires Inv(s) && w < |s.locals| && Ready(s, w) && p in s.used && p < |s.next|
    ensures Inv(PutBack(s, w, p))
  {
    PutConserved(s, w, p);
    FreeShapes(s, w, p);
  }

  /** The block on top of the local list. */
  lemma TakeLocal(s: State, w: nat)
    requires Inv(s) && w < |s.locals| && s.locals[w].sz > 0
    ensures s.mine[w] != []
    ensures var b := s.mine[w][|s.mine[w]| - 1];
            && s.locals[w].head == Some(b) && b < |s.next| && b !in s.used
            && TakeOne(s, w).used == s.used + multiset{b} && LocalAt(TakeOne(s, w), w)
            && TakeOne(s, w).mine == s.mine[w := s.mine[w][..|s.mine[w]| - 1]]
  {
    assert LocalAt(s, w);
    var items, s' := s.mine[w], TakeOne(s, w);
    OnlyThere(s, w, items[|items| - 1]);
    var fewer := s'.mine[w];
    assert fewer == items[..|items| - 1];
    assert Below(items, |items| - 1) == Top(fewer);
    forall h | 0 <= h < |fewer| ensures fewer[h] < |s'.next| && s'.next[fewer[h]] == Below(fewer, h) {
      assert fewer[h] == items[h] && Below(fewer, h) == Below(items, h);
    }
  }

  lemma TakeConserved(s: State, w: nat)
    requires Inv(s) && w < |s.locals| && s.locals[w].sz > 0
    ensures Conserved(TakeOne(s, w))
  {
    TakeLocal(s, w);
    var s', items := TakeOne(s, w), s.mine[w];
    var fewer, b0 := items[..|items| - 1], items[|items| - 1];
    SumUpdate(s.mine, w, fewer);
    assert items == fewer + [b0];
    Moved(Sum(s.mine), Sum(s'.mine), multiset(fewer), multiset{b0});
    Regrouped(s.used, Sum(s'.mine), Sum(s.stacked), Sum(s.held), multiset{b0});
  }

  lemma TakeOK(s: State, w: nat)
    requires Inv(s) && w < |s.locals|
    ensures Inv(TakeOne(s, w))
  {
    if s.locals[w].sz > 0 {
      var s' := TakeOne(s, w);
      TakeLocal(s, w);
      TakeConserved(s, w);
      forall v: nat | v < |s'.locals| ensures LocalAt(s', v) { if v != w { assert LocalAt(s, v); } }
      forall k: nat | k < |s'.stack| ensures ListAt(s', s'.stack, s'.stacked, k) {
        assert ListAt(s, s.stack, s.stacked, k);
      }
      forall k: nat | k < |s'.pending| ensures ListAt(s', s'.pending, s'.held, k) {
        assert ListAt(s, s.pending, s.held, k);
      }
    }
  }

  lemma FreshChained(n: nat, len: nat, next: seq<Option<nat>>)
    requires |next| == n && len > 0
    ensures Chained(next + FreshLinks(n, len), FreshItems(n, len)) && Top(FreshItems(n, len)) == Some(n)
  {
    var links, items, all := FreshLinks(n, len), FreshItems(n, len), next + FreshLinks(n, len);
    forall h | 0 <= h < len ensures items[h] < |all| && all[items[h]] == Below(items, h) {
      assert all[items[h]] == links[len - 1 - h];
      if h > 0 { assert items[h - 1] == n + len - h; }
    }
  }

  lemma FetchNewCount(s: State, b: nat)
    requires Conserved(s)
    ensures var n, held := |s.next|, Sum(s.held) + FreshBlocks(|s.next|, s.len);
            (s.used + Sum(s.mine) + Sum(s.stacked) + held)[b] == Blocks(n + s.len)[b]
  {
    Counted(s, b);
    BlocksOnce(|s.next| + s.len, b);
    FreshOnce(|s.next|, s.len, b);
  }

  lemma FetchNewSum(s: State)
    requires Conserved(s)
    ensures s.used + Sum(s.mine) + Sum(s.stacked) + (Sum(s.held) + FreshBlocks(|s.next|, s.len))
            == Blocks(|s.next| + s.len)
  {
    forall b: nat
      ensures (s.used + Sum(s.mine) + Sum(s.stacked) + (Sum(s.held) + FreshBlocks(|s.next|, s.len)))[b]
              == Blocks(|s.next| + s.len)[b]
    {
      FetchNewCount(s, b);
    }
  }

  lemma FetchNewHeld(s: State)
    requires s.stack == []
    ensures var s' := Fetch(s);
            && s'.used == s.used && s'.mine == s.mine && s'.stacked == s.stacked && |s'.next| == |s.next| + s.len
            && Sum(s'.held) == Sum(s.held) + FreshBlocks(|s.next|, s.len)
  {
    SumAppend(s.held, FreshItems(|s.next|, s.len));
    FreshAre(|s.next|, s.len);
  }

  lemma FetchNewConserved(s: State)
    requires Inv(s) && s.stack == []
    ensures Conserved(Fetch(s))
  {
    FetchNewHeld(s);
    FetchNewSum(s);
  }

  lemma FetchNewPending(s: State, k: nat)
    requires Inv(s) && s.stack == [] && k < |Fetch(s).pending|
    ensures ListAt(Fetch(s), Fetch(s).pending, Fetch(s).held, k)
  {
    var n := |s.next|;
    if k < |s.pending| {
      assert ListAt(s, s.pending, s.held, k);
    } else {
      FreshChained(n, s.len, s.next);
    }
  }

  lemma FetchNewOK(s: State)
    requires Inv(s) && s.stack == []
    ensures Inv(Fetch(s))
  {
    var s' := Fetch(s);
    FetchNewConserved(s);
    forall v: nat | v < |s'.locals| ensures LocalAt(s', v) {
      assert LocalAt(s, v);
    }
    forall k: nat | k < |s'.pending| ensures ListAt(s', s'.pending, s'.held, k) { FetchNewPending(s, k); }
  }

  lemma FetchPopOK(s: State)
    requires Inv(s) && s.stack != []
    ensures Inv(Fetch(s))
  {
    var s', k0 := Fetch(s), |s.stack| - 1;
    SumAppend(s.held, s.stacked[k0]);
    forall v: nat | v < |s'.locals| ensures LocalAt(s', v) { assert LocalAt(s, v); }
    forall k: nat | k < |s'.stack| ensures ListAt(s', s'.stack, s'.stacked, k) {
      assert ListAt(s, s.stack, s.stacked, k);
    }
    forall k: nat | k < |s'.pending| ensures ListAt(s', s'.pending, s'.held, k) {
      if k < |s.pending| { assert ListAt(s, s.pending, s.held, k); } else { assert ListAt(s, s.stack, s.stacked, k0); }
    }
  }

  lemma InstallConserved(s: State, w: nat, i: nat)
    requires Inv(s) && w < |s.locals| && i < |s.pending|
    ensures Conserved(Install(s, w, i))
  {
    var s', items := Install(s, w, i), s.held[i];
    assert LocalAt(s, w);
    SumRemove(s.held, i);
    SumAppend(s.stacked, items);
    SumUpdate(s.mine, w, items);
    assert s.locals[w].sz == 0 ==> s.mine[w] == [];
    forall b: nat ensures (s'.used + Sum(s'.mine) + Sum(s'.stacked) + Sum(s'.held))[b] == Blocks(|s'.next|)[b] {
      Counted(s, b);
      BlocksOnce(|s.next|, b);
      assert (Sum(s'.held) + multiset(items))[b] == Sum(s.held)[b];
      if s.locals[w].sz == 0 {
        assert (Sum(s'.mine) + multiset(s.mine[w]))[b] == (Sum(s.mine) + multiset(items))[b];
      } else {
        assert Sum(s'.stacked)[b] == (Sum(s.stacked) + multiset(items))[b];
      }
    }
  }

  lemma InstallShapes(s: State, w: nat, i: nat)
    requires Inv(s) && w < |s.locals| && i < |s.pending|
    ensures Shapes(Install(s, w, i))
  {
    var s' := Install(s, w, i);
    forall v: nat | v < |s'.locals| ensures LocalAt(s', v) {
      assert LocalAt(s, v) && ListAt(s, s.pending, s.held, i);
    }
    forall k: nat | k < |s'.stack| ensures ListAt(s', s'.stack, s'.stacked, k) {
      if k < |s.stack| { assert ListAt(s, s.stack, s.stacked, k); } else { assert ListAt(s, s.pending, s.held, i); }
    }
    forall k: nat | k < |s'.pending| ensures ListAt(s', s'.pending, s'.held, k) {
      assert ListAt(s, s.pending, s.held, if k < i then k else k + 1);
    }
  }

  lemma PutsBack(s: State, w: nat, p: nat)
    requires Inv(s) && w < |s.locals| && p in s.used && p < |s.next|
    ensures w < |Balance(s, w).locals| && p < |Balance(s, w).next| && Inv(PutBack(Balance(s, w), w, p))
  {
    BalanceOK(s, w);
    FreeOK(Balance(s, w), w, p);
  }

  lemma Finishes(s: State, w: nat, i: nat)
    requires Inv(s) && w < |s.locals| && i < |s.pending|
    ensures w < |Install(s, w, i).locals| && Inv(TakeOne(Install(s, w, i), w))
  {
    InstallConserved(s, w, i);
    InstallShapes(s, w, i);
    TakeOK(Install(s, w, i), w);
  }

  lemma StepInv(s: State, a: Action)
    requires Inv(s)
    ensures Inv(Step(s, a))
  {
    if a.w < |s.locals| {
      match a
      case Free(w, p) => if p in s.used && p < |s.next| { PutsBack(s, w, p); }
      case Take(w) => TakeOK(s, w);
      case GetList(w) => if s.locals[w].sz == 0 {
        if s.stack == [] { FetchNewOK(s); } else { FetchPopOK(s); }
      }
      case Finish(w, i) => if i < |s.pending| { Finishes(s, w, i); }
    }
  }

  lemma {:induction false} Reachable(s: State, run: seq<Action>)
    requires Init(s)
    ensures Inv(Exec(s, run))
    decreases |run|
  {
    if run == [] {
      EmptySum(s.mine);
    } else {
      var n := |run| - 1;
      Reachable(s, run[..n]);
      StepInv(Exec(s, run[..n]), run[n]);
    }
  }

  lemma {:induction false} EmptySum(lists: seq<seq<nat>>)
    requires forall k :: 0 <= k < |lists| ==> lists[k] == []
    ensures Sum(lists) == multiset{}
  {
    if lists != [] { EmptySum(lists[..|lists| - 1]); }
  }

  // ---------------------------------------------------------------- the properties

  lemma OnlyAllocHandsOut(s: State, a: Action, b: nat)
    requires Step(s, a).used[b] > s.used[b]
    ensures a.Take? || a.Finish?
  {
  }

  /** No block is handed out while it is handed out already, whatever the tasks do and wherever they run. */
  lemma NotHandedOutTwice(s: State, run: seq<Action>, a: Action, b: nat)
    requires Init(s)
    ensures var r := Exec(s, run);
            var r' := Step(r, a);
            && r.used[b] <= 1
            && (r'.used[b] > r.used[b] ==> r.used[b] == 0 && (a.Take? || a.Finish?))
  {
    var r := Exec(s, run);
    Reachable(s, run);
    StepInv(r, a);
    Counted(r, b);
    Counted(Step(r, a), b);
    if Step(r, a).used[b] > r.used[b] { OnlyAllocHandsOut(r, a, b); }
  }

  lemma TakeGives(s: State, w: nat)
    requires Inv(s) && w < |s.locals| && s.locals[w].sz > 0
    ensures w < |s.mine| && s.mine[w] != []
    ensures var p, s' := s.mine[w][|s.mine[w]| - 1], TakeOne(s, w);
            && s'.used == s.used + multiset{p} && |s'.mine| == |s.mine|
            && s'.mine == s.mine[w := s.mine[w][..|s.mine[w]| - 1]]
  {
    assert LocalAt(s, w);
  }

  /** An alloc that comes to its end, with a block in the local list or with a list it has fetched, hands
      out one block that was not out. */
  lemma AllocHandsOutOne(s: State, run: seq<Action>, a: Action) returns (p: nat)
    requires Init(s)
    requires var r := Exec(s, run);
             && a.w < |r.locals|
             && ((a.Take? && r.locals[a.w].sz > 0) || (a.Finish? && a.i < |r.pending|))
    ensures var r, r' := Exec(s, run), Step(Exec(s, run), a);
            r.used[p] == 0 && p < r.total && r'.used == r.used + multiset{p}
  {
    var r := Exec(s, run);
    Reachable(s, run);
    StepInv(r, a);
    if a.Finish? {
      InstallConserved(r, a.w, a.i);
      InstallShapes(r, a.w, a.i);
      var installed := Install(r, a.w, a.i);
      assert LocalAt(r, a.w);
      TakeGives(installed, a.w);
      p := installed.mine[a.w][|installed.mine[a.w]| - 1];
      OnlyThere(installed, a.w, p);
    } else {
      TakeGives(r, a.w);
      p := r.mine[a.w][|r.mine[a.w]| - 1];
      OnlyThere(r, a.w, p);
    }
  }

  lemma PutPuts(s: State, w: nat, p: nat)
    requires w < |s.locals| && w < |s.mine| && p in s.used && p < |s.next|
    ensures var s' := Step(s, Free(w, p));
            && |s'.mine| == |s.mine| && s'.mine[w] != [] && s'.mine[w][|s'.mine[w]| - 1] == p
            && |s'.locals| == |s.locals| && s'.locals[w].sz > 0 && s'.used == s.used - multiset{p}
  {
  }

  /** free takes back the block it is given and no other, and the same worker's next alloc hands out that
      block again. */
  lemma FreeTakesBack(s: State, run: seq<Action>, w: nat, p: nat)
    requires Init(s) && w < |Exec(s, run).locals| && p in Exec(s, run).used
    ensures var r := Exec(s, run);
            var r' := Step(r, Free(w, p));
            r'.used == r.used - multiset{p} && Step(r', Take(w)).used == r.used
  {
    var r := Exec(s, run);
    Reachable(s, run);
    UsedNowhere(r, p);
    StepInv(r, Free(w, p));
    PutPuts(r, w, p);
    TakeGives(Step(r, Free(w, p)), w);
  }

  /** s' is s with one more list of list_length blocks on its way, the top one of the pool or a new one. */
  ghost predicate Fetches(s: State, s': State) {
    && s'.used == s.used && |s'.pending| == |s.pending| + 1
    && |s'.held| == |s.held| + 1 && s.held <= s'.held && |s'.held[|s.held|]| == s.len
    && (if s.stacked == [] then s'.total == s.total + s.len && s'.stacked == []
        else s'.total == s.total && s'.stacked + [s'.held[|s.held|]] == s.stacked)
  }

  lemma FetchPops(s: State)
    requires Shapes(s) && s.stack != []
    ensures Fetches(s, Fetch(s))
  {
    assert ListAt(s, s.stack, s.stacked, |s.stack| - 1);
  }

  lemma FetchNew(s: State)
    requires Shapes(s) && s.stack == []
    ensures Fetches(s, Fetch(s))
  {
  }

  /** With an empty list, alloc fetches one of list_length blocks; no block is handed out by that. */
  lemma GetListFetches(s: State, run: seq<Action>, w: nat)
    requires Init(s) && w < |Exec(s, run).locals| && Exec(s, run).locals[w].sz == 0
    ensures Fetches(Exec(s, run), Step(Exec(s, run), GetList(w)))
  {
    var r := Exec(s, run);
    Reachable(s, run);
    assert Step(r, GetList(w)) == Fetch(r);
    if r.stack == [] { FetchNew(r); } else { FetchPops(r); }
  }

  /** Every block is in one place: handed out, in a worker's list, in the pool, or in a list on its way. */
  lemma EveryBlockInOnePlace(s: State, run: seq<Action>, b: nat)
    requires Init(s)
    ensures var r := Exec(s, run);
            && r.total == |r.next|
            && r.used[b] + Sum(r.mine)[b] + Sum(r.stacked)[b] + Sum(r.held)[b] == if b < r.total then 1 else 0
  {
    Reachable(s, run);
    Counted(Exec(s, run), b);
  }

  /** A worker's count is the length of its list, which its links go through from the head down; every
      list in the pool has list_length blocks. */
  lemma ListsAreRight(s: State, run: seq<Action>, w: nat, k: nat)
    requires Init(s)
    ensures var r := Exec(s, run);
            && (w < |r.locals| ==> LocalAt(r, w))
            && (k < |r.stack| ==> ListAt(r, r.stack, r.stacked, k))
  {
    Reachable(s, run);
  }

  /** A list is split where it should be: mid has list_length blocks below it, and they go to the pool. */
  lemma SplitIsEven(s: State, run: seq<Action>, w: nat, p: nat)
    requires Init(s)
    requires var r := Exec(s, run); w < |r.locals| && r.len >= 2 && r.locals[w].sz == 2 * r.len && p in r.used
    ensures var r := Exec(s, run);
            var r' := Step(r, Free(w, p));
            && w < |r.mine| && r.len > 0 && |r.mine[w]| == 2 * r.len && r.locals[w].mid == Some(r.mine[w][r.len])
            && r'.stacked == r.stacked + [r.mine[w][..r.len]] && w < |r'.mine| && r'.mine[w] == r.mine[w][r.len..] + [p]
  {
    var r := Exec(s, run);
    Reachable(s, run);
    assert LocalAt(r, w);
    UsedNowhere(r, p);
    SplitSplits(r, w);
  }

  /** With list_length one, the test for splitting never gets its turn: free puts nothing into the pool,
      and the local list grows with every block that is freed. */
  lemma OneNeverSplits(s: State, run: seq<Action>, w: nat, p: nat)
    requires Init(s) && s.len == 1
    requires var r := Exec(s, run); w < |r.locals| && p in r.used
    ensures var r := Exec(s, run);
            var r' := Step(r, Free(w, p));
            r'.stack == r.stack && w < |r'.locals| && r'.locals[w].sz == r.locals[w].sz + 1
  {
    Reachable(s, run);
    LengthStays(s, run);
    UsedNowhere(Exec(s, run), p);
    FreeOne(Exec(s, run), w, p);
  }

  lemma FreeOne(s: State, w: nat, p: nat)
    requires w < |s.locals| && p in s.used && p < |s.next| && s.len == 1
    requires LocalAt(s, w)
    ensures var s' := Step(s, Free(w, p));
            s'.stack == s.stack && w < |s'.locals| && s'.locals[w].sz == s.locals[w].sz + 1
  {
  }

  lemma {:induction false} LengthStays(s: State, run: seq<Action>)
    ensures Exec(s, run).len == s.len
    decreases |run|
  {
    if run != [] {
      LengthStays(s, run[..|run| - 1]);
      SameLength(Exec(s, run[..|run| - 1]), run[|run| - 1]);
    }
  }

  lemma SameLength(s: State, a: Action)
    ensures Step(s, a).len == s.len
  {
  }

  /** num_used_blocks, read while nothing moves. */
  function NumUsed(s: State): int {
    s.total - (|s.stack| * s.len + Sizes(s.locals))
  }

  function Sizes(locals: seq<Local>): nat {
    if locals == [] then 0 else Sizes(locals[..|locals| - 1]) + locals[|locals| - 1].sz
  }

  lemma {:induction false} SizesAre(locals: seq<Local>, mine: seq<seq<nat>>)
    requires |locals| == |mine| && forall w :: 0 <= w < |locals| ==> locals[w].sz == |mine[w]|
    ensures Sizes(locals) == |Sum(mine)|
  {
    if locals != [] { SizesAre(locals[..|locals| - 1], mine[..|mine| - 1]); }
  }

  lemma {:induction false} WholeLists(lists: seq<seq<nat>>, len: nat)
    requires forall k :: 0 <= k < |lists| ==> |lists[k]| == len
    ensures |Sum(lists)| == |lists| * len
  {
    if lists != [] {
      WholeLists(lists[..|lists| - 1], len);
      OneLess(|lists|, len);
    }
  }

  lemma OneLess(n: nat, len: nat)
    requires n > 0
    ensures (n - 1) * len + len == n * len
  {
  }

  lemma {:induction false} BlocksCount(n: nat)
    ensures |Blocks(n)| == n
  {
    if n > 0 { BlocksCount(n - 1); }
  }

  /** The number of blocks reported as used counts, besides the blocks handed out, those of every list
      that a task has fetched and not yet installed: it is exact if and only if there is none. */
  lemma NumUsedIsExact(s: State, run: seq<Action>)
    requires Init(s)
    ensures var r := Exec(s, run);
            && NumUsed(r) == |r.used| + |r.pending| * r.len
            && (NumUsed(r) == |r.used| <==> r.pending == [])
  {
    var r := Exec(s, run);
    Reachable(s, run);
    forall w | 0 <= w < |r.locals| ensures r.locals[w].sz == |r.mine[w]| { assert LocalAt(r, w); }
    SizesAre(r.locals, r.mine);
    forall k | 0 <= k < |r.stacked| ensures |r.stacked[k]| == r.len { assert ListAt(r, r.stack, r.stacked, k); }
    WholeLists(r.stacked, r.len);
    forall k | 0 <= k < |r.held| ensures |r.held[k]| == r.len { assert ListAt(r, r.pending, r.held, k); }
    WholeLists(r.held, r.len);
    BlocksCount(|r.next|);
    assert |r.used + Sum(r.mine) + Sum(r.stacked) + Sum(r.held)|
           == |r.used| + |Sum(r.mine)| + |Sum(r.stacked)| + |Sum(r.held)|;
  }

  /** The number need not be exact: a task that has fetched a list and not gone on has its blocks counted. */
  lemma NumUsedOvercounts(s: State)
    requires Init(s) && |s.locals| > 0
    ensures var r := Exec(s, [GetList(0)]);
            r.pending != [] && r.used == multiset{} && NumUsed(r) == r.len > 0
  {
    var run := [GetList(0)];
    assert run[..|run| - 1] == [];
    assert Exec(s, run) == Step(s, GetList(0));
    NumUsedIsExact(s, run);
  }

}
