/** Binary search trees in memory: the tree that a pointer stands for, and the tree around a pointer
    reached by walking down. */
module TreeShapes {
  import opened Options

  datatype Node = Node(value: int, left: Option<nat>, right: Option<nat>)

  datatype Tree = Leaf | Branch(addr: nat, value: int, left: Tree, right: Tree)

  /** A node passed on the way down: the way taken, and the subtree on the other side. */
  datatype Frame = Frame(addr: nat, value: int, left: bool, other: Tree)

  function Addrs(t: Tree): set<nat> {
    match t
    case Leaf => {}
    case Branch(a, _, l, r) => {a} + Addrs(l) + Addrs(r)
  }

  function Values(t: Tree): multiset<int> {
    match t
    case Leaf => multiset{}
    case Branch(_, v, l, r) => multiset{v} + Values(l) + Values(r)
  }

  /** No address is in the tree twice. */
  predicate Tidy(t: Tree) {
    match t
    case Leaf => true
    case Branch(a, _, l, r) => a !in Addrs(l) && a !in Addrs(r) && Addrs(l) !! Addrs(r) && Tidy(l) && Tidy(r)
  }

  predicate Within(v: int, lo: Option<int>, hi: Option<int>) {
    (lo.Some? ==> lo.value <= v) && (hi.Some? ==> v < hi.value)
  }

  /** left < node <= right, everywhere. */
  predicate Ordered(t: Tree, lo: Option<int>, hi: Option<int>) {
    match t
    case Leaf => true
    case Branch(_, v, l, r) => Within(v, lo, hi) && Ordered(l, lo, Some(v)) && Ordered(r, Some(v), hi)
  }

  predicate Represents(nodes: seq<Node>, p: Option<nat>, t: Tree)
    decreases t
  {
    match t
    case Leaf => p.None?
    case Branch(a, v, l, r) =>
      && p == Some(a) && a < |nodes| && nodes[a].value == v
      && Represents(nodes, nodes[a].left, l) && Represents(nodes, nodes[a].right, r)
  }

  function Fill(f: Frame, t: Tree): Tree {
    if f.left then Branch(f.addr, f.value, t, f.other) else Branch(f.addr, f.value, f.other, t)
  }

  /** The whole tree, with t at the end of the way down. */
  function Plug(way: seq<Frame>, t: Tree): Tree {
    if way == [] then t else Fill(way[0], Plug(way[1..], t))
  }

  function WayValues(way: seq<Frame>): multiset<int> {
    if way == [] then multiset{} else multiset{way[0].value} + Values(way[0].other) + WayValues(way[1..])
  }

  /** The bounds that the way down puts on what is at its end. */
  function Lo(way: seq<Frame>, lo: Option<int>): Option<int> {
    if way == [] then lo else Lo(way[1..], if way[0].left then lo else Some(way[0].value))
  }

  function Hi(way: seq<Frame>, hi: Option<int>): Option<int> {
    if way == [] then hi else Hi(way[1..], if way[0].left then Some(way[0].value) else hi)
  }

  function Link(n: Node, left: bool): Option<nat> {
    if left then n.left else n.right
  }

  function WithLink(n: Node, left: bool, q: Option<nat>): Node {
    if left then n.(left := q) else n.(right := q)
  }

  /** Walking the way down from p, through memory, leads to q. */
  predicate Leads(nodes: seq<Node>, p: Option<nat>, way: seq<Frame>, q: Option<nat>)
    decreases |way|
  {
    if way == [] then p == q
    else
      var f := way[0];
      && p == Some(f.addr) && f.addr < |nodes| && nodes[f.addr].value == f.value
      && Represents(nodes, Link(nodes[f.addr], !f.left), f.other)
      && Leads(nodes, Link(nodes[f.addr], f.left), way[1..], q)
  }

  // ---------------------------------------------------------------- walking down

  lemma {:induction false} PlugMore(way: seq<Frame>, f: Frame, t: Tree)
    ensures Plug(way + [f], t) == Plug(way, Fill(f, t))
  {
    if way != [] {
      assert (way + [f])[1..] == way[1..] + [f];
      PlugMore(way[1..], f, t);
    } else {
      assert [f][1..] == [];
    }
  }

  lemma {:induction false} PlugValues(way: seq<Frame>, t: Tree)
    ensures Values(Plug(way, t)) == WayValues(way) + Values(t)
  {
    if way != [] { PlugValues(way[1..], t); }
  }

  lemma {:induction false} ValuesMore(way: seq<Frame>, f: Frame)
    ensures WayValues(way + [f]) == WayValues(way) + multiset{f.value} + Values(f.other)
  {
    if way != [] {
      assert (way + [f])[1..] == way[1..] + [f];
      ValuesMore(way[1..], f);
    } else {
      assert [f][1..] == [];
    }
  }

  lemma {:induction false} BoundsMore(way: seq<Frame>, f: Frame, lo: Option<int>, hi: Option<int>)
    ensures Lo(way + [f], lo) == if f.left then Lo(way, lo) else Some(f.value)
    ensures Hi(way + [f], hi) == if f.left then Some(f.value) else Hi(way, hi)
  {
    if way != [] {
      assert (way + [f])[1..] == way[1..] + [f];
      var here := Some(way[0].value);
      BoundsMore(way[1..], f, if way[0].left then lo else here, if way[0].left then here else hi);
    } else {
      assert [f][1..] == [];
    }
  }

  lemma {:induction false} LeadsMore(nodes: seq<Node>, p: Option<nat>, way: seq<Frame>, q: Option<nat>, f: Frame)
    requires Leads(nodes, p, way, q) && q == Some(f.addr) && f.addr < |nodes| && nodes[f.addr].value == f.value
    requires Represents(nodes, Link(nodes[f.addr], !f.left), f.other)
    ensures Leads(nodes, p, way + [f], Link(nodes[f.addr], f.left))
    decreases |way|
  {
    if way != [] {
      assert (way + [f])[1..] == way[1..] + [f];
      LeadsMore(nodes, Link(nodes[way[0].addr], way[0].left), way[1..], q, f);
    } else {
      assert [f][1..] == [];
    }
  }

  /** The way down and what is at its end make up the whole tree. */
  lemma {:induction false} Joined(nodes: seq<Node>, p: Option<nat>, way: seq<Frame>, q: Option<nat>, t: Tree)
    requires Leads(nodes, p, way, q) && Represents(nodes, q, t)
    ensures Represents(nodes, p, Plug(way, t))
    decreases |way|
  {
    if way != [] { Joined(nodes, Link(nodes[way[0].addr], way[0].left), way[1..], q, t); }
  }

  // ---------------------------------------------------------------- what the way down says about its end

  lemma {:induction false} PlugAddrs(way: seq<Frame>, t: Tree)
    ensures Addrs(t) <= Addrs(Plug(way, t))
    ensures forall f :: f in way ==> f.addr in Addrs(Plug(way, t))
  {
    if way != [] {
      PlugAddrs(way[1..], t);
      forall f | f in way ensures f.addr in Addrs(Plug(way, t)) { assert f == way[0] || f in way[1..]; }
    }
  }

  lemma {:induction false} TidyEnd(way: seq<Frame>, t: Tree)
    requires Tidy(Plug(way, t))
    ensures Tidy(t) && forall f :: f in way ==> f.addr !in Addrs(t)
  {
    if way != [] {
      TidyEnd(way[1..], t);
      PlugAddrs(way[1..], t);
      forall f | f in way ensures f.addr !in Addrs(t) { assert f == way[0] || f in way[1..]; }
    }
  }

  /** What is at the end may be replaced by something with no other addresses than it, or new ones. */
  lemma {:induction false} TidyReplace(way: seq<Frame>, t: Tree, u: Tree)
    requires Tidy(Plug(way, t)) && Tidy(u) && forall a :: a in Addrs(u) ==> a in Addrs(t) || a !in Addrs(Plug(way, t))
    ensures Tidy(Plug(way, u)) && Addrs(Plug(way, u)) <= Addrs(Plug(way, t)) + Addrs(u)
  {
    if way != [] {
      PlugAddrs(way[1..], t);
      TidyReplace(way[1..], t, u);
    }
  }

  lemma {:induction false} OrderedEnd(way: seq<Frame>, t: Tree, lo: Option<int>, hi: Option<int>)
    requires Ordered(Plug(way, t), lo, hi)
    ensures Ordered(t, Lo(way, lo), Hi(way, hi))
  {
    if way != [] {
      var f := way[0];
      OrderedEnd(way[1..], t, if f.left then lo else Some(f.value), if f.left then Some(f.value) else hi);
    }
  }

  lemma {:induction false} OrderedReplace(way: seq<Frame>, t: Tree, u: Tree, lo: Option<int>, hi: Option<int>)
    requires Ordered(Plug(way, t), lo, hi) && Ordered(u, Lo(way, lo), Hi(way, hi))
    ensures Ordered(Plug(way, u), lo, hi)
  {
    if way != [] {
      var f := way[0];
      OrderedReplace(way[1..], t, u, if f.left then lo else Some(f.value), if f.left then Some(f.value) else hi);
    }
  }

  predicate Wider(lo: Option<int>, hi: Option<int>, lo': Option<int>, hi': Option<int>) {
    && (lo'.Some? ==> lo.Some? && lo'.value <= lo.value)
    && (hi'.Some? ==> hi.Some? && hi.value <= hi'.value)
  }

  lemma {:induction false} OrderedWider(t: Tree, lo: Option<int>, hi: Option<int>, lo': Option<int>, hi': Option<int>)
    requires Ordered(t, lo, hi) && Wider(lo, hi, lo', hi')
    ensures Ordered(t, lo', hi')
  {
    if t.Branch? {
      OrderedWider(t.left, lo, Some(t.value), lo', Some(t.value));
      OrderedWider(t.right, Some(t.value), hi, Some(t.value), hi');
    }
  }

  lemma {:induction false} OrderedValues(t: Tree, lo: Option<int>, hi: Option<int>, v: int)
    requires Ordered(t, lo, hi) && v in Values(t)
    ensures Within(v, lo, hi)
  {
    if v != t.value {
      if v in Values(t.left) {
        OrderedValues(t.left, lo, Some(t.value), v);
      } else {
        assert v in Values(t.right);
        OrderedValues(t.right, Some(t.value), hi, v);
      }
    }
  }

  /** The lower bound may be raised to any lower bound of the values. */
  lemma {:induction false} OrderedRaised(t: Tree, lo: Option<int>, hi: Option<int>, m: int)
    requires Ordered(t, lo, hi) && forall v :: v in Values(t) ==> m <= v
    ensures Ordered(t, Some(m), hi)
  {
    if t.Branch? {
      assert t.value in Values(t);
      forall v | v in Values(t.left) ensures m <= v { assert v in Values(t); }
      OrderedRaised(t.left, lo, Some(t.value), m);
    }
  }

  // ---------------------------------------------------------------- writing to memory

  /** A tree is untouched by writes elsewhere. */
  lemma {:induction false} Untouched(nodes: seq<Node>, nodes': seq<Node>, p: Option<nat>, t: Tree)
    requires Represents(nodes, p, t) && |nodes| <= |nodes'|
    requires forall a :: a in Addrs(t) && a < |nodes| ==> nodes'[a] == nodes[a]
    ensures Represents(nodes', p, t)
    decreases t
  {
    if t.Branch? {
      Untouched(nodes, nodes', nodes[t.addr].left, t.left);
      Untouched(nodes, nodes', nodes[t.addr].right, t.right);
    }
  }

  lemma {:induction false} WayUntouched(nodes: seq<Node>, nodes': seq<Node>, p: Option<nat>, way: seq<Frame>,
                                        q: Option<nat>, t: Tree)
    requires Leads(nodes, p, way, q) && |nodes| <= |nodes'| && Tidy(Plug(way, t))
    requires forall a :: a in Addrs(Plug(way, t)) && a !in Addrs(t) && a < |nodes| ==> nodes'[a] == nodes[a]
    ensures Leads(nodes', p, way, q)
    decreases |way|
  {
    if way != [] {
      var f := way[0];
      PlugAddrs(way, t);
      PlugAddrs(way[1..], t);
      TidyEnd(way, t);
      assert f in way;
      Untouched(nodes, nodes', Link(nodes[f.addr], !f.left), f.other);
      WayUntouched(nodes, nodes', Link(nodes[f.addr], f.left), way[1..], q, t);
    }
  }

  /** Writing the last link of the way down redirects it, and does nothing else. */
  lemma {:induction false} Relinked(nodes: seq<Node>, p: Option<nat>, way: seq<Frame>, q: Option<nat>, t: Tree,
                                    q': Option<nat>)
    requires way != [] && Leads(nodes, p, way, q) && Tidy(Plug(way, t))
    ensures var f := way[|way| - 1];
            f.addr < |nodes| && Leads(nodes[f.addr := WithLink(nodes[f.addr], f.left, q')], p, way, q')
    decreases |way|
  {
    var f0, f := way[0], way[|way| - 1];
    PlugAddrs(way[1..], t);
    if |way| == 1 {
      var nodes' := nodes[f.addr := WithLink(nodes[f.addr], f.left, q')];
      assert way[1..] == [];
      Untouched(nodes, nodes', Link(nodes[f.addr], !f.left), f.other);
    } else {
      assert way[1..][|way| - 2] == f;
      Relinked(nodes, Link(nodes[f0.addr], f0.left), way[1..], q, t, q');
      var nodes' := nodes[f.addr := WithLink(nodes[f.addr], f.left, q')];
      assert f.addr in Addrs(Plug(way[1..], t)) by { assert f in way[1..]; }
      Untouched(nodes, nodes', Link(nodes[f0.addr], !f0.left), f0.other);
    }
  }
}
