/** The binary search tree of htm-mcas/BinarySearchTree.h, each operation taken as one atomic section.
    Nodes are in a memory that the operations write to through addresses; they are never freed. */
module BinarySearchTree {
  import opened Options
  import opened TreeShapes

  const SENTINEL_MAX: int := 0x7fff_ffff

  /** Taking one occurrence of a value away, if there is one. */
  function Removed(values: multiset<int>, v: int): multiset<int> {
    values - multiset{v}
  }

  /** What get_min answers for a tree with these values. */
  ghost predicate IsMin(values: multiset<int>, m: int) {
    if values == multiset{} then m == SENTINEL_MAX else m in values && forall v :: v in values ==> m <= v
  }

  class BinarySearchTree {
    var nodes: seq<Node>
    var root: Option<nat>
    ghost var shape: Tree

    ghost predicate Valid()
      reads this
    {
      Represents(nodes, root, shape) && Tidy(shape) && Ordered(shape, None, None)
    }

    ghost function Contents(): multiset<int>
      reads this
    {
      Values(shape)
    }

    constructor ()
      ensures Valid() && Contents() == multiset{}
    {
      nodes, root, shape := [], None, Leaf;
    }

    /** Walks down to the empty link at which a new value belongs. */
    method FindSpot(value: int) returns (prev: nat, left: bool, ghost way: seq<Frame>)
      requires Valid() && root.Some?
      ensures way != [] && prev == way[|way| - 1].addr && left == way[|way| - 1].left
      ensures Leads(nodes, root, way, None) && Plug(way, Leaf) == shape && Within(value, Lo(way, None), Hi(way, None))
    {
      var curr := root;
      ghost var t := shape;
      way, prev, left := [], 0, true;
      while curr.Some?
        invariant Leads(nodes, root, way, curr) && Represents(nodes, curr, t) && Plug(way, t) == shape
        invariant Within(value, Lo(way, None), Hi(way, None))
        invariant if way == [] then t.Branch? else prev == way[|way| - 1].addr && left == way[|way| - 1].left
        decreases t
      {
        prev := curr.value;
        left := value < nodes[prev].value;
        StepFind(nodes, root, shape, way, t, curr, left, value);
        curr := Link(nodes[prev], left);
        way, t := way + [FrameOf(t, left)], if left then t.left else t.right;
      }
    }

    method Insert(value: int)
      requires Valid()
      modifies this
      ensures Valid() && Contents() == old(Contents()) + multiset{value}
    {
      var node := |nodes|;
      ghost var leaf := Branch(node, value, Leaf, Leaf);
      AddrsInMemory(nodes, root, shape);
      Untouched(nodes, nodes + [Node(value, None, None)], root, shape);
      nodes := nodes + [Node(value, None, None)];
      if root.None? {
        root := Some(node);
        shape := leaf;
        return;
      }
      var prev, left, way := FindSpot(value);
      ValuesGrown(way, leaf);
      Replaced(nodes, root, way, None, Leaf, Some(node), leaf);
      nodes := nodes[prev := WithLink(nodes[prev], left, Some(node))];
      shape := Plug(way, leaf);
    }

    /** Puts the only child of a node, or nothing, in the place of the node. */
    method Splice(curr: nat, prev: Option<nat>, left: bool, ghost goal: multiset<int>, ghost way: seq<Frame>,
                  ghost t: Tree)
      requires Walking(nodes, root, shape, way, t, Some(curr), prev, left) && t.Branch? && Owed(goal, way, t, t.value)
      requires curr < |nodes| && (nodes[curr].left.None? || nodes[curr].right.None?)
      modifies this
      ensures Valid() && Contents() == goal
    {
      ghost var u := if nodes[curr].left.Some? then t.left else t.right;
      var q := if nodes[curr].left.Some? then nodes[curr].left else nodes[curr].right;
      NoneIsLeaf(nodes, nodes[curr].left, t.left);
      NoneIsLeaf(nodes, nodes[curr].right, t.right);
      OwedHere(goal, way, t);
      PlugValues(way, u);
      SpliceIn(Some(curr), prev, left, q, way, t, u);
    }

    method SpliceIn(curr: Option<nat>, prev: Option<nat>, left: bool, q: Option<nat>,
                    ghost way: seq<Frame>, ghost t: Tree, ghost u: Tree)
      requires Walking(nodes, root, shape, way, t, curr, prev, left) && t.Branch?
      requires (u == t.left || u == t.right) && Represents(nodes, q, u)
      modifies this
      ensures Valid() && shape == Plug(way, u)
    {
      ChildFits(way, t, u);
      TidyEnd(way, t);
      if way != [] { assert way[0] in way; }
      if curr != root && prev.Some? {
        PlugAddrs(way, t);
        Replaced(nodes, root, way, curr, t, q, u);
        nodes := nodes[prev.value := WithLink(nodes[prev.value], left, q)];
      } else {
        root := q;
      }
      shape := Plug(way, u);
    }

    /** Removes one occurrence of a value, if there is one. */
    method Remove(gone: int)
      requires Valid()
      modifies this
      ensures Valid() && Contents() == Removed(old(Contents()), gone)
    {
      var value, prev, curr, left := gone, None, root, true;
      ghost var goal := Removed(Contents(), gone);
      ghost var way, t := [], shape;
      while curr.Some?
        invariant Walking(nodes, root, shape, way, t, curr, prev, left) && Owed(goal, way, t, value)
        decreases t
      {
        var done;
        done, value, prev, curr, left, way, t := RemoveAt(value, prev, curr, left, goal, way, t);
        if done { return; }
      }
      WalkEnds(nodes, root, shape, way, t, curr, goal, value);
    }

    /** One round of the removal: takes the node out, or goes on to one of its children. */
    method RemoveAt(value: int, prev: Option<nat>, curr: Option<nat>, left: bool,
                    ghost goal: multiset<int>, ghost way: seq<Frame>, ghost t: Tree)
        returns (done: bool, value': int, prev': Option<nat>, curr': Option<nat>, left': bool,
                 ghost way': seq<Frame>, ghost t': Tree)
      requires Walking(nodes, root, shape, way, t, curr, prev, left) && Owed(goal, way, t, value) && curr.Some?
      modifies this
      ensures done ==> Valid() && Contents() == goal
      ensures !done ==> Walking(nodes, root, shape, way', t', curr', prev', left') && Owed(goal, way', t', value')
      ensures !done ==> t.Branch? && (t' == t.left || t' == t.right)
    {
      var c := curr.value;
      done := nodes[c].value == value && (nodes[c].left.None? || nodes[c].right.None?);
      if done {
        Splice(c, prev, left, goal, way, t);
        value', prev', curr', left', way', t' := value, prev, curr, left, way, t;
      } else {
        value', left', way', t' := Advance(value, c, goal, way, t);
        prev', curr' := curr, Link(nodes[c], left');
      }
    }

    /** Goes on to the child to look in.  A node with the value and two children gets the least value of
        its right subtree, which is then the one to look for. */
    method Advance(value: int, c: nat, ghost goal: multiset<int>, ghost way: seq<Frame>, ghost t: Tree)
        returns (value': int, left': bool, ghost way': seq<Frame>, ghost t': Tree)
      requires Leads(nodes, root, way, Some(c)) && Represents(nodes, Some(c), t) && Plug(way, t) == shape && t.Branch?
      requires Tidy(shape) && Ordered(shape, None, None) && Owed(goal, way, t, value)
      requires nodes[c].value == value ==> nodes[c].left.Some? && nodes[c].right.Some?
      modifies this`nodes, this`shape
      ensures c < |nodes| && Walking(nodes, root, shape, way', t', Link(nodes[c], left'), Some(c), left')
      ensures Owed(goal, way', t', value') && (t' == t.left || t' == t.right)
    {
      if nodes[c].value == value {
        RightSide(nodes, way, t);
        value' := GetMin(nodes[c].right, t.right);
        Raise(c, value', goal, way, t);
        left', way', t' := false, way + [FrameOf(t.(value := value'), false)], t.right;
      } else {
        value', left' := value, value < nodes[c].value;
        StepWalk(nodes, root, shape, way, t, Some(c), left', goal, value);
        way', t' := way + [FrameOf(t, left')], if left' then t.left else t.right;
      }
    }

    /** Gives the node the least value of its right subtree, which is then the one to look for there. */
    method Raise(c: nat, least: int, ghost goal: multiset<int>, ghost way: seq<Frame>, ghost t: Tree)
      requires Leads(nodes, root, way, Some(c)) && Represents(nodes, Some(c), t) && Plug(way, t) == shape && t.Branch?
      requires Tidy(shape) && Ordered(shape, None, None) && Owed(goal, way, t, t.value)
      requires IsMin(Values(t.right), least) && Values(t.right) != multiset{}
      modifies this`nodes, this`shape
      ensures c < |nodes| && nodes[c].right == old(nodes[c].right)
      ensures Walking(nodes, root, shape, way + [FrameOf(t.(value := least), false)], t.right, nodes[c].right,
                      Some(c), false)
      ensures Owed(goal, way + [FrameOf(t.(value := least), false)], t.right, least)
    {
      Raised(nodes, root, goal, way, t, least);
      nodes, shape := nodes[c := nodes[c].(value := least)], Plug(way, t.(value := least));
    }

    method Min() returns (m: int)
      requires Valid()
      ensures IsMin(Contents(), m)
    {
      m := GetMin(root, shape);
    }

    /** The least value of a subtree, found along the left links. */
    method GetMin(p: Option<nat>, ghost t: Tree) returns (m: int)
      requires Represents(nodes, p, t) && Ordered(t, None, None)
      ensures IsMin(Values(t), m)
    {
      if p.None? { return SENTINEL_MAX; }
      var curr := p.value;
      ghost var u := t;
      assert forall v :: v in Values(t) ==> v in Values(u);
      ghost var hi: Option<int> := None;
      while nodes[curr].left.Some?
        invariant Represents(nodes, Some(curr), u) && Ordered(u, None, hi) && u.Branch?
        invariant u.value in Values(t) && forall v :: v in Values(u) ==> v in Values(t)
        invariant forall v :: v in Values(t) ==> v in Values(u) || u.value <= v
        decreases u
      {
        LeftHasMin(u, t, hi);
        hi := Some(u.value);
        u := u.left;
        curr := nodes[curr].left.value;
      }
      m := nodes[curr].value;
      forall v | v in Values(u) ensures m <= v {
        if v != m { assert v in Values(u.right); OrderedValues(u.right, Some(u.value), hi, v); }
      }
    }
  }

  lemma NoneIsLeaf(nodes: seq<Node>, p: Option<nat>, t: Tree)
    requires Represents(nodes, p, t)
    ensures p.None? <==> t.Leaf?
  {
  }

  lemma LeftHasMin(u: Tree, t: Tree, hi: Option<int>)
    requires u.Branch? && u.left.Branch? && Ordered(u, None, hi)
    requires forall v :: v in Values(u) ==> v in Values(t)
    requires forall v :: v in Values(t) ==> v in Values(u) || u.value <= v
    ensures u.left.value in Values(t) && forall v :: v in Values(u.left) ==> v in Values(t)
    ensures forall v :: v in Values(t) ==> v in Values(u.left) || u.left.value <= v
  {
    forall v | v in Values(u.left) ensures v in Values(t) { assert v in Values(u); }
    assert u.left.value in Values(u.left);
    forall v | v in Values(t) && v !in Values(u.left) ensures u.left.value <= v {
      assert Within(u.left.value, None, Some(u.value));
      if v in Values(u.right) { OrderedValues(u.right, Some(u.value), hi, v); }
    }
  }

  lemma {:induction false} AddrsInMemory(nodes: seq<Node>, p: Option<nat>, t: Tree)
    requires Represents(nodes, p, t)
    ensures forall a :: a in Addrs(t) ==> a < |nodes|
    decreases t
  {
    if t.Branch? {
      AddrsInMemory(nodes, nodes[t.addr].left, t.left);
      AddrsInMemory(nodes, nodes[t.addr].right, t.right);
    }
  }

  function FrameOf(t: Tree, left: bool): Frame
    requires t.Branch?
  {
    Frame(t.addr, t.value, left, if left then t.right else t.left)
  }

  /** A walk has come to curr, the root of the subtree t, by the way down; prev is the node before it. */
  ghost predicate Walking(nodes: seq<Node>, root: Option<nat>, shape: Tree, way: seq<Frame>, t: Tree, curr: Option<nat>,
                          prev: Option<nat>, left: bool)
  {
    && Leads(nodes, root, way, curr) && Represents(nodes, curr, t)
    && Plug(way, t) == shape && Tidy(shape) && Ordered(shape, None, None)
    && (way != [] ==> prev == Some(way[|way| - 1].addr) && left == way[|way| - 1].left)
  }

  /** One step of a walk. */
  lemma StepDown(nodes: seq<Node>, root: Option<nat>, shape: Tree, way: seq<Frame>, t: Tree, curr: Option<nat>,
                 left: bool)
    requires Leads(nodes, root, way, curr) && Represents(nodes, curr, t) && Plug(way, t) == shape && t.Branch?
    ensures var f, u := FrameOf(t, left), if left then t.left else t.right;
            && Leads(nodes, root, way + [f], Link(nodes[t.addr], left))
               && Represents(nodes, Link(nodes[t.addr], left), u)
            && Plug(way + [f], u) == shape
            && Lo(way + [f], None) == (if left then Lo(way, None) else Some(t.value))
            && Hi(way + [f], None) == (if left then Some(t.value) else Hi(way, None))
            && WayValues(way + [f]) + Values(u) == WayValues(way) + Values(t)
  {
    var f, u := FrameOf(t, left), if left then t.left else t.right;
    LeadsMore(nodes, root, way, curr, f);
    PlugMore(way, f, u);
    BoundsMore(way, f, None, None);
    ValuesMore(way, f);
  }

  lemma StepFind(nodes: seq<Node>, root: Option<nat>, shape: Tree, way: seq<Frame>, t: Tree, curr: Option<nat>,
                 left: bool, v: int)
    requires Leads(nodes, root, way, curr) && Represents(nodes, curr, t) && Plug(way, t) == shape && t.Branch?
    requires Within(v, Lo(way, None), Hi(way, None)) && left == (v < t.value)
    ensures var way', u := way + [FrameOf(t, left)], if left then t.left else t.right;
            && Leads(nodes, root, way', Link(nodes[t.addr], left)) && Represents(nodes, Link(nodes[t.addr], left), u)
            && Plug(way', u) == shape && Within(v, Lo(way', None), Hi(way', None))
  {
    StepDown(nodes, root, shape, way, t, curr, left);
  }

  /** Redirecting the last link of the way from t to u. */
  lemma Replaced(nodes: seq<Node>, root: Option<nat>, way: seq<Frame>, q: Option<nat>, t: Tree, q': Option<nat>,
                 u: Tree)
    requires way != [] && Leads(nodes, root, way, q) && Tidy(Plug(way, t)) && Ordered(Plug(way, t), None, None)
    requires Represents(nodes, q', u) && Tidy(u) && Ordered(u, Lo(way, None), Hi(way, None))
    requires forall a :: a in Addrs(u) ==> a in Addrs(t) || a !in Addrs(Plug(way, t))
    ensures var f := way[|way| - 1];
            && f.addr < |nodes|
            && var nodes' := nodes[f.addr := WithLink(nodes[f.addr], f.left, q')];
               Represents(nodes', root, Plug(way, u)) && Tidy(Plug(way, u)) && Ordered(Plug(way, u), None, None)
  {
    var f := way[|way| - 1];
    Relinked(nodes, root, way, q, t, q');
    var nodes' := nodes[f.addr := WithLink(nodes[f.addr], f.left, q')];
    PlugAddrs(way, t);
    TidyEnd(way, t);
    assert f in way;
    Untouched(nodes, nodes', q', u);
    Joined(nodes', root, way, q', u);
    TidyReplace(way, t, u);
    OrderedReplace(way, t, u, None, None);
  }

  lemma ValuesGrown(way: seq<Frame>, leaf: Tree)
    requires leaf.Branch? && leaf.left.Leaf? && leaf.right.Leaf?
    ensures Values(Plug(way, leaf)) == Values(Plug(way, Leaf)) + multiset{leaf.value}
  {
    PlugValues(way, Leaf);
    PlugValues(way, leaf);
  }

  // ---------------------------------------------------------------- removal

  lemma {:induction false} ValueAbsent(t: Tree, lo: Option<int>, hi: Option<int>, v: int)
    requires Ordered(t, lo, hi) && !Within(v, lo, hi)
    ensures v !in Values(t)
  {
    if v in Values(t) { OrderedValues(t, lo, hi, v); }
  }

  /** What the walk still has to do: the values are the goal once one v is taken out below. */
  ghost predicate Owed(goal: multiset<int>, way: seq<Frame>, t: Tree, v: int) {
    goal == WayValues(way) + Removed(Values(t), v)
  }

  lemma TakenFrom(rest: multiset<int>, values: multiset<int>, v: int)
    requires v !in rest
    ensures Removed(rest + values, v) == rest + Removed(values, v)
  {
  }

  lemma Regroup(a: multiset<int>, b: multiset<int>, c: multiset<int>, d: multiset<int>)
    ensures a + (b + c + d) == (a + b + c) + d
  {
  }

  lemma OwedBelow(goal: multiset<int>, way: seq<Frame>, t: Tree, v: int, lo: Option<int>, hi: Option<int>, left: bool)
    requires t.Branch? && t.value != v && left == (v < t.value) && Ordered(t, lo, hi) && Owed(goal, way, t, v)
    ensures Owed(goal, way + [FrameOf(t, left)], if left then t.left else t.right, v)
  {
    var f, u := FrameOf(t, left), if left then t.left else t.right;
    if left { ValueAbsent(t.right, Some(t.value), hi, v); } else { ValueAbsent(t.left, lo, Some(t.value), v); }
    var rest := multiset{t.value} + Values(f.other);
    assert Values(t) == rest + Values(u);
    TakenFrom(rest, Values(u), v);
    ValuesMore(way, f);
    Regroup(WayValues(way), multiset{t.value}, Values(f.other), Removed(Values(u), v));
  }

  /** With its value gone, what is left of a node is its two subtrees. */
  lemma OwedHere(goal: multiset<int>, way: seq<Frame>, t: Tree)
    requires t.Branch? && Owed(goal, way, t, t.value)
    ensures goal == WayValues(way) + Values(t.left) + Values(t.right)
  {
    assert Removed(Values(t), t.value) == Values(t.left) + Values(t.right);
  }

  /** A node with two children takes the least value of its right subtree, which is then owed there. */
  lemma OwedMin(goal: multiset<int>, way: seq<Frame>, t: Tree, m: int)
    requires t.Branch? && Owed(goal, way, t, t.value) && m in Values(t.right)
    ensures var raised := t.(value := m);
            Owed(goal, way + [FrameOf(raised, false)], t.right, m)
  {
    OwedHere(goal, way, t);
    ValuesMore(way, FrameOf(t.(value := m), false));
  }

  lemma RaisedOrdered(t: Tree, lo: Option<int>, hi: Option<int>, m: int)
    requires t.Branch? && Ordered(t, lo, hi) && m in Values(t.right) && forall v :: v in Values(t.right) ==> m <= v
    ensures Ordered(t.(value := m), lo, hi)
  {
    OrderedValues(t.right, Some(t.value), hi, m);
    OrderedWider(t.left, lo, Some(t.value), lo, Some(m));
    OrderedRaised(t.right, Some(t.value), hi, m);
  }

  /** Overwriting the value of the node at the end of the way. */
  lemma Revalued(nodes: seq<Node>, root: Option<nat>, way: seq<Frame>, q: Option<nat>, t: Tree, m: int)
    requires Leads(nodes, root, way, q) && Represents(nodes, q, t) && t.Branch? && Tidy(Plug(way, t))
    ensures var nodes', raised := nodes[t.addr := nodes[t.addr].(value := m)], t.(value := m);
            Leads(nodes', root, way, q) && Represents(nodes', q, raised) && Tidy(Plug(way, raised))
  {
    var nodes' := nodes[t.addr := nodes[t.addr].(value := m)];
    TidyEnd(way, t);
    WayUntouched(nodes, nodes', root, way, q, t);
    Untouched(nodes, nodes', nodes[t.addr].left, t.left);
    Untouched(nodes, nodes', nodes[t.addr].right, t.right);
    TidyReplace(way, t, t.(value := m));
  }

  /** A subtree with one child, or none, may be replaced by that child. */
  lemma ChildFits(way: seq<Frame>, t: Tree, u: Tree)
    requires t.Branch? && Tidy(Plug(way, t)) && Ordered(Plug(way, t), None, None)
    requires u == t.left || u == t.right
    ensures Tidy(u) && Ordered(u, Lo(way, None), Hi(way, None)) && Addrs(u) <= Addrs(t)
  {
    TidyEnd(way, t);
    OrderedEnd(way, t, None, None);
    var lo, hi := Lo(way, None), Hi(way, None);
    if u == t.left { OrderedWider(u, lo, Some(t.value), lo, hi); } else { OrderedWider(u, Some(t.value), hi, lo, hi); }
  }

  /** What get_min is asked about. */
  lemma RightSide(nodes: seq<Node>, way: seq<Frame>, t: Tree)
    requires t.Branch? && Represents(nodes, Some(t.addr), t) && nodes[t.addr].right.Some?
    requires Ordered(Plug(way, t), None, None)
    ensures Ordered(t.right, None, None) && t.right.Branch? && Values(t.right) != multiset{}
  {
    NoneIsLeaf(nodes, nodes[t.addr].right, t.right);
    OrderedEnd(way, t, None, None);
    OrderedWider(t.right, Some(t.value), Hi(way, None), None, None);
    assert t.right.value in Values(t.right);
  }

  lemma RaisedShape(way: seq<Frame>, t: Tree, m: int)
    requires t.Branch? && Ordered(Plug(way, t), None, None) && IsMin(Values(t.right), m)
             && Values(t.right) != multiset{}
    ensures Ordered(Plug(way, t.(value := m)), None, None)
    ensures Plug(way, t.(value := m)) == Plug(way + [FrameOf(t.(value := m), false)], t.right)
  {
    OrderedEnd(way, t, None, None);
    RaisedOrdered(t, Lo(way, None), Hi(way, None), m);
    OrderedReplace(way, t, t.(value := m), None, None);
    PlugMore(way, FrameOf(t.(value := m), false), t.right);
  }

  /** The walk goes on into the right subtree, below the raised node. */
  lemma Raised(nodes: seq<Node>, root: Option<nat>, goal: multiset<int>, way: seq<Frame>, t: Tree, m: int)
    requires t.Branch? && Leads(nodes, root, way, Some(t.addr)) && Represents(nodes, Some(t.addr), t)
             && Tidy(Plug(way, t))
    requires Ordered(Plug(way, t), None, None) && IsMin(Values(t.right), m) && Values(t.right) != multiset{}
    requires Owed(goal, way, t, t.value)
    ensures var nodes', raised := nodes[t.addr := nodes[t.addr].(value := m)], t.(value := m);
            var way' := way + [FrameOf(raised, false)];
            && Walking(nodes', root, Plug(way, raised), way', t.right, nodes[t.addr].right, Some(t.addr), false)
            && Owed(goal, way', t.right, m)
  {
    RaisedShape(way, t, m);
    Revalued(nodes, root, way, Some(t.addr), t, m);
    LeadsMore(nodes[t.addr := nodes[t.addr].(value := m)], root, way, Some(t.addr), FrameOf(t.(value := m), false));
    OwedMin(goal, way, t, m);
  }

  /** A step past a node with another value. */
  lemma StepWalk(nodes: seq<Node>, root: Option<nat>, shape: Tree, way: seq<Frame>, t: Tree, curr: Option<nat>,
                 left: bool, goal: multiset<int>, v: int)
    requires Leads(nodes, root, way, curr) && Represents(nodes, curr, t) && Plug(way, t) == shape && t.Branch?
             && Tidy(shape)
    requires Ordered(shape, None, None) && Owed(goal, way, t, v) && t.value != v && left == (v < t.value)
    ensures var way', u := way + [FrameOf(t, left)], if left then t.left else t.right;
            Walking(nodes, root, shape, way', u, Link(nodes[t.addr], left), curr, left) && Owed(goal, way', u, v)
  {
    StepDown(nodes, root, shape, way, t, curr, left);
    OrderedEnd(way, t, None, None);
    OwedBelow(goal, way, t, v, Lo(way, None), Hi(way, None), left);
  }

  /** A walk that runs off the tree has found nothing to take out. */
  lemma WalkEnds(nodes: seq<Node>, root: Option<nat>, shape: Tree, way: seq<Frame>, t: Tree, curr: Option<nat>,
                 goal: multiset<int>, v: int)
    requires Leads(nodes, root, way, curr) && Represents(nodes, curr, t) && Plug(way, t) == shape
    requires curr.None? && Owed(goal, way, t, v)
    ensures Represents(nodes, root, shape) && Values(shape) == goal
  {
    NoneIsLeaf(nodes, curr, t);
    Joined(nodes, root, way, curr, t);
    PlugValues(way, t);
  }
}
