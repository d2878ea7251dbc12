/** Shapes of linked binary trees: the tree a node pointer stands for, and zippers into it. */
module BstShape {

  class Node {
    const value: int
    var parent: Node?
    var left: Node?
    var right: Node?
    constructor (v: int)
      ensures value == v && parent == null && left == null && right == null
    {
      value, parent, left, right := v, null, null, null;
    }
  }

  datatype Tree = Empty | Fork(l: Tree, x: Node, r: Tree)

  // A tree with a hole, from the hole upwards.
  datatype Path = Top | OnLeft(x: Node, r: Tree, up: Path) | OnRight(l: Tree, x: Node, up: Path)

  ghost function Nodes(t: Tree): set<Node> {
    match t case Empty => {} case Fork(l, x, r) => Nodes(l) + {x} + Nodes(r)
  }

  ghost function InOrder(t: Tree): seq<Node> {
    match t case Empty => [] case Fork(l, x, r) => InOrder(l) + [x] + InOrder(r)
  }

  ghost function Root(t: Tree): Node? { if t.Empty? then null else t.x }

  ghost predicate Disjoint(t: Tree) {
    match t
    case Empty => true
    case Fork(l, x, r) =>
      Disjoint(l) && Disjoint(r) && x !in Nodes(l) && x !in Nodes(r) && Nodes(l) !! Nodes(r)
  }

  // The child links from n on are the tree t.
  ghost predicate Down(n: Node?, t: Tree)
    reads Nodes(t)`left, Nodes(t)`right
  {
    match t
    case Empty => n == null
    case Fork(l, x, r) => n == x && Down(x.left, l) && Down(x.right, r)
  }

  // The parent links of t are right, and its root's parent is p.
  ghost predicate Up(p: Node?, t: Tree)
    reads Nodes(t)`parent
    decreases t
  {
    match t
    case Empty => true
    case Fork(l, x, r) => x.parent == p && Up(x, l) && Up(x, r)
  }

  lemma {:induction false} NodesAllocated(t: Tree)
    ensures forall n :: n in Nodes(t) ==> allocated(n)
  {
    if t.Fork? {
      NodesAllocated(t.l);
      NodesAllocated(t.r);
    }
  }

  // ---- the same for a tree with a hole ----

  ghost function Plug(c: Path, t: Tree): Tree
    decreases c
  {
    match c
    case Top => t
    case OnLeft(x, r, up) => Plug(up, Fork(t, x, r))
    case OnRight(l, x, up) => Plug(up, Fork(l, x, t))
  }

  ghost function Around(c: Path): set<Node> {
    match c
    case Top => {}
    case OnLeft(x, r, up) => {x} + Nodes(r) + Around(up)
    case OnRight(l, x, up) => {x} + Nodes(l) + Around(up)
  }

  ghost function Before(c: Path): seq<Node> {
    match c
    case Top => []
    case OnLeft(_, _, up) => Before(up)
    case OnRight(l, x, up) => Before(up) + InOrder(l) + [x]
  }

  ghost function After(c: Path): seq<Node> {
    match c
    case Top => []
    case OnLeft(x, r, up) => [x] + InOrder(r) + After(up)
    case OnRight(_, _, up) => After(up)
  }

  ghost function Holder(c: Path): Node? { if c.Top? then null else c.x }

  ghost function Holders(c: Path): (s: set<Node>)
    ensures s <= Around(c)
  {
    if c.Top? then {} else {c.x}
  }

  ghost predicate PathDisjoint(c: Path) {
    match c
    case Top => true
    case OnLeft(x, r, up) =>
      PathDisjoint(up) && Disjoint(r) && x !in Nodes(r) && x !in Around(up) && Nodes(r) !! Around(up)
    case OnRight(l, x, up) =>
      PathDisjoint(up) && Disjoint(l) && x !in Nodes(l) && x !in Around(up) && Nodes(l) !! Around(up)
  }

  // From n down to the hole, where the pointer is h.
  ghost predicate PathDown(n: Node?, c: Path, h: Node?)
    reads Around(c)`left, Around(c)`right
  {
    match c
    case Top => n == h
    case OnLeft(x, r, up) => x.left == h && Down(x.right, r) && PathDown(n, up, x)
    case OnRight(l, x, up) => x.right == h && Down(x.left, l) && PathDown(n, up, x)
  }

  ghost predicate PathUp(p: Node?, c: Path)
    reads Around(c)`parent
  {
    match c
    case Top => true
    case OnLeft(x, r, up) => x.parent == (if up.Top? then p else Holder(up)) && Up(x, r) && PathUp(p, up)
    case OnRight(l, x, up) => x.parent == (if up.Top? then p else Holder(up)) && Up(x, l) && PathUp(p, up)
  }

  lemma {:induction false} PathAllocated(c: Path)
    ensures forall n :: n in Around(c) ==> allocated(n)
  {
    match c
    case Top =>
    case OnLeft(_, r, up) => NodesAllocated(r); PathAllocated(up);
    case OnRight(l, _, up) => NodesAllocated(l); PathAllocated(up);
  }

  // ---- a plugged tree is its path and what is plugged in ----

  lemma {:induction false} PlugNodes(c: Path, t: Tree)
    ensures Nodes(Plug(c, t)) == Around(c) + Nodes(t)
    decreases c
  {
    match c
    case Top =>
    case OnLeft(x, r, up) => PlugNodes(up, Fork(t, x, r));
    case OnRight(l, x, up) => PlugNodes(up, Fork(l, x, t));
  }

  lemma {:induction false} Regroup<T>(b: seq<T>, u: seq<T>, v: seq<T>, w: seq<T>, a: seq<T>)
    ensures b + (u + v + w) + a == b + u + (v + w + a)
    ensures b + (u + v + w) + a == (b + u + v) + w + a
  {}

  lemma {:induction false} PlugInOrder(c: Path, t: Tree)
    ensures InOrder(Plug(c, t)) == Before(c) + InOrder(t) + After(c)
    decreases c
  {
    match c
    case Top =>
    case OnLeft(x, r, up) =>
      PlugInOrder(up, Fork(t, x, r));
      Regroup(Before(up), InOrder(t), [x], InOrder(r), After(up));
    case OnRight(l, x, up) =>
      PlugInOrder(up, Fork(l, x, t));
      Regroup(Before(up), InOrder(l), [x], InOrder(t), After(up));
  }

  lemma {:induction false} PlugDisjoint(c: Path, t: Tree)
    ensures Disjoint(Plug(c, t)) <==> PathDisjoint(c) && Disjoint(t) && Nodes(t) !! Around(c)
    decreases c
  {
    match c
    case Top =>
    case OnLeft(x, r, up) => PlugDisjoint(up, Fork(t, x, r));
    case OnRight(l, x, up) => PlugDisjoint(up, Fork(l, x, t));
  }

  lemma {:induction false} DownRoot(n: Node?, t: Tree)
    requires Down(n, t)
    ensures n == Root(t) && (n != null ==> n in Nodes(t))
  {}

  lemma {:induction false} PlugDown(n: Node?, c: Path, t: Tree)
    ensures Down(n, Plug(c, t)) <==> PathDown(n, c, Root(t)) && Down(Root(t), t)
    decreases c
  {
    match c
    case Top =>
    case OnLeft(x, r, up) => PlugDown(n, up, Fork(t, x, r));
    case OnRight(l, x, up) => PlugDown(n, up, Fork(l, x, t));
  }

  lemma {:induction false} PlugUp(p: Node?, c: Path, t: Tree)
    ensures Up(p, Plug(c, t)) <==> PathUp(p, c) && Up(if c.Top? then p else Holder(c), t)
    decreases c
  {
    match c
    case Top =>
    case OnLeft(x, r, up) => PlugUp(p, up, Fork(t, x, r));
    case OnRight(l, x, up) => PlugUp(p, up, Fork(l, x, t));
  }

  // ---- finding places ----

  // The i-th node in order.
  lemma {:induction false} Focus(c: Path, t: Tree, i: nat) returns (c': Path, t': Tree)
    requires i < |InOrder(t)|
    ensures Plug(c', t') == Plug(c, t) && t'.Fork? && t'.x == InOrder(t)[i]
    ensures |Before(c')| + |InOrder(t'.l)| == |Before(c)| + i
    decreases t
  {
    var n := |InOrder(t.l)|;
    if i < n {
      c', t' := Focus(OnLeft(t.x, t.r, c), t.l, i);
    } else if i == n {
      c', t' := c, t;
    } else {
      c', t' := Focus(OnRight(t.l, t.x, c), t.r, i - n - 1);
    }
  }

  // The first node: only left turns lead to it.
  lemma {:induction false} FocusFirst(c: Path, t: Tree) returns (c': Path, r: Tree)
    requires t.Fork?
    ensures InOrder(t) != [] && Plug(c', Fork(Empty, InOrder(t)[0], r)) == Plug(c, t)
    ensures Before(c') == Before(c)
    ensures c'.Top? ==> c.Top? && t.l.Empty?
    decreases t
  {
    if t.l.Empty? {
      c', r := c, t.r;
    } else {
      c', r := FocusFirst(OnLeft(t.x, t.r, c), t.l);
    }
  }
}
