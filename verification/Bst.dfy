/** The binary search tree with parent links, on the heap. */
module Bst {
  import opened Basics
  import opened BstShape

  // Values do not decrease in order.
  ghost predicate Ordered(s: seq<Node>) {
    forall i, j :: 0 <= i < j < |s| ==> s[i].value <= s[j].value
  }

  // The links from root on are the tree t, in both directions.
  ghost predicate Linked(root: Node?, t: Tree)
    reads Nodes(t)
  {
    Down(root, t) && Up(null, t) && Disjoint(t)
  }

  // ---- reading ----

  method Min(node: Node, ghost t: Tree) returns (m: Node)
    requires Down(node, t)
    ensures |InOrder(t)| > 0 && m == InOrder(t)[0]
  {
    m := node;
    ghost var s := t;
    while m.left != null
      invariant Down(m, s) && s.Fork? && InOrder(t) != [] && InOrder(s)[0] == InOrder(t)[0]
      decreases s
    {
      m := m.left;
      s := s.l;
    }
  }

  method Max(node: Node, ghost t: Tree) returns (m: Node)
    requires Down(node, t)
    ensures |InOrder(t)| > 0 && m == InOrder(t)[|InOrder(t)| - 1]
  {
    m := node;
    ghost var s := t;
    while m.right != null
      invariant Down(m, s) && s.Fork? && InOrder(t) != []
      invariant InOrder(s)[|InOrder(s)| - 1] == InOrder(t)[|InOrder(t)| - 1]
      decreases s
    {
      LastIsRight(s);
      m := m.right;
      s := s.r;
    }
  }

  lemma {:induction false} LastIsRight(t: Tree)
    requires t.Fork? && t.r.Fork?
    ensures InOrder(t.r) != [] && InOrder(t)[|InOrder(t)| - 1] == InOrder(t.r)[|InOrder(t.r)| - 1]
  {
    assert t.r.x in InOrder(t.r);
  }

  // The node after the i-th one in order, or null.
  method Successor(n: Node, ghost root: Node?, ghost t: Tree, ghost i: nat) returns (p: Node?)
    requires Linked(root, t) && i < |InOrder(t)| && InOrder(t)[i] == n
    ensures p == if i + 1 < |InOrder(t)| then InOrder(t)[i + 1] else null
  {
    ghost var c, s := Focus(Top, t, i);
    PlugInOrder(c, s);
    PlugDown(root, c, s);
    PlugUp(null, c, s);
    PlugDisjoint(c, s);
    if n.right != null {
      p := Min(n.right, s.r);
      return;
    }
    ghost var after := After(c);
    var node: Node := n;
    p := node.parent;
    while p != null && node == p.right
      invariant PathDown(root, c, node) && PathUp(null, c) && PathDisjoint(c)
      invariant After(c) == after && p == Holder(c) && node !in Around(c)
      decreases c
    {
      node := p;
      p := p.parent;
      c := c.up;
    }
  }

  // The node before the i-th one in order, or null.
  method Predecessor(n: Node, ghost root: Node?, ghost t: Tree, ghost i: nat) returns (p: Node?)
    requires Linked(root, t) && i < |InOrder(t)| && InOrder(t)[i] == n
    ensures p == if i > 0 then InOrder(t)[i - 1] else null
  {
    ghost var c, s := Focus(Top, t, i);
    PlugInOrder(c, s);
    PlugDown(root, c, s);
    PlugUp(null, c, s);
    PlugDisjoint(c, s);
    if n.left != null {
      p := Max(n.left, s.l);
      return;
    }
    ghost var before := Before(c);
    var node: Node := n;
    p := node.parent;
    while p != null && node == p.left
      invariant PathDown(root, c, node) && PathUp(null, c) && PathDisjoint(c)
      invariant Before(c) == before && p == Holder(c) && node !in Around(c)
      decreases c
    {
      node := p;
      p := p.parent;
      c := c.up;
    }
  }

  // Each undoes the other, wherever the other answers.
  method SuccessorPredecessor(n: Node, ghost root: Node?, ghost t: Tree, ghost i: nat)
    returns (back: Node?, forth: Node?)
    requires Linked(root, t) && i < |InOrder(t)| && InOrder(t)[i] == n
    ensures i + 1 < |InOrder(t)| ==> back == n
    ensures i > 0 ==> forth == n
  {
    back, forth := null, null;
    NodesAllocated(t);
    var s := Successor(n, root, t, i);
    if s != null { back := Predecessor(s, root, t, i + 1); }
    var p := Predecessor(n, root, t, i);
    if p != null { forth := Successor(p, root, t, i - 1); }
  }

  datatype Found = Found(node: Node) | Aborted

  // Every node of an ordered tree with a smaller or larger value is on that side of the root.
  lemma {:induction false} OnItsSide(t: Tree, n: Node)
    requires t.Fork? && Ordered(InOrder(t)) && n in InOrder(t)
    ensures n.value < t.x.value ==> n in InOrder(t.l)
    ensures n.value > t.x.value ==> n in InOrder(t.r)
  {
    var s, k := InOrder(t), |InOrder(t.l)|;
    assert s[k] == t.x;
    var i :| 0 <= i < |s| && s[i] == n;
    if i < k {
      assert s[i] == InOrder(t.l)[i] && s[i].value <= s[k].value;
    } else if i > k {
      assert s[i] == InOrder(t.r)[i - k - 1] && s[k].value <= s[i].value;
    }
  }

  // Search asserts that it never steps off the tree: it finds a node with the value if there
  // is one, and aborts if there is none.
  method Search(node: Node?, value: int, ghost t: Tree) returns (f: Found)
    requires Down(node, t) && Ordered(InOrder(t))
    ensures f.Found? ==> f.node in InOrder(t) && f.node.value == value
    ensures f.Found? <==> exists n :: n in InOrder(t) && n.value == value
    decreases t
  {
    if node == null { return Aborted; }
    ghost var s, k := InOrder(t), |InOrder(t.l)|;
    assert s[..k] == InOrder(t.l) && s[k] == node && s[k + 1..] == InOrder(t.r);
    if node.value == value { return Found(node); }
    forall n | n in s ensures n.value < node.value ==> n in InOrder(t.l)
                      ensures n.value > node.value ==> n in InOrder(t.r) {
      OnItsSide(t, n);
    }
    if value < node.value {
      f := Search(node.left, value, t.l);
    } else {
      f := Search(node.right, value, t.r);
    }
  }

  // ---- the tree object ----

  class BinarySearchTree {
    var root: Node?
    ghost var tree: Tree

    // An ordered tree by child links: what Insert and Delete keep.
    ghost predicate Sound()
      reads this, Nodes(tree)
    {
      Down(root, tree) && Disjoint(tree) && Ordered(InOrder(tree))
    }

    // With right parent links as well.
    ghost predicate Valid()
      reads this, Nodes(tree)
    {
      Linked(root, tree) && Ordered(InOrder(tree))
    }

    constructor ()
      ensures Valid() && tree == Empty
    {
      root, tree := null, Empty;
    }

    // The loop of Insert: the empty place that v belongs to.
    method Descend(v: int) returns (p: Node?, ghost c: Path)
      requires Sound()
      ensures Plug(c, Empty) == tree && p == Holder(c)
      ensures forall x :: x in Before(c) ==> x.value <= v
      ensures forall x :: x in After(c) ==> v < x.value
      ensures p != null ==> (c.OnLeft? <==> v < p.value)
    {
      var node := root;
      p := null;
      c := Top;
      ghost var s := tree;
      while node != null
        invariant Plug(c, s) == tree && p == Holder(c) && Down(node, s)
        invariant forall x :: x in Before(c) ==> x.value <= v
        invariant forall x :: x in After(c) ==> v < x.value
        invariant p != null ==> (c.OnLeft? <==> v < p.value)
        decreases s
      {
        p := node;
        PlugInOrder(c, s);
        OrderedAround(Before(c), s, After(c));
        if v < node.value {
          node := node.left;
          c, s := OnLeft(s.x, s.r, c), s.l;
        } else {
          node := node.right;
          c, s := OnRight(s.l, s.x, c), s.r;
        }
      }
    }

    // The end of Insert: the new node is linked in at that place.
    method Attach(p: Node?, n: Node, ghost c: Path)
      requires Down(root, Plug(c, Empty)) && Disjoint(Plug(c, Empty)) && p == Holder(c)
      requires n !in Around(c) && n.parent == null && n.left == null && n.right == null
      requires p != null ==> (c.OnLeft? <==> n.value < p.value)
      modifies this`root, p, n
      ensures Down(root, Plug(c, Fork(Empty, n, Empty))) && Disjoint(Plug(c, Fork(Empty, n, Empty)))
      ensures Up(null, Plug(c, Fork(Empty, n, Empty))) <==> old(Up(null, Plug(c, Empty)))
    {
      PlugDown(root, c, Empty);
      PlugDisjoint(c, Empty);
      PlugUp(null, c, Empty);
      assert PathDown(root, c, null);
      assert p != null ==> p in Around(c);
      if p == null {
        root := n;
      } else if n.value < p.value {
        assert PathDown(root, c.up, p) && Down(p.right, c.r);
        p.left := n;
        n.parent := p;
      } else {
        assert PathDown(root, c.up, p) && Down(p.left, c.l);
        p.right := n;
        n.parent := p;
      }
      ghost var leaf := Fork(Empty, n, Empty);
      assert PathDown(root, c, n) && Down(n, leaf);
      LeafNodes(n);
      PlugDown(root, c, leaf);
      PlugDisjoint(c, leaf);
      PlugUp(null, c, leaf);
    }

    // The new node goes after every node that is not larger, and before every larger one. Insert
    // does not read parent links; they are right afterwards exactly if they were before.
    method Insert(v: int) returns (ghost k: nat, ghost n: Node)
      requires Sound()
      modifies this, Nodes(tree)
      ensures Sound() && (Valid() <==> old(Valid()))
      ensures fresh(n) && n.value == v && Nodes(tree) == old(Nodes(tree)) + {n}
      ensures k <= |old(InOrder(tree))|
      ensures InOrder(tree) == old(InOrder(tree))[..k] + [n] + old(InOrder(tree))[k..]
      ensures forall i :: 0 <= i < k ==> old(InOrder(tree))[i].value <= v
      ensures forall i :: k <= i < |old(InOrder(tree))| ==> v < old(InOrder(tree))[i].value
    {
      NodesAllocated(tree);
      var newNode := new Node(v);
      var p, c' := Descend(v);
      ghost var c := c';
      PlugNodes(c, Empty);
      assert p != null ==> p in Around(c);
      Attach(p, newNode, c);
      k, n := |Before(c)|, newNode;
      tree := Plug(c, Fork(Empty, newNode, Empty));
      InsertedInOrder(c, newNode);
      PlugNodes(c, Fork(Empty, newNode, Empty));
    }

    // The pointer to u becomes a pointer to v; u hangs below the path c that starts at `top`.
    method Transplant(u: Node, v: Node?, ghost top: Node?, ghost c: Path)
      requires PathDown(top, c, u) && PathDisjoint(c) && u !in Around(c) && u.parent == Holder(c)
      modifies this`root, Holders(c)`left, Holders(c)`right
      ensures c.Top? ==> root == v
      ensures !c.Top? ==> root == old(root) && PathDown(top, c, v)
    {
      if u.parent == null {
        root := v;
      } else if u == u.parent.left {
        assert PathDown(top, c.up, u.parent) && Down(u.parent.right, c.r);
        u.parent.left := v;
      } else {
        assert PathDown(top, c.up, u.parent) && Down(u.parent.left, c.l);
        u.parent.right := v;
      }
    }

    // The first node after r is taken out of r's right subtree, keeping the rest to its right.
    method DetachMin(r: Node, ghost s: Tree) returns (p: Node, ghost rest: Tree)
      requires Down(r.right, s) && Up(r, s) && Disjoint(s) && s.Fork? && r !in Nodes(s)
      modifies this`root, Nodes(s)
      ensures root == old(root) && Down(p.right, rest) && Disjoint(rest)
      ensures p in Nodes(s) && p !in Nodes(rest) && Nodes(rest) == Nodes(s) - {p}
      ensures InOrder(s) == [p] + InOrder(rest)
      ensures p.parent == r || p.parent in Nodes(s)
    {
      NodesAllocated(s);
      p := Min(r.right, s);
      ghost var d, pr := SplitMin(s, p);
      MinLinks(r.right, r, s, p, d, pr);
      rest := Plug(d, pr);
      if p.parent != r {
        PullUp(r, p, d, pr);
      }
    }

    // q becomes the left child of p.
    method Adopt(p: Node, q: Node, ghost l: Tree, ghost rest: Tree)
      requires Down(q, l) && Down(p.right, rest) && p != q && p !in Nodes(l) && p !in Nodes(rest)
      modifies p`left, q`parent
      ensures Down(p, Fork(l, p, rest)) && p.parent == old(p.parent)
    {
      NodesAllocated(l);
      NodesAllocated(rest);
      p.left := q;
      q.parent := p;
    }

    // The detached node p takes the place of r.
    method TakePlace(r: Node, p: Node, ghost c: Path, ghost l: Tree, ghost rest: Tree)
      requires PathDown(root, c, r) && PathDisjoint(c) && r !in Around(c) && r.parent == Holder(c)
      requires Down(r.left, l) && r.left != null && Down(p.right, rest) && p != r
      requires p !in Around(c) && p !in Nodes(l) && p !in Nodes(rest)
      requires Nodes(l) !! Around(c) && Nodes(rest) !! Around(c)
      modifies this`root, Holders(c)`left, Holders(c)`right, p`left, Nodes(l)`parent
      ensures PathDown(root, c, p) && Down(p, Fork(l, p, rest)) && p.parent == old(p.parent)
    {
      NodesAllocated(l);
      NodesAllocated(rest);
      PathAllocated(c);
      DownRoot(r.left, l);
      Transplant(r, p, root, c);
      Adopt(p, r.left, l, rest);
    }

    // r has two children: the first node after it takes its place.
    method DeleteInner(r: Node, ghost c: Path, ghost s: Tree) returns (ghost t: Tree)
      requires s.Fork? && s.x == r && r.left != null && r.right != null
      requires PathDown(root, c, r) && Down(r, s) && PathDisjoint(c) && Disjoint(s)
      requires Up(Holder(c), s) && Nodes(s) !! Around(c)
      modifies this`root, Holders(c)`left, Holders(c)`right, Nodes(s)
      ensures PathDown(root, c, Root(t)) && Down(Root(t), t) && Disjoint(t)
      ensures InOrder(t) == InOrder(s.l) + InOrder(s.r) && Nodes(t) == Nodes(s) - {r}
      ensures t.Fork? && t.x.parent != Holder(c)
    {
      NodesAllocated(s.l);
      PathAllocated(c);
      var p, rest := DetachMin(r, s.r);
      t := Fork(s.l, p, rest);
      ForkOrder(s.l, p, rest, s.r);
      ForkNodes(s, p, rest);
      TakePlace(r, p, c, s.l, rest);
    }

    // The three cases of Delete, at the place where r hangs.
    method Remove(r: Node, ghost c: Path, ghost s: Tree) returns (ghost t: Tree)
      requires s.Fork? && s.x == r
      requires PathDown(root, c, r) && Down(r, s) && PathDisjoint(c) && Disjoint(s)
      requires Up(Holder(c), s) && Nodes(s) !! Around(c)
      modifies this`root, Holders(c)`left, Holders(c)`right, Nodes(s)
      ensures PathDown(root, c, Root(t)) && Down(Root(t), t) && Disjoint(t)
      ensures InOrder(t) == InOrder(s.l) + InOrder(s.r) && Nodes(t) <= Nodes(s)
      ensures Up(Holder(c), t) <==> old(r.left) == null && old(r.right) == null
    {
      NodesAllocated(s.l);
      NodesAllocated(s.r);
      if r.left == null {
        t := s.r;
        DownRoot(r.right, t);
        Transplant(r, r.right, root, c);
      } else if r.right == null {
        t := s.l;
        DownRoot(r.left, t);
        Transplant(r, r.left, root, c);
      } else {
        t := DeleteInner(r, c, s);
      }
    }

    // After Delete the child links are the old tree without r, in the same order. The parent
    // links are right again exactly when r was a leaf.
    method Delete(r: Node, ghost i: nat)
      requires Valid() && i < |InOrder(tree)| && InOrder(tree)[i] == r
      modifies this, Nodes(tree)
      ensures Down(root, tree) && Disjoint(tree) && Ordered(InOrder(tree))
      ensures InOrder(tree) == old(InOrder(tree))[..i] + old(InOrder(tree))[i + 1..]
      ensures Up(null, tree) <==> old(r.left) == null && old(r.right) == null
    {
      ghost var c, s := Focus(Top, tree, i);
      PlugAll(root, c, s);
      PathAllocated(c);
      ghost var t := Remove(r, c, s);
      RemovedAll(root, c, s, t, i);
      tree := Plug(c, t);
    }

    // p is not r's child: it is cut out, and the rest of r's right subtree becomes p's.
    method PullUp(r: Node, p: Node, ghost d: Path, ghost pr: Tree)
      requires !d.Top? && PathDown(r.right, d, p) && PathDisjoint(d) && p !in Around(d) && p.parent == Holder(d)
      requires Down(p.right, pr) && Nodes(pr) !! Around(d) && p !in Nodes(pr) && r !in Around(d) && r != p
      modifies this`root, Holders(d)`left, Holders(d)`right, p`right, Around(d)`parent
      ensures root == old(root) && p.parent == old(p.parent) && Down(p.right, Plug(d, pr))
    {
      NodesAllocated(pr);
      PathAllocated(d);
      DownRoot(p.right, pr);
      PathTop(r.right, d, p);
      Transplant(p, p.right, r.right, d);
      p.right := r.right;
      PlugDown(p.right, d, pr);
      p.right.parent := p;
      PlugDown(p.right, d, pr);
    }
  }

  ghost function Values(s: seq<Node>): (vs: seq<int>)
    ensures |vs| == |s| && forall i :: 0 <= i < |s| ==> vs[i] == s[i].value
  {
    if s == [] then [] else [s[0].value] + Values(s[1..])
  }

  lemma {:induction false} ValuesInsert(s: seq<Node>, k: nat, n: Node)
    requires k <= |s|
    ensures multiset(Values(s[..k] + [n] + s[k..])) == multiset(Values(s)) + multiset{n.value}
  {
    var r := s[..k] + [n] + s[k..];
    var a, b := Values(s)[..k], Values(s)[k..];
    assert Values(s) == a + b;
    assert Values(r) == a + [n.value] + b;
  }

  lemma {:induction false} LeafNodes(n: Node)
    ensures Nodes(Fork(Empty, n, Empty)) == {n} && Disjoint(Fork(Empty, n, Empty))
  {
    assert Nodes(Empty) == {};
  }

  method AddValue(t: BinarySearchTree, v: int) returns (ghost n: Node)
    requires t.Valid()
    modifies t, Nodes(t.tree)
    ensures t.Valid() && fresh(n) && Nodes(t.tree) == old(Nodes(t.tree)) + {n}
    ensures multiset(Values(InOrder(t.tree))) == old(multiset(Values(InOrder(t.tree)))) + multiset{v}
  {
    ghost var s := InOrder(t.tree);
    ghost var k, m := t.Insert(v);
    ValuesInsert(s, k, m);
    n := m;
  }

  // Any sequence of Inserts builds a linked, ordered tree of exactly those values.
  method Build(vs: seq<int>) returns (t: BinarySearchTree)
    ensures fresh(t) && fresh(Nodes(t.tree)) && t.Valid()
    ensures multiset(Values(InOrder(t.tree))) == multiset(vs)
    decreases |vs|
  {
    if vs == [] {
      t := new BinarySearchTree();
    } else {
      t := Build(vs[..|vs| - 1]);
      ghost var n := AddValue(t, vs[|vs| - 1]);
      InitLast(vs);
    }
  }

  // A path with a node on it starts at one of its nodes.
  lemma {:induction false} PathTop(n: Node?, c: Path, h: Node?)
    requires PathDown(n, c, h) && !c.Top?
    ensures n != null && n in Around(c)
    decreases c
  {
    if !c.up.Top? { PathTop(n, c.up, c.x); }
  }

  // The first node of s, on its path of left turns.
  lemma {:induction false} SplitMin(s: Tree, p: Node) returns (d: Path, pr: Tree)
    requires Disjoint(s) && s.Fork? && InOrder(s) != [] && InOrder(s)[0] == p
    ensures s == Plug(d, Fork(Empty, p, pr)) && InOrder(s) == [p] + InOrder(Plug(d, pr))
    ensures PathDisjoint(d) && Disjoint(Plug(d, pr)) && p !in Around(d) && p !in Nodes(pr)
    ensures Nodes(pr) !! Around(d) && Around(d) <= Nodes(s) && p in Nodes(s)
    ensures Nodes(Plug(d, pr)) == Nodes(s) - {p}
  {
    d, pr := FocusFirst(Top, s);
    SplitMinOrder(d, p, pr);
    PlugNodes(d, Fork(Empty, p, pr));
    PlugNodes(d, pr);
    PlugDisjoint(d, Fork(Empty, p, pr));
    PlugDisjoint(d, pr);
  }

  lemma {:induction false} SplitMinOrder(d: Path, p: Node, pr: Tree)
    requires Before(d) == []
    ensures InOrder(Plug(d, Fork(Empty, p, pr))) == [p] + InOrder(Plug(d, pr))
  {
    PlugInOrder(d, Fork(Empty, p, pr));
    PlugInOrder(d, pr);
  }

  lemma {:induction false} MinLinks(n: Node?, r: Node, s: Tree, p: Node, d: Path, pr: Tree)
    requires s == Plug(d, Fork(Empty, p, pr)) && Down(n, s) && Up(r, s)
    ensures PathDown(n, d, p) && Down(p.right, pr)
    ensures p.parent == if d.Top? then r else Holder(d)
  {
    PlugDown(n, d, Fork(Empty, p, pr));
    PlugUp(r, d, Fork(Empty, p, pr));
  }

  lemma {:induction false} ForkOrder(l: Tree, p: Node, rest: Tree, r: Tree)
    requires InOrder(r) == [p] + InOrder(rest)
    ensures InOrder(Fork(l, p, rest)) == InOrder(l) + InOrder(r)
  {}

  lemma {:induction false} ForkNodes(s: Tree, p: Node, rest: Tree)
    requires s.Fork? && Disjoint(s) && Disjoint(rest) && p in Nodes(s.r) && Nodes(rest) == Nodes(s.r) - {p}
    ensures Disjoint(Fork(s.l, p, rest)) && Nodes(Fork(s.l, p, rest)) == Nodes(s) - {s.x}
  {}

  lemma {:induction false} RemovedFromOrder(c: Path, s: Tree, t: Tree, i: nat)
    requires s.Fork? && InOrder(t) == InOrder(s.l) + InOrder(s.r) && i == |Before(c)| + |InOrder(s.l)|
    requires Ordered(InOrder(Plug(c, s)))
    ensures i < |InOrder(Plug(c, s))|
    ensures InOrder(Plug(c, t)) == InOrder(Plug(c, s))[..i] + InOrder(Plug(c, s))[i + 1..]
    ensures Ordered(InOrder(Plug(c, t)))
  {
    PlugInOrder(c, s);
    PlugInOrder(c, t);
    CutOrdered(Before(c), InOrder(s.l), s.x, InOrder(s.r), After(c), InOrder(Plug(c, s)), i);
  }

  lemma {:induction false} RemovedAll(root: Node?, c: Path, s: Tree, t: Tree, i: nat)
    requires PathDown(root, c, Root(t)) && Down(Root(t), t) && PathUp(null, c)
    requires PathDisjoint(c) && Disjoint(t) && Nodes(t) !! Around(c)
    requires s.Fork? && InOrder(t) == InOrder(s.l) + InOrder(s.r) && i == |Before(c)| + |InOrder(s.l)|
    requires Ordered(InOrder(Plug(c, s)))
    ensures Down(root, Plug(c, t)) && Disjoint(Plug(c, t)) && Ordered(InOrder(Plug(c, t)))
    ensures Up(null, Plug(c, t)) <==> Up(Holder(c), t)
    ensures i < |InOrder(Plug(c, s))|
    ensures InOrder(Plug(c, t)) == InOrder(Plug(c, s))[..i] + InOrder(Plug(c, s))[i + 1..]
  {
    PlugDown(root, c, t);
    PlugDisjoint(c, t);
    PlugUp(null, c, t);
    RemovedFromOrder(c, s, t, i);
  }

  lemma {:induction false} CutOrdered(
    b: seq<Node>, l: seq<Node>, x: Node, r: seq<Node>, a: seq<Node>, s: seq<Node>, i: nat)
    requires s == b + (l + [x] + r) + a && i == |b| + |l| && Ordered(s)
    ensures i < |s| && b + (l + r) + a == s[..i] + s[i + 1..] && Ordered(b + (l + r) + a)
  {
    DropMiddle(b, l, x, r, a);
    RemoveOrdered(s, i);
  }

  lemma {:induction false} DropMiddle<T>(b: seq<T>, l: seq<T>, x: T, r: seq<T>, a: seq<T>)
    ensures var s, i := b + (l + [x] + r) + a, |b| + |l|; b + (l + r) + a == s[..i] + s[i + 1..]
  {}

  lemma {:induction false} RemoveOrdered(s: seq<Node>, k: nat)
    requires Ordered(s) && k < |s|
    ensures Ordered(s[..k] + s[k + 1..])
  {
    var r := s[..k] + s[k + 1..];
    forall i, j | 0 <= i < j < |r| ensures r[i].value <= r[j].value {
      assert r[i] == s[if i < k then i else i + 1] && r[j] == s[if j < k then j else j + 1];
    }
  }

  lemma {:induction false} InsertedInOrder(c: Path, n: Node)
    requires Ordered(InOrder(Plug(c, Empty)))
    requires forall x :: x in Before(c) ==> x.value <= n.value
    requires forall x :: x in After(c) ==> n.value < x.value
    ensures
      var s, k := InOrder(Plug(c, Empty)), |Before(c)|;
      && k <= |s| && s[..k] == Before(c) && s[k..] == After(c)
      && InOrder(Plug(c, Fork(Empty, n, Empty))) == s[..k] + [n] + s[k..]
      && Ordered(InOrder(Plug(c, Fork(Empty, n, Empty))))
  {
    PlugInOrder(c, Empty);
    PlugInOrder(c, Fork(Empty, n, Empty));
    assert Before(c) + [] + After(c) == Before(c) + After(c);
    InsertOrdered(Before(c), n, After(c));
  }

  lemma {:induction false} InsertOrdered(a: seq<Node>, n: Node, b: seq<Node>)
    requires Ordered(a + b)
    requires (forall x :: x in a ==> x.value <= n.value) && (forall x :: x in b ==> n.value < x.value)
    ensures Ordered(a + [n] + b)
  {
    var s, r := a + [n] + b, a + b;
    forall i, j | 0 <= i < j < |s| ensures s[i].value <= s[j].value {
      if i < |a| && j > |a| { assert r[i] == s[i] && r[j - 1] == s[j]; }
      else if i > |a| { assert r[i - 1] == s[i] && r[j - 1] == s[j]; }
      else if j < |a| { assert r[i] == s[i] && r[j] == s[j]; }
    }
  }

  lemma {:induction false} OrderedAround(a: seq<Node>, t: Tree, b: seq<Node>)
    requires Ordered(a + InOrder(t) + b) && t.Fork?
    ensures forall y :: y in InOrder(t.l) ==> y.value <= t.x.value
    ensures forall y :: y in InOrder(t.r) ==> t.x.value <= y.value
  {
    var m, s, k := InOrder(t), a + InOrder(t) + b, |InOrder(t.l)|;
    assert forall j :: 0 <= j < |m| ==> s[|a| + j] == m[j];
    assert m[k] == t.x;
    forall y | y in InOrder(t.l) ensures y.value <= t.x.value {
      var i :| 0 <= i < k && InOrder(t.l)[i] == y;
      assert m[i] == y;
    }
    forall y | y in InOrder(t.r) ensures t.x.value <= y.value {
      var i :| 0 <= i < |InOrder(t.r)| && InOrder(t.r)[i] == y;
      assert m[k + 1 + i] == y;
    }
  }

  // All the facts about a plugged tree at once.
  lemma {:induction false} PlugAll(root: Node?, c: Path, t: Tree)
    ensures Nodes(Plug(c, t)) == Around(c) + Nodes(t)
    ensures InOrder(Plug(c, t)) == Before(c) + InOrder(t) + After(c)
    ensures Linked(root, Plug(c, t)) <==>
      && PathDown(root, c, Root(t)) && Down(Root(t), t) && PathUp(null, c) && Up(Holder(c), t)
      && PathDisjoint(c) && Disjoint(t) && Nodes(t) !! Around(c)
  {
    PlugNodes(c, t);
    PlugInOrder(c, t);
    PlugDown(root, c, t);
    PlugUp(null, c, t);
    PlugDisjoint(c, t);
  }
}
