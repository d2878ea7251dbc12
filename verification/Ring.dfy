/** Intrusive circular lists: the ring macros on nodes linked in place.

    A ring is a head and its members. Each macro may write only the nodes its `modifies`
    names, all of them in the rings it is given, so every other ring stays as it is. */
module Ring {
  import opened Basics

  class Node {
    var next: Node?
    var prev: Node?
    constructor () { next, prev := null, null; }
  }

  function After(i: nat, n: nat): nat { if i + 1 < n then i + 1 else 0 }

  // Following next from c[0] visits c in order and comes back.
  ghost predicate Forward(c: seq<Node>)
    reads c
  {
    Distinct(c) && forall i :: 0 <= i < |c| ==> c[i].next == c[After(i, |c|)]
  }

  // prev undoes next on c.
  ghost predicate Backward(c: seq<Node>)
    reads c
  {
    forall i :: 0 <= i < |c| ==> c[After(i, |c|)].prev == c[i]
  }

  // The ring with head h and members xs.
  ghost predicate IsRing(h: Node, xs: seq<Node>)
    reads h, xs
  {
    Forward([h] + xs) && Backward([h] + xs)
  }

  ghost function Last(h: Node, xs: seq<Node>): Node { if xs == [] then h else xs[|xs| - 1] }

  // The links of a ring seen from its head.
  lemma {:induction false} RingLinks(h: Node, xs: seq<Node>)
    requires IsRing(h, xs)
    ensures Last(h, xs).next == h && h.prev == Last(h, xs)
    ensures h.next == if xs == [] then h else xs[0]
    ensures xs != [] ==> xs[0].prev == h
    ensures h !in xs && Distinct(xs)
    ensures forall i :: 0 <= i < |xs| - 1 ==> xs[i].next == xs[i + 1] && xs[i + 1].prev == xs[i]
  {
    var c := [h] + xs;
    assert c[0] == h && c[|c| - 1] == Last(h, xs);
    assert forall i :: 0 <= i < |xs| ==> xs[i] == c[i + 1];
    assert c[After(0, |c|)] == if xs == [] then h else xs[0];
    forall i | 0 <= i < |xs| - 1 ensures xs[i].next == xs[i + 1] && xs[i + 1].prev == xs[i] {
      assert c[After(i + 1, |c|)] == xs[i + 1];
    }
  }

  // And back.
  lemma {:induction false} LinksMakeForward(h: Node, xs: seq<Node>)
    requires h !in xs && Distinct(xs)
    requires Last(h, xs).next == h && h.next == if xs == [] then h else xs[0]
    requires forall i :: 0 <= i < |xs| - 1 ==> xs[i].next == xs[i + 1]
    ensures Forward([h] + xs)
  {
    var c := [h] + xs;
    forall i | 0 <= i < |c| ensures c[i].next == c[After(i, |c|)] {
      if 0 < i < |c| - 1 { assert c[i] == xs[i - 1]; }
    }
  }

  lemma {:induction false} LinksMakeBackward(h: Node, xs: seq<Node>)
    requires h.prev == Last(h, xs) && (xs != [] ==> xs[0].prev == h)
    requires forall i :: 0 <= i < |xs| - 1 ==> xs[i + 1].prev == xs[i]
    ensures Backward([h] + xs)
  {
    var c := [h] + xs;
    forall i | 0 <= i < |c| ensures c[After(i, |c|)].prev == c[i] {
      if 0 < i < |c| - 1 { assert c[i] == xs[i - 1] && c[i + 1] == xs[i]; }
    }
  }

  lemma {:induction false} DistinctConcat<T>(xs: seq<T>, ys: seq<T>)
    requires Distinct(xs) && Distinct(ys) && forall x :: x in xs ==> x !in ys
    ensures Distinct(xs + ys)
  {
    var zs := xs + ys;
    forall i, j | 0 <= i < j < |zs| ensures zs[i] != zs[j] {
      if i < |xs| <= j { assert zs[i] in xs && zs[j] in ys; }
    }
  }

  // The neighbours of the k-th member are in its ring.
  lemma {:induction false} Neighbours(h: Node, xs: seq<Node>, k: nat)
    requires IsRing(h, xs) && k < |xs|
    ensures xs[k].next == if k + 1 < |xs| then xs[k + 1] else h
    ensures xs[k].prev == if k > 0 then xs[k - 1] else h
    ensures forall x :: x in xs[..k] + xs[k + 1..] <==> x in xs && x != xs[k]
  {
    RingLinks(h, xs);
    forall x | x in xs && x != xs[k] ensures x in xs[..k] + xs[k + 1..] {
      var i :| 0 <= i < |xs| && xs[i] == x;
      assert i < k ==> x in xs[..k];
      assert i > k ==> xs[k + 1..][i - k - 1] == x;
    }
  }

  method Init(n: Node)
    modifies n
    ensures IsRing(n, [])
  {
    n.next := n;
    n.prev := n;
  }

  method Empty(h: Node, ghost xs: seq<Node>) returns (b: bool)
    requires IsRing(h, xs)
    ensures b <==> xs == []
  {
    RingLinks(h, xs);
    b := h == h.next;
  }

  // The loop of OAK_RING_FOREACH, collecting what it visits.
  method Foreach(h: Node, ghost xs: seq<Node>) returns (visited: seq<Node>)
    requires Forward([h] + xs)
    ensures visited == xs
  {
    ghost var c := [h] + xs;
    assert c[0] == h;
    var n := h.next;
    visited := [];
    while n != h
      invariant n == c[After(|visited|, |c|)] && |visited| <= |xs| && visited == xs[..|visited|]
      decreases |xs| - |visited|
    {
      assert |visited| < |xs| && n == xs[|visited|];
      visited := visited + [n];
      n := n.next;
    }
  }

  method InsertHead(h: Node, n: Node, ghost xs: seq<Node>)
    requires IsRing(h, xs) && n != h && n !in xs
    modifies n, h, h.next
    ensures IsRing(h, [n] + xs)
  {
    RingLinks(h, xs);
    n.next := h.next;
    n.prev := h;
    n.next.prev := n;
    h.next := n;
    LinksMakeForward(h, [n] + xs);
    LinksMakeBackward(h, [n] + xs);
  }

  method InsertTail(h: Node, n: Node, ghost xs: seq<Node>)
    requires IsRing(h, xs) && n != h && n !in xs
    modifies n, h, h.prev
    ensures IsRing(h, xs + [n])
  {
    RingLinks(h, xs);
    n.next := h;
    n.prev := h.prev;
    n.prev.next := n;
    h.prev := n;
    LinksMakeForward(h, xs + [n]);
    LinksMakeBackward(h, xs + [n]);
  }

  // Removing the k-th member; its own links stay.
  method Remove(n: Node, ghost h: Node, ghost xs: seq<Node>, ghost k: nat)
    requires IsRing(h, xs) && k < |xs| && xs[k] == n
    modifies n.next, n.prev
    ensures IsRing(h, xs[..k] + xs[k + 1..])
    ensures n.next == old(n.next) && n.prev == old(n.prev)
  {
    RingLinks(h, xs);
    Neighbours(h, xs, k);
    n.prev.next := n.next;
    n.next.prev := n.prev;
    LinksMakeForward(h, xs[..k] + xs[k + 1..]);
    LinksMakeBackward(h, xs[..k] + xs[k + 1..]);
  }

  // h keeps the members before the k-th; h2 becomes the head of the rest.
  method Split(h: Node, n: Node, h2: Node, ghost xs: seq<Node>, ghost k: nat)
    requires IsRing(h, xs) && k < |xs| && xs[k] == n && h2 != h && h2 !in xs
    modifies h, h.prev, n, n.prev, h2
    ensures IsRing(h, xs[..k]) && IsRing(h2, xs[k..])
  {
    RingLinks(h, xs);
    Neighbours(h, xs, k);
    h2.prev := h.prev;
    h2.prev.next := h2;
    h2.next := n;
    h.prev := n.prev;
    h.prev.next := h;
    n.prev := h2;
    LinksMakeForward(h, xs[..k]);
    LinksMakeBackward(h, xs[..k]);
    LinksMakeForward(h2, xs[k..]);
    LinksMakeBackward(h2, xs[k..]);
  }

  // All members move to h2.
  method Move(h: Node, h2: Node, ghost xs: seq<Node>)
    requires IsRing(h, xs) && h2 != h && h2 !in xs
    modifies h, h.prev, h.next, h2
    ensures IsRing(h, []) && IsRing(h2, xs)
  {
    RingLinks(h, xs);
    var empty := Empty(h, xs);
    if empty {
      Init(h2);
    } else {
      var n := h.next;
      Split(h, n, h2, xs, 0);
      assert xs[0..] == xs && xs[..0] == [];
    }
  }

  // Forward, the first ring's members are followed by the second's, or by the second head
  // itself when its ring is empty. The prev links are never right afterwards: the first
  // spliced node points back into the second ring.
  method Add(h: Node, h2: Node, ghost xs: seq<Node>, ghost ys: seq<Node>)
    requires IsRing(h, xs) && IsRing(h2, ys)
    requires h != h2 && h !in ys && h2 !in xs && forall x :: x in xs ==> x !in ys
    modifies h, h.prev, h2.next, h2.prev
    ensures Forward([h] + (xs + if ys == [] then [h2] else ys))
    ensures !Backward([h] + (xs + if ys == [] then [h2] else ys))
  {
    RingLinks(h, xs);
    RingLinks(h2, ys);
    h.prev.next := h2.next;
    h2.next.prev := h2.prev;
    h.prev := h2.prev;
    h.prev.next := h;
    ghost var zs := if ys == [] then [h2] else ys;
    DistinctConcat(xs, zs);
    LinksMakeForward(h, xs + zs);
    ghost var c, k := [h] + (xs + zs), |xs|;
    assert c[k] == Last(h, xs) && c[After(k, |c|)] == zs[0] && zs[0].prev == Last(h2, ys);
  }

  // SPLIT followed by ADD restores the forward order.
  method SplitAdd(h: Node, n: Node, h2: Node, ghost xs: seq<Node>, ghost k: nat)
    requires IsRing(h, xs) && k < |xs| && xs[k] == n && h2 != h && h2 !in xs
    modifies h, xs, h2
    ensures Forward([h] + xs)
  {
    RingLinks(h, xs);
    Neighbours(h, xs, k);
    Split(h, n, h2, xs, k);
    RingLinks(h, xs[..k]);
    RingLinks(h2, xs[k..]);
    Add(h, h2, xs[..k], xs[k..]);
    TakeDrop(xs, k);
  }

  // Taking a member out of one ring and putting it at the tail of another.
  method Transfer(n: Node, ghost h: Node, ghost xs: seq<Node>, ghost k: nat, g: Node, ghost ys: seq<Node>)
    requires IsRing(h, xs) && k < |xs| && xs[k] == n && IsRing(g, ys)
    requires g != h && g !in xs && h !in ys && forall x :: x in xs ==> x !in ys
    modifies n, n.next, n.prev, g, g.next, g.prev
    ensures IsRing(h, xs[..k] + xs[k + 1..]) && IsRing(g, ys + [n])
  {
    Neighbours(h, xs, k);
    RingLinks(g, ys);
    RingLinks(h, xs);
    assert n.next == h || n.next in xs;
    assert n.prev == h || n.prev in xs;
    assert g.prev == g || g.prev in ys;
    Remove(n, h, xs, k);
    assert IsRing(g, ys);
    InsertBeside(g, n, ys, false, h, xs[..k] + xs[k + 1..]);
  }

  // Either insertion beside a ring that it does not touch.
  method InsertBeside(g: Node, n: Node, ghost ys: seq<Node>, atHead: bool, ghost h: Node, ghost xs: seq<Node>)
    requires IsRing(g, ys) && n != g && n !in ys && IsRing(h, xs)
    requires forall x :: x in [h] + xs ==> x != n && x != g && x !in ys
    modifies n, g, g.next, g.prev
    ensures IsRing(g, if atHead then [n] + ys else ys + [n]) && IsRing(h, xs)
  {
    RingLinks(g, ys);
    assert g.next == g || g.next in ys;
    assert g.prev == g || g.prev in ys;
    if atHead { InsertHead(g, n, ys); } else { InsertTail(g, n, ys); }
  }

  // REMOVE, with the members xs that are left.
  method RemoveLeaving(n: Node, ghost h: Node, ghost ys: seq<Node>, ghost k: nat, ghost xs: seq<Node>)
    requires IsRing(h, ys) && k < |ys| && ys[k] == n && xs == ys[..k] + ys[k + 1..]
    modifies n.next, n.prev
    ensures IsRing(h, xs)
  {
    Remove(n, h, ys, k);
  }

  lemma {:induction false} WithoutFirst<T>(n: T, xs: seq<T>)
    ensures ([n] + xs)[..0] + ([n] + xs)[1..] == xs
  {}

  lemma {:induction false} WithoutLast<T>(xs: seq<T>, n: T)
    ensures (xs + [n])[..|xs|] + (xs + [n])[|xs| + 1..] == xs
  {}

  method InsertHeadRemove(h: Node, n: Node, ghost xs: seq<Node>)
    requires IsRing(h, xs) && n != h && n !in xs
    modifies n, h, h.next, h.prev
    ensures IsRing(h, xs)
  {
    RingLinks(h, xs);
    InsertHead(h, n, xs);
    WithoutFirst(n, xs);
    Neighbours(h, [n] + xs, 0);
    RemoveLeaving(n, h, [n] + xs, 0, xs);
  }

  method InsertTailRemove(h: Node, n: Node, ghost xs: seq<Node>)
    requires IsRing(h, xs) && n != h && n !in xs
    modifies n, h, h.next, h.prev
    ensures IsRing(h, xs)
  {
    RingLinks(h, xs);
    InsertTail(h, n, xs);
    WithoutLast(xs, n);
    Neighbours(h, xs + [n], |xs|);
    RemoveLeaving(n, h, xs + [n], |xs|, xs);
  }

  // REMOVE undoes either insertion.
  method InsertRemove(h: Node, n: Node, ghost xs: seq<Node>, atHead: bool)
    requires IsRing(h, xs) && n != h && n !in xs
    modifies n, h, h.next, h.prev
    ensures IsRing(h, xs)
  {
    if atHead { InsertHeadRemove(h, n, xs); } else { InsertTailRemove(h, n, xs); }
  }
}
