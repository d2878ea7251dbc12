/** Merge sort and insertion sort, in place, and why they agree. */
module Sorting {
  import opened Basics

  // ---- what the two algorithms compute, for any comparison ----

  function MergeOf<T>(x: seq<T>, y: seq<T>, compare: (T, T) -> bool): (r: seq<T>)
    ensures |r| == |x| + |y|
    decreases |x| + |y|
  {
    if x == [] then y else if y == [] then x
    else if compare(x[0], y[0]) then [x[0]] + MergeOf(x[1..], y, compare)
    else [y[0]] + MergeOf(x, y[1..], compare)
  }

  function MergeSorted<T>(s: seq<T>, compare: (T, T) -> bool): (r: seq<T>)
    ensures |r| == |s|
    decreases |s|
  {
    if |s| < 2 then s
    else MergeOf(MergeSorted(s[..|s| / 2], compare), MergeSorted(s[|s| / 2..], compare), compare)
  }

  // x moves left past the elements it compares before.
  function InsertOf<T>(s: seq<T>, x: T, compare: (T, T) -> bool): (r: seq<T>)
    ensures |r| == |s| + 1
    decreases |s|
  {
    if s == [] || !compare(x, s[|s| - 1]) then s + [x]
    else InsertOf(s[..|s| - 1], x, compare) + [s[|s| - 1]]
  }

  function InsertSorted<T>(s: seq<T>, compare: (T, T) -> bool): (r: seq<T>)
    ensures |r| == |s|
    decreases |s|
  {
    if s == [] then [] else InsertOf(InsertSorted(s[..|s| - 1], compare), s[|s| - 1], compare)
  }

  // ---- the algorithms ----

  // The body of Merge's first loop: the head that compares first goes to tmp.
  method PickHead<T>(
    arr: array<T>, left: nat, mid: nat, compare: (T, T) -> bool, tmp: array<T>, p: nat, ghost s: seq<T>)
    returns (left': nat, mid': nat)
    requires left < arr.Length && mid < arr.Length && p < tmp.Length && tmp != arr && s == arr[..]
    modifies tmp
    ensures s == arr[..]
    ensures if compare(s[left], s[mid]) then left' == left + 1 && mid' == mid else left' == left && mid' == mid + 1
    ensures tmp[..p + 1] == old(tmp[..p]) + [if compare(s[left], s[mid]) then s[left] else s[mid]]
  {
    left', mid' := left, mid;
    if compare(arr[left], arr[mid]) {
      tmp[p] := arr[left];
      left' := left + 1;
    } else {
      tmp[p] := arr[mid];
      mid' := mid + 1;
    }
  }

  // Seen from the merged run.
  method MergeOne<T>(
    arr: array<T>, left: nat, m: nat, mid: nat, e: nat, compare: (T, T) -> bool, tmp: array<T>, p: nat, ghost s: seq<T>)
    returns (left': nat, mid': nat)
    requires left < m <= mid < e <= arr.Length && p < tmp.Length && tmp != arr && s == arr[..]
    modifies tmp
    ensures (left' == left + 1 && mid' == mid) || (left' == left && mid' == mid + 1)
    ensures s == arr[..]
    ensures tmp[..p + 1] + MergeOf(s[left'..m], s[mid'..e], compare) ==
      old(tmp[..p]) + MergeOf(s[left..m], s[mid..e], compare)
  {
    ghost var done := tmp[..p];
    left', mid' := PickHead(arr, left, mid, compare, tmp, p, s);
    if compare(s[left], s[mid]) {
      MergeLeft(done, s, left, m, mid, e, compare);
    } else {
      MergeRight(done, s, left, m, mid, e, compare);
    }
  }

  // The first loop of Merge: until one run is used up.
  method MergeHeads<T>(arr: array<T>, b: nat, m: nat, e: nat, compare: (T, T) -> bool, tmp: array<T>)
    returns (p: nat, left: nat, mid: nat)
    requires b <= m <= e <= arr.Length && tmp.Length == e - b && tmp != arr
    modifies tmp
    ensures b <= left <= m <= mid <= e && (left == m || mid == e) && p == left - b + (mid - m)
    ensures var s := arr[..]; tmp[..p] + (s[left..m] + s[mid..e]) == MergeOf(s[b..m], s[m..e], compare)
  {
    p, left, mid := 0, b, m;
    ghost var s := arr[..];
    while left < m && mid < e
      invariant b <= left <= m <= mid <= e && p == left - b + (mid - m) && s == arr[..]
      invariant tmp[..p] + MergeOf(s[left..m], s[mid..e], compare) == MergeOf(s[b..m], s[m..e], compare)
    {
      left, mid := MergeOne(arr, left, m, mid, e, compare, tmp, p, s);
      p := p + 1;
    }
    MergeRest(s[left..m], s[mid..e], compare);
  }

  lemma {:induction false} MergeRest<T>(x: seq<T>, y: seq<T>, compare: (T, T) -> bool)
    requires x == [] || y == []
    ensures MergeOf(x, y, compare) == x + y
  {}

  lemma {:induction false} SliceTail<T>(s: seq<T>, i: nat, j: nat)
    requires i < j <= |s|
    ensures s[i..j][1..] == s[i + 1..j]
  {}

  // The merged run in a temporary array.
  method MergeRuns<T(0)>(arr: array<T>, b: nat, m: nat, e: nat, compare: (T, T) -> bool) returns (tmp: array<T>)
    requires b <= m <= e <= arr.Length
    ensures fresh(tmp) && tmp[..] == MergeOf(arr[..][b..m], arr[..][m..e], compare)
  {
    tmp := new T[e - b];
    var p, left, mid := MergeHeads(arr, b, m, e, compare, tmp);
    ghost var s, t0, p0 := arr[..], tmp[..], p;
    p := CopyRun(arr, left, m, tmp, p, s[left..m]);
    ghost var t1 := tmp[..];
    p := CopyRun(arr, mid, e, tmp, p, s[mid..e]);
    FilledUp(t0, t1, tmp[..], p0, s[left..m], s[mid..e]);
  }

  // Two runs that are copied one after the other fill the array up.
  lemma {:induction false} FilledUp<T>(t0: seq<T>, t1: seq<T>, t2: seq<T>, p: nat, x: seq<T>, y: seq<T>)
    requires Replaced(t0, t1, p, x) && Replaced(t1, t2, p + |x|, y) && p + |x| + |y| == |t0|
    ensures t2 == t0[..p] + (x + y)
  {}

  lemma {:induction false} MergeLeft<T>(
    done: seq<T>, s: seq<T>, left: nat, m: nat, mid: nat, e: nat, compare: (T, T) -> bool)
    requires left < m <= mid < e <= |s| && compare(s[left], s[mid])
    ensures (done + [s[left]]) + MergeOf(s[left + 1..m], s[mid..e], compare) ==
      done + MergeOf(s[left..m], s[mid..e], compare)
  {
    SliceTail(s, left, m);
  }

  lemma {:induction false} MergeRight<T>(
    done: seq<T>, s: seq<T>, left: nat, m: nat, mid: nat, e: nat, compare: (T, T) -> bool)
    requires left < m <= mid < e <= |s| && !compare(s[left], s[mid])
    ensures (done + [s[mid]]) + MergeOf(s[left..m], s[mid + 1..e], compare) ==
      done + MergeOf(s[left..m], s[mid..e], compare)
  {
    SliceTail(s, mid, e);
  }

  // r is s with w in place of the |w| elements from a on.
  ghost predicate Replaced<T>(s: seq<T>, r: seq<T>, a: nat, w: seq<T>) {
    && |r| == |s| && a + |w| <= |s|
    && forall i :: 0 <= i < |s| ==> r[i] == if a <= i < a + |w| then w[i - a] else s[i]
  }

  // Copying a run into another array, as the loops of Merge do.
  method CopyRun<T>(src: array<T>, from: nat, to: nat, dst: array<T>, start: nat, ghost w: seq<T>) returns (p: nat)
    requires from <= to <= src.Length && start + (to - from) <= dst.Length && src != dst
    requires w == src[..][from..to]
    modifies dst
    ensures p == start + (to - from)
    ensures Replaced(old(dst[..]), dst[..], start, w)
  {
    p := start;
    var i := from;
    while i < to
      invariant from <= i <= to && p == start + (i - from)
      invariant Replaced(old(dst[..]), dst[..], start, w[..i - from])
    {
      dst[p] := src[i];
      p, i := p + 1, i + 1;
    }
    assert w[..to - from] == w;
  }

  // `a` is the pointer into the array, the other arguments are relative to it. The merged run
  // is written back from the pointer on, wherever its two halves began.
  method Merge<T(0)>(arr: array<T>, a: nat, b: nat, m: nat, e: nat, compare: (T, T) -> bool)
    requires b <= m <= e && a + e <= arr.Length
    modifies arr
    ensures Replaced(old(arr[..]), arr[..], a,
                     MergeOf(old(arr[..])[a + b..a + m], old(arr[..])[a + m..a + e], compare))
  {
    ghost var s := arr[..];
    var tmp := MergeRuns(arr, a + b, a + m, a + e, compare);
    ghost var w := tmp[..];
    assert w[0..e - b] == w;
    var p := CopyRun(tmp, 0, e - b, arr, a, w);
  }

  method MergeSort<T(0)>(arr: array<T>, a: nat, n: nat, compare: (T, T) -> bool)
    requires a + n <= arr.Length
    modifies arr
    ensures Replaced(old(arr[..]), arr[..], a, MergeSorted(old(arr[..])[a..a + n], compare))
    decreases n, 1
  {
    if n < 2 { return; }
    var mid := n / 2;
    ghost var s := arr[..];
    SortHalves(arr, a, mid, n, compare);
    ghost var s2 := arr[..];
    Merge(arr, a, 0, mid, n, compare);
    MergedHalves(s, s2, arr[..], a, mid, n, compare);
  }

  lemma {:induction false} MergedHalves<T>(
    s: seq<T>, s2: seq<T>, s3: seq<T>, a: nat, mid: nat, n: nat, compare: (T, T) -> bool)
    requires mid == n / 2 && n >= 2 && a + n <= |s| == |s2|
    requires Replaced(s, s2, a, MergeSorted(s[a..a + mid], compare) + MergeSorted(s[a + mid..a + n], compare))
    requires Replaced(s2, s3, a, MergeOf(s2[a + 0..a + mid], s2[a + mid..a + n], compare))
    ensures Replaced(s, s3, a, MergeSorted(s[a..a + n], compare))
  {
    var x, y := MergeSorted(s[a..a + mid], compare), MergeSorted(s[a + mid..a + n], compare);
    ReplacedParts(s, s2, a, x, y, mid, n);
    SliceSlice(s, a, mid, n);
    ReplacedAgain(s, s2, s3, a, x + y, MergeOf(x, y, compare));
  }

  lemma {:induction false} ReplacedParts<T>(s: seq<T>, r: seq<T>, a: nat, w: seq<T>, v: seq<T>, mid: nat, n: nat)
    requires Replaced(s, r, a, w + v) && mid == |w| && n == |w| + |v|
    ensures r[a + 0..a + mid] == w && r[a + mid..a + n] == v
  {}

  // The two recursive calls of MergeSort.
  method SortHalves<T(0)>(arr: array<T>, a: nat, mid: nat, n: nat, compare: (T, T) -> bool)
    requires 0 < mid < n && a + n <= arr.Length
    modifies arr
    ensures
      var x, y := MergeSorted(old(arr[..])[a..a + mid], compare), MergeSorted(old(arr[..])[a + mid..a + n], compare);
      && Replaced(old(arr[..]), arr[..], a, x + y)
    decreases n, 0
  {
    ghost var s := arr[..];
    ghost var x := MergeSorted(s[a..a + mid], compare);
    MergeSort(arr, a, mid, compare);
    ghost var s1 := arr[..];
    ghost var y := MergeSorted(s1[a + mid..a + mid + (n - mid)], compare);
    MergeSort(arr, a + mid, n - mid, compare);
    SecondHalf(s, s1, arr[..], a, mid, n, x, y, compare);
  }

  // Sorting the first half leaves the second one to be sorted as it was.
  lemma {:induction false} SecondHalf<T>(
    s: seq<T>, s1: seq<T>, s2: seq<T>, a: nat, mid: nat, n: nat, x: seq<T>, y: seq<T>, compare: (T, T) -> bool)
    requires |x| == mid <= n && a + n <= |s| && Replaced(s, s1, a, x) && Replaced(s1, s2, a + mid, y)
    requires y == MergeSorted(s1[a + mid..a + mid + (n - mid)], compare)
    ensures Replaced(s, s2, a, x + MergeSorted(s[a + mid..a + n], compare))
  {
    Untouched(s, s1, a, x, a + mid, a + n);
    assert s1[a + mid..a + mid + (n - mid)] == s1[a + mid..a + n];
    ReplacedTwice(s, s1, s2, a, x, MergeSorted(s[a + mid..a + n], compare));
  }

  lemma {:induction false} SliceSlice<T>(s: seq<T>, a: nat, mid: nat, n: nat)
    requires mid <= n && a + n <= |s|
    ensures s[a..a + n][..mid] == s[a..a + mid] && s[a..a + n][mid..] == s[a + mid..a + n]
  {}

  lemma {:induction false} Untouched<T>(s: seq<T>, r: seq<T>, a: nat, w: seq<T>, i: nat, j: nat)
    requires Replaced(s, r, a, w) && a + |w| <= i <= j <= |s|
    ensures r[i..j] == s[i..j]
  {}

  lemma {:induction false} ReplacedTwice<T>(s: seq<T>, s1: seq<T>, s2: seq<T>, a: nat, w: seq<T>, v: seq<T>)
    requires Replaced(s, s1, a, w) && Replaced(s1, s2, a + |w|, v)
    ensures Replaced(s, s2, a, w + v)
  {}

  lemma {:induction false} ReplacedAgain<T>(s: seq<T>, s1: seq<T>, s2: seq<T>, a: nat, w: seq<T>, v: seq<T>)
    requires Replaced(s, s1, a, w) && Replaced(s1, s2, a, v) && |v| == |w|
    ensures Replaced(s, s2, a, v)
  {}

  // Where an inserted element stops.
  lemma {:induction false} InsertStops<T>(p: seq<T>, x: T, j: nat, compare: (T, T) -> bool)
    requires j <= |p| && (forall k :: j <= k < |p| ==> compare(x, p[k]))
    requires j > 0 ==> !compare(x, p[j - 1])
    ensures InsertOf(p, x, compare) == p[..j] + [x] + p[j..]
    decreases |p|
  {
    if j < |p| {
      InsertStops(p[..|p| - 1], x, j, compare);
    }
  }

  // The inner loop: a[i] sinks into the sorted part before it.
  method Sink<T>(a: array<T>, i: nat, compare: (T, T) -> bool)
    requires i < a.Length
    modifies a
    ensures var s := old(a[..]); a[..] == InsertOf(s[..i], s[i], compare) + s[i + 1..]
  {
    ghost var s, p, x := a[..], a[..][..i], a[i];
    var j := i;
    while j > 0 && compare(a[j], a[j - 1])
      invariant 0 <= j <= i && a[j] == x
      invariant forall k :: 0 <= k < j ==> a[k] == p[k]
      invariant forall k :: j < k <= i ==> a[k] == p[k - 1]
      invariant forall k :: i < k < a.Length ==> a[k] == s[k]
      invariant forall k :: j <= k < i ==> compare(x, p[k])
    {
      var val := a[j];
      a[j] := a[j - 1];
      a[j - 1] := val;
      j := j - 1;
    }
    InsertStops(p, x, j, compare);
    Sunk(s, p, x, a[..], i, j);
  }

  // What the loop leaves: x at j, and what was before it moved up by one from there on.
  lemma {:induction false} Sunk<T>(s: seq<T>, p: seq<T>, x: T, r: seq<T>, i: nat, j: nat)
    requires j <= i < |s| == |r| && |p| == i && r[j] == x
    requires forall k :: 0 <= k < j ==> r[k] == p[k]
    requires forall k :: j < k <= i ==> r[k] == p[k - 1]
    requires forall k :: i < k < |s| ==> r[k] == s[k]
    ensures r == p[..j] + [x] + p[j..] + s[i + 1..]
  {
    var q := p[..j] + [x] + p[j..] + s[i + 1..];
    forall k | 0 <= k < |r| ensures r[k] == q[k] {}
  }

  lemma {:induction false} NextElement<T>(s: seq<T>, done: seq<T>, i: nat)
    requires i == |done| < |s|
    ensures s[..i + 1][..i] == s[..i] && (done + s[i..])[..i] == done
    ensures (done + s[i..])[i] == s[i] && (done + s[i..])[i + 1..] == s[i + 1..]
  {}

  method InsertSort<T>(a: array<T>, compare: (T, T) -> bool)
    modifies a
    ensures a[..] == InsertSorted(old(a[..]), compare)
  {
    ghost var s := a[..];
    if a.Length == 0 { return; }
    assert s[..1][..0] == [] && s[..1] + s[1..] == s;
    for i := 1 to a.Length
      invariant a[..] == InsertSorted(s[..i], compare) + s[i..]
    {
      NextElement(s, InsertSorted(s[..i], compare), i);
      Sink(a, i, compare);
    }
    assert s[..a.Length] == s;
  }

  // ---- total preorders ----

  predicate Comparable<T>(le: (T, T) -> bool, x: T, y: T) { le(x, y) || le(y, x) }

  predicate Chained<T>(le: (T, T) -> bool, x: T, y: T, z: T) { le(x, y) && le(y, z) ==> le(x, z) }

  ghost predicate TotalPreorder<T(!new)>(le: (T, T) -> bool) {
    (forall x, y :: Comparable(le, x, y)) && (forall x, y, z :: Chained(le, x, y, z))
  }

  function Strict<T>(le: (T, T) -> bool): (T, T) -> bool { (x, y) => le(x, y) && !le(y, x) }

  ghost predicate Sorted<T>(s: seq<T>, le: (T, T) -> bool) {
    forall i, j :: 0 <= i < j < |s| ==> le(s[i], s[j])
  }

  // The elements of s equivalent to x, in the order they have in s.
  function Ties<T>(s: seq<T>, x: T, le: (T, T) -> bool): seq<T> {
    if s == [] then []
    else (if le(x, s[0]) && le(s[0], x) then [s[0]] else []) + Ties(s[1..], x, le)
  }

  // Equivalent elements keep their order.
  ghost predicate Stable<T(!new)>(s: seq<T>, r: seq<T>, le: (T, T) -> bool) {
    forall x :: Ties(r, x, le) == Ties(s, x, le)
  }

  lemma {:induction false} TiesConcat<T>(s: seq<T>, r: seq<T>, x: T, le: (T, T) -> bool)
    ensures Ties(s + r, x, le) == Ties(s, x, le) + Ties(r, x, le)
  {
    if s == [] {
      assert s + r == r;
    } else {
      assert (s + r)[1..] == s[1..] + r;
      TiesConcat(s[1..], r, x, le);
    }
  }

  lemma {:induction false} NoTies<T>(s: seq<T>, x: T, le: (T, T) -> bool)
    requires forall y :: y in s ==> !(le(x, y) && le(y, x))
    ensures Ties(s, x, le) == []
  {
    if s != [] { NoTies(s[1..], x, le); }
  }

  lemma {:induction false} TiesMember<T>(s: seq<T>, x: T, le: (T, T) -> bool)
    requires Ties(s, x, le) != []
    ensures exists i :: 0 <= i < |s| && le(x, s[i]) && le(s[i], x)
  {
    if !(le(x, s[0]) && le(s[0], x)) {
      TiesMember(s[1..], x, le);
      var i :| 0 <= i < |s| - 1 && le(x, s[1..][i]) && le(s[1..][i], x);
      assert s[i + 1] == s[1..][i];
    }
  }

  lemma {:induction false} TiesHead<T(!new)>(s: seq<T>, le: (T, T) -> bool)
    requires TotalPreorder(le)
    ensures s != [] ==> Ties(s, s[0], le) != [] && Ties(s, s[0], le)[0] == s[0]
  {
    if s != [] { assert Comparable(le, s[0], s[0]); }
  }

  // A stable rearrangement is a permutation.
  lemma {:induction false} TiesCount<T>(s: seq<T>, x: T, le: (T, T) -> bool)
    requires le(x, x)
    ensures multiset(Ties(s, x, le))[x] == multiset(s)[x]
  {
    if s != [] {
      TiesCount(s[1..], x, le);
      assert s == [s[0]] + s[1..];
      var d := if le(x, s[0]) && le(s[0], x) then [s[0]] else [];
      assert multiset(d + Ties(s[1..], x, le)) == multiset(d) + multiset(Ties(s[1..], x, le));
    }
  }

  lemma {:induction false} StableIsPermutation<T(!new)>(s: seq<T>, r: seq<T>, le: (T, T) -> bool)
    requires TotalPreorder(le) && Stable(s, r, le)
    ensures multiset(r) == multiset(s)
  {
    forall x ensures multiset(r)[x] == multiset(s)[x] {
      assert Comparable(le, x, x);
      TiesCount(s, x, le);
      TiesCount(r, x, le);
    }
  }

  // The head of a sorted sequence is below every element.
  lemma {:induction false} HeadIsLeast<T(!new)>(s: seq<T>, w: T, le: (T, T) -> bool)
    requires TotalPreorder(le) && Sorted(s, le) && w in s
    ensures le(s[0], w)
  {
    assert Comparable(le, w, w);
  }

  // Two sorted sequences with the same ties begin with the same element.
  lemma {:induction false} SameHead<T(!new)>(r: seq<T>, q: seq<T>, le: (T, T) -> bool)
    requires TotalPreorder(le) && Sorted(r, le) && Sorted(q, le) && Stable(r, q, le) && r != []
    ensures q != [] && q[0] == r[0]
  {
    TiesHead(r, le);
    assert Ties(q, r[0], le) == Ties(r, r[0], le);
    TiesMember(q, r[0], le);
    var i :| 0 <= i < |q| && le(r[0], q[i]) && le(q[i], r[0]);
    HeadIsLeast(q, q[i], le);
    assert Chained(le, q[0], q[i], r[0]);
    TiesHead(q, le);
    assert Ties(r, q[0], le) == Ties(q, q[0], le);
    TiesMember(r, q[0], le);
    var j :| 0 <= j < |r| && le(q[0], r[j]) && le(r[j], q[0]);
    HeadIsLeast(r, r[j], le);
    assert Chained(le, r[0], r[j], q[0]);
  }

  lemma {:induction false} SameTail<T(!new)>(r: seq<T>, q: seq<T>, x: T, le: (T, T) -> bool)
    requires r != [] && q != [] && q[0] == r[0] && Ties(r, x, le) == Ties(q, x, le)
    ensures Ties(r[1..], x, le) == Ties(q[1..], x, le)
  {
    var d := if le(x, r[0]) && le(r[0], x) then [r[0]] else [];
    assert Ties(r[1..], x, le) == Ties(r, x, le)[|d|..];
    assert Ties(q[1..], x, le) == Ties(q, x, le)[|d|..];
  }

  // A sorted sequence is determined by its ties.
  lemma {:induction false} SortedIsUnique<T(!new)>(r: seq<T>, q: seq<T>, le: (T, T) -> bool)
    requires TotalPreorder(le) && Sorted(r, le) && Sorted(q, le) && Stable(r, q, le)
    ensures r == q
    decreases |r|
  {
    if r == [] {
      TiesHead(q, le);
    } else {
      SameHead(r, q, le);
      forall x ensures Ties(r[1..], x, le) == Ties(q[1..], x, le) { SameTail(r, q, x, le); }
      SortedIsUnique(r[1..], q[1..], le);
    }
  }

  // ---- merging ----

  // A comparison that agrees with le on distinct classes; on ties it answers either way.
  predicate Agrees<T>(compare: (T, T) -> bool, le: (T, T) -> bool, x: T, y: T) {
    if compare(x, y) then le(x, y) else le(y, x)
  }

  ghost predicate Compares<T(!new)>(compare: (T, T) -> bool, le: (T, T) -> bool) {
    forall x, y :: Agrees(compare, le, x, y)
  }

  lemma {:induction false} BothFormsCompare<T(!new)>(le: (T, T) -> bool)
    requires TotalPreorder(le)
    ensures Compares(le, le) && Compares(Strict(le), le)
  {
    forall x, y ensures Agrees(le, le, x, y) && Agrees(Strict(le), le, x, y) {
      assert Comparable(le, x, y);
    }
  }

  lemma {:induction false} MergeMembers<T>(x: seq<T>, y: seq<T>, compare: (T, T) -> bool, z: T)
    ensures z in MergeOf(x, y, compare) <==> z in x || z in y
    decreases |x| + |y|
  {
    if x != [] && y != [] {
      if compare(x[0], y[0]) { MergeMembers(x[1..], y, compare, z); }
      else { MergeMembers(x, y[1..], compare, z); }
    }
  }

  lemma {:induction false} ConsSorted<T>(z: T, s: seq<T>, le: (T, T) -> bool)
    requires Sorted(s, le) && forall y :: y in s ==> le(z, y)
    ensures Sorted([z] + s, le)
  {}

  // The smaller head is below everything in both runs.
  lemma {:induction false} SmallerHead<T(!new)>(x: seq<T>, y: seq<T>, z: T, w: T, le: (T, T) -> bool)
    requires TotalPreorder(le) && Sorted(x, le) && Sorted(y, le) && x != [] && y != []
    requires le(z, x[0]) && le(z, y[0]) && (w in x || w in y)
    ensures le(z, w)
  {
    if w in x {
      HeadIsLeast(x, w, le);
      assert Chained(le, z, x[0], w);
    } else {
      HeadIsLeast(y, w, le);
      assert Chained(le, z, y[0], w);
    }
  }

  lemma {:induction false} MergeSortsRuns<T(!new)>(x: seq<T>, y: seq<T>, compare: (T, T) -> bool, le: (T, T) -> bool)
    requires TotalPreorder(le) && Compares(compare, le) && Sorted(x, le) && Sorted(y, le)
    ensures Sorted(MergeOf(x, y, compare), le)
    decreases |x| + |y|
  {
    if x != [] && y != [] {
      var left := compare(x[0], y[0]);
      var x', y' := if left then x[1..] else x, if left then y else y[1..];
      var z := if left then x[0] else y[0];
      assert Agrees(compare, le, x[0], y[0]) && Comparable(le, z, z);
      MergeSortsRuns(x', y', compare, le);
      forall w | w in MergeOf(x', y', compare) ensures le(z, w) {
        MergeMembers(x', y', compare, w);
        SmallerHead(x, y, z, w, le);
      }
      ConsSorted(z, MergeOf(x', y', compare), le);
    }
  }

  lemma {:induction false} Associate<T>(u: seq<T>, v: seq<T>, w: seq<T>)
    ensures u + (v + w) == (u + v) + w
  {}

  lemma {:induction false} TiesCons<T>(z: T, s: seq<T>, c: T, le: (T, T) -> bool)
    ensures Ties([z] + s, c, le) == (if le(c, z) && le(z, c) then [z] else []) + Ties(s, c, le)
  {
    assert ([z] + s)[1..] == s;
  }

  // Nothing in a sorted run whose head is strictly above z ties with z's class.
  lemma {:induction false} NoTiesAbove<T(!new)>(s: seq<T>, z: T, c: T, le: (T, T) -> bool)
    requires TotalPreorder(le) && Sorted(s, le) && s != [] && !le(s[0], z) && le(c, z) && le(z, c)
    ensures Ties(s, c, le) == []
  {
    forall w | w in s ensures !(le(c, w) && le(w, c)) {
      HeadIsLeast(s, w, le);
      assert Chained(le, s[0], w, c) && Chained(le, s[0], c, z);
    }
    NoTies(s, c, le);
  }

  // With the non-strict comparison, ties of the left run come first.
  lemma {:induction false} MergeKeepsTies<T(!new)>(x: seq<T>, y: seq<T>, le: (T, T) -> bool, c: T)
    requires TotalPreorder(le) && Sorted(x, le) && Sorted(y, le)
    ensures Ties(MergeOf(x, y, le), c, le) == Ties(x, c, le) + Ties(y, c, le)
    decreases |x| + |y|
  {
    if x != [] && y != [] {
      if le(x[0], y[0]) {
        MergeKeepsTies(x[1..], y, le, c);
        TiesOfLeft(x, y, MergeOf(x[1..], y, le), le, c);
      } else {
        MergeKeepsTies(x, y[1..], le, c);
        TiesOfRight(x, y, MergeOf(x, y[1..], le), le, c);
      }
    }
  }

  lemma {:induction false} TiesOfLeft<T>(x: seq<T>, y: seq<T>, m: seq<T>, le: (T, T) -> bool, c: T)
    requires x != [] && Ties(m, c, le) == Ties(x[1..], c, le) + Ties(y, c, le)
    ensures Ties([x[0]] + m, c, le) == Ties(x, c, le) + Ties(y, c, le)
  {
    TiesCons(x[0], m, c, le);
    Associate(if le(c, x[0]) && le(x[0], c) then [x[0]] else [], Ties(x[1..], c, le), Ties(y, c, le));
  }

  lemma {:induction false} TiesOfRight<T(!new)>(x: seq<T>, y: seq<T>, m: seq<T>, le: (T, T) -> bool, c: T)
    requires TotalPreorder(le) && Sorted(x, le) && x != [] && y != [] && !le(x[0], y[0])
    requires Ties(m, c, le) == Ties(x, c, le) + Ties(y[1..], c, le)
    ensures Ties([y[0]] + m, c, le) == Ties(x, c, le) + Ties(y, c, le)
  {
    TiesCons(y[0], m, c, le);
    if le(c, y[0]) && le(y[0], c) { NoTiesAbove(x, y[0], c, le); }
    Exchange(if le(c, y[0]) && le(y[0], c) then [y[0]] else [], Ties(x, c, le), Ties(y[1..], c, le));
  }

  lemma {:induction false} Exchange<T>(u: seq<T>, v: seq<T>, w: seq<T>)
    requires u == [] || v == []
    ensures u + (v + w) == v + (u + w)
  {}

  // Merging with the strict comparison is merging the runs the other way round.
  lemma {:induction false} StrictMergeSwapsRuns<T(!new)>(x: seq<T>, y: seq<T>, le: (T, T) -> bool)
    requires TotalPreorder(le)
    ensures MergeOf(x, y, Strict(le)) == MergeOf(y, x, le)
    decreases |x| + |y|
  {
    if x != [] && y != [] {
      assert Comparable(le, x[0], y[0]);
      if le(y[0], x[0]) { StrictMergeSwapsRuns(x, y[1..], le); } else { StrictMergeSwapsRuns(x[1..], y, le); }
    }
  }

  // ---- the results ----

  lemma {:induction false} MergeSortSorts<T(!new)>(s: seq<T>, compare: (T, T) -> bool, le: (T, T) -> bool)
    requires TotalPreorder(le) && Compares(compare, le)
    ensures Sorted(MergeSorted(s, compare), le)
    decreases |s|
  {
    if |s| >= 2 {
      var x, y := s[..|s| / 2], s[|s| / 2..];
      MergeSortSorts(x, compare, le);
      MergeSortSorts(y, compare, le);
      MergeSortsRuns(MergeSorted(x, compare), MergeSorted(y, compare), compare, le);
    }
  }

  lemma {:induction false} MergeOfStable<T(!new)>(
    x: seq<T>, y: seq<T>, rx: seq<T>, ry: seq<T>, le: (T, T) -> bool, c: T)
    requires TotalPreorder(le) && Sorted(rx, le) && Sorted(ry, le)
    requires Ties(rx, c, le) == Ties(x, c, le) && Ties(ry, c, le) == Ties(y, c, le)
    ensures Ties(MergeOf(rx, ry, le), c, le) == Ties(x + y, c, le)
  {
    MergeKeepsTies(rx, ry, le, c);
    TiesConcat(x, y, c, le);
  }

  lemma {:induction false} MergeSortKeepsTies<T(!new)>(s: seq<T>, le: (T, T) -> bool, c: T)
    requires TotalPreorder(le)
    ensures Ties(MergeSorted(s, le), c, le) == Ties(s, c, le)
    decreases |s|
  {
    if |s| >= 2 {
      var x, y := s[..|s| / 2], s[|s| / 2..];
      MergeSortKeepsTies(x, le, c);
      MergeSortKeepsTies(y, le, c);
      BothFormsCompare(le);
      MergeSortSorts(x, le, le);
      MergeSortSorts(y, le, le);
      TakeDrop(s, |s| / 2);
      MergeOfStable(x, y, MergeSorted(x, le), MergeSorted(y, le), le, c);
    }
  }

  function Reverse<T>(s: seq<T>): seq<T> { if s == [] then [] else Reverse(s[1..]) + [s[0]] }

  lemma {:induction false} ReverseConcat<T>(s: seq<T>, r: seq<T>)
    ensures Reverse(s + r) == Reverse(r) + Reverse(s)
  {
    if s == [] {
      assert s + r == r;
    } else {
      assert (s + r)[1..] == s[1..] + r;
      ReverseConcat(s[1..], r);
    }
  }

  lemma {:induction false} StrictMergeReverses<T(!new)>(
    x: seq<T>, y: seq<T>, rx: seq<T>, ry: seq<T>, le: (T, T) -> bool, c: T)
    requires TotalPreorder(le) && Sorted(rx, le) && Sorted(ry, le)
    requires Ties(rx, c, le) == Reverse(Ties(x, c, le)) && Ties(ry, c, le) == Reverse(Ties(y, c, le))
    ensures Ties(MergeOf(rx, ry, Strict(le)), c, le) == Reverse(Ties(x + y, c, le))
  {
    StrictMergeSwapsRuns(rx, ry, le);
    MergeKeepsTies(ry, rx, le, c);
    TiesConcat(x, y, c, le);
    ReverseConcat(Ties(x, c, le), Ties(y, c, le));
  }

  lemma {:induction false} ShortReverse<T>(s: seq<T>, c: T, le: (T, T) -> bool)
    requires |s| < 2
    ensures Ties(s, c, le) == Reverse(Ties(s, c, le))
  {
    var t := Ties(s, c, le);
    if |s| == 1 { assert s[1..] == [] && Ties(s[1..], c, le) == []; }
    assert |t| <= 1;
    if |t| == 1 { assert t[1..] == []; }
  }

  // The strict comparison turns every class of ties around.
  lemma {:induction false} StrictMergeSortReversesTies<T(!new)>(s: seq<T>, le: (T, T) -> bool, c: T)
    requires TotalPreorder(le)
    ensures Ties(MergeSorted(s, Strict(le)), c, le) == Reverse(Ties(s, c, le))
    decreases |s|
  {
    if |s| >= 2 {
      var x, y := s[..|s| / 2], s[|s| / 2..];
      StrictMergeSortReversesTies(x, le, c);
      StrictMergeSortReversesTies(y, le, c);
      BothFormsCompare(le);
      MergeSortSorts(x, Strict(le), le);
      MergeSortSorts(y, Strict(le), le);
      StrictMergeReverses(x, y, MergeSorted(x, Strict(le)), MergeSorted(y, Strict(le)), le, c);
      TakeDrop(s, |s| / 2);
    } else {
      ShortReverse(s, c, le);
    }
  }

  // Appending an element that is above all others.
  lemma {:induction false} SnocSorted<T>(s: seq<T>, z: T, le: (T, T) -> bool)
    requires Sorted(s, le) && forall y :: y in s ==> le(y, z)
    ensures Sorted(s + [z], le)
  {}

  lemma {:induction false} LastIsGreatest<T(!new)>(s: seq<T>, w: T, le: (T, T) -> bool)
    requires TotalPreorder(le) && Sorted(s, le) && w in s
    ensures le(w, s[|s| - 1])
  {
    assert Comparable(le, w, w);
  }

  lemma {:induction false} InsertSorts<T(!new)>(s: seq<T>, x: T, le: (T, T) -> bool)
    requires TotalPreorder(le) && Sorted(s, le)
    ensures Sorted(InsertOf(s, x, Strict(le)), le)
    ensures forall z :: z in InsertOf(s, x, Strict(le)) <==> z in s || z == x
    decreases |s|
  {
    if s == [] {
    } else {
      var t, z := s[..|s| - 1], s[|s| - 1];
      assert s == t + [z];
      assert Comparable(le, x, z);
      if Strict(le)(x, z) {
        InsertSorts(t, x, le);
        forall w | w in InsertOf(t, x, Strict(le)) ensures le(w, z) {
          if w != x { LastIsGreatest(s, w, le); }
        }
        SnocSorted(InsertOf(t, x, Strict(le)), z, le);
      } else {
        forall w | w in s ensures le(w, x) {
          LastIsGreatest(s, w, le);
          assert Chained(le, w, z, x);
        }
        SnocSorted(s, x, le);
      }
    }
  }

  lemma {:induction false} InsertKeepsTies<T>(s: seq<T>, x: T, le: (T, T) -> bool, c: T)
    requires forall i :: 0 <= i < |s| && le(x, s[i]) && !le(s[i], x) && le(c, x) && le(x, c) ==>
               !(le(c, s[i]) && le(s[i], c))
    ensures Ties(InsertOf(s, x, Strict(le)), c, le) == Ties(s, c, le) + Ties([x], c, le)
    decreases |s|
  {
    if s == [] || !Strict(le)(x, s[|s| - 1]) {
      TiesConcat(s, [x], c, le);
    } else {
      var t, z := s[..|s| - 1], s[|s| - 1];
      InsertKeepsTies(t, x, le, c);
      assert s == t + [z];
      TiesConcat(InsertOf(t, x, Strict(le)), [z], c, le);
      TiesConcat(t, [z], c, le);
    }
  }

  // What is strictly above x is not in x's class.
  lemma {:induction false} StrictlyAbove<T(!new)>(s: seq<T>, x: T, le: (T, T) -> bool, c: T)
    requires TotalPreorder(le)
    ensures forall i :: 0 <= i < |s| && le(x, s[i]) && !le(s[i], x) && le(c, x) && le(x, c) ==>
              !(le(c, s[i]) && le(s[i], c))
  {
    forall i | 0 <= i < |s| ensures Chained(le, s[i], c, x) {}
  }

  lemma {:induction false} InsertSortSortsStably<T(!new)>(s: seq<T>, le: (T, T) -> bool)
    requires TotalPreorder(le)
    ensures Sorted(InsertSorted(s, Strict(le)), le)
    ensures Stable(s, InsertSorted(s, Strict(le)), le)
    decreases |s|
  {
    if s != [] {
      var t, x := s[..|s| - 1], s[|s| - 1];
      InsertSortSortsStably(t, le);
      var r := InsertSorted(t, Strict(le));
      InsertSorts(r, x, le);
      assert s == t + [x];
      forall c ensures Ties(InsertSorted(s, Strict(le)), c, le) == Ties(s, c, le) {
        StrictlyAbove(r, x, le, c);
        InsertKeepsTies(r, x, le, c);
        TiesConcat(t, [x], c, le);
      }
    }
  }

  // Merge sort with the non-strict comparison is a stable sorting permutation, and produces the
  // same array, element by element, as insertion sort with the strict one.
  lemma {:induction false} MergeSortIsInsertSort<T(!new)>(s: seq<T>, le: (T, T) -> bool)
    requires TotalPreorder(le)
    ensures Sorted(MergeSorted(s, le), le) && Stable(s, MergeSorted(s, le), le)
    ensures multiset(MergeSorted(s, le)) == multiset(s)
    ensures MergeSorted(s, le) == InsertSorted(s, Strict(le))
  {
    BothFormsCompare(le);
    MergeSortSorts(s, le, le);
    forall c ensures Ties(MergeSorted(s, le), c, le) == Ties(s, c, le) { MergeSortKeepsTies(s, le, c); }
    StableIsPermutation(s, MergeSorted(s, le), le);
    InsertSortSortsStably(s, le);
    SortedIsUnique(MergeSorted(s, le), InsertSorted(s, Strict(le)), le);
  }

  ghost predicate TiesArePalindromes<T(!new)>(s: seq<T>, le: (T, T) -> bool) {
    forall c :: Ties(s, c, le) == Reverse(Ties(s, c, le))
  }

  // Merge sort with the strict comparison still sorts, and gives that same array if and only if
  // every class of ties reads the same in both directions.
  lemma {:induction false} StrictMergeSortIffPalindromes<T(!new)>(s: seq<T>, le: (T, T) -> bool)
    requires TotalPreorder(le)
    ensures Sorted(MergeSorted(s, Strict(le)), le)
    ensures MergeSorted(s, Strict(le)) == InsertSorted(s, Strict(le)) <==>
            TiesArePalindromes(s, le)
  {
    var r, q := MergeSorted(s, Strict(le)), InsertSorted(s, Strict(le));
    BothFormsCompare(le);
    MergeSortSorts(s, Strict(le), le);
    InsertSortSortsStably(s, le);
    forall c ensures Ties(r, c, le) == Reverse(Ties(s, c, le)) && Ties(q, c, le) == Ties(s, c, le) {
      StrictMergeSortReversesTies(s, le, c);
    }
    if TiesArePalindromes(s, le) { SortedIsUnique(r, q, le); }
  }
}
