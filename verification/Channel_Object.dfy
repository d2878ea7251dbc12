/** The channel as an object: what its fields hold between calls, Push and Pop by a thread
    that is not disturbed, and the space counters. */
module ChannelObject {
  import opened Bits
  import opened ChannelMachine
  import opened ChannelSlots
  import opened ChannelInvariant
  import opened ChannelFifo
  import opened ChannelRuns

  // The records between the consumers' head and the producers' tail, around the end of the array.
  function Window(m: Memory): seq<Ptr>
    requires m.consHead < |m.records| && m.prodTail < |m.records|
  {
    if m.consHead <= m.prodTail then m.records[m.consHead..m.prodTail]
    else m.records[m.consHead..] + m.records[..m.prodTail]
  }

  lemma {:induction false} SlotAdd(a: nat, i: nat, size: nat)
    requires i < size
    ensures Slot(a + i, size) == if Slot(a, size) + i < size then Slot(a, size) + i else Slot(a, size) + i - size
  {
    if i > 0 { SlotAdd(a, i - 1, size); }
  }

  lemma {:induction false} WindowAt(m: Memory, i: nat)
    requires m.consHead < |m.records| && m.prodTail < |m.records| && i < |Window(m)|
    ensures Window(m)[i] ==
      m.records[if m.consHead + i < |m.records| then m.consHead + i else m.consHead + i - |m.records|]
  {}

  // Under the invariant the window of the fields is the abstract queue.
  lemma {:induction false} WindowIsQueue(s: State)
    requires Inv(s)
    ensures Window(s.mem) == Queue(s)
  {
    var n := ProdTail(s) - ConsHead(s);
    SlotAdd(ConsHead(s), n, s.mem.size);
    assert |Window(s.mem)| == n == |Queue(s)|;
    forall i | 0 <= i < n ensures Window(s.mem)[i] == Queue(s)[i] { WindowRecord(s, i); }
  }

  lemma {:induction false} WindowRecord(s: State, i: nat)
    requires Inv(s) && i < |Queue(s)| && i < |Window(s.mem)|
    ensures Window(s.mem)[i] == Queue(s)[i]
  {
    WindowAt(s.mem, i);
    SlotAdd(ConsHead(s), i, s.mem.size);
    assert s.mem.records[Slot(ConsHead(s) + i, s.mem.size)] == s.hist.claimed[ConsHead(s) + i];
  }

  // UsedSpace on 32-bit words.
  function UsedSpaceOf(m: Memory): nat
    requires m.size > 0
  {
    And((m.prodTail - m.consHead) % Pow2(32), m.size - 1)
  }

  // Masking a w-bit difference of two indices gives their distance around the ring.
  lemma {:induction false} MaskedDifference(d: int, k: nat, w: nat)
    requires k < w && 0 - Pow2(k) < d < Pow2(k)
    ensures And(d % Pow2(w), Pow2(k) - 1) == if d >= 0 then d else d + Pow2(k)
  {
    Pow2Monotone(k, w);
    AndMask(d % Pow2(w), k);
    if d >= 0 {
      DivModUnique(0, d, Pow2(w));
      DivModUnique(0, d, Pow2(k));
    } else {
      ShiftMod(d, Pow2(w));
      Pow2Sum(w - k, k);
      var q := Pow2(w - k);
      assert d + q * Pow2(k) == (q - 1) * Pow2(k) + (d + Pow2(k));
      DivModUnique(q - 1, d + Pow2(k), Pow2(k));
    }
  }

  // The counter is the length of the window for every size the constructor admits.
  lemma {:induction false} UsedSpaceCountsWindow(m: Memory, k: nat)
    requires k < 32 && m.size == Pow2(k) == |m.records|
    requires m.consHead < m.size && m.prodTail < m.size
    ensures UsedSpaceOf(m) == |Window(m)|
  {
    MaskedWindow(m, k, 32);
  }

  // The same for indices of any number of bits above k.
  lemma {:induction false} MaskedWindow(m: Memory, k: nat, w: nat)
    requires k < w && m.size == Pow2(k) == |m.records|
    requires m.consHead < m.size && m.prodTail < m.size
    ensures And((m.prodTail - m.consHead) % Pow2(w), m.size - 1) == |Window(m)|
  {
    MaskedDifference(m.prodTail - m.consHead, k, w);
  }

  lemma {:induction false} ShiftMod(d: int, n: nat)
    requires n > 0 && 0 - n <= d < 0
    ensures d % n == d + n
  {
    var q := d / n;
    assert d == q * n + d % n;
    assert q >= 0 ==> q * n >= 0;
    assert q <= -2 ==> q * n <= -2 * n;
  }

  // The window without its first record, and with one more at the end.
  lemma {:induction false} WindowTail(m: Memory)
    requires m.size == |m.records| && m.consHead < m.size && m.prodTail < m.size && m.consHead != m.prodTail
    ensures
      var next := Inc(m.consHead, m.size);
      Window(m) == [m.records[m.consHead]] + Window(m.(consHead := next, consTail := next))
  {}

  lemma {:induction false} WindowAppend(m: Memory, ptr: Ptr)
    requires m.size == |m.records| && m.consHead < m.size && m.prodTail < m.size
    requires Inc(m.prodTail, m.size) != m.consHead
    ensures
      var next := Inc(m.prodTail, m.size);
      Window(m.(prodHead := next, prodTail := next, records := m.records[m.prodTail := ptr])) == Window(m) + [ptr]
  {}

  class Channel {
    const size: nat
    const records: array<Ptr>
    var prodHead: nat
    var prodTail: nat
    var consHead: nat
    var consTail: nat

    // The buffer may be longer than the channel.
    ghost predicate Bounded()
      reads this
    {
      && 0 < size <= records.Length
      && prodHead < size && prodTail < size && consHead < size && consTail < size
    }

    ghost function View(): Memory
      reads this, records
      requires size <= records.Length
    {
      Memory(size, records[..size], prodHead, prodTail, consHead, consTail)
    }

    // No call is in progress.
    ghost predicate Valid()
      reads this
    {
      Bounded() && prodHead == prodTail && consHead == consTail
    }

    // What is published and not taken.
    ghost function Contents(): seq<Ptr>
      reads this, records
      requires Bounded()
    {
      Window(View())
    }

    // The caller may bring the buffer. A channel of size 0 is made, but cannot be used.
    constructor (size: nat, ptr: array?<Ptr>)
      requires ptr != null ==> size <= ptr.Length
      ensures this.size == size <= records.Length
      ensures if ptr != null then records == ptr else fresh(records)
      ensures size > 0 ==> Valid() && Contents() == []
      ensures size == 0 ==> !Bounded()
    {
      this.size := size;
      if ptr != null {
        records := ptr;
      } else {
        records := new Ptr[size];
      }
      prodHead, prodTail, consHead, consTail := 0, 0, 0, 0;
    }

    // Undisturbed, the exchange succeeds at once and nobody has to be waited for.
    method Push(ptr: Ptr) returns (ok: bool)
      requires Valid()
      modifies this`prodHead, this`prodTail, records
      ensures Valid()
      ensures ok <==> |old(Contents())| < size - 1
      ensures Contents() == if ok then old(Contents()) + [ptr] else old(Contents())
      ensures View() == if ok then
                old(View()).(prodHead := Inc(old(prodHead), size), prodTail := Inc(old(prodHead), size),
                             records := old(records[..size])[old(prodHead) := ptr])
              else old(View())
    {
      var head := prodHead;
      var next := head + 1;
      if next == size { next := 0; }
      if next == consTail { return false; }
      ghost var m := View();
      WindowAppend(m, ptr);
      prodHead := next;
      records[head] := ptr;
      prodTail := next;
      assert View() == m.(prodHead := next, prodTail := next, records := m.records[head := ptr]);
      return true;
    }

    method Pop() returns (ok: bool, ptr: Ptr)
      requires Valid()
      modifies this`consHead, this`consTail
      ensures Valid()
      ensures ok <==> old(Contents()) != []
      ensures if ok then old(Contents()) == [ptr] + Contents() else Contents() == old(Contents())
      ensures View() == if ok then
                old(View()).(consHead := Inc(old(consHead), size), consTail := Inc(old(consHead), size))
              else old(View())
    {
      var head := consHead;
      if head == prodTail { return false, 0; }
      var next := head + 1;
      if next == size { next := 0; }
      ghost var m := View();
      WindowTail(m);
      consHead := next;
      ptr := records[head];
      consTail := next;
      assert View() == m.(consHead := next, consTail := next);
      return true, ptr;
    }

    // Calls of other threads may be in progress, as long as the fields stand still.
    method UsedSpace() returns (n: nat)
      requires Bounded() && exists k: nat :: k < 32 && size == Pow2(k)
      ensures n == |Contents()|
    {
      n := And((prodTail - consHead) % Pow2(32), size - 1);
      ghost var k: nat :| k < 32 && size == Pow2(k);
      UsedSpaceCountsWindow(View(), k);
    }

    method AvailSpace() returns (n: nat)
      requires Bounded() && exists k: nat :: k < 32 && size == Pow2(k)
      ensures n == size - 1 - |Contents()|
    {
      var used := UsedSpace();
      n := size - 1 - used;
    }

    // The channel never holds more, and between calls Push refuses exactly when it holds as many.
    method Capacity() returns (n: nat)
      requires Bounded()
      ensures |Contents()| <= n == size - 1
      ensures Valid() ==> (|Contents()| == n <==> Inc(prodHead, size) == consTail)
    {
      n := size - 1;
    }
  }

  // The object's methods leave the fields, answer and return what an undisturbed call does in
  // the step machine.
  lemma {:induction false} SoloCallsMatchObject(s: State, t: Tid, ptr: Ptr)
    returns (push: seq<Action>, pop: seq<Action>)
    requires InBounds(s) && t < |s.threads| && s.threads[t].pc.Idle?
    requires s.mem.prodTail == s.mem.prodHead && s.mem.consTail == s.mem.consHead
    ensures Exec(s, push).threads[t].pc.Idle? && Exec(s, pop).threads[t].pc.Idle?
    ensures
      var next, s' := Inc(s.mem.prodHead, s.mem.size), Exec(s, push);
      if |Window(s.mem)| < s.mem.size - 1 then
        && s'.mem == s.mem.(prodHead := next, prodTail := next, records := s.mem.records[s.mem.prodHead := ptr])
        && s'.hist.accepted == s.hist.accepted + [ptr]
      else s'.mem == s.mem && s'.hist.accepted == s.hist.accepted
    ensures
      var next, s' := Inc(s.mem.consHead, s.mem.size), Exec(s, pop);
      if Window(s.mem) != [] then
        && s'.mem == s.mem.(consHead := next, consTail := next)
        && s'.hist.returned == s.hist.returned + [Window(s.mem)[0]]
      else s'.mem == s.mem && s'.hist.returned == s.hist.returned
  {
    push := SoloPush(s, t, ptr);
    pop := SoloPop(s, t);
  }
}
