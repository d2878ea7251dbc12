/** Wrap-around: where the index that has been advanced k times points. */
module ChannelSlots {
  import opened ChannelMachine
  import opened Bits

  // The source's own increment, k times.
  function Slot(k: nat, size: nat): (r: nat)
    requires size > 0
    ensures r < size
  {
    if k == 0 then 0 else Inc(Slot(k - 1, size), size)
  }

  lemma {:induction false} SlotFirstLap(k: nat, size: nat)
    requires k < size
    ensures Slot(k, size) == k
  {
    if k > 0 { SlotFirstLap(k - 1, size); }
  }

  lemma {:induction false} SlotLap(a: nat, size: nat)
    requires size > 0
    ensures Slot(a + size, size) == Slot(a, size)
  {
    if a == 0 { SlotFirstLap(size - 1, size); } else { SlotLap(a - 1, size); }
  }

  // Two tickets less than a lap apart never share a slot.
  lemma {:induction false} SlotInjective(a: nat, b: nat, size: nat)
    requires size > 0 && a <= b < a + size
    requires Slot(a, size) == Slot(b, size)
    ensures a == b
  {
    if a == 0 { SlotFirstLap(b, size); } else { SlotInjective(a - 1, b - 1, size); }
  }

  // A slot comes round again exactly after whole laps.
  lemma {:induction false} SlotAgain(a: nat, d: nat, size: nat)
    requires size > 0
    ensures Slot(a, size) == Slot(a + d, size) <==> d % size == 0
    decreases d
  {
    if d < size {
      if Slot(a, size) == Slot(a + d, size) { SlotInjective(a, a + d, size); }
      DivModUnique(0, d, size);
    } else {
      SlotAgain(a, d - size, size);
      SlotLap(a + d - size, size);
      ModLap(d, size);
    }
  }

  // Two tickets, the first at most a lap ahead: it is exactly a lap ahead, or whole laps behind.
  lemma {:induction false} SlotMeets(a: nat, b: nat, size: nat)
    requires size > 0 && a <= b + size
    ensures Slot(a, size) == Slot(b, size) <==> a == b + size || (a <= b && (b - a) % size == 0)
  {
    if a <= b {
      SlotAgain(a, b - a, size);
    } else {
      SlotLap(b, size);
      if Slot(a, size) == Slot(b, size) && a < b + size { SlotInjective(b, a, size); }
    }
  }

  lemma {:induction false} NotAWholeLap(d: nat, size: nat)
    requires 0 < d < size
    ensures d % size != 0
  {
    DivModUnique(0, d, size);
  }

  lemma {:induction false} ModLap(k: nat, size: nat)
    requires 0 < size <= k
    ensures k % size == (k - size) % size
  {
    var q, r := (k - size) / size, (k - size) % size;
    assert k == (q + 1) * size + r;
    DivModUnique(q + 1, r, size);
  }
}
