/** What the steps of the channel keep, for any number of producers and consumers, and exactly when. */
module ChannelInvariant {
  import opened ChannelMachine
  import opened ChannelSlots

  // The tickets are ordered, never a lap apart, and the fields are their wrapped forms.
  predicate TicketsOk(s: State) {
    && 0 < s.mem.size
    && ConsTail(s) <= ConsHead(s) <= ProdTail(s) <= ProdHead(s) <= ConsTail(s) + s.mem.size - 1
    && |s.hist.claimants| == ProdHead(s)
    && s.mem.prodHead == Slot(ProdHead(s), s.mem.size)
    && s.mem.prodTail == Slot(ProdTail(s), s.mem.size)
    && s.mem.consHead == Slot(ConsHead(s), s.mem.size)
    && s.mem.consTail == Slot(ConsTail(s), s.mem.size)
  }

  // A producer between its successful exchange and its publication.
  predicate Producing(pc: Pc) { pc.PushWrite? || pc.PushWait? || pc.PushPublish? }

  // A consumer between its successful exchange and its release.
  predicate Consuming(pc: Pc) { pc.PopRead? || pc.PopWait? || pc.PopRelease? }

  predicate ProducerHolds(s: State, t: Tid, k: nat) {
    t < |s.threads| && Producing(s.threads[t].pc) && s.threads[t].mark == k
  }

  predicate ConsumerHolds(s: State, t: Tid, k: nat) {
    t < |s.threads| && Consuming(s.threads[t].pc) && s.threads[t].mark == k
  }

  predicate ThreadOk(s: State, t: Tid)
    requires InBounds(s) && t < |s.threads|
  {
    var size, mark, pc := s.mem.size, s.threads[t].mark, s.threads[t].pc;
    match pc
    case Idle | PushStart(_) | PopStart => true
    case PushCheck(_, head) =>
      mark <= ProdHead(s) && head == Slot(mark, size)
    case PushCas(_, head, _) =>
      mark <= ProdHead(s) && head == Slot(mark, size) && mark + 1 < ConsTail(s) + size
    case PopCheck(head) =>
      mark <= ConsHead(s) && head == Slot(mark, size)
    case PopCas(head, _) =>
      mark <= ConsHead(s) && head == Slot(mark, size) && mark < ProdTail(s)
    case PushWrite(ptr, head, _) => ProducerOk(s, t, ptr, head)
    case PushWait(ptr, head, _) => ProducerOk(s, t, ptr, head) && s.mem.records[head] == ptr
    case PushPublish(ptr, head, _) =>
      ProducerOk(s, t, ptr, head) && s.mem.records[head] == ptr && mark == ProdTail(s)
    case PopRead(head, _) => ConsumerOk(s, t, head)
    case PopWait(head, _, value) => ConsumerOk(s, t, head) && value == s.hist.claimed[mark]
    case PopRelease(head, _, value) =>
      ConsumerOk(s, t, head) && value == s.hist.claimed[mark] && mark == ConsTail(s)
  }

  predicate ProducerOk(s: State, t: Tid, ptr: Ptr, head: nat)
    requires InBounds(s) && t < |s.threads|
  {
    var k := s.threads[t].mark;
    && ProdTail(s) <= k < ProdHead(s) && k < |s.hist.claimants| && s.hist.claimants[k] == t
    && head == Slot(k, s.mem.size) && ptr == s.hist.claimed[k]
  }

  predicate ConsumerOk(s: State, t: Tid, head: nat)
    requires InBounds(s) && t < |s.threads|
  {
    var k := s.threads[t].mark;
    && ConsTail(s) <= k < ConsHead(s) <= ProdHead(s) && s.hist.takers[k] == t
    && head == Slot(k, s.mem.size)
  }

  // Every unpublished ticket has a producer, every unreleased one a consumer.
  predicate OwnersOk(s: State) {
    && (forall k :: ProdTail(s) <= k < ProdHead(s) && k < |s.hist.claimants| ==>
         ProducerHolds(s, s.hist.claimants[k], k))
    && (forall k :: ConsTail(s) <= k < ConsHead(s) ==> ConsumerHolds(s, s.hist.takers[k], k))
  }

  // Published and not yet released records are in place.
  predicate RecordsOk(s: State)
    requires InBounds(s) && TicketsOk(s)
  {
    forall k :: ConsTail(s) <= k < ProdTail(s) ==>
      s.mem.records[Slot(k, s.mem.size)] == s.hist.claimed[k]
  }

  // Calls return in ticket order, with the pointers of their tickets.
  predicate ResultsOk(s: State) {
    s.hist.accepted <= s.hist.claimed && s.hist.returned <= s.hist.claimed
  }

  predicate Inv(s: State) {
    && InBounds(s) && TicketsOk(s) && OwnersOk(s) && RecordsOk(s) && ResultsOk(s)
    && forall t :: 0 <= t < |s.threads| ==> ThreadOk(s, t)
  }

  lemma {:induction false} InitInv(size: nat, threads: nat)
    requires size > 0
    ensures Inv(Init(size, threads))
  {}

  // The two exchanges that advance a head.
  predicate Claims(s: State, a: Action) {
    && a.Go? && !a.spurious && a.t < |s.threads|
    && s.threads[a.t].pc.PushCas? && s.mem.prodHead == s.threads[a.t].pc.head
  }

  predicate Takes(s: State, a: Action) {
    && a.Go? && !a.spurious && a.t < |s.threads|
    && s.threads[a.t].pc.PopCas? && s.mem.consHead == s.threads[a.t].pc.head
  }

  // The head was not advanced by a whole lap since the thread loaded it.
  predicate LapFree(s: State, a: Action) {
    && (Claims(s, a) ==> ProdHead(s) < s.threads[a.t].mark + s.mem.size)
    && (Takes(s, a) ==> ConsHead(s) < s.threads[a.t].mark + s.mem.size)
  }

  // An exchange that advances a head finds a free slot, or a published record.
  predicate HasRoom(s: State, a: Action) {
    && (Claims(s, a) ==> ProdHead(s) + 1 < ConsTail(s) + s.mem.size)
    && (Takes(s, a) ==> ConsHead(s) < ProdTail(s))
  }

  lemma {:induction false} LapFreeHasRoom(s: State, a: Action)
    requires Inv(s) && LapFree(s, a)
    ensures HasRoom(s, a)
    ensures Claims(s, a) ==> s.threads[a.t].mark == ProdHead(s)
    ensures Takes(s, a) ==> s.threads[a.t].mark == ConsHead(s)
  {
    if Claims(s, a) {
      assert ThreadOk(s, a.t);
      SlotInjective(s.threads[a.t].mark, ProdHead(s), s.mem.size);
    } else if Takes(s, a) {
      assert ThreadOk(s, a.t);
      SlotInjective(s.threads[a.t].mark, ConsHead(s), s.mem.size);
    }
  }

  // Lapped or not, the slot at the head is not that of an unreleased ticket.
  lemma {:induction false} HeadSlotIsFree(s: State, k: nat)
    requires Inv(s) && ConsTail(s) <= k < ProdHead(s)
    ensures Slot(k, s.mem.size) != s.mem.prodHead
  {
    if Slot(k, s.mem.size) == s.mem.prodHead { SlotInjective(k, ProdHead(s), s.mem.size); }
  }

  // ---- one lemma per kind of step ----

  // A step that changes nothing but one thread.
  lemma {:induction false} LocalKeepsInv(s: State, t: Tid, pc: Pc, mark: nat)
    requires Inv(s) && t < |s.threads| && PcInBounds(pc, s.mem.size)
    requires InBounds(Put(s, t, pc, mark)) && ThreadOk(Put(s, t, pc, mark), t)
    requires Producing(s.threads[t].pc) ==> Producing(pc) && mark == s.threads[t].mark
    requires Consuming(s.threads[t].pc) ==> Consuming(pc) && mark == s.threads[t].mark
    ensures Inv(Put(s, t, pc, mark))
  {
    var s' := Put(s, t, pc, mark);
    assert OwnersOk(s');
    forall u | 0 <= u < |s'.threads| ensures ThreadOk(s', u) { OthersKept(s, s', t, u); }
  }

  // A thread other than the one that moved does not notice a step on the thread alone.
  lemma {:induction false} OthersKept(s: State, s': State, t: Tid, u: Tid)
    requires Inv(s) && t < |s.threads| && u < |s.threads|
    requires s' == s.(threads := s'.threads) && |s'.threads| == |s.threads| && InBounds(s')
    requires u != t ==> s'.threads[u] == s.threads[u]
    requires ThreadOk(s', t)
    ensures ThreadOk(s', u)
  {
    if u != t { assert ThreadOk(s, u); }
  }

  lemma {:induction false} ClaimKeepsInv(s: State, t: Tid, ptr: Ptr, head: nat)
    requires Inv(s) && t < |s.threads| && s.threads[t].pc.PushCas? && s.mem.prodHead == head
    requires ProdHead(s) + 1 < ConsTail(s) + s.mem.size
    ensures Inv(Claim(s, t, ptr, head, Inc(head, s.mem.size)))
  {
    var s' := Claim(s, t, ptr, head, Inc(head, s.mem.size));
    assert Slot(ProdHead(s) + 1, s.mem.size) == Inc(Slot(ProdHead(s), s.mem.size), s.mem.size);
    forall u | 0 <= u < |s'.threads| ensures ThreadOk(s', u) { ClaimKeepsThread(s, t, ptr, head, u); }
  }

  lemma {:induction false} ClaimKeepsThread(s: State, t: Tid, ptr: Ptr, head: nat, u: Tid)
    requires Inv(s) && t < |s.threads| && s.threads[t].pc.PushCas? && s.mem.prodHead == head && u < |s.threads|
    ensures
      var s' := Claim(s, t, ptr, head, Inc(head, s.mem.size));
      InBounds(s') && ThreadOk(s', u)
  {
    assert ThreadOk(s, u);
  }

  lemma {:induction false} TakeKeepsInv(s: State, t: Tid, head: nat)
    requires Inv(s) && t < |s.threads| && s.threads[t].pc.PopCas? && s.mem.consHead == head
    requires ConsHead(s) < ProdTail(s)
    ensures Inv(Take(s, t, head, Inc(head, s.mem.size)))
  {
    var s' := Take(s, t, head, Inc(head, s.mem.size));
    assert Slot(ConsHead(s) + 1, s.mem.size) == Inc(Slot(ConsHead(s), s.mem.size), s.mem.size);
    forall u | 0 <= u < |s'.threads| ensures ThreadOk(s', u) { TakeKeepsThread(s, t, head, u); }
  }

  lemma {:induction false} TakeKeepsThread(s: State, t: Tid, head: nat, u: Tid)
    requires Inv(s) && t < |s.threads| && s.threads[t].pc.PopCas? && s.mem.consHead == head && u < |s.threads|
    requires ConsHead(s) < ProdTail(s)
    ensures
      var s' := Take(s, t, head, Inc(head, s.mem.size));
      InBounds(s') && ThreadOk(s', u)
  {
    assert ThreadOk(s, u);
  }

  // A write goes to a slot that no other unreleased ticket uses.
  lemma {:induction false} WriteIsAlone(s: State, t: Tid, j: nat)
    requires Inv(s) && t < |s.threads| && s.threads[t].pc.PushWrite?
    requires ConsTail(s) <= j < ProdHead(s) && j != s.threads[t].mark
    ensures Slot(j, s.mem.size) != s.threads[t].pc.head
  {
    assert ThreadOk(s, t);
    var k := s.threads[t].mark;
    if Slot(j, s.mem.size) == Slot(k, s.mem.size) {
      if j < k { SlotInjective(j, k, s.mem.size); } else { SlotInjective(k, j, s.mem.size); }
    }
  }

  lemma {:induction false} WriteKeepsInv(s: State, t: Tid)
    requires Inv(s) && t < |s.threads| && s.threads[t].pc.PushWrite?
    ensures var pc := s.threads[t].pc; Inv(Write(s, t, pc.ptr, pc.head, pc.next))
  {
    var pc := s.threads[t].pc;
    var s' := Write(s, t, pc.ptr, pc.head, pc.next);
    assert ThreadOk(s, t);
    forall j | ConsTail(s) <= j < ProdHead(s) && j != s.threads[t].mark
      ensures Slot(j, s.mem.size) != pc.head
    {
      WriteIsAlone(s, t, j);
    }
    forall u | 0 <= u < |s'.threads| ensures ThreadOk(s', u) { WriteKeepsThread(s, t, u); }
  }

  lemma {:induction false} WriteKeepsThread(s: State, t: Tid, u: Tid)
    requires Inv(s) && t < |s.threads| && s.threads[t].pc.PushWrite? && u < |s.threads|
    ensures var pc := s.threads[t].pc;
            var s' := Write(s, t, pc.ptr, pc.head, pc.next);
            InBounds(s') && ThreadOk(s', u)
  {
    assert ThreadOk(s, t) && ThreadOk(s, u);
    if u != t && Producing(s.threads[u].pc) {
      WriteIsAlone(s, t, s.threads[u].mark);
    }
  }

  lemma {:induction false} PublishKeepsInv(s: State, t: Tid)
    requires Inv(s) && t < |s.threads| && s.threads[t].pc.PushPublish?
    ensures var pc := s.threads[t].pc; Inv(Publish(s, t, pc.ptr, pc.next))
  {
    var pc, k := s.threads[t].pc, s.threads[t].mark;
    var s' := Publish(s, t, pc.ptr, pc.next);
    assert ThreadOk(s, t);
    assert Slot(k + 1, s.mem.size) == Inc(Slot(k, s.mem.size), s.mem.size);
    forall u | 0 <= u < |s'.threads| ensures ThreadOk(s', u) { PublishKeepsThread(s, t, u); }
  }

  lemma {:induction false} PublishKeepsThread(s: State, t: Tid, u: Tid)
    requires Inv(s) && t < |s.threads| && s.threads[t].pc.PushPublish? && u < |s.threads|
    ensures
      var pc := s.threads[t].pc;
      var s' := Publish(s, t, pc.ptr, pc.next);
      InBounds(s') && ThreadOk(s', u)
  {
    assert ThreadOk(s, t) && ThreadOk(s, u);
  }

  lemma {:induction false} ReleaseKeepsInv(s: State, t: Tid)
    requires Inv(s) && t < |s.threads| && s.threads[t].pc.PopRelease?
    ensures var pc := s.threads[t].pc; Inv(Release(s, t, pc.next, pc.value))
  {
    var pc, k := s.threads[t].pc, s.threads[t].mark;
    var s' := Release(s, t, pc.next, pc.value);
    assert ThreadOk(s, t);
    assert Slot(k + 1, s.mem.size) == Inc(Slot(k, s.mem.size), s.mem.size);
    ReleaseKeepsOwners(s, t);
    forall u | 0 <= u < |s'.threads| ensures ThreadOk(s', u) { ReleaseKeepsThread(s, t, u); }
  }

  lemma {:induction false} ReleaseKeepsOwners(s: State, t: Tid)
    requires Inv(s) && t < |s.threads| && s.threads[t].pc.PopRelease?
    ensures var pc := s.threads[t].pc; OwnersOk(Release(s, t, pc.next, pc.value))
  {
    assert ThreadOk(s, t);
  }

  lemma {:induction false} ReleaseKeepsThread(s: State, t: Tid, u: Tid)
    requires Inv(s) && t < |s.threads| && s.threads[t].pc.PopRelease? && u < |s.threads|
    ensures var pc := s.threads[t].pc;
            var s' := Release(s, t, pc.next, pc.value);
            InBounds(s') && ThreadOk(s', u)
  {
    assert ThreadOk(s, t) && ThreadOk(s, u);
  }

  lemma {:induction false} PushCheckKeepsInv(s: State, t: Tid)
    requires Inv(s) && t < |s.threads| && s.threads[t].pc.PushCheck?
    ensures Inv(Advance(s, t, false))
  {
    var th, size := s.threads[t], s.mem.size;
    assert ThreadOk(s, t);
    if Inc(th.pc.head, size) != s.mem.consTail {
      assert Slot(th.mark + 1, size) == Inc(Slot(th.mark, size), size);
      SlotLap(ConsTail(s), size);
      LocalKeepsInv(s, t, PushCas(th.pc.ptr, th.pc.head, Inc(th.pc.head, size)), th.mark);
    } else {
      LocalKeepsInv(s, t, Idle, th.mark);
    }
  }

  lemma {:induction false} PopCheckKeepsInv(s: State, t: Tid)
    requires Inv(s) && t < |s.threads| && s.threads[t].pc.PopCheck?
    ensures Inv(Advance(s, t, false))
  {
    var th, size := s.threads[t], s.mem.size;
    assert ThreadOk(s, t);
    if th.pc.head != s.mem.prodTail {
      LocalKeepsInv(s, t, PopCas(th.pc.head, Inc(th.pc.head, size)), th.mark);
    } else {
      LocalKeepsInv(s, t, Idle, th.mark);
    }
  }

  // A waiting thread leaves its loop only when its ticket is the oldest one.
  lemma {:induction false} PushWaitKeepsInv(s: State, t: Tid)
    requires Inv(s) && t < |s.threads| && s.threads[t].pc.PushWait?
    ensures Inv(Advance(s, t, false))
  {
    var th := s.threads[t];
    assert ThreadOk(s, t);
    if s.mem.prodTail == th.pc.head {
      SlotInjective(ProdTail(s), th.mark, s.mem.size);
      LocalKeepsInv(s, t, PushPublish(th.pc.ptr, th.pc.head, th.pc.next), th.mark);
    }
  }

  lemma {:induction false} PopWaitKeepsInv(s: State, t: Tid)
    requires Inv(s) && t < |s.threads| && s.threads[t].pc.PopWait?
    ensures Inv(Advance(s, t, false))
  {
    var th := s.threads[t];
    assert ThreadOk(s, t);
    if s.mem.consTail == th.pc.head {
      SlotInjective(ConsTail(s), th.mark, s.mem.size);
      LocalKeepsInv(s, t, PopRelease(th.pc.head, th.pc.next, th.pc.value), th.mark);
    }
  }

  lemma {:induction false} PopReadKeepsInv(s: State, t: Tid)
    requires Inv(s) && t < |s.threads| && s.threads[t].pc.PopRead?
    ensures Inv(Advance(s, t, false))
  {
    var th := s.threads[t];
    assert ThreadOk(s, t);
    LocalKeepsInv(s, t, PopWait(th.pc.head, th.pc.next, s.mem.records[th.pc.head]), th.mark);
  }

  // Starting a call, loading a head, and losing an exchange.
  lemma {:induction false} LoadHeadKeepsInv(s: State, a: Action)
    requires Inv(s) && a.t < |s.threads| && !Claims(s, a) && !Takes(s, a)
    requires a.Go? ==> var pc := s.threads[a.t].pc;
                       pc.PushStart? || pc.PopStart? || pc.PushCas? || pc.PopCas?
    ensures Inv(Next(s, a))
  {
    var t, s' := a.t, Next(s, a);
    StaysInBounds(s, a);
    if s' != s {
      assert s' == Put(s, t, s'.threads[t].pc, s'.threads[t].mark);
      LocalKeepsInv(s, t, s'.threads[t].pc, s'.threads[t].mark);
    }
  }

  // The exact condition: a step keeps the invariant if and only if an exchange that
  // advances a head finds room at that moment.
  lemma {:induction false} StepKeepsInvIff(s: State, a: Action)
    requires Inv(s)
    ensures Inv(Next(s, a)) <==> HasRoom(s, a)
  {
    if HasRoom(s, a) && a.t < |s.threads| {
      var pc := s.threads[a.t].pc;
      if Claims(s, a) { ClaimKeepsInv(s, a.t, pc.ptr, pc.head); }
      else if Takes(s, a) { TakeKeepsInv(s, a.t, pc.head); }
      else if a.Go? && pc.PushWrite? { WriteKeepsInv(s, a.t); }
      else if a.Go? && pc.PushPublish? { PublishKeepsInv(s, a.t); }
      else if a.Go? && pc.PopRelease? { ReleaseKeepsInv(s, a.t); }
      else if a.Go? && pc.PushCheck? { PushCheckKeepsInv(s, a.t); }
      else if a.Go? && pc.PopCheck? { PopCheckKeepsInv(s, a.t); }
      else if a.Go? && pc.PushWait? { PushWaitKeepsInv(s, a.t); }
      else if a.Go? && pc.PopWait? { PopWaitKeepsInv(s, a.t); }
      else if a.Go? && pc.PopRead? { PopReadKeepsInv(s, a.t); }
      else if !a.Go? || !pc.Idle? { LoadHeadKeepsInv(s, a); }
    }
  }

  // ---- whole runs ----

  predicate LapFreeRun(s: State, run: seq<Action>)
    requires InBounds(s)
    decreases |run|
  {
    run == [] ||
    (LapFree(s, run[0]) && (StaysInBounds(s, run[0]); LapFreeRun(Next(s, run[0]), run[1..])))
  }

  // Every exchange of the run that advances a head finds room.
  predicate RoomyRun(s: State, run: seq<Action>)
    requires InBounds(s)
    decreases |run|
  {
    run == [] ||
    (HasRoom(s, run[0]) && (StaysInBounds(s, run[0]); RoomyRun(Next(s, run[0]), run[1..])))
  }

  // The invariant holds before and after every step of the run.
  predicate AlwaysInv(s: State, run: seq<Action>)
    requires InBounds(s)
    decreases |run|
  {
    Inv(s) && (run == [] || (StaysInBounds(s, run[0]); AlwaysInv(Next(s, run[0]), run[1..])))
  }

  // A lap-free run finds room.
  lemma {:induction false} LapFreeRunHasRoom(s: State, run: seq<Action>)
    requires Inv(s) && LapFreeRun(s, run)
    ensures RoomyRun(s, run)
    decreases |run|
  {
    if run != [] {
      LapFreeHasRoom(s, run[0]);
      StepKeepsInvIff(s, run[0]);
      LapFreeRunHasRoom(Next(s, run[0]), run[1..]);
    }
  }

  // A run keeps the invariant all along if and only if it finds room all along.
  lemma {:induction false} RunKeepsInvIff(s: State, run: seq<Action>)
    requires Inv(s)
    ensures AlwaysInv(s, run) <==> RoomyRun(s, run)
    ensures RoomyRun(s, run) ==> Inv(Exec(s, run))
    decreases |run|
  {
    if run != [] {
      StaysInBounds(s, run[0]);
      StepKeepsInvIff(s, run[0]);
      if HasRoom(s, run[0]) { RunKeepsInvIff(Next(s, run[0]), run[1..]); }
    }
  }

  lemma {:induction false} RunsAppend(s: State, run: seq<Action>, more: seq<Action>)
    requires InBounds(s)
    ensures RoomyRun(s, run + more) <==> RoomyRun(s, run) && RoomyRun(Exec(s, run), more)
    ensures LapFreeRun(s, run + more) <==> LapFreeRun(s, run) && LapFreeRun(Exec(s, run), more)
    decreases |run|
  {
    if run == [] {
      assert run + more == more;
    } else {
      StaysInBounds(s, run[0]);
      assert (run + more)[1..] == run[1..] + more;
      RunsAppend(Next(s, run[0]), run[1..], more);
    }
  }

  ghost predicate OneProducer(s: State, k: nat) {
    exists t :: ProducerHolds(s, t, k) && forall u :: ProducerHolds(s, u, k) ==> u == t
  }

  ghost predicate OneConsumer(s: State, k: nat) {
    exists t :: ConsumerHolds(s, t, k) && forall u :: ConsumerHolds(s, u, k) ==> u == t
  }

  // Exactly the unpublished tickets have a producer, and exactly one each; exactly the
  // unreleased tickets have a consumer, and exactly one each.
  lemma {:induction false} TicketsAreOwnedOnce(s: State, k: nat)
    requires Inv(s)
    ensures ProdTail(s) <= k < ProdHead(s) ==> OneProducer(s, k)
    ensures !(ProdTail(s) <= k < ProdHead(s)) ==> forall t :: !ProducerHolds(s, t, k)
    ensures ConsTail(s) <= k < ConsHead(s) ==> OneConsumer(s, k)
    ensures !(ConsTail(s) <= k < ConsHead(s)) ==> forall t :: !ConsumerHolds(s, t, k)
  {
    forall u | ProducerHolds(s, u, k)
      ensures ProdTail(s) <= k < ProdHead(s) && s.hist.claimants[k] == u
    {
      assert ThreadOk(s, u);
    }
    forall u | ConsumerHolds(s, u, k)
      ensures ConsTail(s) <= k < ConsHead(s) && s.hist.takers[k] == u
    {
      assert ThreadOk(s, u);
    }
    if ProdTail(s) <= k < ProdHead(s) {
      assert ProducerHolds(s, s.hist.claimants[k], k);
    }
    if ConsTail(s) <= k < ConsHead(s) {
      assert ConsumerHolds(s, s.hist.takers[k], k);
    }
  }

  // Safety of every run that finds room, for any number of threads.
  lemma {:induction false} RoomyRunsAreSafe(size: nat, threads: nat, run: seq<Action>)
    requires size > 0 && RoomyRun(Init(size, threads), run)
    ensures
      var s := Exec(Init(size, threads), run);
      && ConsTail(s) <= ConsHead(s) <= ProdTail(s) <= ProdHead(s) <= ConsTail(s) + size - 1
      && (forall k: nat :: ProdTail(s) <= k < ProdHead(s) <==> OneProducer(s, k))
      && (forall k: nat :: ConsTail(s) <= k < ConsHead(s) <==> OneConsumer(s, k))
  {
    InitInv(size, threads);
    RunKeepsInvIff(Init(size, threads), run);
    var s := Exec(Init(size, threads), run);
    forall k: nat
      ensures ProdTail(s) <= k < ProdHead(s) <==> OneProducer(s, k)
      ensures ConsTail(s) <= k < ConsHead(s) <==> OneConsumer(s, k)
    {
      TicketsAreOwnedOnce(s, k);
    }
  }

  // A published record stays what its producer wrote until its consumer has released it.
  lemma {:induction false} PublishedRecordsStay(s: State, a: Action, k: nat)
    requires Inv(s) && ConsTail(s) <= k < ProdTail(s)
    ensures s.mem.records[Slot(k, s.mem.size)] == s.hist.claimed[k]
    ensures Next(s, a).mem.records[Slot(k, s.mem.size)] == s.hist.claimed[k]
  {
    if a.t < |s.threads| && a.Go? && s.threads[a.t].pc.PushWrite? {
      assert ThreadOk(s, a.t);
      var j := s.threads[a.t].mark;
      if Slot(j, s.mem.size) == Slot(k, s.mem.size) { SlotInjective(k, j, s.mem.size); }
    }
  }
}
