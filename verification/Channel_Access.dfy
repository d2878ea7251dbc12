/** A weaker condition under which the channel is still a FIFO queue, and when exactly it is kept.

    An exchange may advance a head although there is no room, if room is there by the time the
    record is accessed: when it is written, the last record in its slot has been released; when it
    is read, it has been published. */
module ChannelAccess {
  import opened ChannelMachine
  import opened ChannelSlots
  import opened ChannelInvariant
  import opened ChannelFifo

  predicate Writes(s: State, a: Action) { a.Go? && a.t < |s.threads| && s.threads[a.t].pc.PushWrite? }

  predicate Reads(s: State, a: Action) { a.Go? && a.t < |s.threads| && s.threads[a.t].pc.PopRead? }

  predicate Releases(s: State, a: Action) { a.Go? && a.t < |s.threads| && s.threads[a.t].pc.PopRelease? }

  predicate WriteFits(s: State, a: Action) { Writes(s, a) ==> s.threads[a.t].mark < ConsTail(s) + s.mem.size }

  predicate ReadFits(s: State, a: Action) { Reads(s, a) ==> s.threads[a.t].mark < ProdTail(s) }

  predicate AccessOk(s: State, a: Action) { WriteFits(s, a) && ReadFits(s, a) }

  // ---- what such steps keep ----

  // The heads may be anywhere ahead of their tails; the tails are at most a lap apart.
  predicate TailsOk(s: State) {
    && 0 < s.mem.size
    && ConsTail(s) <= ProdTail(s) <= ProdHead(s) && ConsTail(s) <= ConsHead(s)
    && ProdTail(s) <= ConsTail(s) + s.mem.size
    && |s.hist.claimants| == ProdHead(s)
    && s.mem.prodHead == Slot(ProdHead(s), s.mem.size)
    && s.mem.prodTail == Slot(ProdTail(s), s.mem.size)
    && s.mem.consHead == Slot(ConsHead(s), s.mem.size)
    && s.mem.consTail == Slot(ConsTail(s), s.mem.size)
  }

  predicate Taken(s: State, t: Tid, head: nat)
    requires InBounds(s) && t < |s.threads|
  {
    var k := s.threads[t].mark;
    ConsTail(s) <= k < ConsHead(s) && s.hist.takers[k] == t && head == Slot(k, s.mem.size)
  }

  // The record of a consumer's ticket, once it has read it.
  predicate HasRead(s: State, t: Tid, value: Ptr)
    requires t < |s.threads|
  {
    var k := s.threads[t].mark;
    k < ProdTail(s) <= ProdHead(s) && value == s.hist.claimed[k]
  }

  // A producer's ticket, once it has written the record.
  predicate HasWritten(s: State, t: Tid, ptr: Ptr, head: nat)
    requires InBounds(s) && t < |s.threads| && head < s.mem.size
  {
    s.threads[t].mark < ConsTail(s) + s.mem.size && s.mem.records[head] == ptr
  }

  predicate LocalsOk(s: State, t: Tid)
    requires InBounds(s) && t < |s.threads|
  {
    var size, mark, pc := s.mem.size, s.threads[t].mark, s.threads[t].pc;
    match pc
    case Idle | PushStart(_) | PopStart => true
    case PushCheck(_, head) => mark <= ProdHead(s) && head == Slot(mark, size)
    case PushCas(_, head, _) => mark <= ProdHead(s) && head == Slot(mark, size)
    case PopCheck(head) => mark <= ConsHead(s) && head == Slot(mark, size)
    case PopCas(head, _) => mark <= ConsHead(s) && head == Slot(mark, size)
    case PushWrite(ptr, head, _) => ProducerOk(s, t, ptr, head)
    case PushWait(ptr, head, _) => ProducerOk(s, t, ptr, head) && HasWritten(s, t, ptr, head)
    case PushPublish(ptr, head, _) =>
      ProducerOk(s, t, ptr, head) && HasWritten(s, t, ptr, head) && mark == ProdTail(s)
    case PopRead(head, _) => Taken(s, t, head)
    case PopWait(head, _, value) => Taken(s, t, head) && HasRead(s, t, value)
    case PopRelease(head, _, value) => Taken(s, t, head) && HasRead(s, t, value) && mark == ConsTail(s)
  }

  predicate InPlace(s: State)
    requires InBounds(s) && TailsOk(s)
  {
    forall k :: ConsTail(s) <= k < ProdTail(s) ==> s.mem.records[Slot(k, s.mem.size)] == s.hist.claimed[k]
  }

  predicate WeakInv(s: State) {
    && InBounds(s) && TailsOk(s) && InPlace(s) && ResultsOk(s)
    && forall t :: 0 <= t < |s.threads| ==> LocalsOk(s, t)
  }

  lemma {:induction false} InvIsWeak(s: State)
    requires Inv(s)
    ensures WeakInv(s)
  {
    forall t | 0 <= t < |s.threads| ensures LocalsOk(s, t) { assert ThreadOk(s, t); }
  }

  // ---- one lemma per kind of step ----

  lemma {:induction false} LocalKeeps(s: State, t: Tid, pc: Pc, mark: nat)
    requires WeakInv(s) && t < |s.threads| && PcInBounds(pc, s.mem.size)
    requires InBounds(Put(s, t, pc, mark)) && LocalsOk(Put(s, t, pc, mark), t)
    ensures WeakInv(Put(s, t, pc, mark))
  {
    var s' := Put(s, t, pc, mark);
    forall u | 0 <= u < |s'.threads| ensures LocalsOk(s', u) { OthersKeptWeak(s, s', t, u); }
  }

  lemma {:induction false} OthersKeptWeak(s: State, s': State, t: Tid, u: Tid)
    requires WeakInv(s) && t < |s.threads| && u < |s.threads|
    requires s' == s.(threads := s'.threads) && |s'.threads| == |s.threads| && InBounds(s')
    requires u != t ==> s'.threads[u] == s.threads[u]
    requires LocalsOk(s', t)
    ensures LocalsOk(s', u)
  {
    if u != t { assert LocalsOk(s, u); }
  }

  lemma {:induction false} ClaimKeeps(s: State, t: Tid, ptr: Ptr, head: nat)
    requires WeakInv(s) && t < |s.threads| && s.threads[t].pc.PushCas? && s.mem.prodHead == head
    ensures WeakInv(Claim(s, t, ptr, head, Inc(head, s.mem.size)))
  {
    var s' := Claim(s, t, ptr, head, Inc(head, s.mem.size));
    assert Slot(ProdHead(s) + 1, s.mem.size) == Inc(Slot(ProdHead(s), s.mem.size), s.mem.size);
    forall u | 0 <= u < |s'.threads| ensures LocalsOk(s', u) { ClaimKeepsLocals(s, t, ptr, head, u); }
  }

  lemma {:induction false} ClaimKeepsLocals(s: State, t: Tid, ptr: Ptr, head: nat, u: Tid)
    requires WeakInv(s) && t < |s.threads| && s.threads[t].pc.PushCas? && s.mem.prodHead == head && u < |s.threads|
    ensures
      var s' := Claim(s, t, ptr, head, Inc(head, s.mem.size));
      InBounds(s') && LocalsOk(s', u)
  {
    assert LocalsOk(s, u);
  }

  lemma {:induction false} TakeKeeps(s: State, t: Tid, head: nat)
    requires WeakInv(s) && t < |s.threads| && s.threads[t].pc.PopCas? && s.mem.consHead == head
    ensures WeakInv(Take(s, t, head, Inc(head, s.mem.size)))
  {
    var s' := Take(s, t, head, Inc(head, s.mem.size));
    assert Slot(ConsHead(s) + 1, s.mem.size) == Inc(Slot(ConsHead(s), s.mem.size), s.mem.size);
    forall u | 0 <= u < |s'.threads| ensures LocalsOk(s', u) { TakeKeepsLocals(s, t, head, u); }
  }

  lemma {:induction false} TakeKeepsLocals(s: State, t: Tid, head: nat, u: Tid)
    requires WeakInv(s) && t < |s.threads| && s.threads[t].pc.PopCas? && s.mem.consHead == head && u < |s.threads|
    ensures
      var s' := Take(s, t, head, Inc(head, s.mem.size));
      InBounds(s') && LocalsOk(s', u)
  {
    if u != t { assert LocalsOk(s, u); }
  }

  // Tickets within a lap of the last release have slots of their own.
  lemma {:induction false} SlotsApart(s: State, j: nat, k: nat)
    requires WeakInv(s) && j != k
    requires ConsTail(s) <= j < ConsTail(s) + s.mem.size && ConsTail(s) <= k < ConsTail(s) + s.mem.size
    ensures Slot(j, s.mem.size) != Slot(k, s.mem.size)
  {
    if Slot(j, s.mem.size) == Slot(k, s.mem.size) {
      if j < k { SlotInjective(j, k, s.mem.size); } else { SlotInjective(k, j, s.mem.size); }
    }
  }

  lemma {:induction false} WriteKeeps(s: State, t: Tid)
    requires WeakInv(s) && t < |s.threads| && s.threads[t].pc.PushWrite?
    requires s.threads[t].mark < ConsTail(s) + s.mem.size
    ensures var pc := s.threads[t].pc; WeakInv(Write(s, t, pc.ptr, pc.head, pc.next))
  {
    var pc, k := s.threads[t].pc, s.threads[t].mark;
    var s' := Write(s, t, pc.ptr, pc.head, pc.next);
    assert LocalsOk(s, t);
    forall j | ConsTail(s) <= j < ProdTail(s) ensures Slot(j, s.mem.size) != pc.head { SlotsApart(s, j, k); }
    forall u | 0 <= u < |s'.threads| ensures LocalsOk(s', u) { WriteKeepsLocals(s, t, u); }
  }

  lemma {:induction false} WriteKeepsLocals(s: State, t: Tid, u: Tid)
    requires WeakInv(s) && t < |s.threads| && s.threads[t].pc.PushWrite? && u < |s.threads|
    requires s.threads[t].mark < ConsTail(s) + s.mem.size
    ensures
      var pc := s.threads[t].pc;
      var s' := Write(s, t, pc.ptr, pc.head, pc.next);
      InBounds(s') && LocalsOk(s', u)
  {
    assert LocalsOk(s, t) && LocalsOk(s, u);
    if u != t && (s.threads[u].pc.PushWait? || s.threads[u].pc.PushPublish?) {
      SlotsApart(s, s.threads[t].mark, s.threads[u].mark);
    }
  }

  lemma {:induction false} PublishKeeps(s: State, t: Tid)
    requires WeakInv(s) && t < |s.threads| && s.threads[t].pc.PushPublish?
    ensures var pc := s.threads[t].pc; WeakInv(Publish(s, t, pc.ptr, pc.next))
  {
    var pc, k := s.threads[t].pc, s.threads[t].mark;
    var s' := Publish(s, t, pc.ptr, pc.next);
    assert LocalsOk(s, t);
    assert Slot(k + 1, s.mem.size) == Inc(Slot(k, s.mem.size), s.mem.size);
    forall u | 0 <= u < |s'.threads| ensures LocalsOk(s', u) { PublishKeepsLocals(s, t, u); }
  }

  lemma {:induction false} PublishKeepsLocals(s: State, t: Tid, u: Tid)
    requires WeakInv(s) && t < |s.threads| && s.threads[t].pc.PushPublish? && u < |s.threads|
    ensures
      var pc := s.threads[t].pc;
      var s' := Publish(s, t, pc.ptr, pc.next);
      InBounds(s') && LocalsOk(s', u)
  {
    assert LocalsOk(s, t) && LocalsOk(s, u);
  }

  lemma {:induction false} ReleaseKeeps(s: State, t: Tid)
    requires WeakInv(s) && t < |s.threads| && s.threads[t].pc.PopRelease?
    ensures var pc := s.threads[t].pc; WeakInv(Release(s, t, pc.next, pc.value))
  {
    var pc, k := s.threads[t].pc, s.threads[t].mark;
    var s' := Release(s, t, pc.next, pc.value);
    assert LocalsOk(s, t);
    assert Slot(k + 1, s.mem.size) == Inc(Slot(k, s.mem.size), s.mem.size);
    forall u | 0 <= u < |s'.threads| ensures LocalsOk(s', u) { ReleaseKeepsLocals(s, t, u); }
  }

  lemma {:induction false} ReleaseKeepsLocals(s: State, t: Tid, u: Tid)
    requires WeakInv(s) && t < |s.threads| && s.threads[t].pc.PopRelease? && u < |s.threads|
    ensures
      var pc := s.threads[t].pc;
      var s' := Release(s, t, pc.next, pc.value);
      InBounds(s') && LocalsOk(s', u)
  {
    assert LocalsOk(s, t) && LocalsOk(s, u);
  }

  lemma {:induction false} ReadKeeps(s: State, t: Tid)
    requires WeakInv(s) && t < |s.threads| && s.threads[t].pc.PopRead? && s.threads[t].mark < ProdTail(s)
    ensures WeakInv(Advance(s, t, false))
  {
    var th := s.threads[t];
    assert LocalsOk(s, t);
    LocalKeeps(s, t, PopWait(th.pc.head, th.pc.next, s.mem.records[th.pc.head]), th.mark);
  }

  // A waiting thread leaves its loop only when its ticket is the oldest one.
  lemma {:induction false} WaitKeeps(s: State, t: Tid)
    requires WeakInv(s) && t < |s.threads| && (s.threads[t].pc.PushWait? || s.threads[t].pc.PopWait?)
    ensures WeakInv(Advance(s, t, false))
  {
    var th := s.threads[t];
    assert LocalsOk(s, t);
    if th.pc.PushWait? && s.mem.prodTail == th.pc.head {
      SlotInjective(ProdTail(s), th.mark, s.mem.size);
      LocalKeeps(s, t, PushPublish(th.pc.ptr, th.pc.head, th.pc.next), th.mark);
    } else if th.pc.PopWait? && s.mem.consTail == th.pc.head {
      SlotInjective(ConsTail(s), th.mark, s.mem.size);
      LocalKeeps(s, t, PopRelease(th.pc.head, th.pc.next, th.pc.value), th.mark);
    }
  }

  // Starting a call, loading a head, comparing it with a tail, and losing an exchange.
  lemma {:induction false} LoadKeeps(s: State, a: Action)
    requires WeakInv(s) && a.t < |s.threads| && !Claims(s, a) && !Takes(s, a)
    requires a.Go? ==> var pc := s.threads[a.t].pc;
      pc.PushStart? || pc.PopStart? || pc.PushCheck? || pc.PopCheck? || pc.PushCas? || pc.PopCas?
    ensures WeakInv(Next(s, a))
  {
    var t, s' := a.t, Next(s, a);
    StaysInBounds(s, a);
    assert LocalsOk(s, t);
    if s' != s {
      assert s' == Put(s, t, s'.threads[t].pc, s'.threads[t].mark);
      LocalKeeps(s, t, s'.threads[t].pc, s'.threads[t].mark);
    }
  }

  // The exact condition: whatever the exchanges do, a step keeps this invariant if and only if a
  // write goes to a released slot and a read finds a published record.
  lemma {:induction false} StepKeepsWeakIff(s: State, a: Action)
    requires WeakInv(s)
    ensures WeakInv(Next(s, a)) <==> AccessOk(s, a)
  {
    if AccessOk(s, a) { AccessKeeps(s, a); }
    if WeakInv(Next(s, a)) { KeptIsAccess(s, a); }
  }

  lemma {:induction false} KeptIsAccess(s: State, a: Action)
    requires InBounds(s) && WeakInv(Next(s, a))
    ensures AccessOk(s, a)
  {
    StaysInBounds(s, a);
    if a.t < |s.threads| { LocalsAllow(s, a); }
  }

  lemma {:induction false} LocalsAllow(s: State, a: Action)
    requires InBounds(s) && a.t < |s.threads| == |Next(s, a).threads|
    requires InBounds(Next(s, a)) && LocalsOk(Next(s, a), a.t)
    ensures AccessOk(s, a)
  {}

  lemma {:induction false} AccessKeeps(s: State, a: Action)
    requires WeakInv(s) && AccessOk(s, a)
    ensures WeakInv(Next(s, a))
  {
    if a.t < |s.threads| {
      var pc := s.threads[a.t].pc;
      if Claims(s, a) { ClaimKeeps(s, a.t, pc.ptr, pc.head); }
      else if Takes(s, a) { TakeKeeps(s, a.t, pc.head); }
      else if Writes(s, a) { WriteKeeps(s, a.t); }
      else if Publishes(s, a) { PublishKeeps(s, a.t); }
      else if Reads(s, a) { ReadKeeps(s, a.t); }
      else if Releases(s, a) { ReleaseKeeps(s, a.t); }
      else if a.Go? && (pc.PushWait? || pc.PopWait?) { WaitKeeps(s, a.t); }
      else if !a.Go? || !pc.Idle? { LoadKeeps(s, a); }
    }
  }

  // ---- whole runs ----

  predicate AccessRun(s: State, run: seq<Action>)
    requires InBounds(s)
    decreases |run|
  {
    run == [] ||
    (AccessOk(s, run[0]) && (StaysInBounds(s, run[0]); AccessRun(Next(s, run[0]), run[1..])))
  }

  predicate AlwaysWeak(s: State, run: seq<Action>)
    requires InBounds(s)
    decreases |run|
  {
    WeakInv(s) && (run == [] || (StaysInBounds(s, run[0]); AlwaysWeak(Next(s, run[0]), run[1..])))
  }

  lemma {:induction false} RunKeepsWeakIff(s: State, run: seq<Action>)
    requires WeakInv(s)
    ensures AlwaysWeak(s, run) <==> AccessRun(s, run)
    ensures AccessRun(s, run) ==> WeakInv(Exec(s, run))
    decreases |run|
  {
    if run != [] {
      StaysInBounds(s, run[0]);
      StepKeepsWeakIff(s, run[0]);
      if AccessOk(s, run[0]) { RunKeepsWeakIff(Next(s, run[0]), run[1..]); }
    }
  }

  // ---- the queue ----

  predicate TailsInOrder(s: State) { ConsTail(s) <= ProdTail(s) }

  // What Push calls accepted and Pop calls have not given back.
  function Pending(s: State): seq<Ptr>
    requires TailsInOrder(s)
  {
    s.hist.accepted[ConsTail(s)..]
  }

  // A Push takes effect when it stores prod_tail_, a Pop when it stores cons_tail_.
  function LateEffect(s: State, a: Action): QueueStep {
    if Publishes(s, a) then Enqueue(s.threads[a.t].pc.ptr)
    else if Releases(s, a) then Dequeue(s.threads[a.t].pc.value)
    else Stutter
  }

  lemma {:induction false} OthersKeepTails(s: State, a: Action)
    requires InBounds(s) && !Publishes(s, a) && !Releases(s, a)
    ensures Next(s, a).hist.accepted == s.hist.accepted && Next(s, a).hist.returned == s.hist.returned
  {}

  // Every such step is a step of a FIFO queue, of capacity c exactly if a publication finds fewer
  // than c records pending; and c = size always suffices.
  lemma {:induction false} StepRefinesLate(s: State, a: Action, c: nat)
    requires WeakInv(s) && WeakInv(Next(s, a))
    ensures QueueMoves(Pending(s), LateEffect(s, a), Pending(Next(s, a)), c) <==> PublicationFits(s, a, c)
    ensures PublicationFits(s, a, s.mem.size)
  {
    if Publishes(s, a) {
      assert LocalsOk(s, a.t);
    } else if Releases(s, a) {
      ReleaseDequeues(s, a);
    } else {
      OthersKeepTails(s, a);
    }
  }

  predicate PublicationFits(s: State, a: Action, c: nat) { Publishes(s, a) ==> ProdTail(s) < ConsTail(s) + c }

  lemma {:induction false} ReleaseDequeues(s: State, a: Action)
    requires WeakInv(s) && Releases(s, a) && TailsInOrder(Next(s, a))
    ensures Pending(s) == [s.threads[a.t].pc.value] + Pending(Next(s, a))
  {
    assert LocalsOk(s, a.t);
    assert s.hist.accepted[ConsTail(s)] == s.hist.claimed[ConsTail(s)];
  }

  function LateEffects(s: State, run: seq<Action>): seq<QueueStep>
    requires InBounds(s)
    decreases |run|
  {
    if run == [] then []
    else StaysInBounds(s, run[0]); [LateEffect(s, run[0])] + LateEffects(Next(s, run[0]), run[1..])
  }

  predicate PublicationsFit(s: State, run: seq<Action>, c: nat)
    requires InBounds(s)
    decreases |run|
  {
    run == [] ||
    (PublicationFits(s, run[0], c) && (StaysInBounds(s, run[0]); PublicationsFit(Next(s, run[0]), run[1..], c)))
  }

  // The steps of a queue determine its path.
  lemma {:induction false} QueueIsDetermined(
    q: seq<Ptr>, step: QueueStep, mid: seq<Ptr>, steps: seq<QueueStep>, q': seq<Ptr>, c: nat)
    requires step.Enqueue? ==> mid == q + [step.x]
    requires step.Dequeue? ==> q == [step.x] + mid
    requires step.Stutter? ==> mid == q
    ensures QueueRuns(q, [step] + steps, q', c) <==> QueueMoves(q, step, mid, c) && QueueRuns(mid, steps, q', c)
  {
    assert ([step] + steps)[1..] == steps;
    forall other | QueueMoves(q, step, other, c) ensures other == mid {
      if step.Dequeue? { assert other == q[1..] == mid; }
    }
  }

  // The whole run, of any number of producers and consumers, whatever its exchanges find.
  lemma {:induction false} AccessRunIsFifo(s: State, run: seq<Action>, c: nat)
    requires WeakInv(s) && AccessRun(s, run)
    ensures WeakInv(Exec(s, run))
    ensures QueueRuns(Pending(s), LateEffects(s, run), Pending(Exec(s, run)), c) <==> PublicationsFit(s, run, c)
    ensures PublicationsFit(s, run, s.mem.size)
    decreases |run|
  {
    if run != [] {
      var a, s' := run[0], Next(s, run[0]);
      StaysInBounds(s, a);
      StepKeepsWeakIff(s, a);
      AccessRunIsFifo(s', run[1..], c);
      StepRefinesLate(s, a, c);
      StepRefinesLate(s, a, s.mem.size);
      QueueIsDetermined(Pending(s), LateEffect(s, a), Pending(s'), LateEffects(s', run[1..]), Pending(Exec(s, run)), c);
    }
  }

  // In particular popped pointers come back in the order in which they were accepted.
  lemma {:induction false} AccessRunKeepsOrder(size: nat, threads: nat, run: seq<Action>)
    requires size > 0 && AccessRun(Init(size, threads), run)
    ensures
      var s := Exec(Init(size, threads), run);
      s.hist.returned <= s.hist.accepted && |s.hist.accepted| - |s.hist.returned| <= size
  {
    InitInv(size, threads);
    InvIsWeak(Init(size, threads));
    RunKeepsWeakIff(Init(size, threads), run);
  }

  // Runs that find room are such runs, and publish within capacity size - 1.
  lemma {:induction false} RoomyRunAccesses(s: State, run: seq<Action>, c: nat)
    requires Inv(s) && RoomyRun(s, run) && c == s.mem.size - 1
    ensures AccessRun(s, run) && PublicationsFit(s, run, c)
    decreases |run|
  {
    if run != [] {
      RoomyStepAccesses(s, run[0]);
      StaysInBounds(s, run[0]);
      StepKeepsInvIff(s, run[0]);
      RoomyRunAccesses(Next(s, run[0]), run[1..], c);
    }
  }

  lemma {:induction false} RoomyStepAccesses(s: State, a: Action)
    requires Inv(s)
    ensures AccessOk(s, a) && PublicationFits(s, a, s.mem.size - 1)
  {
    if a.t < |s.threads| { assert ThreadOk(s, a.t); }
  }
}
