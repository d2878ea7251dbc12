/** Runs of the channel that find room are runs of a bounded FIFO queue. */
module ChannelFifo {
  import opened ChannelMachine
  import opened ChannelSlots
  import opened ChannelInvariant

  // ---- the queue that is refined ----

  datatype QueueStep = Enqueue(x: Ptr) | Dequeue(x: Ptr) | Stutter

  predicate QueueMoves(q: seq<Ptr>, step: QueueStep, q': seq<Ptr>, capacity: nat) {
    match step
    case Enqueue(x) => |q| < capacity && q' == q + [x]
    case Dequeue(x) => q == [x] + q'
    case Stutter => q' == q
  }

  predicate InOrder(s: State) { ConsHead(s) <= ProdTail(s) <= ProdHead(s) }

  // The published pointers that no consumer has claimed.
  function Queue(s: State): seq<Ptr>
    requires InOrder(s)
  {
    s.hist.claimed[ConsHead(s)..ProdTail(s)]
  }

  predicate Publishes(s: State, a: Action) {
    a.Go? && a.t < |s.threads| && s.threads[a.t].pc.PushPublish?
  }

  // A Push takes effect when it stores prod_tail_, a Pop when it wins cons_head_.
  function Effect(s: State, a: Action): QueueStep
  {
    if Publishes(s, a) then Enqueue(s.threads[a.t].pc.ptr)
    else if Takes(s, a) && ConsHead(s) < ProdHead(s) then Dequeue(s.hist.claimed[ConsHead(s)])
    else Stutter
  }

  lemma {:induction false} ClaimedOnlyGrows(s: State, a: Action)
    requires InBounds(s)
    ensures s.hist.claimed <= Next(s, a).hist.claimed
    ensures s.hist.accepted <= Next(s, a).hist.accepted
    ensures s.hist.returned <= Next(s, a).hist.returned
    ensures s.hist.takers <= Next(s, a).hist.takers
  {}

  lemma {:induction false} PublishEnqueues(s: State, a: Action)
    requires Inv(s) && Publishes(s, a) && Inv(Next(s, a))
    ensures |Queue(s)| < s.mem.size - 1 && Queue(Next(s, a)) == Queue(s) + [s.threads[a.t].pc.ptr]
  {
    assert ThreadOk(s, a.t);
  }

  lemma {:induction false} TakeDequeues(s: State, a: Action)
    requires Inv(s) && Takes(s, a) && ConsHead(s) < ProdTail(s) && Inv(Next(s, a))
    ensures Queue(s) == [s.hist.claimed[ConsHead(s)]] + Queue(Next(s, a))
  {}

  lemma {:induction false} OthersKeepQueue(s: State, a: Action)
    requires InBounds(s) && !Publishes(s, a) && !Takes(s, a)
    ensures Next(s, a).hist.accepted == s.hist.accepted && Next(s, a).hist.takers == s.hist.takers
  {}

  // Every step that finds room is a step of the queue of capacity size - 1.
  lemma {:induction false} RefinesFifo(s: State, a: Action)
    requires Inv(s) && HasRoom(s, a)
    ensures Inv(Next(s, a))
    ensures QueueMoves(Queue(s), Effect(s, a), Queue(Next(s, a)), s.mem.size - 1)
  {
    StepKeepsInvIff(s, a);
    if Publishes(s, a) {
      PublishEnqueues(s, a);
    } else if Takes(s, a) {
      TakeDequeues(s, a);
    } else {
      OthersKeepQueue(s, a);
      ClaimedOnlyGrows(s, a);
      assert Queue(Next(s, a)) == Queue(s);
    }
  }

  function Effects(s: State, run: seq<Action>): seq<QueueStep>
    requires InBounds(s)
    decreases |run|
  {
    if run == [] then []
    else StaysInBounds(s, run[0]); [Effect(s, run[0])] + Effects(Next(s, run[0]), run[1..])
  }

  // There is a path of the queue from q to q' with these steps.
  ghost predicate QueueRuns(q: seq<Ptr>, steps: seq<QueueStep>, q': seq<Ptr>, capacity: nat)
    decreases |steps|
  {
    if steps == [] then q' == q
    else exists mid: seq<Ptr> :: QueueMoves(q, steps[0], mid, capacity) && QueueRuns(mid, steps[1..], q', capacity)
  }

  lemma {:induction false} PrependStep(
    q: seq<Ptr>, step: QueueStep, mid: seq<Ptr>, steps: seq<QueueStep>, q': seq<Ptr>, capacity: nat)
    requires QueueMoves(q, step, mid, capacity) && QueueRuns(mid, steps, q', capacity)
    ensures QueueRuns(q, [step] + steps, q', capacity)
  {
    assert ([step] + steps)[1..] == steps;
  }

  lemma {:induction false} StepThenRun(s: State, run: seq<Action>, capacity: nat)
    requires InBounds(s) && run != [] && InBounds(Next(s, run[0]))
    requires InOrder(s) && InOrder(Next(s, run[0])) && InOrder(Exec(s, run))
    requires QueueMoves(Queue(s), Effect(s, run[0]), Queue(Next(s, run[0])), capacity)
    requires QueueRuns(Queue(Next(s, run[0])), Effects(Next(s, run[0]), run[1..]), Queue(Exec(s, run)), capacity)
    ensures QueueRuns(Queue(s), Effects(s, run), Queue(Exec(s, run)), capacity)
  {
    var s' := Next(s, run[0]);
    PrependStep(Queue(s), Effect(s, run[0]), Queue(s'), Effects(s', run[1..]), Queue(Exec(s, run)), capacity);
  }

  lemma {:induction false} RunRefinesFifo(s: State, run: seq<Action>)
    requires Inv(s) && RoomyRun(s, run)
    ensures Inv(Exec(s, run))
    ensures QueueRuns(Queue(s), Effects(s, run), Queue(Exec(s, run)), s.mem.size - 1)
    decreases |run|
  {
    RunKeepsInvIff(s, run);
    RunMoves(s, run, s.mem.size - 1);
  }

  lemma {:induction false} RunMoves(s: State, run: seq<Action>, capacity: nat)
    requires Inv(s) && RoomyRun(s, run) && Inv(Exec(s, run)) && capacity == s.mem.size - 1
    ensures QueueRuns(Queue(s), Effects(s, run), Queue(Exec(s, run)), capacity)
    decreases |run|
  {
    if run != [] {
      StaysInBounds(s, run[0]);
      RefinesFifo(s, run[0]);
      RunMoves(Next(s, run[0]), run[1..], capacity);
      StepThenRun(s, run, capacity);
    }
  }

  lemma {:induction false} AcceptedSplits(s: State)
    requires Inv(s)
    ensures s.hist.returned <= s.hist.accepted && |Queue(s)| <= s.mem.size - 1
    ensures s.hist.accepted == s.hist.returned + s.hist.accepted[ConsTail(s)..ConsHead(s)] + Queue(s)
  {
    var c, a := s.hist.claimed, s.hist.accepted;
    assert a == c[..ProdTail(s)] && s.hist.returned == c[..ConsTail(s)];
    assert a == a[..ConsTail(s)] + a[ConsTail(s)..ConsHead(s)] + a[ConsHead(s)..];
    assert a[ConsHead(s)..] == Queue(s);
  }

  // Nothing is lost, duplicated or invented: the k-th pointer that Pop calls gave back is the
  // k-th that Push calls accepted; the rest are with the consumers that claimed them, or queued.
  lemma {:induction false} NothingLostOrInvented(size: nat, threads: nat, run: seq<Action>)
    requires size > 0 && RoomyRun(Init(size, threads), run)
    ensures
      var s := Exec(Init(size, threads), run);
      && Inv(s)
      && s.hist.returned <= s.hist.accepted
      && s.hist.accepted ==
         s.hist.returned + s.hist.accepted[ConsTail(s)..ConsHead(s)] + Queue(s)
      && |Queue(s)| <= size - 1
  {
    InitInv(size, threads);
    RunKeepsInvIff(Init(size, threads), run);
    AcceptedSplits(Exec(Init(size, threads), run));
  }

  // The consumer of ticket k holds exactly what the producer of ticket k was given.
  lemma {:induction false} ConsumerGetsProducersPointer(s: State, k: nat)
    requires Inv(s) && k < ConsHead(s)
    ensures k < ConsTail(s) ==> s.hist.returned[k] == s.hist.accepted[k]
    ensures k >= ConsTail(s) ==>
      var pc := s.threads[s.hist.takers[k]].pc;
      && ConsumerHolds(s, s.hist.takers[k], k)
      && (pc.PopRead? ==> s.mem.records[pc.head] == s.hist.accepted[k])
      && (!pc.PopRead? ==> pc.value == s.hist.accepted[k])
  {
    if k >= ConsTail(s) {
      assert ConsumerHolds(s, s.hist.takers[k], k);
      assert ThreadOk(s, s.hist.takers[k]);
    }
  }

  // Once every call has returned, the accepted pointers are the returned ones and the queue.
  lemma {:induction false} QuiescentContents(s: State)
    requires Inv(s) && forall t :: 0 <= t < |s.threads| ==> s.threads[t].pc.Idle?
    ensures s.hist.accepted == s.hist.claimed == s.hist.returned + Queue(s)
  {
    TicketsAreOwnedOnce(s, ConsTail(s));
    TicketsAreOwnedOnce(s, ProdTail(s));
  }

  predicate Refuses(s: State, t: Tid)
    requires InBounds(s) && t < |s.threads|
  {
    Advance(s, t, false).threads[t].pc.Idle?
  }

  predicate Full(s: State) { ProdHead(s) - ConsTail(s) == s.mem.size - 1 }

  // The slot it loaded has been released since, and the consumers are now whole laps ahead of it.
  predicate LappedByConsumers(s: State, mark: nat)
    requires s.mem.size > 0
  {
    mark + 1 <= ConsTail(s) && (ConsTail(s) - (mark + 1)) % s.mem.size == 0
  }

  // The producers are whole laps ahead of the slot it loaded.
  predicate LappedByProducers(s: State, mark: nat)
    requires s.mem.size > 0
  {
    ProdTail(s) > mark && (ProdTail(s) - mark) % s.mem.size == 0
  }

  // Push refuses exactly when its head is current and size - 1 slots are unreleased, or when its
  // head is stale by whole laps. (StalePushRefusesEmptyChannel shows that the latter happens.)
  lemma {:induction false} PushRefusesIff(s: State, t: Tid)
    requires Inv(s) && t < |s.threads| && s.threads[t].pc.PushCheck?
    ensures
      var mark := s.threads[t].mark;
      Refuses(s, t) <==> (mark == ProdHead(s) && Full(s)) || LappedByConsumers(s, mark)
  {
    assert ThreadOk(s, t);
    var size, mark := s.mem.size, s.threads[t].mark;
    assert Slot(mark + 1, size) == Inc(Slot(mark, size), size);
    SlotMeets(mark + 1, ConsTail(s), size);
  }

  // Pop refuses exactly when its head is current and every published record is taken, or when
  // its head is stale by whole laps.
  lemma {:induction false} PopRefusesIff(s: State, t: Tid)
    requires Inv(s) && t < |s.threads| && s.threads[t].pc.PopCheck?
    ensures
      var mark := s.threads[t].mark;
      Refuses(s, t) <==> (mark == ConsHead(s) && Queue(s) == []) || LappedByProducers(s, mark)
  {
    assert ThreadOk(s, t);
    var mark := s.threads[t].mark;
    SlotMeets(mark, ProdTail(s), s.mem.size);
  }
}
