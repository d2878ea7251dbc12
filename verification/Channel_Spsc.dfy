/** One producer makes every claim lap-free, one consumer every take; with both, all the
    guarantees of lap-free runs hold of every run. With only one of them, one half of the
    conditions is left. */
module ChannelSpsc {
  import opened ChannelMachine
  import opened ChannelSlots
  import opened ChannelInvariant
  import opened ChannelFifo
  import opened ChannelAccess

  // Only p pushes, and the head it loaded is the current one.
  predicate SoleProducer(s: State, p: Tid) {
    forall t :: 0 <= t < |s.threads| ==>
      && (InPush(s.threads[t].pc) ==> t == p)
      && (s.threads[t].pc.PushCheck? || s.threads[t].pc.PushCas? ==> s.threads[t].mark == ProdHead(s))
  }

  // Only c pops, and the head it loaded is the current one.
  predicate SoleConsumer(s: State, c: Tid) {
    forall t :: 0 <= t < |s.threads| ==>
      && (InPop(s.threads[t].pc) ==> t == c)
      && (s.threads[t].pc.PopCheck? || s.threads[t].pc.PopCas? ==> s.threads[t].mark == ConsHead(s))
  }

  lemma {:induction false} SoleProducerClaimsLapFree(s: State, a: Action, p: Tid)
    requires InBounds(s) && SoleProducer(s, p) && (a.Push? ==> a.t == p)
    ensures Claims(s, a) ==> s.threads[a.t].mark == ProdHead(s)
    ensures SoleProducer(Next(s, a), p)
  {
    StaysInBounds(s, a);
  }

  lemma {:induction false} SoleConsumerTakesLapFree(s: State, a: Action, c: Tid)
    requires InBounds(s) && SoleConsumer(s, c) && (a.Pop? ==> a.t == c)
    ensures Takes(s, a) ==> s.threads[a.t].mark == ConsHead(s)
    ensures SoleConsumer(Next(s, a), c)
  {
    StaysInBounds(s, a);
  }

  // Every Push call of the run is made by p.
  predicate PushesFrom(run: seq<Action>, p: Tid) {
    forall i :: 0 <= i < |run| && run[i].Push? ==> run[i].t == p
  }

  // Every Pop call of the run is made by c.
  predicate PopsFrom(run: seq<Action>, c: Tid) {
    forall i :: 0 <= i < |run| && run[i].Pop? ==> run[i].t == c
  }

  predicate OneProducerOneConsumer(run: seq<Action>, p: Tid, c: Tid) { PushesFrom(run, p) && PopsFrom(run, c) }

  lemma {:induction false} SpscIsLapFree(s: State, run: seq<Action>, p: Tid, c: Tid)
    requires InBounds(s) && SoleProducer(s, p) && SoleConsumer(s, c)
    requires OneProducerOneConsumer(run, p, c)
    ensures LapFreeRun(s, run)
    ensures SoleProducer(Exec(s, run), p) && SoleConsumer(Exec(s, run), c)
    decreases |run|
  {
    if run != [] {
      SoleProducerClaimsLapFree(s, run[0], p);
      SoleConsumerTakesLapFree(s, run[0], c);
      StaysInBounds(s, run[0]);
      SpscIsLapFree(Next(s, run[0]), run[1..], p, c);
    }
  }

  // With one producer and one consumer, in every run: popped pointers are a prefix of the
  // accepted ones; Push refuses exactly when size - 1 records are unreleased when it loads
  // cons_tail_; Pop refuses exactly when nothing is queued when it loads prod_tail_.
  lemma {:induction false} SpscRunsAreFifo(size: nat, threads: nat, run: seq<Action>, p: Tid, c: Tid)
    requires size > 0 && p < threads && c < threads && OneProducerOneConsumer(run, p, c)
    ensures
      var s := Exec(Init(size, threads), run);
      && Inv(s)
      && s.hist.returned <= s.hist.accepted
      && (s.threads[p].pc.PushCheck? ==>
           (Refuses(s, p) <==> |s.hist.accepted| - |s.hist.returned| == size - 1))
      && (s.threads[c].pc.PopCheck? ==>
           (Refuses(s, c) <==> Queue(s) == []))
  {
    var s := Exec(Init(size, threads), run);
    SpscIsLapFree(Init(size, threads), run, p, c);
    InitInv(size, threads);
    LapFreeRunHasRoom(Init(size, threads), run);
    NothingLostOrInvented(size, threads, run);
    if s.threads[p].pc.PushCheck? { SoleProducerRefuses(s, p); }
    if s.threads[c].pc.PopCheck? { SoleConsumerRefuses(s, c); }
  }

  lemma {:induction false} SoleProducerRefuses(s: State, p: Tid)
    requires Inv(s) && SoleProducer(s, p) && p < |s.threads| && s.threads[p].pc.PushCheck?
    ensures Refuses(s, p) <==> |s.hist.accepted| - |s.hist.returned| == s.mem.size - 1
  {
    PushRefusesIff(s, p);
    TicketsAreOwnedOnce(s, ProdTail(s));
  }

  lemma {:induction false} SoleConsumerRefuses(s: State, c: Tid)
    requires Inv(s) && SoleConsumer(s, c) && c < |s.threads| && s.threads[c].pc.PopCheck?
    ensures Refuses(s, c) <==> Queue(s) == []
  {
    PopRefusesIff(s, c);
    if Queue(s) != [] { NotAWholeLap(|Queue(s)|, s.mem.size); }
  }

  // ---- many producers and one consumer, and the other way round ----

  predicate ClaimsFindRoom(s: State, run: seq<Action>)
    requires InBounds(s)
    decreases |run|
  {
    run == [] ||
    (&& (Claims(s, run[0]) ==> ProdHead(s) + 1 < ConsTail(s) + s.mem.size)
     && (StaysInBounds(s, run[0]); ClaimsFindRoom(Next(s, run[0]), run[1..])))
  }

  predicate TakesFindRecords(s: State, run: seq<Action>)
    requires InBounds(s)
    decreases |run|
  {
    run == [] ||
    (&& (Takes(s, run[0]) ==> ConsHead(s) < ProdTail(s))
     && (StaysInBounds(s, run[0]); TakesFindRecords(Next(s, run[0]), run[1..])))
  }

  // With one consumer a run is roomy if and only if its claims find room.
  lemma {:induction false} OneConsumerRoomyIff(s: State, run: seq<Action>, c: Tid)
    requires Inv(s) && SoleConsumer(s, c) && PopsFrom(run, c)
    ensures RoomyRun(s, run) <==> ClaimsFindRoom(s, run)
    decreases |run|
  {
    if run != [] {
      var a := run[0];
      SoleConsumerTakesLapFree(s, a, c);
      if Takes(s, a) { assert ThreadOk(s, a.t); }
      StepKeepsInvIff(s, a);
      if HasRoom(s, a) { OneConsumerRoomyIff(Next(s, a), run[1..], c); }
    }
  }

  // With one producer it is if and only if its takes find published records.
  lemma {:induction false} OneProducerRoomyIff(s: State, run: seq<Action>, p: Tid)
    requires Inv(s) && SoleProducer(s, p) && PushesFrom(run, p)
    ensures RoomyRun(s, run) <==> TakesFindRecords(s, run)
    decreases |run|
  {
    if run != [] {
      var a := run[0];
      SoleProducerClaimsLapFree(s, a, p);
      if Claims(s, a) { assert ThreadOk(s, a.t); }
      StepKeepsInvIff(s, a);
      if HasRoom(s, a) { OneProducerRoomyIff(Next(s, a), run[1..], p); }
    }
  }

  predicate WritesFit(s: State, run: seq<Action>)
    requires InBounds(s)
    decreases |run|
  {
    run == [] || (WriteFits(s, run[0]) && (StaysInBounds(s, run[0]); WritesFit(Next(s, run[0]), run[1..])))
  }

  predicate ReadsFit(s: State, run: seq<Action>)
    requires InBounds(s)
    decreases |run|
  {
    run == [] || (ReadFits(s, run[0]) && (StaysInBounds(s, run[0]); ReadsFit(Next(s, run[0]), run[1..])))
  }

  // What a sole consumer has claimed is published.
  predicate ConsumerBehind(s: State) {
    && ConsHead(s) <= ProdTail(s)
    && forall t :: 0 <= t < |s.threads| && (s.threads[t].pc.PopCas? || s.threads[t].pc.PopRead?) ==>
         s.threads[t].mark < ProdTail(s)
  }

  lemma {:induction false} SoleConsumerStaysBehind(s: State, a: Action, c: Tid)
    requires WeakInv(s) && SoleConsumer(s, c) && ConsumerBehind(s)
    ensures ReadFits(s, a) && ConsumerBehind(Next(s, a))
  {
    if a.t < |s.threads| { assert LocalsOk(s, a.t); }
    StaysInBounds(s, a);
  }

  // What a sole producer has claimed is within a lap of the last release.
  predicate ProducerBehind(s: State) {
    && ProdHead(s) < ConsTail(s) + s.mem.size
    && forall t :: 0 <= t < |s.threads| ==>
         && (s.threads[t].pc.PushCas? ==> s.threads[t].mark + 1 < ConsTail(s) + s.mem.size)
         && (s.threads[t].pc.PushWrite? ==> s.threads[t].mark < ConsTail(s) + s.mem.size)
  }

  lemma {:induction false} SoleProducerStaysBehind(s: State, a: Action, p: Tid)
    requires WeakInv(s) && SoleProducer(s, p) && ProducerBehind(s)
    ensures WriteFits(s, a) && ProducerBehind(Next(s, a))
  {
    StaysInBounds(s, a);
    if a.t < |s.threads| {
      assert LocalsOk(s, a.t);
      if a.Go? && s.threads[a.t].pc.PushCheck? { CheckStaysBehind(s, a); }
    }
  }

  lemma {:induction false} CheckStaysBehind(s: State, a: Action)
    requires WeakInv(s) && ProducerBehind(s) && a.Go? && a.t < |s.threads| && s.threads[a.t].pc.PushCheck?
    requires s.threads[a.t].mark == ProdHead(s)
    ensures ProducerBehind(Next(s, a))
  {
    assert LocalsOk(s, a.t);
    assert Slot(ProdHead(s) + 1, s.mem.size) == Inc(Slot(ProdHead(s), s.mem.size), s.mem.size);
    SlotLap(ConsTail(s), s.mem.size);
  }

  // With one consumer and any number of producers, the weaker invariant is kept all along if and
  // only if every record is written to a slot that is released.
  lemma {:induction false} OneConsumerKeepsWeakIff(s: State, run: seq<Action>, c: Tid)
    requires WeakInv(s) && SoleConsumer(s, c) && ConsumerBehind(s) && PopsFrom(run, c)
    ensures AlwaysWeak(s, run) <==> WritesFit(s, run)
    decreases |run|
  {
    if run != [] {
      var a := run[0];
      StaysInBounds(s, a);
      SoleConsumerTakesLapFree(s, a, c);
      SoleConsumerStaysBehind(s, a, c);
      StepKeepsWeakIff(s, a);
      if WriteFits(s, a) { OneConsumerKeepsWeakIff(Next(s, a), run[1..], c); }
    }
  }

  // With one producer and any number of consumers, if and only if every record is read after it is
  // published.
  lemma {:induction false} OneProducerKeepsWeakIff(s: State, run: seq<Action>, p: Tid)
    requires WeakInv(s) && SoleProducer(s, p) && ProducerBehind(s) && PushesFrom(run, p)
    ensures AlwaysWeak(s, run) <==> ReadsFit(s, run)
    decreases |run|
  {
    if run != [] {
      var a := run[0];
      StaysInBounds(s, a);
      SoleProducerClaimsLapFree(s, a, p);
      SoleProducerStaysBehind(s, a, p);
      StepKeepsWeakIff(s, a);
      if ReadFits(s, a) { OneProducerKeepsWeakIff(Next(s, a), run[1..], p); }
    }
  }

  // The streams of the pipeline: any number of producers, one consumer, from the start.
  lemma {:induction false} StreamIsFifo(size: nat, threads: nat, run: seq<Action>, c: Tid)
    requires size > 0 && PopsFrom(run, c) && WritesFit(Init(size, threads), run)
    ensures AccessRun(Init(size, threads), run)
    ensures
      var s := Exec(Init(size, threads), run);
      && WeakInv(s) && s.hist.returned <= s.hist.accepted && |s.hist.accepted| - |s.hist.returned| <= size
      && QueueRuns([], LateEffects(Init(size, threads), run), Pending(s), size)
  {
    var s := Init(size, threads);
    InitInv(size, threads);
    InvIsWeak(s);
    OneConsumerKeepsWeakIff(s, run, c);
    RunKeepsWeakIff(s, run);
    AccessRunIsFifo(s, run, size);
    AccessRunKeepsOrder(size, threads, run);
  }
}
