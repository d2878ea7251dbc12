/** No state of a run that finds room is stuck: every call in progress can be completed. */
module ChannelProgress {
  import opened ChannelMachine
  import opened ChannelInvariant

  // Before the exchange.
  predicate Contending(pc: Pc) {
    pc.PushStart? || pc.PushCheck? || pc.PushCas? || pc.PopStart? || pc.PopCheck? || pc.PopCas?
  }

  // The loaded head is not the current one any more.
  predicate Stale(s: State, th: Thread) {
    || ((th.pc.PushCheck? || th.pc.PushCas?) && th.mark != ProdHead(s))
    || ((th.pc.PopCheck? || th.pc.PopCas?) && th.mark != ConsHead(s))
  }

  // Steps left for the thread when no other thread wins an exchange.
  function Rank(s: State, th: Thread): nat {
    match th.pc
    case Idle => 0
    case PushPublish(_, _, _) | PopRelease(_, _, _) => 1
    case PushWait(_, _, _) | PopWait(_, _, _) => 2
    case PushWrite(_, _, _) | PopRead(_, _) => 3
    case PushCas(_, _, _) | PopCas(_, _) => if Stale(s, th) then 6 else 4
    case PushCheck(_, _) | PopCheck(_) => if Stale(s, th) then 7 else 5
    case PushStart(_) | PopStart => 6
  }

  function Sum(xs: seq<nat>): nat { if xs == [] then 0 else xs[0] + Sum(xs[1..]) }

  lemma {:induction false} SumUpdate(xs: seq<nat>, i: nat, x: nat)
    requires i < |xs|
    ensures Sum(xs[i := x]) + xs[i] == Sum(xs) + x
    decreases |xs|
  {
    if i == 0 {
      assert xs[0 := x][1..] == xs[1..];
    } else {
      assert xs[i := x][1..] == xs[1..][i - 1 := x];
      SumUpdate(xs[1..], i - 1, x);
    }
  }

  function Contenders(s: State): seq<nat> {
    seq(|s.threads|, i requires 0 <= i < |s.threads| => if Contending(s.threads[i].pc) then 1 else 0)
  }

  function Ranks(s: State): seq<nat> {
    seq(|s.threads|, i requires 0 <= i < |s.threads| => Rank(s, s.threads[i]))
  }

  // The measure: threads before their exchange first, then steps left.
  predicate Decreases(s: State, s': State) {
    || Sum(Contenders(s')) < Sum(Contenders(s))
    || (Sum(Contenders(s')) == Sum(Contenders(s)) && Sum(Ranks(s')) < Sum(Ranks(s)))
  }

  // A step of one thread that advances no head lowers the measure if it lowers its own rank.
  lemma {:induction false} LowerRankDecreases(s: State, s': State, t: Tid)
    requires t < |s.threads| == |s'.threads|
    requires s'.threads == s.threads[t := s'.threads[t]]
    requires ProdHead(s') == ProdHead(s) && ConsHead(s') == ConsHead(s)
    requires Rank(s', s'.threads[t]) < Rank(s, s.threads[t])
    requires Contending(s'.threads[t].pc) ==> Contending(s.threads[t].pc)
    ensures Decreases(s, s')
  {
    assert Ranks(s') == Ranks(s)[t := Rank(s', s'.threads[t])];
    SumUpdate(Ranks(s), t, Rank(s', s'.threads[t]));
    var c := if Contending(s'.threads[t].pc) then 1 else 0;
    assert Contenders(s') == Contenders(s)[t := c];
    SumUpdate(Contenders(s), t, c);
  }

  lemma {:induction false} WinningDecreases(s: State, s': State, t: Tid)
    requires t < |s.threads| == |s'.threads|
    requires s'.threads == s.threads[t := s'.threads[t]]
    requires Contending(s.threads[t].pc) && !Contending(s'.threads[t].pc)
    ensures Decreases(s, s')
  {
    assert Contenders(s') == Contenders(s)[t := 0];
    SumUpdate(Contenders(s), t, 0);
  }

  // The holder of the oldest unpublished ticket never spins.
  lemma {:induction false} OldestProducerMoves(s: State, t: Tid)
    requires Inv(s) && ProdTail(s) < ProdHead(s) && t == s.hist.claimants[ProdTail(s)]
    ensures t < |s.threads| && Next(s, Go(t, false)) != s && LapFree(s, Go(t, false))
    ensures Decreases(s, Next(s, Go(t, false)))
  {
    assert ProducerHolds(s, t, ProdTail(s));
    assert ThreadOk(s, t);
    LowerRankDecreases(s, Next(s, Go(t, false)), t);
  }

  // The holder of the oldest unreleased ticket never spins.
  lemma {:induction false} OldestConsumerMoves(s: State, t: Tid)
    requires Inv(s) && ConsTail(s) < ConsHead(s) && t == s.hist.takers[ConsTail(s)]
    ensures t < |s.threads| && Next(s, Go(t, false)) != s && LapFree(s, Go(t, false))
    ensures Decreases(s, Next(s, Go(t, false)))
  {
    assert ConsumerHolds(s, t, ConsTail(s));
    assert ThreadOk(s, t);
    LowerRankDecreases(s, Next(s, Go(t, false)), t);
  }

  // A thread spinning in a wait loop waits for another thread, which can move.
  lemma {:induction false} SpinnerWaitsForOldest(s: State, t: Tid, spurious: bool) returns (u: Tid)
    requires Inv(s) && t < |s.threads| && Advance(s, t, spurious) == s && !s.threads[t].pc.Idle?
    ensures s.threads[t].pc.PushWait? || s.threads[t].pc.PopWait?
    ensures s.threads[t].pc.PushWait? ==> ProducerHolds(s, u, ProdTail(s)) && ProdTail(s) < s.threads[t].mark
    ensures s.threads[t].pc.PopWait? ==> ConsumerHolds(s, u, ConsTail(s)) && ConsTail(s) < s.threads[t].mark
    ensures u != t && Next(s, Go(u, false)) != s && Decreases(s, Next(s, Go(u, false)))
  {
    assert ThreadOk(s, t);
    assert s.threads[t := s.threads[t]] == s.threads;
    assert Advance(s, t, spurious).threads[t] == s.threads[t];
    if s.threads[t].pc.PushWait? {
      u := s.hist.claimants[ProdTail(s)];
      assert ProducerHolds(s, u, ProdTail(s));
      OldestProducerMoves(s, u);
    } else {
      u := s.hist.takers[ConsTail(s)];
      assert ConsumerHolds(s, u, ConsTail(s));
      OldestConsumerMoves(s, u);
    }
  }

  // A contending thread moves on; if its head is stale, by losing its exchange.
  lemma {:induction false} ContenderMoves(s: State, t: Tid)
    requires Inv(s) && t < |s.threads| && Contending(s.threads[t].pc)
    ensures LapFree(s, Go(t, Stale(s, s.threads[t])))
    ensures Decreases(s, Next(s, Go(t, Stale(s, s.threads[t]))))
  {
    assert ThreadOk(s, t);
    var a := Go(t, Stale(s, s.threads[t]));
    var s' := Next(s, a);
    if Claims(s, a) || Takes(s, a) {
      WinningDecreases(s, s', t);
    } else {
      LowerRankDecreases(s, s', t);
    }
  }

  // In every state with a call in progress some lap-free step lowers the measure.
  lemma {:induction false} SomeThreadMoves(s: State, t: Tid) returns (a: Action)
    requires Inv(s) && t < |s.threads| && !s.threads[t].pc.Idle?
    ensures a.Go? && LapFree(s, a) && Decreases(s, Next(s, a))
  {
    assert ThreadOk(s, t);
    if ProdTail(s) < ProdHead(s) {
      a := Go(s.hist.claimants[ProdTail(s)], false);
      OldestProducerMoves(s, a.t);
    } else if ConsTail(s) < ConsHead(s) {
      a := Go(s.hist.takers[ConsTail(s)], false);
      OldestConsumerMoves(s, a.t);
    } else {
      a := Go(t, Stale(s, s.threads[t]));
      ContenderMoves(s, t);
    }
  }

  predicate AllIdle(s: State) { forall t :: 0 <= t < |s.threads| ==> s.threads[t].pc.Idle? }

  // From every state with the invariant all calls in progress can be completed, without starting a new one.
  lemma {:induction false} CallsCanComplete(s: State) returns (run: seq<Action>)
    requires Inv(s)
    ensures forall i :: 0 <= i < |run| ==> run[i].Go?
    ensures LapFreeRun(s, run) && AllIdle(Exec(s, run))
    decreases Sum(Contenders(s)), Sum(Ranks(s))
  {
    run := [];
    if !AllIdle(s) {
      var t :| 0 <= t < |s.threads| && !s.threads[t].pc.Idle?;
      var a := SomeThreadMoves(s, t);
      LapFreeHasRoom(s, a);
      StepKeepsInvIff(s, a);
      var rest := CallsCanComplete(Next(s, a));
      run := [a] + rest;
      assert run[1..] == rest;
    }
  }

  // Every run that finds room, lap-free ones among them, can be continued in the same way until
  // every call has returned, without starting a new one.
  lemma {:induction false} RunsCanComplete(size: nat, threads: nat, run: seq<Action>) returns (more: seq<Action>)
    requires size > 0 && RoomyRun(Init(size, threads), run)
    ensures forall i :: 0 <= i < |more| ==> more[i].Go?
    ensures RoomyRun(Init(size, threads), run + more) && AllIdle(Exec(Init(size, threads), run + more))
    ensures LapFreeRun(Init(size, threads), run) ==> LapFreeRun(Init(size, threads), run + more)
  {
    var s := Init(size, threads);
    InitInv(size, threads);
    RunKeepsInvIff(s, run);
    more := CallsCanComplete(Exec(s, run));
    LapFreeRunHasRoom(Exec(s, run), more);
    RunsAppend(s, run, more);
    ExecAppend(s, run, more);
  }
}
