/** Calls that run alone, and concrete runs that show what the hypotheses are for. */
module ChannelRuns {
  import opened ChannelMachine
  import opened ChannelSlots
  import opened ChannelInvariant
  import opened ChannelFifo
  import opened ChannelAccess

  // The run takes s to s'.
  predicate Leads(s: State, run: seq<Action>, s': State) {
    InBounds(s) && InBounds(s') && Exec(s, run) == s'
  }

  lemma {:induction false} LeadsOn(s: State, run: seq<Action>, mid: State, a: Action, s': State)
    requires Leads(s, run, mid) && Next(mid, a) == s'
    ensures Leads(s, run + [a], s')
  {
    ExecAppend(s, run, [a]);
    StaysInBounds(mid, a);
    assert [a][1..] == [];
  }

  lemma {:induction false} LeadsFurther(s: State, run: seq<Action>, mid: State, more: seq<Action>, s': State)
    requires Leads(s, run, mid) && Leads(mid, more, s')
    ensures Leads(s, run + more, s')
  {
    ExecAppend(s, run, more);
  }

  lemma {:induction false} UpdateTwice<T>(xs: seq<T>, i: nat, x: T, y: T)
    requires i < |xs|
    ensures xs[i := x][i := y] == xs[i := y]
  {}

  // ---- a Push that runs alone ----

  // The call has refused, or is about to exchange with the current head.
  function PushChecked(s: State, t: Tid, ptr: Ptr): State
    requires t < |s.threads|
  {
    var next := Inc(s.mem.prodHead, s.mem.size);
    Put(s, t, if next == s.mem.consTail then Idle else PushCas(ptr, s.mem.prodHead, next), ProdHead(s))
  }

  lemma {:induction false} PushUpToCas(s: State, t: Tid, ptr: Ptr) returns (run: seq<Action>)
    requires InBounds(s) && t < |s.threads| && s.threads[t].pc.Idle?
    ensures run == [Push(t, ptr), Go(t, false), Go(t, false)]
    ensures Leads(s, run, PushChecked(s, t, ptr))
  {
    var s1 := Put(s, t, PushStart(ptr), 0);
    LeadsOn(s, [], s, Push(t, ptr), s1);
    run := [] + [Push(t, ptr)];
    var s2 := Put(s, t, PushCheck(ptr, s.mem.prodHead), ProdHead(s));
    UpdateTwice(s.threads, t, s1.threads[t], s2.threads[t]);
    LeadsOn(s, run, s1, Go(t, false), s2);
    run := run + [Go(t, false)];
    var s3 := PushChecked(s, t, ptr);
    UpdateTwice(s.threads, t, s2.threads[t], s3.threads[t]);
    LeadsOn(s, run, s2, Go(t, false), s3);
    run := run + [Go(t, false)];
  }

  // The record is appended.
  function Pushed(s: State, t: Tid, ptr: Ptr, head: nat, next: nat): State
    requires t < |s.threads| && head < |s.mem.records|
  {
    State(s.mem.(prodHead := next, prodTail := next, records := s.mem.records[head := ptr]),
          s.threads[t := Thread(Idle, ProdHead(s))],
          s.hist.(claimed := s.hist.claimed + [ptr], claimants := s.hist.claimants + [t],
                  accepted := s.hist.accepted + [ptr]))
  }

  // From the exchange on, undisturbed and with no other Push in progress.
  lemma {:induction false} PushFromCas(s: State, t: Tid) returns (run: seq<Action>)
    requires InBounds(s) && t < |s.threads| && s.threads[t].pc.PushCas?
    requires s.mem.prodTail == s.mem.prodHead == s.threads[t].pc.head
    ensures run == [Go(t, false), Go(t, false), Go(t, false), Go(t, false)]
    ensures var pc := s.threads[t].pc; Leads(s, run, Pushed(s, t, pc.ptr, pc.head, pc.next))
  {
    var PushCas(ptr, head, next) := s.threads[t].pc;
    var s1 := Claim(s, t, ptr, head, next);
    LeadsOn(s, [], s, Go(t, false), s1);
    run := [] + [Go(t, false)];
    var s2 := Write(s1, t, ptr, head, next);
    LeadsOn(s, run, s1, Go(t, false), s2);
    run := run + [Go(t, false)];
    var s3 := Put(s2, t, PushPublish(ptr, head, next), ProdHead(s));
    LeadsOn(s, run, s2, Go(t, false), s3);
    run := run + [Go(t, false)];
    var s4 := Publish(s3, t, ptr, next);
    LeadsOn(s, run, s3, Go(t, false), s4);
    run := run + [Go(t, false)];
    assert s4.threads == s.threads[t := Thread(Idle, ProdHead(s))];
  }

  // With no Push in progress, a Push that runs alone appends its record, or refuses.
  lemma {:induction false} SoloPush(s: State, t: Tid, ptr: Ptr) returns (run: seq<Action>)
    requires InBounds(s) && t < |s.threads| && s.threads[t].pc.Idle? && s.mem.prodTail == s.mem.prodHead
    ensures
      var head, next := s.mem.prodHead, Inc(s.mem.prodHead, s.mem.size);
      Leads(s, run, if next == s.mem.consTail then Put(s, t, Idle, ProdHead(s))
                    else Pushed(s, t, ptr, head, next))
  {
    run := PushUpToCas(s, t, ptr);
    var s1 := PushChecked(s, t, ptr);
    if s1.threads[t].pc.PushCas? {
      var rest := PushFromCas(s1, t);
      var s2 := Pushed(s1, t, ptr, s.mem.prodHead, Inc(s.mem.prodHead, s.mem.size));
      LeadsFurther(s, run, s1, rest, s2);
      UpdateTwice(s.threads, t, s1.threads[t], s2.threads[t]);
      run := run + rest;
    }
  }

  // ---- a Pop that runs alone ----

  function PopChecked(s: State, t: Tid): State
    requires t < |s.threads|
  {
    var head := s.mem.consHead;
    Put(s, t, if head == s.mem.prodTail then Idle else PopCas(head, Inc(head, s.mem.size)), ConsHead(s))
  }

  lemma {:induction false} PopUpToCas(s: State, t: Tid) returns (run: seq<Action>)
    requires InBounds(s) && t < |s.threads| && s.threads[t].pc.Idle?
    ensures Leads(s, run, PopChecked(s, t))
  {
    var s1 := Put(s, t, PopStart, 0);
    LeadsOn(s, [], s, Pop(t), s1);
    run := [] + [Pop(t)];
    var s2 := Put(s, t, PopCheck(s.mem.consHead), ConsHead(s));
    UpdateTwice(s.threads, t, s1.threads[t], s2.threads[t]);
    LeadsOn(s, run, s1, Go(t, false), s2);
    run := run + [Go(t, false)];
    var s3 := PopChecked(s, t);
    UpdateTwice(s.threads, t, s2.threads[t], s3.threads[t]);
    LeadsOn(s, run, s2, Go(t, false), s3);
    run := run + [Go(t, false)];
  }

  // The oldest record is removed.
  function Popped(s: State, t: Tid, head: nat, next: nat): State
    requires t < |s.threads| && head < |s.mem.records|
  {
    State(s.mem.(consHead := next, consTail := next),
          s.threads[t := Thread(Idle, ConsHead(s))],
          s.hist.(takers := s.hist.takers + [t], returned := s.hist.returned + [s.mem.records[head]]))
  }

  lemma {:induction false} PopFromCas(s: State, t: Tid) returns (run: seq<Action>)
    requires InBounds(s) && t < |s.threads| && s.threads[t].pc.PopCas?
    requires s.mem.consTail == s.mem.consHead == s.threads[t].pc.head
    ensures var pc := s.threads[t].pc; Leads(s, run, Popped(s, t, pc.head, pc.next))
  {
    var PopCas(head, next) := s.threads[t].pc;
    var s1 := Take(s, t, head, next);
    LeadsOn(s, [], s, Go(t, false), s1);
    run := [] + [Go(t, false)];
    var s2 := Put(s1, t, PopWait(head, next, s.mem.records[head]), ConsHead(s));
    LeadsOn(s, run, s1, Go(t, false), s2);
    run := run + [Go(t, false)];
    var s3 := Put(s2, t, PopRelease(head, next, s.mem.records[head]), ConsHead(s));
    LeadsOn(s, run, s2, Go(t, false), s3);
    run := run + [Go(t, false)];
    var s4 := Release(s3, t, next, s.mem.records[head]);
    LeadsOn(s, run, s3, Go(t, false), s4);
    run := run + [Go(t, false)];
    assert s4.threads == s.threads[t := Thread(Idle, ConsHead(s))];
  }

  // With no Pop in progress, a Pop that runs alone removes the oldest record, or refuses.
  lemma {:induction false} SoloPop(s: State, t: Tid) returns (run: seq<Action>)
    requires InBounds(s) && t < |s.threads| && s.threads[t].pc.Idle? && s.mem.consTail == s.mem.consHead
    ensures
      var head, next := s.mem.consHead, Inc(s.mem.consHead, s.mem.size);
      Leads(s, run, if head == s.mem.prodTail then Put(s, t, Idle, ConsHead(s))
                    else Popped(s, t, head, next))
  {
    run := PopUpToCas(s, t);
    var s1 := PopChecked(s, t);
    if s1.threads[t].pc.PopCas? {
      var rest := PopFromCas(s1, t);
      var s2 := Popped(s1, t, s.mem.consHead, Inc(s.mem.consHead, s.mem.size));
      LeadsFurther(s, run, s1, rest, s2);
      UpdateTwice(s.threads, t, s1.threads[t], s2.threads[t]);
      run := run + rest;
    }
  }

  // ---- concrete runs over a channel of size 2 with three threads ----

  // One record goes through the channel while thread 0 keeps its place.
  lemma {:induction false} OneRecordPasses(th: Thread) returns (run: seq<Action>)
    requires PcInBounds(th.pc, 2)
    ensures
      Leads(State(Memory(2, [0, 0], 0, 0, 0, 0), [th, Thread(Idle, 0), Thread(Idle, 0)],
                  History([], [], [], [], [])),
            run,
            State(Memory(2, [11, 0], 1, 1, 1, 1), [th, Thread(Idle, 0), Thread(Idle, 0)],
                  History([11], [1], [2], [11], [11])))
  {
    var s0 := State(Memory(2, [0, 0], 0, 0, 0, 0), [th, Thread(Idle, 0), Thread(Idle, 0)],
                    History([], [], [], [], []));
    var s1 := State(Memory(2, [11, 0], 1, 1, 0, 0), [th, Thread(Idle, 0), Thread(Idle, 0)],
                    History([11], [1], [], [11], []));
    var s2 := State(Memory(2, [11, 0], 1, 1, 1, 1), [th, Thread(Idle, 0), Thread(Idle, 0)],
                    History([11], [1], [2], [11], [11]));
    run := SoloPush(s0, 1, 11);
    assert Leads(s0, run, s1);
    var more := SoloPop(s1, 2);
    assert Leads(s1, more, s2);
    LeadsFurther(s0, run, s1, more, s2);
    run := run + more;
  }

  // Thread 0 has checked for room and stops before its exchange; meanwhile 11 passes through
  // and 12 is pushed, so the head has gone round once.
  lemma {:induction false} HeadGoesRound() returns (run: seq<Action>)
    ensures
      Leads(Init(2, 3), run,
            State(Memory(2, [11, 12], 0, 0, 1, 1),
                  [Thread(PushCas(10, 0, 1), 0), Thread(Idle, 1), Thread(Idle, 0)],
                  History([11, 12], [1, 1], [2], [11, 12], [11])))
  {
    var th := Thread(PushCas(10, 0, 1), 0);
    var s0 := State(Memory(2, [0, 0], 0, 0, 0, 0), [th, Thread(Idle, 0), Thread(Idle, 0)],
                    History([], [], [], [], []));
    var s1 := State(Memory(2, [11, 0], 1, 1, 1, 1), [th, Thread(Idle, 0), Thread(Idle, 0)],
                    History([11], [1], [2], [11], [11]));
    var s2 := State(Memory(2, [11, 12], 0, 0, 1, 1), [th, Thread(Idle, 1), Thread(Idle, 0)],
                    History([11, 12], [1, 1], [2], [11, 12], [11]));
    run := PushUpToCas(Init(2, 3), 0, 10);
    assert Leads(Init(2, 3), run, s0);
    var more := OneRecordPasses(th);
    LeadsFurther(Init(2, 3), run, s0, more, s1);
    run := run + more;
    more := SoloPush(s1, 1, 12);
    assert Leads(s1, more, s2);
    LeadsFurther(Init(2, 3), run, s1, more, s2);
    run := run + more;
  }

  // Thread 1 has pushed twice and is idle.
  function At(m: Memory, th0: Thread, th2: Thread, h: History): State { State(m, [th0, Thread(Idle, 1), th2], h) }

  // Thread 0 goes on, and one record too many is published.
  lemma {:induction false} OverfullRun() returns (before: seq<Action>, after: seq<Action>)
    ensures before <= after
    ensures Leads(Init(2, 3), before,
                  At(Memory(2, [11, 12], 0, 0, 1, 1), Thread(PushCas(10, 0, 1), 0), Thread(Idle, 0),
                     History([11, 12], [1, 1], [2], [11, 12], [11])))
    ensures Leads(Init(2, 3), after,
                  At(Memory(2, [10, 12], 1, 1, 1, 1), Thread(Idle, 2), Thread(Idle, 0),
                     History([11, 12, 10], [1, 1, 0], [2], [11, 12, 10], [11])))
  {
    before := HeadGoesRound();
    var s := At(Memory(2, [11, 12], 0, 0, 1, 1), Thread(PushCas(10, 0, 1), 0), Thread(Idle, 0),
                History([11, 12], [1, 1], [2], [11, 12], [11]));
    var s' := At(Memory(2, [10, 12], 1, 1, 1, 1), Thread(Idle, 2), Thread(Idle, 0),
                 History([11, 12, 10], [1, 1, 0], [2], [11, 12, 10], [11]));
    var more := PushFromCas(s, 0);
    assert Leads(s, more, s');
    LeadsFurther(Init(2, 3), before, s, more, s');
    after := before + more;
  }

  // Without lap-freedom a record too many gets in: thread 0's exchange succeeds although there
  // is no room; three calls to Push have returned true and one pointer came back, but the channel
  // looks empty and a further Pop refuses.
  lemma {:induction false} LappedClaimOverfills() returns (before: seq<Action>, after: seq<Action>)
    ensures
      var s := Exec(Init(2, 3), before);
      Claims(s, Go(0, false)) && !LapFree(s, Go(0, false)) && !HasRoom(s, Go(0, false))
    ensures
      var s := Exec(Init(2, 3), after);
      && before <= after
      && (forall t :: 0 <= t < 3 ==> s.threads[t].pc.Idle?)
      && s.hist.accepted == [11, 12, 10] && s.hist.returned == [11]
      && s.mem.consHead == s.mem.prodTail
  {
    before, after := OverfullRun();
  }

  // One more Push then takes the slot of a record that nobody has read: 12 never comes back, and
  // 13 comes back in its place.
  lemma {:induction false} OverwriteBreaksOrder() returns (run: seq<Action>)
    ensures
      var s := Exec(Init(2, 3), run);
      && (forall t :: 0 <= t < 3 ==> s.threads[t].pc.Idle?)
      && s.hist.accepted == [11, 12, 10, 13] && s.hist.returned == [11, 13]
  {
    var before;
    before, run := OverfullRun();
    var s1 := At(Memory(2, [10, 12], 1, 1, 1, 1), Thread(Idle, 2), Thread(Idle, 0),
                 History([11, 12, 10], [1, 1, 0], [2], [11, 12, 10], [11]));
    var s2 := State(Memory(2, [10, 13], 0, 0, 1, 1), [Thread(Idle, 2), Thread(Idle, 3), Thread(Idle, 0)],
                    History([11, 12, 10, 13], [1, 1, 0, 1], [2], [11, 12, 10, 13], [11]));
    var s3 := State(Memory(2, [10, 13], 0, 0, 0, 0), [Thread(Idle, 2), Thread(Idle, 3), Thread(Idle, 1)],
                    History([11, 12, 10, 13], [1, 1, 0, 1], [2, 2], [11, 12, 10, 13], [11, 13]));
    var more := SoloPush(s1, 1, 13);
    assert Leads(s1, more, s2);
    LeadsFurther(Init(2, 3), run, s1, more, s2);
    run := run + more;
    more := SoloPop(s2, 2);
    assert Leads(s2, more, s3);
    LeadsFurther(Init(2, 3), run, s2, more, s3);
    run := run + more;
  }

  // A run within the weaker condition, and within capacity c.
  predicate Accesses(s: State, run: seq<Action>, s': State, c: nat) {
    Leads(s, run, s') && AccessRun(s, run) && PublicationsFit(s, run, c)
  }

  lemma {:induction false} AccessesOn(s: State, run: seq<Action>, mid: State, a: Action, s': State, c: nat)
    requires Accesses(s, run, mid, c) && Next(mid, a) == s' && AccessOk(mid, a) && PublicationFits(mid, a, c)
    ensures Accesses(s, run + [a], s', c)
    decreases |run|
  {
    LeadsOn(s, run, mid, a, s');
    if run == [] {
      assert run + [a] == [a] && [a][1..] == [];
    } else {
      StaysInBounds(s, run[0]);
      assert (run + [a])[1..] == run[1..] + [a];
      AccessesOn(Next(s, run[0]), run[1..], mid, a, s', c);
    }
  }

  // Thread 0 has claimed a slot on a full channel; thread 2 gets as far as its exchange.
  lemma {:induction false} PopStartsBehindClaim(s: State, run: seq<Action>, m: Memory, th: Thread, h: History)
    returns (longer: seq<Action>)
    requires m == Memory(2, [11, 12], 1, 0, 1, 1) && |h.takers| == 1
    requires Accesses(s, run, At(m, th, Thread(Idle, 0), h), 1)
    ensures run <= longer && Accesses(s, longer, At(m, th, Thread(PopCas(1, 0), 1), h), 1)
  {
    var s1, s2 := At(m, th, Thread(PopStart, 0), h), At(m, th, Thread(PopCheck(1), 1), h);
    AccessesOn(s, run, At(m, th, Thread(Idle, 0), h), Pop(2), s1, 1);
    AccessesOn(s, run + [Pop(2)], s1, Go(2, false), s2, 1);
    longer := run + [Pop(2)] + [Go(2, false)];
    AccessesOn(s, longer, s2, Go(2, false), At(m, th, Thread(PopCas(1, 0), 1), h), 1);
    longer := longer + [Go(2, false)];
  }

  // And pops the oldest record.
  lemma {:induction false} PopEndsBehindClaim(s: State, run: seq<Action>, m: Memory, th: Thread, h: History)
    returns (longer: seq<Action>)
    requires m == Memory(2, [11, 12], 1, 0, 1, 1) && h.takers == [2] && h.returned == [11] && |h.accepted| == 2
    requires Accesses(s, run, At(m, th, Thread(PopCas(1, 0), 1), h), 1)
    ensures run <= longer
    ensures Accesses(s, longer, At(m.(consHead := 0, consTail := 0), th, Thread(Idle, 1),
                                   h.(takers := [2, 2], returned := [11, 12])), 1)
  {
    var m1, h1, go := m.(consHead := 0), h.(takers := [2, 2]), [Go(2, false)];
    var s1, s2 := At(m1, th, Thread(PopRead(1, 0), 1), h1), At(m1, th, Thread(PopWait(1, 0, 12), 1), h1);
    var s3 := At(m1, th, Thread(PopRelease(1, 0, 12), 1), h1);
    AccessesOn(s, run, At(m, th, Thread(PopCas(1, 0), 1), h), go[0], s1, 1);
    AccessesOn(s, run + go, s1, go[0], s2, 1);
    AccessesOn(s, run + go + go, s2, go[0], s3, 1);
    longer := run + go + go + go;
    AccessesOn(s, longer, s3, go[0], At(m1.(consTail := 0), th, Thread(Idle, 1), h1.(returned := [11, 12])), 1);
    longer := longer + go;
  }

  // Thread 0 writes its record, which fits by now, and publishes it.
  lemma {:induction false} WriteAndPublish(s: State, run: seq<Action>, m: Memory, h: History)
    returns (longer: seq<Action>)
    requires m == Memory(2, [11, 12], 1, 0, 0, 0)
    requires h == History([11, 12, 10], [1, 1, 0], [2, 2], [11, 12], [11, 12])
    requires Accesses(s, run, At(m, Thread(PushWrite(10, 0, 1), 2), Thread(Idle, 1), h), 1)
    ensures run <= longer
    ensures Accesses(s, longer, At(Memory(2, [10, 12], 1, 1, 0, 0), Thread(Idle, 2), Thread(Idle, 1),
                                   h.(accepted := [11, 12, 10])), 1)
  {
    var m1, idle, go := m.(records := [10, 12]), Thread(Idle, 1), [Go(0, false)];
    var s1 := At(m1, Thread(PushWait(10, 0, 1), 2), idle, h);
    var s2 := At(m1, Thread(PushPublish(10, 0, 1), 2), idle, h);
    AccessesOn(s, run, At(m, Thread(PushWrite(10, 0, 1), 2), idle, h), go[0], s1, 1);
    AccessesOn(s, run + go, s1, go[0], s2, 1);
    AccessesOn(s, run + go + go, s2, go[0],
               At(m1.(prodTail := 1), Thread(Idle, 2), idle, h.(accepted := [11, 12, 10])), 1);
    longer := run + go + go + go;
  }

  lemma {:induction false} FullIsInv(s: State)
    requires s == At(Memory(2, [11, 12], 0, 0, 1, 1), Thread(PushCas(10, 0, 1), 0), Thread(Idle, 0),
                     History([11, 12], [1, 1], [2], [11, 12], [11]))
    ensures Inv(s)
  {
    assert Slot(1, 2) == 1 && Slot(2, 2) == 0;
  }

  lemma {:induction false} FromFullChannel(s: State) returns (run: seq<Action>)
    requires s == At(Memory(2, [11, 12], 0, 0, 1, 1), Thread(PushCas(10, 0, 1), 0), Thread(Idle, 0),
                     History([11, 12], [1, 1], [2], [11, 12], [11]))
    ensures run != [] && !HasRoom(s, run[0])
    ensures Accesses(s, run, At(Memory(2, [10, 12], 1, 1, 0, 0), Thread(Idle, 2), Thread(Idle, 1),
                                History([11, 12, 10], [1, 1, 0], [2, 2], [11, 12, 10], [11, 12])), 1)
  {
    var m, th := Memory(2, [11, 12], 1, 0, 1, 1), Thread(PushWrite(10, 0, 1), 2);
    var h := History([11, 12, 10], [1, 1, 0], [2], [11, 12], [11]);
    AccessesOn(s, [], s, Go(0, false), At(m, th, Thread(Idle, 0), h), 1);
    run := [] + [Go(0, false)];
    run := PopStartsBehindClaim(s, run, m, th, h);
    run := PopEndsBehindClaim(s, run, m, th, h);
    run := WriteAndPublish(s, run, m.(consHead := 0, consTail := 0), h.(takers := [2, 2], returned := [11, 12]));
  }

  // The weaker condition is weaker: thread 0's exchange succeeds on a full channel, but thread 2
  // releases the oldest record before the slot is written. The run is not roomy, and all is well.
  lemma {:induction false} ClaimAheadOfRoom() returns (before: seq<Action>, run: seq<Action>)
    ensures
      var s := Exec(Init(2, 3), before);
      && Inv(s) && !RoomyRun(s, run) && AccessRun(s, run) && PublicationsFit(s, run, 1)
      && (forall t :: 0 <= t < 3 ==> Exec(s, run).threads[t].pc.Idle?)
      && Exec(s, run).hist.accepted == [11, 12, 10] && Exec(s, run).hist.returned == [11, 12]
  {
    before := HeadGoesRound();
    var h := History([11, 12], [1, 1], [2], [11, 12], [11]);
    var s := At(Memory(2, [11, 12], 0, 0, 1, 1), Thread(PushCas(10, 0, 1), 0), Thread(Idle, 0), h);
    FullIsInv(s);
    run := FromFullChannel(s);
  }

  // Push answers false although the channel is empty: thread 0 loaded the head, then a record
  // passed through.
  lemma {:induction false} StalePushRefusesEmptyChannel() returns (run: seq<Action>)
    ensures
      var s := Exec(Init(2, 3), run);
      && s.threads[0].pc == PushCheck(10, 0) && Refuses(s, 0)
      && ProdHead(s) == ConsTail(s) && !Full(s)
  {
    var s0 := Init(2, 3);
    var s1 := State(Memory(2, [0, 0], 0, 0, 0, 0),
                    [Thread(PushStart(10), 0), Thread(Idle, 0), Thread(Idle, 0)], s0.hist);
    LeadsOn(s0, [], s0, Push(0, 10), s1);
    var s2 := State(Memory(2, [0, 0], 0, 0, 0, 0),
                    [Thread(PushCheck(10, 0), 0), Thread(Idle, 0), Thread(Idle, 0)], s0.hist);
    LeadsOn(s0, [] + [Push(0, 10)], s1, Go(0, false), s2);
    run := [] + [Push(0, 10)] + [Go(0, false)];
    var more := OneRecordPasses(Thread(PushCheck(10, 0), 0));
    var s3 := Exec(s2, more);
    LeadsFurther(s0, run, s2, more, s3);
    run := run + more;
  }
}
