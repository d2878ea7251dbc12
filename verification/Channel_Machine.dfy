/** The lock-free multi-producer, multi-consumer ring as a step machine.

    One step is one atomic load, compare-and-exchange, store or record access of one
    thread; steps of different threads interleave in any order (sequential consistency).
    `compare_exchange_weak` may fail although the values match. */
module ChannelMachine {
  // A record pointer; 0 plays the null pointer.
  type Ptr = nat
  type Tid = nat

  // The fields of the object.
  datatype Memory = Memory(
    size: nat,
    records: seq<Ptr>,
    prodHead: nat,
    prodTail: nat,
    consHead: nat,
    consTail: nat)

  // Where a thread stands, with the locals that are live there.
  datatype Pc =
    | Idle
    | PushStart(ptr: Ptr)                             // about to load prod_head_
    | PushCheck(ptr: Ptr, head: nat)                  // about to load cons_tail_
    | PushCas(ptr: Ptr, head: nat, next: nat)         // about to exchange prod_head_
    | PushWrite(ptr: Ptr, head: nat, next: nat)       // about to write the record
    | PushWait(ptr: Ptr, head: nat, next: nat)        // about to load prod_tail_
    | PushPublish(ptr: Ptr, head: nat, next: nat)     // about to store prod_tail_
    | PopStart                                        // about to load cons_head_
    | PopCheck(head: nat)                             // about to load prod_tail_
    | PopCas(head: nat, next: nat)                    // about to exchange cons_head_
    | PopRead(head: nat, next: nat)                   // about to read the record
    | PopWait(head: nat, next: nat, value: Ptr)       // about to load cons_tail_
    | PopRelease(head: nat, next: nat, value: Ptr)    // about to store cons_tail_

  // `mark` is a history variable: the unwrapped ticket behind the local `head`.
  datatype Thread = Thread(pc: Pc, mark: nat)

  // What happened so far. No step looks at it (see HistoryOnlyObserves).
  datatype History = History(
    claimed: seq<Ptr>,      // pointers by ticket, in the order prod_head_ was advanced
    claimants: seq<Tid>,    // the producer of each ticket
    takers: seq<Tid>,       // the consumer of each ticket, in the order cons_head_ was advanced
    accepted: seq<Ptr>,     // arguments of the Push calls that returned true
    returned: seq<Ptr>)     // results of the Pop calls that returned true

  datatype State = State(mem: Memory, threads: seq<Thread>, hist: History)

  datatype Action =
    | Push(t: Tid, ptr: Ptr)            // an idle thread calls Push
    | Pop(t: Tid)                       // an idle thread calls Pop
    | Go(t: Tid, spurious: bool)        // a thread inside a call takes its next step

  // The four indices without wrap-around.
  function ProdHead(s: State): nat { |s.hist.claimed| }
  function ProdTail(s: State): nat { |s.hist.accepted| }
  function ConsHead(s: State): nat { |s.hist.takers| }
  function ConsTail(s: State): nat { |s.hist.returned| }

  function Inc(i: nat, size: nat): nat { if i + 1 == size then 0 else i + 1 }

  function Init(size: nat, threads: nat): State
    requires size > 0
  {
    State(Memory(size, seq(size, i => 0), 0, 0, 0, 0),
          seq(threads, i => Thread(Idle, 0)),
          History([], [], [], [], []))
  }

  // Every index a thread holds is inside the record array.
  predicate PcInBounds(pc: Pc, size: nat) {
    match pc
    case Idle | PushStart(_) | PopStart => true
    case PushCheck(_, head) => head < size
    case PopCheck(head) => head < size
    case PushCas(_, head, next) => head < size && next == Inc(head, size)
    case PushWrite(_, head, next) => head < size && next == Inc(head, size)
    case PushWait(_, head, next) => head < size && next == Inc(head, size)
    case PushPublish(_, head, next) => head < size && next == Inc(head, size)
    case PopCas(head, next) => head < size && next == Inc(head, size)
    case PopRead(head, next) => head < size && next == Inc(head, size)
    case PopWait(head, next, _) => head < size && next == Inc(head, size)
    case PopRelease(head, next, _) => head < size && next == Inc(head, size)
  }

  predicate InBounds(s: State) {
    && 0 < s.mem.size == |s.mem.records|
    && s.mem.prodHead < s.mem.size && s.mem.prodTail < s.mem.size
    && s.mem.consHead < s.mem.size && s.mem.consTail < s.mem.size
    && forall t :: 0 <= t < |s.threads| ==> PcInBounds(s.threads[t].pc, s.mem.size)
  }

  function Put(s: State, t: Tid, pc: Pc, mark: nat): State
    requires t < |s.threads|
  {
    s.(threads := s.threads[t := Thread(pc, mark)])
  }

  // The steps that write the object.

  function Claim(s: State, t: Tid, ptr: Ptr, head: nat, next: nat): State
    requires t < |s.threads|
  {
    State(s.mem.(prodHead := next),
          s.threads[t := Thread(PushWrite(ptr, head, next), ProdHead(s))],
          s.hist.(claimed := s.hist.claimed + [ptr], claimants := s.hist.claimants + [t]))
  }

  function Write(s: State, t: Tid, ptr: Ptr, head: nat, next: nat): State
    requires t < |s.threads| && head < |s.mem.records|
  {
    State(s.mem.(records := s.mem.records[head := ptr]),
          s.threads[t := Thread(PushWait(ptr, head, next), s.threads[t].mark)],
          s.hist)
  }

  function Publish(s: State, t: Tid, ptr: Ptr, next: nat): State
    requires t < |s.threads|
  {
    State(s.mem.(prodTail := next),
          s.threads[t := Thread(Idle, s.threads[t].mark)],
          s.hist.(accepted := s.hist.accepted + [ptr]))
  }

  function Take(s: State, t: Tid, head: nat, next: nat): State
    requires t < |s.threads|
  {
    State(s.mem.(consHead := next),
          s.threads[t := Thread(PopRead(head, next), ConsHead(s))],
          s.hist.(takers := s.hist.takers + [t]))
  }

  function Release(s: State, t: Tid, next: nat, value: Ptr): State
    requires t < |s.threads|
  {
    State(s.mem.(consTail := next),
          s.threads[t := Thread(Idle, s.threads[t].mark)],
          s.hist.(returned := s.hist.returned + [value]))
  }

  // The next step of thread t.
  function Advance(s: State, t: Tid, spurious: bool): State
    requires InBounds(s) && t < |s.threads|
  {
    var m, mark := s.mem, s.threads[t].mark;
    match s.threads[t].pc
    case Idle => s
    case PushStart(ptr) =>
      Put(s, t, PushCheck(ptr, m.prodHead), ProdHead(s))
    case PushCheck(ptr, head) =>
      var next := Inc(head, m.size);
      Put(s, t, if next == m.consTail then Idle else PushCas(ptr, head, next), mark)
    case PushCas(ptr, head, next) =>
      if m.prodHead == head && !spurious then Claim(s, t, ptr, head, next)
      else Put(s, t, PushCheck(ptr, m.prodHead), ProdHead(s))
    case PushWrite(ptr, head, next) =>
      Write(s, t, ptr, head, next)
    case PushWait(ptr, head, next) =>
      if m.prodTail == head then Put(s, t, PushPublish(ptr, head, next), mark) else s
    case PushPublish(ptr, head, next) =>
      Publish(s, t, ptr, next)
    case PopStart =>
      Put(s, t, PopCheck(m.consHead), ConsHead(s))
    case PopCheck(head) =>
      Put(s, t, if head == m.prodTail then Idle else PopCas(head, Inc(head, m.size)), mark)
    case PopCas(head, next) =>
      if m.consHead == head && !spurious then Take(s, t, head, next)
      else Put(s, t, PopCheck(m.consHead), ConsHead(s))
    case PopRead(head, next) =>
      Put(s, t, PopWait(head, next, m.records[head]), mark)
    case PopWait(head, next, value) =>
      if m.consTail == head then Put(s, t, PopRelease(head, next, value), mark) else s
    case PopRelease(head, next, value) =>
      Release(s, t, next, value)
  }

  // An action of a thread that does not exist, or that is not enabled, changes nothing.
  function Next(s: State, a: Action): State
    requires InBounds(s)
  {
    if a.t >= |s.threads| then s
    else match a
      case Push(t, ptr) => if s.threads[t].pc.Idle? then Put(s, t, PushStart(ptr), 0) else s
      case Pop(t) => if s.threads[t].pc.Idle? then Put(s, t, PopStart, 0) else s
      case Go(t, spurious) => Advance(s, t, spurious)
  }

  predicate InPush(pc: Pc) {
    pc.PushStart? || pc.PushCheck? || pc.PushCas? || pc.PushWrite? || pc.PushWait? || pc.PushPublish?
  }

  predicate InPop(pc: Pc) {
    pc.PopStart? || pc.PopCheck? || pc.PopCas? || pc.PopRead? || pc.PopWait? || pc.PopRelease?
  }

  predicate OnlyMoved(s: State, s': State, t: Tid) {
    && s'.mem.size == s.mem.size && |s'.threads| == |s.threads|
    && forall u :: 0 <= u < |s.threads| && u != t ==> s'.threads[u] == s.threads[u]
  }

  lemma {:induction false} PushStaysInBounds(s: State, t: Tid, spurious: bool)
    requires InBounds(s) && t < |s.threads| && InPush(s.threads[t].pc)
    ensures InBounds(Advance(s, t, spurious)) && OnlyMoved(s, Advance(s, t, spurious), t)
  {}

  lemma {:induction false} PopStaysInBounds(s: State, t: Tid, spurious: bool)
    requires InBounds(s) && t < |s.threads| && InPop(s.threads[t].pc)
    ensures InBounds(Advance(s, t, spurious)) && OnlyMoved(s, Advance(s, t, spurious), t)
  {}

  // No interleaving leaves the array or breaks the asserted bounds on the indices.
  lemma {:induction false} StaysInBounds(s: State, a: Action)
    requires InBounds(s)
    ensures InBounds(Next(s, a))
    ensures Next(s, a).mem.size == s.mem.size && |Next(s, a).threads| == |s.threads|
    ensures forall t :: 0 <= t < |s.threads| && t != a.t ==> Next(s, a).threads[t] == s.threads[t]
  {
    if a.Go? && a.t < |s.threads| {
      if InPush(s.threads[a.t].pc) { PushStaysInBounds(s, a.t, a.spurious); }
      if InPop(s.threads[a.t].pc) { PopStaysInBounds(s, a.t, a.spurious); }
    }
  }

  // The state after a run.
  function Exec(s: State, run: seq<Action>): State
    requires InBounds(s)
    ensures InBounds(Exec(s, run))
    ensures Exec(s, run).mem.size == s.mem.size && |Exec(s, run).threads| == |s.threads|
    decreases |run|
  {
    if run == [] then s else StaysInBounds(s, run[0]); Exec(Next(s, run[0]), run[1..])
  }

  lemma {:induction false} ExecAppend(s: State, run: seq<Action>, more: seq<Action>)
    requires InBounds(s)
    ensures Exec(s, run + more) == Exec(Exec(s, run), more)
    decreases |run|
  {
    if run == [] {
      assert run + more == more;
    } else {
      StaysInBounds(s, run[0]);
      assert (run + more)[1..] == run[1..] + more;
      ExecAppend(Next(s, run[0]), run[1..], more);
    }
  }

  // Forgetting the history.
  function Erase(s: State): State {
    State(s.mem,
          seq(|s.threads|, i requires 0 <= i < |s.threads| => Thread(s.threads[i].pc, 0)),
          History([], [], [], [], []))
  }

  // Advance treats memory and program counters alike, whatever the history.
  lemma {:induction false} AdvanceErased(s: State, e: State, t: Tid, spurious: bool)
    requires InBounds(s) && InBounds(e) && e.mem == s.mem && |e.threads| == |s.threads| && t < |s.threads|
    requires e.threads[t].pc == s.threads[t].pc
    ensures Advance(e, t, spurious).mem == Advance(s, t, spurious).mem
    ensures |Advance(s, t, spurious).threads| == |Advance(e, t, spurious).threads| == |s.threads|
    ensures Advance(e, t, spurious).threads[t].pc == Advance(s, t, spurious).threads[t].pc
  {}

  // What the machine does never depends on the history variables.
  lemma {:induction false} HistoryOnlyObserves(s: State, a: Action)
    requires InBounds(s)
    ensures InBounds(Erase(s))
    ensures Erase(Next(s, a)) == Erase(Next(Erase(s), a))
  {
    var e := Erase(s);
    assert |e.threads| == |s.threads|;
    assert forall t :: 0 <= t < |s.threads| ==> e.threads[t].pc == s.threads[t].pc;
    StaysInBounds(s, a);
    StaysInBounds(e, a);
    if a.Go? && a.t < |s.threads| { AdvanceErased(s, e, a.t, a.spurious); }
    assert Next(e, a).mem == Next(s, a).mem;
    forall t | 0 <= t < |s.threads| ensures Next(e, a).threads[t].pc == Next(s, a).threads[t].pc {}
    assert Erase(Next(s, a)).threads == Erase(Next(e, a)).threads;
  }
}
