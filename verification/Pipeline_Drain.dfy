/** What becomes of records that are pushed to a thread that has been stopped.

    A stopped parser empties its channel twice, the second time as if it held events: the second
    loop pops from the stream channel, not from the report channel. A record that a source pushes
    between the two loops is freed as an event. One that is pushed to a parser or sink that has
    ended stays in its channel. */
module PipelineDrain {
  import opened Basics
  import opened PipelineMachine
  import opened PipelineRecords
  import opened PipelineSafety

  // Nobody releases what arrives here any more: the parser is in its second loop or, if ended
  // threads are counted, the thread has ended.
  predicate ParserClosed(x: Parser, ended: bool) { x.at.ParserDrainingEvents? || (ended && x.at.ParserDone?) }

  predicate SinkClosed(x: Sink, ended: bool) { ended && x.at.SinkDone? }

  function EffectOf(s: State, a: Action): Effect
    requires Shape(s)
  {
    if s.crashed then Quiet
    else match a
      case SourceStep(i, ok) => if i < THREAD_MAX then SourceLocal(s, s.sources[i], ok).1 else Quiet
      case ParserStep(i, ok) => if i < THREAD_MAX then ParserLocal(s, s.parsers[i], ok).1 else Quiet
      case SinkStep(i, ok) => if i < THREAD_MAX then SinkLocal(s, s.sinks[i], ok).1 else Quiet
      case _ => Quiet
  }

  // A thread that saw the target running pushes to it when it is closed.
  predicate LatePush(s: State, a: Action, ended: bool)
    requires Shape(s)
  {
    var e := EffectOf(s, a);
    || (e.ToParser? && e.j < THREAD_MAX && ParserClosed(s.parsers[e.j], ended))
    || (e.ToSink? && e.j < THREAD_MAX && SinkClosed(s.sinks[e.j], ended))
  }

  predicate NoLatePush(s: State, run: seq<Action>, ended: bool)
    requires Shape(s)
    decreases |run|
  {
    if run == [] then true
    else
      StaysInShape(s, run[0]);
      !LatePush(s, run[0], ended) && NoLatePush(Next(s, run[0]), run[1..], ended)
  }

  // Nothing was freed as an event, and nothing is in a closed channel.
  predicate Drained(s: State, ended: bool) {
    && s.asEvents == []
    && (forall i :: 0 <= i < |s.parsers| && ParserClosed(s.parsers[i], ended) ==> Queued(s.parsers[i].stream) == [])
    && (forall i :: 0 <= i < |s.sinks| && SinkClosed(s.sinks[i], ended) ==> Queued(s.sinks[i].stream) == [])
  }

  // ---- one step, seen from one channel ----

  function Arrives(e: Effect, p: Place): seq<Record> {
    if (e.ToParser? && p == ParserStream(e.j)) || (e.ToSink? && p == SinkStream(e.j)) then [e.rec] else []
  }

  lemma {:induction false} PerformBeside(s: State, i: nat, here: Place, e: Effect, j: nat)
    requires TargetExists(s, e) && j < |s.parsers| && j < |s.sinks|
    ensures
      var s' := Perform(s, i, here, e);
      && |s'.parsers| == |s.parsers| && |s'.sinks| == |s.sinks|
      && s'.parsers[j].at == s.parsers[j].at && s'.sinks[j].at == s.sinks[j].at
      && Queued(s'.parsers[j].stream) == Queued(s.parsers[j].stream) + Arrives(e, ParserStream(j))
      && Queued(s'.sinks[j].stream) == Queued(s.sinks[j].stream) + Arrives(e, SinkStream(j))
      && s'.asEvents == if e.FreesAsEvent? then s.asEvents + [e.rec] else s.asEvents
  {}

  // The step of another thread closes and opens nothing, and takes nothing out.
  lemma {:induction false} ParserBeside(s: State, a: Action, j: nat, ended: bool)
    requires Shape(s) && !s.crashed && j < THREAD_MAX && !(a.ParserStep? && a.i == j)
    ensures Shape(Next(s, a))
    ensures
      var x, x' := s.parsers[j], Next(s, a).parsers[j];
      && (ParserClosed(x', ended) <==> ParserClosed(x, ended))
      && Queued(x'.stream) == Queued(x.stream) + Arrives(EffectOf(s, a), ParserStream(j))
  {
    StaysInShape(s, a);
    match a
    case SourceStep(i, ok) =>
      if i < THREAD_MAX {
        SourceLocally(s, s.sources[i], ok);
        PerformBeside(PutSource(s, i, SourceLocal(s, s.sources[i], ok).0), i, SourceHands(i), EffectOf(s, a), j);
      }
    case ParserStep(i, ok) =>
      if i < THREAD_MAX {
        ParserLocally(s, s.parsers[i], ok);
        PerformBeside(PutParser(s, i, ParserLocal(s, s.parsers[i], ok).0), i, ParserHands(i), EffectOf(s, a), j);
      }
    case SinkStep(i, ok) =>
      if i < THREAD_MAX {
        SinkLocally(s, s.sinks[i], ok);
        PerformBeside(PutSink(s, i, SinkLocal(s, s.sinks[i], ok).0), i, SinkHands(i), EffectOf(s, a), j);
      }
    case _ => {}
  }

  lemma {:induction false} SinkBeside(s: State, a: Action, j: nat, ended: bool)
    requires Shape(s) && !s.crashed && j < THREAD_MAX && !(a.SinkStep? && a.i == j)
    ensures Shape(Next(s, a))
    ensures
      var x, x' := s.sinks[j], Next(s, a).sinks[j];
      && (SinkClosed(x', ended) <==> SinkClosed(x, ended))
      && Queued(x'.stream) == Queued(x.stream) + Arrives(EffectOf(s, a), SinkStream(j))
  {
    StaysInShape(s, a);
    match a
    case SourceStep(i, ok) =>
      if i < THREAD_MAX {
        SourceLocally(s, s.sources[i], ok);
        PerformBeside(PutSource(s, i, SourceLocal(s, s.sources[i], ok).0), i, SourceHands(i), EffectOf(s, a), j);
      }
    case ParserStep(i, ok) =>
      if i < THREAD_MAX {
        ParserLocally(s, s.parsers[i], ok);
        PerformBeside(PutParser(s, i, ParserLocal(s, s.parsers[i], ok).0), i, ParserHands(i), EffectOf(s, a), j);
      }
    case SinkStep(i, ok) =>
      if i < THREAD_MAX {
        SinkLocally(s, s.sinks[i], ok);
        PerformBeside(PutSink(s, i, SinkLocal(s, s.sinks[i], ok).0), i, SinkHands(i), EffectOf(s, a), j);
      }
    case _ => {}
  }

  lemma {:induction false} ParserOwnLocal(s: State, x: Parser, ok: bool, ended: bool)
    requires Sizes(s) && ParserShape(s, x) && ParserOk(s, x)
    ensures
      var (x', e) := ParserLocal(s, x, ok);
      && (!ParserClosed(x, ended) && ParserClosed(x', ended) ==> Queued(x'.stream) == [])
      && (ParserClosed(x, ended) && Queued(x.stream) == [] ==> Queued(x'.stream) == [] && !e.FreesAsEvent?)
      && (ParserClosed(x, ended) && Queued(x.stream) != [] ==> e.FreesAsEvent? || x' == x)
      && (e.FreesAsEvent? ==> x.at.ParserDrainingEvents? && Queued(x.stream) == [e.rec] + Queued(x'.stream))
      && (x.at.ParserDrainingEvents? && Queued(x.stream) != [] ==> e.FreesAsEvent? && x'.at == x.at)
  {}

  // A parser's own step: it closes its channel only when it is empty, and takes from a closed
  // channel only as events.
  lemma {:induction false} ParserOwn(s: State, j: nat, ok: bool, ended: bool)
    requires Shape(s) && ThreadsOk(s) && !s.crashed && j < THREAD_MAX
    ensures Shape(Next(s, ParserStep(j, ok)))
    ensures
      var x, s' := s.parsers[j], Next(s, ParserStep(j, ok));
      var x' := s'.parsers[j];
      && (!ParserClosed(x, ended) && ParserClosed(x', ended) ==> Queued(x'.stream) == [])
      && (ParserClosed(x, ended) && Queued(x.stream) == [] ==> Queued(x'.stream) == [])
      && (ParserClosed(x, ended) && Queued(x.stream) != [] ==>
           s'.asEvents != [] || (ParserClosed(x', ended) && Queued(x'.stream) != []))
      && (s'.asEvents == s.asEvents || (x.at.ParserDrainingEvents? && Queued(x.stream) != []))
  {
    StaysInShape(s, ParserStep(j, ok));
    assert ParserOk(s, s.parsers[j]);
    ParserOwnLocal(s, s.parsers[j], ok, ended);
    ParserLocally(s, s.parsers[j], ok);
    var (x', e) := ParserLocal(s, s.parsers[j], ok);
    PerformBeside(PutParser(s, j, x'), j, ParserHands(j), e, j);
  }

  lemma {:induction false} SinkOwn(s: State, j: nat, ok: bool, ended: bool)
    requires Shape(s) && !s.crashed && j < THREAD_MAX
    ensures
      var x, x' := s.sinks[j], Next(s, SinkStep(j, ok)).sinks[j];
      && (!SinkClosed(x, ended) && SinkClosed(x', ended) ==> Queued(x'.stream) == [])
      && (SinkClosed(x, ended) ==> x' == x)
  {
    SinkLocally(s, s.sinks[j], ok);
    var (x', e) := SinkLocal(s, s.sinks[j], ok);
    PerformBeside(PutSink(s, j, x'), j, SinkHands(j), e, j);
  }

  // What was freed as an event stays so, and only a parser in its second loop adds to it.
  lemma {:induction false} EventsGrow(s: State, a: Action)
    requires Shape(s)
    ensures s.asEvents <= Next(s, a).asEvents
    ensures !a.ParserStep? ==> Next(s, a).asEvents == s.asEvents
  {
    if a.SourceStep? && a.i < THREAD_MAX { SourceLocally(s, s.sources[a.i], a.ok); }
    if a.SinkStep? && a.i < THREAD_MAX { SinkLocally(s, s.sinks[a.i], a.ok); }
  }

  // ---- one step, seen from all channels ----

  lemma {:induction false} StepKeepsDrained(s: State, a: Action, ended: bool)
    requires Inv(s) && Drained(s, ended) && !LatePush(s, a, ended)
    ensures Drained(Next(s, a), ended)
  {
    var s' := Next(s, a);
    StaysInShape(s, a);
    EventsGrow(s, a);
    if a.ParserStep? && a.i < THREAD_MAX { ParserOwn(s, a.i, a.ok, ended); }
    forall i | 0 <= i < |s'.parsers| && ParserClosed(s'.parsers[i], ended) ensures Queued(s'.parsers[i].stream) == [] {
      if !(a.ParserStep? && a.i == i) { ParserBeside(s, a, i, ended); }
    }
    forall i | 0 <= i < |s'.sinks| && SinkClosed(s'.sinks[i], ended) ensures Queued(s'.sinks[i].stream) == [] {
      if a.SinkStep? && a.i == i { SinkOwn(s, i, a.ok, ended); } else { SinkBeside(s, a, i, ended); }
    }
  }

  lemma {:induction false} LatePushStrands(s: State, a: Action, ended: bool)
    requires Inv(s) && LatePush(s, a, ended)
    ensures !Drained(Next(s, a), ended)
  {
    StaysInShape(s, a);
    var e := EffectOf(s, a);
    if e.ToParser? {
      if a.ParserStep? { ParserLocally(s, s.parsers[a.i], a.ok); }
      ParserBeside(s, a, e.j, ended);
    } else {
      if a.SinkStep? { SinkLocally(s, s.sinks[a.i], a.ok); }
      SinkBeside(s, a, e.j, ended);
    }
  }

  lemma {:induction false} StrandedStays(s: State, a: Action, ended: bool)
    requires Inv(s) && !Drained(s, ended)
    ensures !Drained(Next(s, a), ended)
  {
    StaysInShape(s, a);
    EventsGrow(s, a);
    if s.asEvents == [] {
      if i :| 0 <= i < |s.parsers| && ParserClosed(s.parsers[i], ended) && Queued(s.parsers[i].stream) != [] {
        if a.ParserStep? && a.i == i { ParserOwn(s, i, a.ok, ended); } else { ParserBeside(s, a, i, ended); }
      } else {
        var i :| 0 <= i < |s.sinks| && SinkClosed(s.sinks[i], ended) && Queued(s.sinks[i].stream) != [];
        if a.SinkStep? && a.i == i { SinkOwn(s, i, a.ok, ended); } else { SinkBeside(s, a, i, ended); }
      }
    }
  }

  lemma {:induction false} SecondLoopStep(s: State, j: nat)
    requires Shape(s) && ThreadsOk(s) && !s.crashed && j < THREAD_MAX
    requires s.parsers[j].at.ParserDrainingEvents? && Queued(s.parsers[j].stream) != []
    ensures
      var s', q := Next(s, ParserStep(j, true)), Queued(s.parsers[j].stream);
      && s'.parsers[j].at.ParserDrainingEvents? && Queued(s'.parsers[j].stream) == q[1..]
      && s'.asEvents == s.asEvents + [q[0]] && s'.released == s.released
  {
    assert ParserOk(s, s.parsers[j]);
  }

  // The second loop takes everything it finds, as events.
  lemma {:induction false} SecondLoopTakesAll(s: State, j: nat) returns (run: seq<Action>)
    requires Inv(s) && j < THREAD_MAX && s.parsers[j].at.ParserDrainingEvents?
    ensures forall i :: 0 <= i < |run| ==> run[i] == ParserStep(j, true)
    ensures Exec(s, run).asEvents == s.asEvents + Queued(s.parsers[j].stream)
    ensures Exec(s, run).released == s.released
    decreases |Queued(s.parsers[j].stream)|
  {
    run := [];
    var q := Queued(s.parsers[j].stream);
    if q != [] {
      SecondLoopStep(s, j);
      StepKeepsInv(s, ParserStep(j, true));
      var rest := SecondLoopTakesAll(Next(s, ParserStep(j, true)), j);
      run := [ParserStep(j, true)] + rest;
      ExecCons(s, ParserStep(j, true), rest);
      HeadThenTail(s.asEvents, q);
    }
  }

  lemma {:induction false} ExecCons(s: State, a: Action, run: seq<Action>)
    requires Shape(s)
    ensures Shape(Next(s, a)) && Exec(s, [a] + run) == Exec(Next(s, a), run)
  {
    StaysInShape(s, a);
    assert ([a] + run)[1..] == run;
  }

  lemma {:induction false} HeadThenTail<T>(a: seq<T>, q: seq<T>)
    requires q != []
    ensures a + [q[0]] + q[1..] == a + q
  {}

  // ---- whole runs ----

  lemma {:induction false} StrandedForever(s: State, run: seq<Action>, ended: bool)
    requires Inv(s) && !Drained(s, ended)
    ensures !Drained(Exec(s, run), ended)
    decreases |run|
  {
    if run != [] {
      StepKeepsInv(s, run[0]);
      StrandedStays(s, run[0], ended);
      StrandedForever(Next(s, run[0]), run[1..], ended);
    }
  }

  // The exact condition, for every run: nothing is freed as an event or left in a closed channel
  // if and only if nothing is pushed to one.
  lemma {:induction false} DrainedIff(s: State, run: seq<Action>, ended: bool)
    requires Inv(s) && Drained(s, ended)
    ensures Drained(Exec(s, run), ended) <==> NoLatePush(s, run, ended)
    decreases |run|
  {
    if run != [] {
      StepKeepsInv(s, run[0]);
      if LatePush(s, run[0], ended) {
        LatePushStrands(s, run[0], ended);
        StrandedForever(Next(s, run[0]), run[1..], ended);
      } else {
        StepKeepsDrained(s, run[0], ended);
        DrainedIff(Next(s, run[0]), run[1..], ended);
      }
    }
  }

  predicate NoneInSecondLoop(s: State) {
    forall i :: 0 <= i < |s.parsers| ==> !s.parsers[i].at.ParserDrainingEvents?
  }

  // In every run after which no parser is in its second loop, some record was freed as an event
  // if and only if one was pushed to a parser in its second loop.
  lemma {:induction false} MistakenIff(c: Config, run: seq<Action>)
    requires NoneInSecondLoop(Exec(InitRuntimeEnviron(c), run))
    ensures Exec(InitRuntimeEnviron(c), run).asEvents != [] <==> !NoLatePush(InitRuntimeEnviron(c), run, false)
  {
    InitInv(c);
    DrainedIff(InitRuntimeEnviron(c), run, false);
  }

  predicate AllEnded(s: State) {
    && (forall i :: 0 <= i < |s.sources| ==> s.sources[i].at.SourceDone? || s.sources[i].at.SourceAbsent?)
    && (forall i :: 0 <= i < |s.parsers| ==> s.parsers[i].at.ParserDone? || s.parsers[i].at.ParserAbsent?)
    && (forall i :: 0 <= i < |s.sinks| ==> s.sinks[i].at.SinkDone? || s.sinks[i].at.SinkAbsent?)
  }

  // With all threads ended, records are released, freed as events, or left in channels.
  lemma {:induction false} EndedPlaces(s: State, p: Place)
    requires Inv(s) && AllEnded(s) && Drained(s, true) && p != Released
    ensures Contents(s, p) == []
  {
    match p
    case ParserStream(i) => if i < |s.parsers| { assert ParserOk(s, s.parsers[i]); }
    case SinkStream(i) => if i < |s.sinks| { assert SinkOk(s, s.sinks[i]); }
    case _ => {}
  }

  lemma {:induction false} NotReleased(s: State, p: Place)
    requires Inv(s) && p != Released && Contents(s, p) != []
    ensures exists r :: 0 <= r < |s.place| && r !in s.released
  {
    var r := Contents(s, p)[0];
    assert TrackedAt(s, p) && TrackedAt(s, Released);
    assert r in Contents(s, p);
    assert s.released == Contents(s, Released);
  }

  // Every record that was read has been released.
  predicate AllReleased(s: State) { forall r :: 0 <= r < |s.place| ==> r in s.released }

  lemma {:induction false} AllReleasedIffDrained(s: State)
    requires Inv(s) && AllEnded(s)
    ensures AllReleased(s) <==> Drained(s, true)
  {
    if Drained(s, true) {
      forall r | 0 <= r < |s.place| ensures r in s.released {
        assert r in Contents(s, s.place[r]);
        if s.place[r] != Released { EndedPlaces(s, s.place[r]); }
      }
    } else if s.asEvents != [] {
      NotReleased(s, FreedAsEvent);
    } else if i :| 0 <= i < |s.parsers| && ParserClosed(s.parsers[i], true) && Queued(s.parsers[i].stream) != [] {
      NotReleased(s, ParserStream(i));
    } else {
      var i :| 0 <= i < |s.sinks| && SinkClosed(s.sinks[i], true) && Queued(s.sinks[i].stream) != [];
      NotReleased(s, SinkStream(i));
    }
  }

  // In every run after which all threads have ended, every record read has been released if and
  // only if none was pushed to a parser after its first loop or to a sink after its loop.
  lemma {:induction false} AllReleasedIff(c: Config, run: seq<Action>)
    requires AllEnded(Exec(InitRuntimeEnviron(c), run))
    ensures AllReleased(Exec(InitRuntimeEnviron(c), run)) <==> NoLatePush(InitRuntimeEnviron(c), run, true)
  {
    InitInv(c);
    RunKeepsInv(InitRuntimeEnviron(c), run);
    DrainedIff(InitRuntimeEnviron(c), run, true);
    AllReleasedIffDrained(Exec(InitRuntimeEnviron(c), run));
  }
}
